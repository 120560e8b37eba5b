/**
 * The single-turn chat handler of the chat service (`chat` and
 * `call_gemini_chat`): the translation shortcut, pseudo-segmentation of an
 * untimed transcript into five-second sentence windows, retrieval of the top
 * eight segments, the model call, and the "Referenced timestamps" trailer.
 *
 * Segment times are integer milliseconds. The model call is the parameter
 * `complete` (None: the call raised). The `:.1f` rendering of a time in the
 * prompt context is the parameter `fmt1`.
 */
module Chat {
  import opened Wrappers
  import opened Text
  import opened Transcripts
  import opened Retrieval
  import opened Replies
  import opened Usage
  import opened Translation

  // ---------------------------------------------------------------------------
  // Sentence splitting: re.split(r'(?<=[.!?])\s+', text)
  // ---------------------------------------------------------------------------

  predicate IsTerminator(c: char) {
    c == '.' || c == '!' || c == '?'
  }

  /** The pattern matches at i: a terminator just before i and whitespace at i. */
  predicate SentenceBreak(s: string, i: nat) {
    0 < i < |s| && IsTerminator(s[i - 1]) && IsSpace(s[i])
  }

  /** The first break at or after i, or |s| when there is none. */
  function FirstBreak(s: string, i: nat): (b: nat)
    requires 1 <= i
    ensures b <= |s| || b == i
    ensures b < |s| ==> i <= b && SentenceBreak(s, b)
    ensures forall j :: i <= j < b && j < |s| ==> !SentenceBreak(s, j)
    decreases |s| - i
  {
    if i >= |s| then |s|
    else if SentenceBreak(s, i) then i
    else FirstBreak(s, i + 1)
  }

  /** The length of the whitespace run that begins s (what `\s+` consumes). */
  function SpaceLen(s: string): (n: nat)
    ensures n <= |s|
    ensures forall i :: 0 <= i < n ==> IsSpace(s[i])
    ensures n < |s| ==> !IsSpace(s[n])
  {
    if s == [] || !IsSpace(s[0]) then 0 else 1 + SpaceLen(s[1..])
  }

  /** The pieces between the matches, as re.split returns them (a trailing match leaves ""). */
  function SplitSentences(s: string): (ps: seq<string>)
    ensures |ps| >= 1
    decreases |s|
  {
    var b := FirstBreak(s, 1);
    if b >= |s| then [s]
    else
      var n := SpaceLen(s[b..]);
      [s[..b]] + SplitSentences(s[b + n..])
  }

  /**
   * Every piece but the last ends with its sentence's terminator, no piece
   * contains a point where the pattern would cut, and every piece after the
   * first starts past the whole whitespace run.
   */
  predicate PiecesTerminated(ps: seq<string>) {
    forall k :: 0 <= k < |ps| - 1 ==> ps[k] != [] && IsTerminator(ps[k][|ps[k]| - 1])
  }

  predicate PiecesUnbroken(ps: seq<string>) {
    forall k, j :: 0 <= k < |ps| && 0 <= j < |ps[k]| ==> !SentenceBreak(ps[k], j)
  }

  predicate PiecesStartPastSpace(ps: seq<string>) {
    forall k :: 0 < k < |ps| && ps[k] != [] ==> !IsSpace(ps[k][0])
  }

  /**
   * Every piece but the last ends with its sentence's terminator, no piece
   * contains a point where the pattern would cut, and every piece after the
   * first starts past the whole whitespace run.
   */
  lemma SplitSentencesSpec(s: string)
    ensures PiecesTerminated(SplitSentences(s))
    ensures PiecesUnbroken(SplitSentences(s))
    ensures PiecesStartPastSpace(SplitSentences(s))
  {
    SplitTerminated(s);
    SplitUnbroken(s);
    SplitStartsPastSpace(s);
  }

  lemma {:induction false} SplitTerminated(s: string)
    ensures PiecesTerminated(SplitSentences(s))
    decreases |s|
  {
    var b := FirstBreak(s, 1);
    if b < |s| {
      var n := SpaceLen(s[b..]);
      var rest := s[b + n..];
      SplitTerminated(rest);
      var qs := SplitSentences(rest);
      var ps := SplitSentences(s);
      var p0 := s[..b];
      assert ps == [p0] + qs;
      forall k | 0 <= k < |ps| - 1 ensures ps[k] != [] && IsTerminator(ps[k][|ps[k]| - 1]) {
        if k == 0 {
          assert p0[b - 1] == s[b - 1];
        } else {
          assert ps[k] == qs[k - 1];
        }
      }
    }
  }

  lemma {:induction false} SplitUnbroken(s: string)
    ensures PiecesUnbroken(SplitSentences(s))
    decreases |s|
  {
    var b := FirstBreak(s, 1);
    var ps := SplitSentences(s);
    if b < |s| {
      var n := SpaceLen(s[b..]);
      var rest := s[b + n..];
      SplitUnbroken(rest);
      var qs := SplitSentences(rest);
      var p0 := s[..b];
      assert ps == [p0] + qs;
      forall k, j | 0 <= k < |ps| && 0 <= j < |ps[k]| ensures !SentenceBreak(ps[k], j) {
        if k == 0 {
          if 0 < j {
            assert !SentenceBreak(s, j);
            assert p0[j - 1] == s[j - 1] && p0[j] == s[j];
          }
        } else {
          assert ps[k] == qs[k - 1];
        }
      }
    } else {
      assert ps == [s];
    }
  }

  lemma {:induction false} SplitStartsPastSpace(s: string)
    ensures PiecesStartPastSpace(SplitSentences(s))
    decreases |s|
  {
    var b := FirstBreak(s, 1);
    if b < |s| {
      var n := SpaceLen(s[b..]);
      var rest := s[b + n..];
      SplitStartsPastSpace(rest);
      var qs := SplitSentences(rest);
      var ps := SplitSentences(s);
      assert ps == [s[..b]] + qs;
      assert qs[0] == rest || qs[0] == rest[..FirstBreak(rest, 1)];
      forall k | 0 < k < |ps| && ps[k] != [] ensures !IsSpace(ps[k][0]) {
        assert ps[k] == qs[k - 1];
        if k == 1 {
          assert qs[0][0] == rest[0];
          assert rest[0] == s[b..][n];
        }
      }
    }
  }

  /** A string the pattern never cuts is its own single piece. */
  lemma SplitNoBreak(s: string)
    requires forall j :: 0 <= j < |s| ==> !SentenceBreak(s, j)
    ensures SplitSentences(s) == [s]
  {
  }

  lemma {:induction false} FirstBreakIs(s: string, i: nat, b: nat)
    requires 1 <= i <= b < |s| && SentenceBreak(s, b)
    requires forall j :: i <= j < b ==> !SentenceBreak(s, j)
    ensures FirstBreak(s, i) == b
    decreases b - i
  {
    if i < b {
      FirstBreakIs(s, i + 1, b);
    }
  }

  lemma {:induction false} SpaceLenOfRun(w: string, q: string)
    requires IsBlank(w) && (q == [] || !IsSpace(q[0]))
    ensures SpaceLen(w + q) == |w|
    decreases |w|
  {
    if w != [] {
      assert (w + q)[1..] == w[1..] + q;
      assert IsBlank(w[1..]) by {
        forall i | 0 <= i < |w[1..]| ensures IsSpace(w[1..][i]) {
          assert w[1..][i] == w[i + 1];
        }
      }
      SpaceLenOfRun(w[1..], q);
    } else {
      assert w + q == q;
    }
  }

  /**
   * A first sentence ending in a terminator, the whole whitespace run after
   * it, and the rest: the split is the sentence followed by the split of the rest.
   */
  lemma {:induction false} SplitAtBreak(p: string, w: string, q: string)
    requires p != [] && IsTerminator(p[|p| - 1]) && forall j :: 0 <= j < |p| ==> !SentenceBreak(p, j)
    requires w != [] && IsBlank(w) && (q == [] || !IsSpace(q[0]))
    ensures SplitSentences(p + w + q) == [p] + SplitSentences(q)
  {
    var s := p + w + q;
    forall j | 1 <= j < |p| ensures !SentenceBreak(s, j) {
      assert s[j] == p[j] && s[j - 1] == p[j - 1];
      assert !SentenceBreak(p, j);
    }
    assert s[|p| - 1] == p[|p| - 1] && s[|p|] == w[0];
    FirstBreakIs(s, 1, |p|);
    assert s[|p|..] == w + q;
    SpaceLenOfRun(w, q);
    assert s[..|p|] == p;
    assert s[|p| + |w|..] == q;
    assert SplitSentences(s) == [s[..|p|]] + SplitSentences(s[|p| + |w|..]);
  }

  /** A piece the comprehension keeps. */
  predicate StripsNonBlank(p: string) {
    Strip(p) != []
  }

  /**
   * `[p.strip() for p in pieces if p.strip()]`: the stripped pieces at the
   * increasing positions of the pieces whose strip is non-empty; every
   * other piece strips to "".
   */
  function NonBlankStripped(ps: seq<string>): (r: seq<string>)
    ensures |r| <= |ps|
    ensures var ks := KeptIndices(ps, StripsNonBlank);
      |r| == |ks| && forall i :: 0 <= i < |r| ==> r[i] == Strip(ps[ks[i]]) && r[i] != []
  {
    FilterMapSpec(ps, StripsNonBlank, Strip);
    FilterMap(ps, StripsNonBlank, Strip)
  }

  /** The sentences of the stripped transcript text. */
  function Sentences(text: string): seq<string> {
    NonBlankStripped(SplitSentences(Strip(text)))
  }

  // ---------------------------------------------------------------------------
  // Pseudo-segmentation
  // ---------------------------------------------------------------------------

  const MaxWindows: nat := 120
  const WindowMs: nat := 5000

  /** Windows for the parts, numbered from i: part k gets [5000 (i + k), 5000 (i + k) + 5000). */
  function Windows(parts: seq<string>, i: nat): (r: seq<Segment>)
    ensures |r| == |parts|
    ensures forall k :: 0 <= k < |r| ==>
              r[k] == Segment(Some(WindowMs * (i + k)), Some(WindowMs * (i + k) + WindowMs), parts[k])
  {
    if parts == [] then []
    else [Segment(Some(WindowMs * i), Some(WindowMs * i + WindowMs), parts[0])] + Windows(parts[1..], i + 1)
  }

  /** The first 120 sentences, sentence i in the window [5 i s, 5 i s + 5 s). */
  function Synthetic(parts: seq<string>): (r: seq<Segment>)
    ensures |r| == if |parts| < MaxWindows then |parts| else MaxWindows
    ensures forall i :: 0 <= i < |r| ==>
              r[i] == Segment(Some(WindowMs * i), Some(WindowMs * i + WindowMs), parts[i])
  {
    Windows(Take(parts, MaxWindows), 0)
  }

  /** The `for i, sent in enumerate(parts[:120])` loop that builds `synthetic`. */
  method Synthesize(parts: seq<string>) returns (synthetic: seq<Segment>)
    ensures synthetic == Synthetic(parts)
  {
    synthetic := [];
    var capped := Take(parts, MaxWindows);
    var i := 0;
    while i < |capped|
      invariant 0 <= i <= |capped|
      invariant |synthetic| == i
      invariant forall k :: 0 <= k < i ==>
                  synthetic[k] == Segment(Some(WindowMs * k), Some(WindowMs * k + WindowMs), capped[k])
    {
      var startT := i * WindowMs;
      synthetic := synthetic + [Segment(Some(startT), Some(startT + WindowMs), capped[i])];
      i := i + 1;
    }
  }

  /** No segments, or every start is None or 0. */
  predicate LacksTimestamps(segs: seq<Segment>) {
    segs == [] || forall i :: 0 <= i < |segs| ==> segs[i].start.None? || segs[i].start == Some(0)
  }

  /** The segments the handler retrieves from: synthetic windows when the transcript is untimed. */
  function EffectiveSegments(t: Transcript): seq<Segment> {
    var segs := t.segments;
    if LacksTimestamps(segs) && Strip(t.text) != [] && Sentences(t.text) != [] then Synthetic(Sentences(t.text))
    else segs
  }

  /**
   * Pseudo-segmentation happens only for untimed segments and a text with at
   * least one sentence; then sentence i (i < 120) gets start 5000 i and end
   * 5000 i + 5000, in order; otherwise the segments are kept as they are.
   */
  lemma EffectiveSegmentsSpec(t: Transcript)
    ensures var r := EffectiveSegments(t); var parts := Sentences(t.text);
      if LacksTimestamps(t.segments) && parts != [] then
        && |r| == (if |parts| < MaxWindows then |parts| else MaxWindows)
        && (forall i :: 0 <= i < |r| ==> r[i] == Segment(Some(WindowMs * i), Some(WindowMs * i + WindowMs), parts[i]))
      else r == t.segments
  {
    if Strip(t.text) == [] {
      SplitSentencesEmpty();
    }
  }

  lemma SplitSentencesEmpty()
    ensures Sentences("") == []
  {
    assert FirstBreak("", 1) == 0;
    assert SplitSentences("") == [""];
  }

  // ---------------------------------------------------------------------------
  // call_gemini_chat
  // ---------------------------------------------------------------------------

  /** `f"[{start:.1f}-{end:.1f}] {text}"`; formatting None raises, modelled as None. */
  function ContextLine(s: Segment, fmt1: nat -> string): Option<string> {
    if s.start.Some? && s.end.Some? then Some("[" + fmt1(s.start.value) + "-" + fmt1(s.end.value) + "] " + s.text)
    else None
  }

  /** The lines of the prompt context, or None as soon as one segment lacks a time. */
  function ContextLines(top: seq<Segment>, fmt1: nat -> string): (r: Option<seq<string>>)
    ensures r.Some? <==> forall i :: 0 <= i < |top| ==> top[i].start.Some? && top[i].end.Some?
    ensures r.Some? ==> |r.value| == |top| && forall i :: 0 <= i < |top| ==> Some(r.value[i]) == ContextLine(top[i], fmt1)
  {
    if top == [] then Some([])
    else match (ContextLine(top[0], fmt1), ContextLines(top[1..], fmt1))
      case (Some(l), Some(ls)) => Some([l] + ls)
      case _ => None
  }

  function Context(top: seq<Segment>, fmt1: nat -> string): Option<string> {
    match ContextLines(top, fmt1)
    case Some(ls) => Some(Join("\n", ls))
    case None => None
  }

  /** The context cannot be built exactly when some selected segment lacks a start or an end. */
  lemma ContextMissingTime(top: seq<Segment>, fmt1: nat -> string)
    ensures Context(top, fmt1).None? <==> exists i :: 0 <= i < |top| && (top[i].start.None? || top[i].end.None?)
  {
    assert Context(top, fmt1).Some? <==> ContextLines(top, fmt1).Some?;
  }

  const ChatPreamble: string := "Answer the user question STRICTLY using the transcript context. Cite timestamps in brackets.\nQuestion: "

  function ChatPrompt(question: string, context: string): string {
    ChatPreamble + question + "\nContext:\n" + context + "\nAnswer:"
  }

  /** What `call_gemini_chat` returns: the raw model text and the cited segments. */
  datatype ModelReply = ModelReply(text: string, references: seq<Segment>)

  /** The model's reply on the selected segments `top`. */
  function ChatAnswer(top: seq<Segment>, question: string, complete: string -> Option<string>,
                      fmt1: nat -> string): Result<ModelReply, Failure>
  {
    match Context(top, fmt1)
    case None => Err(TimestampNotNumeric)
    case Some(context) =>
      match complete(ChatPrompt(question, context))
      case None => Err(ModelCallFailed)
      case Some(raw) => Ok(ModelReply(raw, Take(top, 5)))
  }

  /**
   * The reply cites the first five selected segments and carries the model's
   * text; it fails with TimestampNotNumeric exactly when a selected segment
   * lacks a time, and otherwise exactly when the model call raises.
   */
  lemma ChatAnswerSpec(top: seq<Segment>, question: string, complete: string -> Option<string>, fmt1: nat -> string)
    ensures var r := ChatAnswer(top, question, complete, fmt1);
      && (r.Err? && r.error == TimestampNotNumeric <==> exists i :: 0 <= i < |top| && (top[i].start.None? || top[i].end.None?))
      && (Context(top, fmt1).Some? ==> (r.Err? <==> complete(ChatPrompt(question, Context(top, fmt1).value)).None?))
      && (r.Ok? ==> r.value.references == Take(top, 5) && |r.value.references| <= 5
                    && Some(r.value.text) == complete(ChatPrompt(question, Context(top, fmt1).value)))
  {
    ContextMissingTime(top, fmt1);
  }

  /**
   * `call_gemini_chat`: the top eight segments (or the first four), the
   * model's text, and the first five selected segments as references.
   */
  function GeminiChat(segs: seq<Segment>, question: string, complete: string -> Option<string>,
                      fmt1: nat -> string): Result<ModelReply, Failure>
  {
    ChatAnswer(Top(segs, question, 8, 4), question, complete, fmt1)
  }

  /** The same facts about the segments `call_gemini_chat` selects. */
  lemma GeminiChatSpec(segs: seq<Segment>, question: string, complete: string -> Option<string>, fmt1: nat -> string)
    ensures var top := Top(segs, question, 8, 4); var r := GeminiChat(segs, question, complete, fmt1);
      && (r.Err? && r.error == TimestampNotNumeric <==> exists i :: 0 <= i < |top| && (top[i].start.None? || top[i].end.None?))
      && (r.Ok? ==> r.value.references == Take(top, 5) && |r.value.references| <= 5
                    && Some(r.value.text) == complete(ChatPrompt(question, Context(top, fmt1).value)))
  {
    ChatAnswerSpec(Top(segs, question, 8, 4), question, complete, fmt1);
  }

  /** The same call with the scoring loop of the handler. */
  method CallGeminiChat(segs: seq<Segment>, question: string, complete: string -> Option<string>,
                        fmt1: nat -> string) returns (r: Result<ModelReply, Failure>)
    ensures r == GeminiChat(segs, question, complete, fmt1)
  {
    var top := Retrieve(segs, question, 8, 4);
    r := AnswerOn(top, question, complete, fmt1);
  }

  /** The prompt, the model call and the reply, for the selected segments `top`. */
  method AnswerOn(top: seq<Segment>, question: string, complete: string -> Option<string>,
                  fmt1: nat -> string) returns (r: Result<ModelReply, Failure>)
    ensures r == ChatAnswer(top, question, complete, fmt1)
  {
    var context := Context(top, fmt1);
    if context.None? {
      return Err(TimestampNotNumeric);
    }
    var raw := complete(ChatPrompt(question, context.value));
    if raw.None? {
      return Err(ModelCallFailed);
    }
    r := Ok(ModelReply(raw.value, Take(top, 5)));
  }

  // ---------------------------------------------------------------------------
  // The timestamp trailer
  // ---------------------------------------------------------------------------

  /** `f"{mm:02d}:{ss:02d}"` with mm = t // 60 and ss = t % 60 of the seconds t. */
  function MmSs(ms: nat): string {
    ZeroPad(ms / 60000, 2) + ":" + ZeroPad((ms / 1000) % 60, 2)
  }

  /** Below 100 minutes the stamp is five characters whose fields read back as minutes and seconds. */
  lemma MmSsSpec(ms: nat)
    requires ms < 6000000
    ensures var s := MmSs(ms);
      |s| == 5 && s[2] == ':' && IsDigits(s[..2]) && IsDigits(s[3..])
      && ParseNat(s[..2]) == ms / 60000 && ParseNat(s[3..]) == (ms / 1000) % 60
  {
    var m := ZeroPad(ms / 60000, 2);
    var c := ZeroPad((ms / 1000) % 60, 2);
    ZeroPadLength(ms / 60000, 2);
    ZeroPadLength((ms / 1000) % 60, 2);
    ParseZeroPad(ms / 60000, 2);
    ParseZeroPad((ms / 1000) % 60, 2);
    var s := MmSs(ms);
    assert s == m + ":" + c;
    assert s[..2] == m;
    assert s[3..] == c;
  }

  /** A reference the comprehension keeps. */
  predicate HasStart(s: Segment) {
    s.start.Some?
  }

  /** `f"[{fmt(r['start'])}]"`; the comprehension applies it only to references with a start. */
  function Stamp(s: Segment): string {
    "[" + MmSs(if s.start.Some? then s.start.value else 0) + "]"
  }

  /**
   * `[f"[{fmt(r['start'])}]" for r in refs if r.get('start') is not None]`:
   * one stamp per reference with a start, in order; the i-th is `[mm:ss]`
   * of the i-th such reference.
   */
  function RefStamps(refs: seq<Segment>): (r: seq<string>)
    ensures |r| <= |refs|
    ensures var ks := KeptIndices(refs, HasStart);
      |r| == |ks| && forall i :: 0 <= i < |r| ==> refs[ks[i]].start.Some? && r[i] == "[" + MmSs(refs[ks[i]].start.value) + "]"
    ensures forall i :: 0 <= i < |r| ==> r[i] != [] && r[i][0] == '['
    ensures r == [] <==> forall i :: 0 <= i < |refs| ==> refs[i].start.None?
  {
    FilterMapSpec(refs, HasStart, Stamp);
    KeptNone(refs, HasStart);
    FilterMap(refs, HasStart, Stamp)
  }

  /** The comma-joined stamps, cut to 120 characters. */
  function RefString(refs: seq<Segment>): string {
    Take(Join(", ", RefStamps(refs)), 120)
  }

  const TrailerLabel: string := "\n\nReferenced timestamps: "

  /** The answer with the trailer appended when it cites nothing and some reference has a start. */
  function WithTrailer(answer: string, refs: seq<Segment>): string {
    if !Contains(answer, "[") && refs != [] then
      var rs := RefString(refs);
      if rs != [] then Strip(answer) + TrailerLabel + rs else answer
    else answer
  }

  lemma {:induction false} JoinNonEmptyHead(sep: string, parts: seq<string>)
    requires parts != [] && parts[0] != []
    ensures Join(sep, parts) != [] && Join(sep, parts)[0] == parts[0][0]
  {
  }

  /**
   * The reference string is the first min(120, n) characters of the
   * comma-joined stamps; it is empty exactly when no reference has a start,
   * else it begins with '['.
   */
  lemma RefStringSpec(refs: seq<Segment>)
    ensures var joined := Join(", ", RefStamps(refs));
      RefString(refs) <= joined && |RefString(refs)| == if |joined| < 120 then |joined| else 120
    ensures |RefString(refs)| <= 120
    ensures RefString(refs) == [] <==> forall i :: 0 <= i < |refs| ==> refs[i].start.None?
    ensures RefString(refs) != [] ==> RefString(refs)[0] == '['
  {
    var st := RefStamps(refs);
    if st != [] {
      JoinNonEmptyHead(", ", st);
    }
  }

  /**
   * The trailer is appended exactly when the answer has no '[' and some
   * reference has a start; the answer is then stripped and followed by the
   * label and at most 120 characters of stamps. Otherwise it is unchanged.
   */
  lemma WithTrailerSpec(answer: string, refs: seq<Segment>)
    ensures var r := WithTrailer(answer, refs);
      if !Contains(answer, "[") && exists i :: 0 <= i < |refs| && refs[i].start.Some? then
        r == Strip(answer) + TrailerLabel + RefString(refs) && 0 < |RefString(refs)| <= 120
      else r == answer
  {
    RefStringSpec(refs);
  }

  /** A string with '[' at position i contains "[". */
  lemma ContainsBracket(s: string, i: nat)
    requires i < |s| && s[i] == '['
    ensures Contains(s, "[")
  {
    assert OccursAt(s, "[", i);
    ContainsIffOccurs(s, "[");
  }

  /** Appending the trailer twice is appending it once: the trailer itself contains '['. */
  lemma WithTrailerIdempotent(answer: string, refs: seq<Segment>)
    ensures WithTrailer(WithTrailer(answer, refs), refs) == WithTrailer(answer, refs)
  {
    var r := WithTrailer(answer, refs);
    if r != answer {
      RefStringSpec(refs);
      var rs := RefString(refs);
      assert r == Strip(answer) + TrailerLabel + rs;
      ContainsBracket(r, |Strip(answer)| + |TrailerLabel|);
    }
  }

  // ---------------------------------------------------------------------------
  // chat
  // ---------------------------------------------------------------------------

  /** The reply of `chat` for a transcript with the (possibly pseudo-segmented) segments `segs`. */
  function ModelAnswer(segs: seq<Segment>, question: string, complete: string -> Option<string>,
                       fmt1: nat -> string): Result<Reply, Failure>
  {
    match GeminiChat(segs, question, complete, fmt1)
    case Err(e) => Err(e)
    case Ok(resp) =>
      var answer := WithTrailer(resp.text, resp.references);
      Ok(Reply(answer, resp.references, None, Some(BuildUsage(question, answer, 0))))
  }

  /** The reply cites the first five selected segments, adds the trailer to the model's text, and carries its usage. */
  lemma ModelAnswerSpec(segs: seq<Segment>, question: string, complete: string -> Option<string>, fmt1: nat -> string)
    ensures var r := ModelAnswer(segs, question, complete, fmt1); var g := GeminiChat(segs, question, complete, fmt1);
      && (r.Err? <==> g.Err?)
      && (r.Err? ==> r.error == g.error)
      && (r.Ok? ==>
            var top := Top(segs, question, 8, 4);
            && r.value.references == Take(top, 5)
            && r.value.answer == WithTrailer(g.value.text, Take(top, 5))
            && r.value.usage == Some(BuildUsage(question, r.value.answer, 0)))
  {
    GeminiChatSpec(segs, question, complete, fmt1);
  }

  /**
   * `chat`: a translation request is answered by the translation shortcut; a
   * missing transcript by "Transcript not found."; otherwise the model
   * answers from the (possibly pseudo-segmented) segments and the trailer is
   * added.
   */
  function ChatReply(transcripts: map<string, Transcript>, media: string, question: string,
                     complete: string -> Option<string>, fmt1: nat -> string): Result<Reply, Failure>
  {
    match MaybeHandleTranslation(transcripts, media, question, complete)
    case Some(reply) => Ok(reply)
    case None =>
      if media !in transcripts then Ok(Reply(NotFound, [], None, None))
      else ModelAnswer(EffectiveSegments(transcripts[media]), question, complete, fmt1)
  }

  /** The three outcomes of `chat` and what each reply carries. */
  lemma ChatReplySpec(transcripts: map<string, Transcript>, media: string, question: string,
                      complete: string -> Option<string>, fmt1: nat -> string)
    ensures var r := ChatReply(transcripts, media, question, complete, fmt1);
      && (DetectTranslation(question).Some? ==>
            r == Ok(MaybeHandleTranslation(transcripts, media, question, complete).value))
      && (DetectTranslation(question).None? && media !in transcripts ==>
            r == Ok(Reply(NotFound, [], None, None)))
      && (DetectTranslation(question).None? && media in transcripts ==>
            r == ModelAnswer(EffectiveSegments(transcripts[media]), question, complete, fmt1))
  {
  }
}
