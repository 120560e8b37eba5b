/**
 * On-demand transcript translation in the chat service: the detector that
 * recognises a request such as "give me the transcript in Hindi", the
 * translation call with its two short-circuits, and the reply that prefixes
 * the translated text with the language's name.
 *
 * The language pattern `(?:(?:in|to|into)\s+)?(<names>)\b` is modelled as an
 * explicit scan: its leftmost match always has as group 1 the leftmost
 * occurrence of a table name followed by a word boundary (no name begins
 * inside an "in "/"to "/"into " prefix, because every prefix is followed by
 * whitespace where a name would need a letter), and at one position the
 * alternation tries the names in table order.
 */
module Translation {
  import opened Wrappers
  import opened Text
  import opened Transcripts
  import opened Replies
  import opened Usage

  datatype Language = Language(name: string, code: string)

  /** `LANG_NAME_TO_CODE`, in its insertion order. */
  const Languages: seq<Language> := [
    Language("hindi", "hi"), Language("spanish", "es"), Language("french", "fr"),
    Language("german", "de"), Language("chinese", "zh"), Language("mandarin", "zh"),
    Language("japanese", "ja"), Language("korean", "ko"), Language("italian", "it"),
    Language("portuguese", "pt"), Language("russian", "ru"), Language("arabic", "ar"),
    Language("bengali", "bn"), Language("marathi", "mr"), Language("tamil", "ta"),
    Language("telugu", "te"), Language("urdu", "ur"), Language("indonesian", "id"),
    Language("turkish", "tr"), Language("polish", "pl"), Language("dutch", "nl"),
    Language("thai", "th"), Language("vietnamese", "vi")
  ]

  /** The phrases of which one must occur for the first detection branch. */
  const Triggers: seq<string> :=
    ["translate", "translation", "transcript in", "give me the transcript", "show transcript", "provide transcript"]

  /** The codes for which `translate_transcript` returns its input unchanged. */
  const EnglishCodes: seq<string> := ["en", "eng", "english"]

  predicate AnyTrigger(ql: string) {
    exists i :: 0 <= i < |Triggers| && Contains(ql, Triggers[i])
  }

  /** `\b` right after a name, whose last character is a letter. */
  predicate BoundaryAt(s: string, j: nat) {
    j >= |s| || !IsWordChar(s[j])
  }

  /** The name of l occurs at position i of s and is followed by a word boundary. */
  predicate NameAt(s: string, i: nat, l: Language) {
    OccursAt(s, l.name, i) && BoundaryAt(s, i + |l.name|)
  }

  /** Where the pattern matched and which name group 1 captured. */
  datatype Match = Match(pos: nat, lang: Language)

  /** The first language of ls, in order, whose name matches at position i. */
  function FirstNameAt(s: string, i: nat, ls: seq<Language>): (r: Option<Language>)
    ensures r.Some? ==> r.value in ls && NameAt(s, i, r.value)
    ensures r.None? ==> forall l :: l in ls ==> !NameAt(s, i, l)
  {
    if ls == [] then None
    else if NameAt(s, i, ls[0]) then Some(ls[0])
    else FirstNameAt(s, i, ls[1..])
  }

  /** The leftmost match at or after position i. */
  function FindFrom(s: string, i: nat): Option<Match>
    decreases |s| - i
  {
    if i >= |s| then None
    else match FirstNameAt(s, i, Languages)
      case Some(l) => Some(Match(i, l))
      case None => FindFrom(s, i + 1)
  }

  /** `_LANG_PATTERN.search(s)`. */
  function FindLanguage(s: string): Option<Match> {
    FindFrom(s, 0)
  }

  lemma {:induction false} FindFromSpec(s: string, i: nat)
    requires forall j: nat, l :: j < i && l in Languages ==> !NameAt(s, j, l)
    ensures var m := FindFrom(s, i);
      && (m.Some? ==> m.value.lang in Languages && NameAt(s, m.value.pos, m.value.lang)
                      && forall j: nat, l :: j < m.value.pos && l in Languages ==> !NameAt(s, j, l))
      && (m.None? ==> forall j: nat, l :: l in Languages ==> !NameAt(s, j, l))
    decreases |s| - i
  {
    if i >= |s| {
      forall j: nat, l | l in Languages ensures !NameAt(s, j, l) {
        if j >= i {
          assert |l.name| > 0 by { NamesNonEmpty(l); }
        }
      }
    } else if FirstNameAt(s, i, Languages).None? {
      FindFromSpec(s, i + 1);
    }
  }

  lemma NamesNonEmpty(l: Language)
    requires l in Languages
    ensures |l.name| > 0
  {
  }

  /**
   * The search finds a table name followed by a word boundary, and none
   * occurs further left; it finds nothing exactly when no name occurs so.
   */
  lemma FindLanguageSpec(s: string)
    ensures var m := FindLanguage(s);
      && (m.Some? ==> m.value.lang in Languages && NameAt(s, m.value.pos, m.value.lang)
                      && forall j: nat, l :: j < m.value.pos && l in Languages ==> !NameAt(s, j, l))
      && (m.None? <==> forall j: nat, l :: l in Languages ==> !NameAt(s, j, l))
  {
    FindFromSpec(s, 0);
  }

  /** `LANG_NAME_TO_CODE.get(name)`. */
  function Lookup(name: string, ls: seq<Language>): (r: Option<string>)
    ensures r.Some? <==> exists l :: l in ls && l.name == name
  {
    if ls == [] then None
    else if ls[0].name == name then Some(ls[0].code)
    else Lookup(name, ls[1..])
  }

  lemma {:induction false} LookupFinds(ls: seq<Language>, k: nat)
    requires k < |ls|
    requires forall j :: 0 <= j < k ==> ls[j].name != ls[k].name
    ensures Lookup(ls[k].name, ls) == Some(ls[k].code)
  {
    if k > 0 {
      LookupFinds(ls[1..], k - 1);
    }
  }

  lemma NamesDistinct()
    ensures forall i, j :: 0 <= i < j < |Languages| ==> Languages[i].name != Languages[j].name
  {
  }

  /** Every table name maps back to its own code. */
  lemma LookupTableName(l: Language)
    requires l in Languages
    ensures Lookup(l.name, Languages) == Some(l.code)
  {
    var k :| 0 <= k < |Languages| && Languages[k] == l;
    NamesDistinct();
    LookupFinds(Languages, k);
  }

  /** `_detect_translation_request`, branch for branch. */
  function DetectTranslation(question: string): Option<string> {
    var ql := Lower(question);
    var m := FindLanguage(ql);
    if AnyTrigger(ql) && m.Some? then Lookup(m.value.lang.name, Languages)
    else if Contains(ql, "transcript") && m.Some? then Lookup(m.value.lang.name, Languages)
    else None
  }

  /**
   * A code is returned exactly when a trigger phrase or "transcript" occurs
   * and a table name matches; it is the code of the leftmost matching name.
   */
  lemma DetectTranslationSpec(question: string)
    ensures var ql := Lower(question);
      DetectTranslation(question) ==
        if (AnyTrigger(ql) || Contains(ql, "transcript")) && FindLanguage(ql).Some?
        then Some(FindLanguage(ql).value.lang.code)
        else None
    ensures var ql := Lower(question);
      DetectTranslation(question).None? <==>
        (!AnyTrigger(ql) && !Contains(ql, "transcript"))
        || forall j: nat, l :: l in Languages ==> !NameAt(ql, j, l)
  {
    var ql := Lower(question);
    FindLanguageSpec(ql);
    if FindLanguage(ql).Some? {
      LookupTableName(FindLanguage(ql).value.lang);
    }
  }

  /** The Markdown code fence the translation reply is cleaned of. */
  const Fence: string := "```"

  /** Python's `s.replace(t, '')` for a non-empty t: occurrences removed left to right. */
  function RemoveAll(s: string, t: string): string
    requires |t| > 0
    decreases |s|
  {
    if |s| < |t| then s
    else if s[..|t|] == t then RemoveAll(s[|t|..], t)
    else [s[0]] + RemoveAll(s[1..], t)
  }

  lemma MulSucc(a: nat, c: nat)
    ensures a * (c + 1) == a * c + a
  {
  }

  /** Each removal takes away exactly the occurrences that str.count counts. */
  lemma {:induction false} RemoveAllLength(s: string, t: string)
    requires |t| > 0
    ensures |RemoveAll(s, t)| == |s| - |t| * Count(s, t)
    ensures Count(s, t) == 0 ==> RemoveAll(s, t) == s
    decreases |s|
  {
    if |s| < |t| {
    } else if s[..|t|] == t {
      RemoveAllLength(s[|t|..], t);
      var c := Count(s[|t|..], t);
      assert Count(s, t) == c + 1;
      assert |RemoveAll(s, t)| == |s| - |t| - |t| * c;
      MulSucc(|t|, c);
    } else {
      RemoveAllLength(s[1..], t);
      var c := Count(s[1..], t);
      assert Count(s, t) == c;
      assert RemoveAll(s, t) == [s[0]] + RemoveAll(s[1..], t);
      assert |RemoveAll(s, t)| == 1 + (|s| - 1 - |t| * c);
      assert s == [s[0]] + s[1..];
    }
  }

  const TranslateOpening: string := "Translate the following transcript into "
  const TranslateInstructions: string :=
    " (natural, conversational).\n"
    + "Preserve meaning, names, numbers. Output ONLY the translated text, no preface.\n\n"
    + "Transcript:\n"

  function TranslatePrompt(target: string, text: string): string {
    TranslateOpening + target + TranslateInstructions + Take(text, 15000)
  }

  /**
   * `translate_transcript`: "" for empty text, the text itself for an English
   * target, else the model's reply stripped of code fences and surrounding
   * whitespace, or the original text when the call raises.
   * `complete` stands for `call_gemini`; None means the call raised.
   */
  function TranslateTranscript(text: string, target: string, complete: string -> Option<string>): (r: string)
    ensures text == "" ==> r == ""
    ensures text != "" && Lower(target) in EnglishCodes ==> r == text
    ensures text != "" && Lower(target) !in EnglishCodes && complete(TranslatePrompt(target, text)).None? ==> r == text
    ensures text != "" && Lower(target) !in EnglishCodes && complete(TranslatePrompt(target, text)).Some? ==>
              r == CleanReply(complete(TranslatePrompt(target, text)).value)
  {
    if text == "" then ""
    else if Lower(target) in EnglishCodes then text
    else match complete(TranslatePrompt(target, text))
      case None => text
      case Some(raw) => CleanReply(raw)
  }

  /**
   * `raw.strip().replace("```", "").strip()`: the reply with its fences
   * removed and its surrounding whitespace trimmed; a fence-free reply is
   * just stripped.
   */
  function CleanReply(raw: string): (r: string)
    ensures IsStripOf(r, RemoveAll(Strip(raw), Fence))
    ensures |r| <= |Strip(raw)| - |Fence| * Count(Strip(raw), Fence)
    ensures Count(Strip(raw), Fence) == 0 ==> r == Strip(raw)
  {
    var c := RemoveAll(Strip(raw), Fence);
    RemoveAllLength(Strip(raw), Fence);
    StripIsStripOf(c);
    StripIdempotent(raw);
    Strip(c)
  }

  /** A reply that is fence-free and has no surrounding whitespace is the translation itself. */
  lemma TranslateCleanReply(text: string, target: string, complete: string -> Option<string>)
    requires text != "" && Lower(target) !in EnglishCodes
    requires complete(TranslatePrompt(target, text)).Some?
    requires var raw := complete(TranslatePrompt(target, text)).value;
      Count(raw, Fence) == 0 && (raw != [] ==> !IsSpace(raw[0]) && !IsSpace(raw[|raw| - 1]))
    ensures TranslateTranscript(text, target, complete) == complete(TranslatePrompt(target, text)).value
  {
    StripNoop(complete(TranslatePrompt(target, text)).value);
  }

  /** `next((n.title() for n, c in LANG_NAME_TO_CODE.items() if c == code), code)` */
  function LanguageTitle(code: string, ls: seq<Language>): (r: string)
    ensures (forall l :: l in ls ==> l.code != code) ==> r == code
  {
    if ls == [] then code
    else if ls[0].code == code then TitleCase(ls[0].name)
    else LanguageTitle(code, ls[1..])
  }

  /** The title is that of the first language carrying the code. */
  lemma {:induction false} LanguageTitleFirst(code: string, ls: seq<Language>, i: nat)
    requires i < |ls| && ls[i].code == code && forall j :: 0 <= j < i ==> ls[j].code != code
    ensures LanguageTitle(code, ls) == TitleCase(ls[i].name)
  {
    if i > 0 {
      assert ls[1..][i - 1] == ls[i];
      LanguageTitleFirst(code, ls[1..], i - 1);
    }
  }

  const NotFound: string := "Transcript not found."

  const TranslatedLabel: string := "Transcript translated to "

  function TranslationPrefix(title: string): string {
    TranslatedLabel + title + ":\n\n"
  }

  /**
   * `maybe_handle_translation`: None when the question is no translation
   * request; otherwise the not-found reply, or the prefixed translation cut
   * to 60000 characters with its usage estimate.
   */
  function MaybeHandleTranslation(transcripts: map<string, Transcript>, media: string, question: string,
                                  complete: string -> Option<string>): (r: Option<Reply>)
    ensures r.None? <==> DetectTranslation(question).None?
    ensures r.Some? && media !in transcripts ==> r.value == Reply(NotFound, [], None, None)
    ensures r.Some? && media in transcripts ==>
      var title := LanguageTitle(DetectTranslation(question).value, Languages);
      var text := FullText(transcripts[media]);
      && r.value.references == [] && r.value.history.None?
      && StartsWith(r.value.answer, TranslationPrefix(title))
      && |r.value.answer| <= |TranslationPrefix(title)| + 60000
      && r.value.answer[|TranslationPrefix(title)|..]
         == Take(TranslateTranscript(text, DetectTranslation(question).value, complete), 60000)
      && r.value.usage == Some(BuildUsage(question, r.value.answer, |Take(text, 4000)|))
  {
    match DetectTranslation(question)
    case None => None
    case Some(code) =>
      if media !in transcripts then Some(Reply(NotFound, [], None, None))
      else
        var text := FullText(transcripts[media]);
        var translated := TranslateTranscript(text, code, complete);
        var answer := TranslationPrefix(LanguageTitle(code, Languages)) + Take(translated, 60000);
        Some(Reply(answer, [], None, Some(BuildUsage(question, answer, |Take(text, 4000)|))))
  }

  /** A question mentioning "transcript" and naming a language is detected, whatever its trigger phrases. */
  lemma DetectWithTranscript(question: string)
    requires Contains(Lower(question), "transcript") && FindLanguage(Lower(question)).Some?
    ensures DetectTranslation(question) == Lookup(FindLanguage(Lower(question)).value.lang.name, Languages)
  {
  }

  /** A request naming its language first: detected, with that language's code. */
  lemma ExampleHindiRequest(q: string)
    requires q == "hindi transcript"
    ensures DetectTranslation(q) == Some("hi")
  {
    LowerIdentity(q);
    HindiTranscriptFacts(q);
    DetectWithTranscript(q);
    assert Lookup(Languages[0].name, Languages) == Some(Languages[0].code);
  }

  lemma HindiTranscriptFacts(q: string)
    requires q == "hindi transcript"
    ensures Contains(q, "transcript") && FindLanguage(q) == Some(Match(0, Languages[0]))
  {
    assert OccursAt(q, "transcript", 6) by {
      assert q[6..16] == "transcript";
    }
    ContainsIffOccurs(q, "transcript");
    assert NameAt(q, 0, Languages[0]) by {
      assert q[0..5] == "hindi";
      assert !IsWordChar(q[5]);
    }
  }

  /** Lower-casing leaves a string with no capital letter unchanged. */
  lemma {:induction false} LowerIdentity(s: string)
    requires forall i :: 0 <= i < |s| ==> !('A' <= s[i] <= 'Z')
    ensures Lower(s) == s
  {
    if s != [] {
      LowerIdentity(s[1..]);
      assert s == [s[0]] + s[1..];
    }
  }
}
