/**
 * The multi-turn chat handlers of the chat service (`chat_agent` and
 * `chat_gpt`) and the per-user conversation history they load and save.
 *
 * A history file `<media>_chat_<uid>.json` is an entry of the map `files`
 * of a HistoryStore; an entry that json.load cannot read is `Unreadable`.
 * Each answered turn appends the user's question and then the model's reply;
 * the file keeps the last 40 entries.
 */
module History {
  import opened Wrappers
  import opened Text
  import opened Transcripts
  import opened Retrieval
  import opened Replies
  import opened Usage
  import opened Translation
  import opened Chat

  /** `user_id or 'anon'`: a missing or empty id is the anonymous user. */
  function UserKey(userId: Option<string>): string {
    if userId.None? || userId.value == "" then "anon" else userId.value
  }

  /** `_history_path`: the history file of one user for one media item. */
  function HistoryKey(media: string, userId: Option<string>): string {
    media + "_chat_" + UserKey(userId) + ".json"
  }

  /** Every anonymous form (no id, an empty id, the id "anon") shares one history file. */
  lemma AnonymousShareHistory(media: string)
    ensures HistoryKey(media, None) == HistoryKey(media, Some("")) == HistoryKey(media, Some("anon"))
  {
  }

  const KeepTurns: nat := 40

  /** `history[-40:]`: what save_history writes. */
  function Retain(history: seq<Turn>): (r: seq<Turn>)
    ensures |r| == if |history| < KeepTurns then |history| else KeepTurns
    ensures |history| <= KeepTurns ==> r == history
    ensures EndsWithSeq(history, r)
  {
    Last(history, KeepTurns)
  }

  predicate EndsWithSeq<T(==)>(s: seq<T>, suffix: seq<T>) {
    |suffix| <= |s| && s[|s| - |suffix|..] == suffix
  }

  /**
   * Saving a loaded history with new turns appended keeps the same entries
   * as if the file had never been cut: the stored file is always the last
   * 40 entries of every turn ever appended.
   */
  lemma {:induction false} RetainAppend(history: seq<Turn>, turns: seq<Turn>)
    ensures Retain(Retain(history) + turns) == Retain(history + turns)
  {
    var a := Retain(history);
    if |history| <= KeepTurns {
      assert a == history;
    } else {
      var all := history + turns;
      var at := a + turns;
      assert |at| >= KeepTurns;
      var x := Retain(at);
      var y := Retain(all);
      assert x == at[|at| - KeepTurns..];
      assert y == all[|all| - KeepTurns..];
      forall k | 0 <= k < KeepTurns ensures x[k] == y[k] {
        var j := |at| - KeepTurns + k;
        if j < |a| {
          assert at[j] == a[j] == history[|history| - KeepTurns + j];
        } else {
          assert at[j] == turns[j - |a|];
        }
      }
    }
  }

  /** One history file as found on disk. */
  datatype StoredHistory = Saved(turns: seq<Turn>) | Unreadable

  // ---------------------------------------------------------------------------
  // Conversation excerpts in the prompts
  // ---------------------------------------------------------------------------

  predicate IsChatRole(role: string) {
    role == "user" || role == "assistant"
  }

  /** The rendered user and assistant turns, in order; other roles are skipped. */
  function RoleLines(turns: seq<Turn>, render: Turn -> string): (r: seq<string>)
    ensures |r| <= |turns|
  {
    if turns == [] then []
    else (if IsChatRole(turns[0].role) then [render(turns[0])] else []) + RoleLines(turns[1..], render)
  }

  /** A history of user and assistant turns only is rendered turn by turn. */
  lemma {:induction false} RoleLinesAllChat(turns: seq<Turn>, render: Turn -> string)
    requires forall i :: 0 <= i < |turns| ==> IsChatRole(turns[i].role)
    ensures |RoleLines(turns, render)| == |turns|
    ensures forall i :: 0 <= i < |turns| ==> RoleLines(turns, render)[i] == render(turns[i])
  {
    if turns != [] {
      RoleLinesAllChat(turns[1..], render);
      var rest := RoleLines(turns[1..], render);
      assert RoleLines(turns, render) == [render(turns[0])] + rest;
      forall i | 0 <= i < |turns| ensures RoleLines(turns, render)[i] == render(turns[i]) {
        if i > 0 {
          assert RoleLines(turns, render)[i] == rest[i - 1];
        }
      }
    }
  }

  /** Turns in other roles never appear in the rendered excerpt. */
  lemma {:induction false} RoleLinesNoChat(turns: seq<Turn>, render: Turn -> string)
    requires forall i :: 0 <= i < |turns| ==> !IsChatRole(turns[i].role)
    ensures RoleLines(turns, render) == []
  {
    if turns != [] {
      RoleLinesNoChat(turns[1..], render);
    }
  }

  /** The `convo_lines` loop. */
  method ConversationLines(turns: seq<Turn>, render: Turn -> string) returns (lines: seq<string>)
    ensures lines == RoleLines(turns, render)
  {
    lines := [];
    var i := 0;
    while i < |turns|
      invariant 0 <= i <= |turns|
      invariant lines == RoleLines(turns[..i], render)
    {
      RoleLinesSnoc(turns[..i], turns[i], render);
      assert turns[..i + 1] == turns[..i] + [turns[i]];
      if IsChatRole(turns[i].role) {
        lines := lines + [render(turns[i])];
      }
      i := i + 1;
    }
    assert turns[..|turns|] == turns;
  }

  lemma {:induction false} RoleLinesSnoc(turns: seq<Turn>, t: Turn, render: Turn -> string)
    ensures RoleLines(turns + [t], render)
         == RoleLines(turns, render) + (if IsChatRole(t.role) then [render(t)] else [])
  {
    if turns == [] {
      assert [t][1..] == [];
    } else {
      var h := if IsChatRole(turns[0].role) then [render(turns[0])] else [];
      assert (turns + [t])[0] == turns[0];
      assert (turns + [t])[1..] == turns[1..] + [t];
      RoleLinesSnoc(turns[1..], t, render);
      assert RoleLines(turns + [t], render) == h + RoleLines(turns[1..] + [t], render);
      assert RoleLines(turns, render) == h + RoleLines(turns[1..], render);
    }
  }

  /** `f"{role.title()}: {content[:500]}"` */
  function AgentLine(t: Turn): string {
    TitleCase(t.role) + ": " + Take(t.content, 500)
  }

  /** `f"{role}: {content}"` */
  function GptLine(t: Turn): string {
    t.role + ": " + t.content
  }

  /** The fixed instructions that open the `chat_agent` prompt. */
  const AgentPreamble: string :=
    "You are a helpful expert assistant answering questions about a media transcript.\n"
    + "Use ONLY the provided transcript snippets as factual source. If the answer isn't in them, say you don't know.\n"
    + "Cite timestamps in square brackets where relevant. Be concise.\n"
    + "Transcript Snippets:\n"

  const AgentConvoLabel: string := "\n\nConversation So Far (recent turns):\n"
  const AgentQuestionLabel: string := "\n\nUser Question: "
  const AnswerCue: string := "\nAnswer:"

  function AgentPrompt(context: string, convo: string, question: string): string {
    AgentPreamble + context + AgentConvoLabel + convo + AgentQuestionLabel + question + AnswerCue
  }

  /** The fixed instructions that open the `chat_gpt` prompt. */
  const GptPreamble: string :=
    "You are a helpful, detailed AI assistant (like ChatGPT). Answer the user.\n"
    + "If a transcript context is provided, prefer facts from it; otherwise use general knowledge.\n"
    + "Keep answers concise but informative.\n"
    + "\nTranscript Context (optional):\n"

  const GptConvoLabel: string := "\n\nConversation So Far:\n"
  const GptUserLabel: string := "\n\nUser: "
  const AssistantCue: string := "\nAssistant:"

  function GptPrompt(summary: string, convo: string, question: string): string {
    GptPreamble + summary + GptConvoLabel + convo + GptUserLabel + question + AssistantCue
  }

  /** The exchange one answered turn appends: the question, then the reply. */
  function Exchange(question: string, raw: string): seq<Turn> {
    [Turn("user", question), Turn("assistant", raw)]
  }

  // ---------------------------------------------------------------------------
  // One turn of each handler, on values
  // ---------------------------------------------------------------------------

  /** A reply and the full history to save. */
  datatype TurnOutcome = TurnOutcome(reply: Reply, history: seq<Turn>)

  /**
   * An answered turn: the reply `raw`, the given references, the extended
   * history, its last `shown` entries in the reply, and the usage estimate.
   */
  function Answered(before: seq<Turn>, question: string, raw: string, refs: seq<Segment>,
                    shown: nat, extraContext: nat): TurnOutcome
  {
    var after := before + Exchange(question, raw);
    TurnOutcome(Reply(raw, refs, Some(Last(after, shown)), Some(BuildUsage(question, raw, extraContext))), after)
  }

  /** An answered turn appends exactly the question and the reply and shows at most `shown` entries. */
  lemma AnsweredSpec(before: seq<Turn>, question: string, raw: string, refs: seq<Segment>, shown: nat, extraContext: nat)
    ensures var o := Answered(before, question, raw, refs, shown, extraContext);
      && o.history == before + [Turn("user", question), Turn("assistant", raw)]
      && |o.history| == |before| + 2
      && o.reply.answer == raw && o.reply.references == refs
      && o.reply.history.Some? && |o.reply.history.value| == (if 0 < shown < |before| + 2 then shown else |before| + 2)
      && EndsWithSeq(o.history, o.reply.history.value)
      && (shown >= 2 ==> o.reply.history.value[|o.reply.history.value| - 2..] == Exchange(question, raw))
      && o.reply.usage == Some(BuildUsage(question, raw, extraContext))
  {
    var o := Answered(before, question, raw, refs, shown, extraContext);
    var h := o.reply.history.value;
    if shown >= 2 {
      assert h[|h| - 2..] == o.history[|o.history| - 2..];
    }
  }

  /** The last eight entries as `Role: content[:500]` lines. */
  function AgentConvo(before: seq<Turn>): string {
    Join("\n", RoleLines(Last(before, 8), AgentLine))
  }

  /** The part of `chat_agent` after the context was built. */
  function AgentAnswer(before: seq<Turn>, top: seq<Segment>, context: string, question: string,
                       complete: string -> Option<string>): Result<TurnOutcome, Failure>
  {
    var convo := AgentConvo(before);
    match complete(AgentPrompt(context, convo, question))
    case None => Err(ModelCallFailed)
    case Some(raw) => Ok(Answered(before, question, raw, Take(top, 6), 20, |context| + |convo|))
  }

  /**
   * The body of `chat_agent` after the transcript was found: the top ten
   * segments (or the first five), the context cut to 6000 characters, the
   * last eight history entries as conversation, six references, the history
   * extended by the exchange, and its last 20 entries in the reply.
   */
  function AgentTurn(before: seq<Turn>, segs: seq<Segment>, question: string,
                     complete: string -> Option<string>, fmt1: nat -> string): Result<TurnOutcome, Failure>
  {
    var top := Top(segs, question, 10, 5);
    match AgentContext(top, fmt1)
    case None => Err(TimestampNotNumeric)
    case Some(context) => AgentAnswer(before, top, context, question, complete)
  }

  /** `"\n".join(context_lines)[:6000]`, or None when a selected segment lacks a time. */
  function AgentContext(top: seq<Segment>, fmt1: nat -> string): (r: Option<string>)
    ensures r.None? <==> Context(top, fmt1).None?
    ensures r.Some? ==> |r.value| <= 6000 && r.value == Take(Context(top, fmt1).value, 6000)
  {
    match Context(top, fmt1)
    case None => None
    case Some(full) => Some(Take(full, 6000))
  }

  /**
   * An agent turn answers with the model's reply, cites at most six selected
   * segments, appends exactly the question and the reply, and returns the
   * last 20 entries of the extended history.
   */
  lemma AgentTurnSpec(before: seq<Turn>, segs: seq<Segment>, question: string,
                      complete: string -> Option<string>, fmt1: nat -> string)
    ensures var r := AgentTurn(before, segs, question, complete, fmt1);
      r.Ok? ==>
        && r.value.history == before + [Turn("user", question), Turn("assistant", r.value.reply.answer)]
        && r.value.reply.references == Take(Top(segs, question, 10, 5), 6)
        && |r.value.reply.references| <= 6
        && r.value.reply.history == Some(Last(r.value.history, 20))
        && |r.value.reply.history.value| <= 20
  {
    var top := Top(segs, question, 10, 5);
    var context := AgentContext(top, fmt1);
    if context.Some? {
      assert AgentTurn(before, segs, question, complete, fmt1) == AgentAnswer(before, top, context.value, question, complete);
      AgentAnswerSpec(before, top, context.value, question, complete);
    }
  }

  /** The answered part of an agent turn. */
  lemma AgentAnswerSpec(before: seq<Turn>, top: seq<Segment>, context: string, question: string,
                        complete: string -> Option<string>)
    ensures var r := AgentAnswer(before, top, context, question, complete);
      && (r.Err? <==> complete(AgentPrompt(context, AgentConvo(before), question)).None?)
      && (r.Err? ==> r.error == ModelCallFailed)
      && (r.Ok? ==>
            && r.value.history == before + [Turn("user", question), Turn("assistant", r.value.reply.answer)]
            && r.value.reply.references == Take(top, 6)
            && r.value.reply.history == Some(Last(r.value.history, 20)))
  {
    var raw := complete(AgentPrompt(context, AgentConvo(before), question));
    if raw.Some? {
      AnsweredSpec(before, question, raw.value, Take(top, 6), 20, |context| + |AgentConvo(before)|);
    }
  }

  /** An agent turn fails on timestamps exactly when a selected segment lacks a time. */
  lemma AgentTurnFails(before: seq<Turn>, segs: seq<Segment>, question: string,
                       complete: string -> Option<string>, fmt1: nat -> string)
    ensures var top := Top(segs, question, 10, 5);
      var r := AgentTurn(before, segs, question, complete, fmt1);
      (r.Err? && r.error == TimestampNotNumeric) <==> exists i :: 0 <= i < |top| && (top[i].start.None? || top[i].end.None?)
  {
    var top := Top(segs, question, 10, 5);
    ContextMissingTime(top, fmt1);
    var context := AgentContext(top, fmt1);
    if context.Some? {
      AgentAnswerSpec(before, top, context.value, question, complete);
    }
  }

  /** `' '.join(s.get('text','') for s in segs[:150])[:4000]`, or "" without segments. */
  function TranscriptSummary(t: Option<Transcript>): (r: string)
    ensures |r| <= 4000
    ensures t.None? || t.value.segments == [] ==> r == ""
    ensures t.Some? && t.value.segments != [] ==>
      var joined := Join(" ", SegmentTexts(Take(t.value.segments, 150)));
      r <= joined && |r| == if |joined| < 4000 then |joined| else 4000
  {
    if t.Some? && t.value.segments != [] then Take(Join(" ", SegmentTexts(Take(t.value.segments, 150))), 4000)
    else ""
  }

  /** All of the last 30 entries as `role: content` lines. */
  function GptConvo(before: seq<Turn>): string {
    Join("\n", RoleLines(Last(before, 30), GptLine))
  }

  /**
   * The body of `chat_gpt` after the translation shortcut: the model answers
   * from the transcript summary (possibly empty) and the last 30 history
   * entries; no references; the last 30 entries of the extended history.
   */
  function GptTurn(before: seq<Turn>, t: Option<Transcript>, question: string,
                   complete: string -> Option<string>): Result<TurnOutcome, Failure>
  {
    var summary := TranscriptSummary(t);
    var convo := GptConvo(before);
    match complete(GptPrompt(summary, convo, question))
    case None => Err(ModelCallFailed)
    case Some(raw) => Ok(Answered(before, question, raw, [], 30, |summary| + |convo|))
  }

  /** A gpt turn appends exactly the exchange, never cites segments, and fails only in the model call. */
  lemma GptTurnSpec(before: seq<Turn>, t: Option<Transcript>, question: string, complete: string -> Option<string>)
    ensures var r := GptTurn(before, t, question, complete);
      && (r.Ok? ==>
            && r.value.history == before + [Turn("user", question), Turn("assistant", r.value.reply.answer)]
            && r.value.reply.references == []
            && r.value.reply.history == Some(Last(r.value.history, 30))
            && |r.value.reply.history.value| <= 30)
      && (r.Err? <==> complete(GptPrompt(TranscriptSummary(t), GptConvo(before), question)).None?)
      && (r.Err? ==> r.error == ModelCallFailed)
  {
    var summary := TranscriptSummary(t);
    var raw := complete(GptPrompt(summary, GptConvo(before), question));
    if raw.Some? {
      AnsweredSpec(before, question, raw.value, [], 30, |summary| + |GptConvo(before)|);
    }
  }

  /** The conversation excerpt of `chat_agent`, built by the loop. */
  method AgentConversation(before: seq<Turn>) returns (convo: string)
    ensures convo == AgentConvo(before)
  {
    var lines := ConversationLines(Last(before, 8), AgentLine);
    convo := Join("\n", lines);
  }

  /** The conversation excerpt of `chat_gpt`, built by the loop. */
  method GptConversation(before: seq<Turn>) returns (convo: string)
    ensures convo == GptConvo(before)
  {
    var lines := ConversationLines(Last(before, 30), GptLine);
    convo := Join("\n", lines);
  }

  /** The computation of one `chat_agent` turn, with the loops of the source. */
  method RunAgentTurn(before: seq<Turn>, segs: seq<Segment>, question: string,
                      complete: string -> Option<string>, fmt1: nat -> string) returns (r: Result<TurnOutcome, Failure>)
    ensures r == AgentTurn(before, segs, question, complete, fmt1)
  {
    var top := Retrieve(segs, question, 10, 5);
    var context := AgentContext(top, fmt1);
    if context.None? {
      return Err(TimestampNotNumeric);
    }
    r := RunAgentAnswer(before, top, context.value, question, complete);
  }

  method RunAgentAnswer(before: seq<Turn>, top: seq<Segment>, context: string, question: string,
                        complete: string -> Option<string>) returns (r: Result<TurnOutcome, Failure>)
    ensures r == AgentAnswer(before, top, context, question, complete)
  {
    var convo := AgentConversation(before);
    var raw := complete(AgentPrompt(context, convo, question));
    if raw.None? {
      return Err(ModelCallFailed);
    }
    r := Ok(Answered(before, question, raw.value, Take(top, 6), 20, |context| + |convo|));
  }

  /** The computation of one `chat_gpt` turn, with the loop of the source. */
  method RunGptTurn(before: seq<Turn>, t: Option<Transcript>, question: string,
                    complete: string -> Option<string>) returns (r: Result<TurnOutcome, Failure>)
    ensures r == GptTurn(before, t, question, complete)
  {
    var summary := TranscriptSummary(t);
    var convo := GptConversation(before);
    var raw := complete(GptPrompt(summary, convo, question));
    if raw.None? {
      return Err(ModelCallFailed);
    }
    r := Ok(Answered(before, question, raw.value, [], 30, |summary| + |convo|));
  }

  // ---------------------------------------------------------------------------
  // The store and the handlers that write it
  // ---------------------------------------------------------------------------

  class HistoryStore {
    var files: map<string, StoredHistory>

    constructor ()
      ensures files == map[]
    {
      files := map[];
    }

    /** `load_history` (and `list_history`): the saved turns, or [] when absent or unreadable. */
    function Load(key: string): (h: seq<Turn>)
      reads this
      ensures key in files && files[key].Saved? ==> h == files[key].turns
      ensures key !in files || files[key].Unreadable? ==> h == []
    {
      if key in files && files[key].Saved? then files[key].turns else []
    }

    /** `save_history`: the last 40 entries replace the file. */
    method Save(key: string, history: seq<Turn>)
      modifies this
      ensures files == old(files)[key := Saved(Retain(history))]
      ensures Load(key) == Retain(history)
    {
      files := files[key := Saved(Retain(history))];
    }

    /**
     * `clear_history`: True when there is no file or it was removed, False
     * only when unlinking failed (then the file stays).
     * `unlinkFails` stands for the outcome of `unlink`.
     */
    method Clear(key: string, unlinkFails: bool) returns (ok: bool)
      modifies this
      ensures key !in old(files) ==> ok && files == old(files)
      ensures key in old(files) ==> ok == !unlinkFails
      ensures ok ==> files == old(files) - {key} && key !in files
      ensures !ok ==> files == old(files)
    {
      if key in files {
        if unlinkFails {
          return false;
        }
        files := files - {key};
      }
      ok := true;
    }

    /**
     * `chat_agent`. On success the file holds the last 40 entries of the
     * loaded history extended by the exchange; a translation request, a
     * missing transcript or a failure leaves every file as it was.
     */
    method ChatAgent(transcripts: map<string, Transcript>, media: string, question: string, userId: Option<string>,
                     complete: string -> Option<string>, fmt1: nat -> string) returns (r: Result<Reply, Failure>)
      modifies this
      ensures MaybeHandleTranslation(transcripts, media, question, complete).Some? ==>
                r == Ok(MaybeHandleTranslation(transcripts, media, question, complete).value) && files == old(files)
      ensures MaybeHandleTranslation(transcripts, media, question, complete).None? && media !in transcripts ==>
                r == Ok(Reply(NotFound, [], Some([]), None)) && files == old(files)
      ensures MaybeHandleTranslation(transcripts, media, question, complete).None? && media in transcripts ==>
                var key := HistoryKey(media, userId);
                var turn := AgentTurn(old(Load(key)), transcripts[media].segments, question, complete, fmt1);
                && (turn.Err? ==> r == Err(turn.error) && files == old(files))
                && (turn.Ok? ==> r == Ok(turn.value.reply)
                                 && files == old(files)[key := Saved(Retain(turn.value.history))])
    {
      var trans := MaybeHandleTranslation(transcripts, media, question, complete);
      if trans.Some? {
        return Ok(trans.value);
      }
      if media !in transcripts {
        return Ok(Reply(NotFound, [], Some([]), None));
      }
      var key := HistoryKey(media, userId);
      var turn := RunAgentTurn(Load(key), transcripts[media].segments, question, complete, fmt1);
      if turn.Err? {
        return Err(turn.error);
      }
      Save(key, turn.value.history);
      r := Ok(turn.value.reply);
    }

    /**
     * `chat_gpt`. A missing transcript only empties the summary. On success
     * the file holds the last 40 entries of the extended history; a
     * translation request or a failed call leaves every file as it was.
     */
    method ChatGpt(transcripts: map<string, Transcript>, media: string, question: string, userId: Option<string>,
                   complete: string -> Option<string>) returns (r: Result<Reply, Failure>)
      modifies this
      ensures MaybeHandleTranslation(transcripts, media, question, complete).Some? ==>
                r == Ok(MaybeHandleTranslation(transcripts, media, question, complete).value) && files == old(files)
      ensures MaybeHandleTranslation(transcripts, media, question, complete).None? ==>
                var key := HistoryKey(media, userId);
                var data := if media in transcripts then Some(transcripts[media]) else None;
                var turn := GptTurn(old(Load(key)), data, question, complete);
                && (turn.Err? ==> r == Err(turn.error) && files == old(files))
                && (turn.Ok? ==> r == Ok(turn.value.reply)
                                 && files == old(files)[key := Saved(Retain(turn.value.history))])
    {
      var trans := MaybeHandleTranslation(transcripts, media, question, complete);
      if trans.Some? {
        return Ok(trans.value);
      }
      var data := if media in transcripts then Some(transcripts[media]) else None;
      var key := HistoryKey(media, userId);
      var turn := RunGptTurn(Load(key), data, question, complete);
      if turn.Err? {
        return Err(turn.error);
      }
      Save(key, turn.value.history);
      r := Ok(turn.value.reply);
    }
  }
}
