/**
 * The values the chat handlers exchange: conversation turns as stored in a
 * history file, the token-usage record, and the reply dictionary returned to
 * the HTTP layer.
 */
module Replies {
  import opened Wrappers
  import opened Transcripts

  /** One history entry, `{"role": ..., "content": ...}`; a missing content is "". */
  datatype Turn = Turn(role: string, content: string)

  /** The `usage` dictionary without its floating-point cost estimate. */
  datatype Usage = Usage(promptTokens: nat, completionTokens: nat, totalTokens: nat)

  /**
   * The reply dictionary: `answer`, `references` (start, end and text of the
   * cited segments), and the optional `history` and `usage` keys.
   */
  datatype Reply = Reply(answer: string, references: seq<Segment>, history: Option<seq<Turn>>, usage: Option<Usage>)

  /** Why a handler raises instead of replying. */
  datatype Failure =
    | ModelCallFailed        // the generative-model call raised
    | TimestampNotNumeric    // a context segment's start or end is None, so its `:.1f` format raises
}

/** `_estimate_tokens` and `_build_usage`: a word-count estimate of tokens. */
module Usage {
  import opened Text
  import opened Replies

  /**
   * `0` for the empty string, else `int(len(text.strip().split()) * 1.3)`.
   * For a whole number w, the float product w * 1.3 never crosses an integer
   * boundary, so its truncation is floor(13 w / 10).
   */
  function EstimateTokens(text: string): nat {
    if text == "" then 0 else (13 * |Words(Strip(text))|) / 10
  }

  /** The estimate is floor(1.3 w) of the whitespace word count w, and 0 exactly when there is no word. */
  lemma EstimateTokensSpec(text: string)
    ensures EstimateTokens(text) == (13 * |Words(text)|) / 10
    ensures EstimateTokens(text) == 0 <==> IsBlank(text)
    ensures |Words(text)| <= EstimateTokens(text)
  {
    WordsStrip(text);
    WordsEmptyIffBlank(text);
  }

  /**
   * `prompt_tokens = est(question) + int(extra_context / 4)`,
   * `completion_tokens = est(completion)`, and their sum as the total.
   */
  function BuildUsage(question: string, completion: string, extraContext: nat): (u: Usage)
    ensures u.totalTokens == u.promptTokens + u.completionTokens
    ensures u.promptTokens == EstimateTokens(question) + extraContext / 4
    ensures u.completionTokens == EstimateTokens(completion)
  {
    var p := EstimateTokens(question) + extraContext / 4;
    var c := EstimateTokens(completion);
    Usage(p, c, p + c)
  }

  /** More context characters never lower the prompt estimate; four more raise it by one. */
  lemma BuildUsageContextMonotone(question: string, completion: string, a: nat, b: nat)
    requires a <= b
    ensures BuildUsage(question, completion, a).promptTokens <= BuildUsage(question, completion, b).promptTokens
    ensures BuildUsage(question, completion, a + 4).totalTokens == BuildUsage(question, completion, a).totalTokens + 1
  {
  }
}
