/**
 * `RealtimeTranscriber`: the pseudo-streaming transcriber of a live capture.
 * Audio bytes accumulate in a buffer; at most every `decodeInterval`
 * milliseconds, once 4000 bytes are buffered, the whole buffer is decoded
 * and the part of the text not yet emitted is sent as a partial; `Finalize`
 * decodes once more and sends the final text, at most once. The Whisper
 * decode is the parameter `decode` (None: it raised); the messages handed
 * to `send_cb` are appended to the field `sent`; the clock is the parameter
 * `now`, in milliseconds.
 */
module Realtime {
  import opened Wrappers
  import opened Text
  import opened Transcripts

  /** What `_decode_bytes` returns: `result.get('text')` (None: absent) and the segments. */
  datatype Decoded = Decoded(text: Option<string>, segments: seq<Segment>)

  /** The messages given to `send_cb`. */
  datatype Message =
    | Partial(text: string, delta: string, segments: seq<Segment>)   // {"type": "partial", ...}
    | Final(text: string, finalSegments: Option<seq<Segment>>)        // {"type": "final", ...}; no "segments" key for an empty buffer
    | DecodeFailed                                                     // {"type": "error", "message": "decode_failed: ..."}
    | FinalizeFailed                                                   // {"type": "error", "message": "finalize_failed: ..."}

  const MinDecodeBytes: nat := 4000
  const DefaultDecodeInterval: nat := 2000
  const PartialSegments: nat := 5

  /** `text[len(last):] if text.startswith(last) else text` */
  function Delta(last: string, text: string): (d: string)
    ensures StartsWith(text, last) ==> last + d == text
    ensures !StartsWith(text, last) ==> d == text
  {
    if StartsWith(text, last) then text[|last|..] else text
  }

  /** The delta is always a suffix of the new text, and empty exactly when the new text is empty or the last one emitted. */
  lemma DeltaSuffix(last: string, text: string)
    ensures var d := Delta(last, text); |d| <= |text| && d == text[|text| - |d|..]
    ensures Delta(last, text) == "" <==> text == "" || text == last
  {
    if StartsWith(text, last) {
      assert text == last + text[|last|..];
    }
  }

  /** The partial a decode result yields after `last` was emitted, if any. */
  function PartialFor(last: string, d: Decoded): Option<Message> {
    if d.text.None? || d.text.value == "" then None
    else
      var delta := Delta(last, d.text.value);
      if IsBlank(delta) then None else Some(Partial(d.text.value, delta, Last(d.segments, PartialSegments)))
  }

  /**
   * A partial is sent only for a non-empty text whose delta is not blank; it
   * carries the full text, the delta (what follows the last emitted text
   * when the new text extends it), and at most the last five segments.
   */
  lemma PartialForSpec(last: string, d: Decoded)
    ensures var m := PartialFor(last, d);
      && (m.Some? <==> d.text.Some? && d.text.value != "" && !IsBlank(Delta(last, d.text.value)))
      && (m.Some? ==>
            && m.value.Partial? && m.value.text == d.text.value
            && (StartsWith(d.text.value, last) ==> last + m.value.delta == d.text.value)
            && |m.value.segments| <= PartialSegments && m.value.segments == d.segments[|d.segments| - |m.value.segments|..])
    ensures PartialFor(last, d).Some? ==> d.text.value != last
  {
    if d.text.Some? && d.text.value != "" && d.text.value == last {
      assert StartsWith(last, last);
      assert Delta(last, last) == "";
    }
  }

  /** The text of the last partial or final message, or "" before any. */
  function LastText(sent: seq<Message>): string {
    if sent == [] then ""
    else match sent[|sent| - 1]
      case Partial(text, _, _) => text
      case Final(text, _) => text
      case _ => LastText(sent[..|sent| - 1])
  }

  /** The number of messages sent by `finalize`. */
  function Finishes(sent: seq<Message>): nat {
    if sent == [] then 0
    else Finishes(sent[..|sent| - 1]) + (if sent[|sent| - 1].Final? || sent[|sent| - 1].FinalizeFailed? then 1 else 0)
  }

  lemma LastTextSnoc(sent: seq<Message>, m: Message)
    ensures LastText(sent + [m]) == match m
      case Partial(text, _, _) => text
      case Final(text, _) => text
      case _ => LastText(sent)
    ensures Finishes(sent + [m]) == Finishes(sent) + (if m.Final? || m.FinalizeFailed? then 1 else 0)
  {
    assert (sent + [m])[..|sent|] == sent;
  }

  class RealtimeTranscriber {
    var buffer: seq<bv8>
    var lastEmitText: string
    var lastDecodeTime: int
    const decodeInterval: int
    var closing: bool
    /** Every message handed to `send_cb`, in order. */
    var sent: seq<Message>

    /**
     * The last emitted text is the text of the last partial or final sent;
     * `finalize` has sent exactly one message once closing, none before.
     */
    predicate Valid()
      reads this
    {
      lastEmitText == LastText(sent) && Finishes(sent) == (if closing then 1 else 0)
    }

    constructor (interval: int)
      ensures Valid()
      ensures buffer == [] && lastEmitText == "" && lastDecodeTime == 0 && decodeInterval == interval
      ensures !closing && sent == []
    {
      buffer := [];
      lastEmitText := "";
      lastDecodeTime := 0;
      decodeInterval := interval;
      closing := false;
      sent := [];
    }

    /** `add_chunk`: the data goes at the end of the buffer; nothing else changes. */
    method AddChunk(data: seq<bv8>)
      modifies this
      ensures buffer == old(buffer) + data
      ensures lastEmitText == old(lastEmitText) && lastDecodeTime == old(lastDecodeTime)
      ensures closing == old(closing) && sent == old(sent)
      ensures old(Valid()) ==> Valid()
    {
      buffer := buffer + data;
    }

    /**
     * `maybe_decode` at time `now`: nothing happens before the interval has
     * passed since the last decode or while fewer than 4000 bytes are
     * buffered; otherwise the decode time becomes `now`, a failed decode
     * sends an error, and a decode that yields a partial sends it and
     * records its text as emitted.
     */
    method MaybeDecode(now: int, decode: seq<bv8> -> Option<Decoded>)
      modifies this
      ensures buffer == old(buffer) && closing == old(closing)
      ensures now - old(lastDecodeTime) < decodeInterval || |buffer| < MinDecodeBytes ==>
        lastDecodeTime == old(lastDecodeTime) && lastEmitText == old(lastEmitText) && sent == old(sent)
      ensures !(now - old(lastDecodeTime) < decodeInterval || |buffer| < MinDecodeBytes) ==>
        && lastDecodeTime == now
        && (decode(buffer).None? ==> lastEmitText == old(lastEmitText) && sent == old(sent) + [DecodeFailed])
        && (decode(buffer).Some? ==>
              var m := PartialFor(old(lastEmitText), decode(buffer).value);
              && (m.None? ==> lastEmitText == old(lastEmitText) && sent == old(sent))
              && (m.Some? ==> lastEmitText == m.value.text && sent == old(sent) + [m.value]))
      ensures old(Valid()) ==> Valid()
    {
      if now - lastDecodeTime < decodeInterval {
        return;
      }
      var data := buffer;
      if |data| < MinDecodeBytes {
        return;
      }
      lastDecodeTime := now;
      var result := decode(data);
      if result.None? {
        LastTextSnoc(sent, DecodeFailed);
        sent := sent + [DecodeFailed];
        return;
      }
      var text := result.value.text;
      if text.None? || text.value == "" {
        return;
      }
      var newText := Delta(lastEmitText, text.value);
      if !IsBlank(newText) {
        var m := Partial(text.value, newText, Last(result.value.segments, PartialSegments));
        LastTextSnoc(sent, m);
        lastEmitText := text.value;
        sent := sent + [m];
      }
    }

    /**
     * `finalize`: a second call changes nothing. The first one closes the
     * transcriber and sends one message: the last emitted text for an empty
     * buffer; an error when the decode fails; else the final text, which is
     * the decoded text or, when that is empty, the last emitted one.
     */
    method Finalize(decode: seq<bv8> -> Option<Decoded>)
      modifies this
      ensures buffer == old(buffer) && lastDecodeTime == old(lastDecodeTime)
      ensures old(closing) ==> closing && lastEmitText == old(lastEmitText) && sent == old(sent)
      ensures !old(closing) ==>
        && closing
        && (buffer == [] ==> lastEmitText == old(lastEmitText) && sent == old(sent) + [Final(old(lastEmitText), None)])
        && (buffer != [] && decode(buffer).None? ==> lastEmitText == old(lastEmitText) && sent == old(sent) + [FinalizeFailed])
        && (buffer != [] && decode(buffer).Some? ==>
              var t := decode(buffer).value.text;
              && lastEmitText == (if t.Some? && t.value != "" then t.value else old(lastEmitText))
              && sent == old(sent) + [Final(lastEmitText, Some(decode(buffer).value.segments))])
      ensures old(Valid()) ==> Valid()
    {
      if closing {
        return;
      }
      closing := true;
      EmitFinal(decode);
    }

    /** The body of `finalize` after the closing flag is set: the one message it sends. */
    method EmitFinal(decode: seq<bv8> -> Option<Decoded>)
      modifies this
      ensures buffer == old(buffer) && lastDecodeTime == old(lastDecodeTime) && closing == old(closing)
      ensures buffer == [] ==> lastEmitText == old(lastEmitText) && sent == old(sent) + [Final(old(lastEmitText), None)]
      ensures buffer != [] && decode(buffer).None? ==> lastEmitText == old(lastEmitText) && sent == old(sent) + [FinalizeFailed]
      ensures buffer != [] && decode(buffer).Some? ==>
        var t := decode(buffer).value.text;
        && lastEmitText == (if t.Some? && t.value != "" then t.value else old(lastEmitText))
        && sent == old(sent) + [Final(lastEmitText, Some(decode(buffer).value.segments))]
      ensures old(lastEmitText == LastText(sent)) ==> lastEmitText == LastText(sent)
      ensures Finishes(sent) == old(Finishes(sent)) + 1
    {
      var data := buffer;
      if data == [] {
        LastTextSnoc(sent, Final(lastEmitText, None));
        sent := sent + [Final(lastEmitText, None)];
        return;
      }
      var result := decode(data);
      if result.None? {
        LastTextSnoc(sent, FinalizeFailed);
        sent := sent + [FinalizeFailed];
        return;
      }
      var text := result.value.text;
      if text.Some? && text.value != "" {
        lastEmitText := text.value;
      }
      var m := Final(lastEmitText, Some(result.value.segments));
      LastTextSnoc(sent, m);
      sent := sent + [m];
    }
  }
}
