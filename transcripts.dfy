/**
 * The transcript record produced by the transcription service and read by
 * every handler: the full text, the detected language and the timed segments.
 * Times are integer milliseconds. A start or end of None stands for a segment
 * whose JSON object has the key missing or null.
 */
module Transcripts {
  import opened Wrappers
  import opened Text

  datatype Segment = Segment(start: Option<nat>, end: Option<nat>, text: string)

  datatype Transcript = Transcript(text: string, language: Option<string>, segments: seq<Segment>)

  function SegmentTexts(segs: seq<Segment>): (r: seq<string>)
    ensures |r| == |segs| && forall i :: 0 <= i < |segs| ==> r[i] == segs[i].text
  {
    if segs == [] then [] else [segs[0].text] + SegmentTexts(segs[1..])
  }

  /**
   * `data.get('text') or ' '.join(s.get('text','') for s in data.get('segments', []))`:
   * the stored text, or the segment texts joined by spaces when it is empty.
   */
  function FullText(t: Transcript): string {
    if t.text != "" then t.text else Join(" ", SegmentTexts(t.segments))
  }

  /** The full text is empty only when the stored text is and there is at most one segment, with empty text. */
  lemma FullTextEmpty(t: Transcript)
    ensures FullText(t) == "" <==> t.text == "" && (t.segments == [] || (|t.segments| == 1 && t.segments[0].text == ""))
  {
    var parts := SegmentTexts(t.segments);
    if |parts| >= 2 {
      assert Join(" ", parts) == parts[0] + " " + Join(" ", parts[1..]);
    }
  }
}
