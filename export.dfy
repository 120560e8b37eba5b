/**
 * The transcript exporters of the media router: SubRip (SRT) blocks with
 * `HH:MM:SS,mmm` stamps, the single-block fallback for a transcript without
 * segments, and the PDF export's `MM:SS.mmm` stamps. Times are integer
 * milliseconds.
 */
module Export {
  import opened Wrappers
  import opened Text
  import opened Transcripts

  /** The fields of a time: h = sec // 3600, m = (sec % 3600) // 60, s = sec % 60, and the milliseconds. */
  datatype Clock = Clock(h: nat, m: nat, s: nat, ms: nat)

  function ClockOf(t: nat): Clock {
    Clock(t / 3600000, (t / 1000) % 3600 / 60, (t / 1000) % 60, t % 1000)
  }

  lemma DivBy60(t: nat, q: nat, r: nat)
    requires r < 60 && t == q * 60 + r
    ensures t / 60 == q && t % 60 == r
  {
  }

  lemma DivByHour(t: nat, q: nat, r: nat)
    requires r < 3600000 && t == q * 3600000 + r
    ensures t / 3600000 == q
  {
  }

  /** The fields are in range and recompose the time. */
  lemma ClockOfSpec(t: nat)
    ensures var c := ClockOf(t);
      c.m < 60 && c.s < 60 && c.ms < 1000 && c.h * 3600000 + c.m * 60000 + c.s * 1000 + c.ms == t
  {
    var sec := t / 1000;
    var ms := t % 1000;
    var h := sec / 3600;
    var rest := sec % 3600;
    var m := rest / 60;
    var s := rest % 60;
    assert t == sec * 1000 + ms;
    assert sec == h * 3600 + rest;
    assert rest == m * 60 + s;
    assert sec == (h * 60 + m) * 60 + s;
    DivBy60(sec, h * 60 + m, s);
    assert t == h * 3600000 + (rest * 1000 + ms);
    DivByHour(t, h, rest * 1000 + ms);
  }

  /** Where the fields of a stamp `hh:mm:ss<sep>fff` sit. */
  lemma StampLayout(hh: string, mm: string, ss: string, sep: string, ff: string)
    requires |hh| == 2 && |mm| == 2 && |ss| == 2 && |sep| == 1 && |ff| == 3
    ensures var r := hh + ":" + mm + ":" + ss + sep + ff;
      && |r| == 12 && r[..2] == hh && r[2] == ':' && r[3..5] == mm && r[5] == ':'
      && r[6..8] == ss && r[8] == sep[0] && r[9..] == ff
      && r[..8] == hh + ":" + mm + ":" + ss && r[3..8] == mm + ":" + ss
  {
    var r := hh + ":" + mm + ":" + ss + sep + ff;
    assert r == hh + (":" + mm + ":" + ss + sep + ff);
  }

  /** Where the fields of a stamp `mm:ss<sep>fff` sit. */
  lemma ShortStampLayout(mm: string, ss: string, sep: string, ff: string)
    requires |mm| == 2 && |ss| == 2 && |sep| == 1 && |ff| == 3
    ensures var r := mm + ":" + ss + sep + ff;
      |r| == 9 && r[..5] == mm + ":" + ss && r[5] == sep[0] && r[6..] == ff
  {
  }

  /** `fmt` / `format_ts`: `f"{h:02}:{m:02}:{s:02},{ms:03}"` */
  function SrtTime(t: nat): string {
    var c := ClockOf(t);
    ZeroPad(c.h, 2) + ":" + ZeroPad(c.m, 2) + ":" + ZeroPad(c.s, 2) + "," + ZeroPad(c.ms, 3)
  }

  /** Below 100 hours the stamp is twelve characters whose fields read back as the time. */
  lemma SrtTimeRoundTrip(t: nat)
    requires t < 360000000
    ensures var r := SrtTime(t);
      && |r| == 12 && r[2] == ':' && r[5] == ':' && r[8] == ','
      && IsDigits(r[..2]) && IsDigits(r[3..5]) && IsDigits(r[6..8]) && IsDigits(r[9..])
      && ParseNat(r[..2]) * 3600000 + ParseNat(r[3..5]) * 60000 + ParseNat(r[6..8]) * 1000 + ParseNat(r[9..]) == t
  {
    var c := ClockOf(t);
    ClockOfSpec(t);
    var hh := ZeroPad(c.h, 2);
    var mm := ZeroPad(c.m, 2);
    var ss := ZeroPad(c.s, 2);
    var ff := ZeroPad(c.ms, 3);
    ZeroPadLength(c.h, 2);
    ZeroPadLength(c.m, 2);
    ZeroPadLength(c.s, 2);
    ZeroPadLength(c.ms, 3);
    ParseZeroPad(c.h, 2);
    ParseZeroPad(c.m, 2);
    ParseZeroPad(c.s, 2);
    ParseZeroPad(c.ms, 3);
    StampLayout(hh, mm, ss, ",", ff);
  }

  /** `fmt_ts`: `f"{h:02}:{m:02}:{s:02}.{ms:03}"`, or without the hours when h is zero. */
  function PdfTime(t: nat): string {
    var c := ClockOf(t);
    if c.h != 0 then ZeroPad(c.h, 2) + ":" + ZeroPad(c.m, 2) + ":" + ZeroPad(c.s, 2) + "." + ZeroPad(c.ms, 3)
    else ZeroPad(c.m, 2) + ":" + ZeroPad(c.s, 2) + "." + ZeroPad(c.ms, 3)
  }

  /**
   * The PDF stamp is the SRT stamp with '.' before the milliseconds, and
   * without its first three characters when the hours are zero.
   */
  lemma PdfTimeMatchesSrt(t: nat)
    requires t < 360000000
    ensures var p := PdfTime(t); var r := SrtTime(t);
      && (ClockOf(t).h == 0 ==> |p| == 9 && p[..5] == r[3..8] && p[5] == '.' && p[6..] == r[9..])
      && (ClockOf(t).h != 0 ==> |p| == 12 && p[..8] == r[..8] && p[8] == '.' && p[9..] == r[9..])
  {
    var c := ClockOf(t);
    ClockOfSpec(t);
    var hh := ZeroPad(c.h, 2);
    var mm := ZeroPad(c.m, 2);
    var ss := ZeroPad(c.s, 2);
    var ff := ZeroPad(c.ms, 3);
    ZeroPadLength(c.h, 2);
    ZeroPadLength(c.m, 2);
    ZeroPadLength(c.s, 2);
    ZeroPadLength(c.ms, 3);
    StampLayout(hh, mm, ss, ",", ff);
    if c.h == 0 {
      ShortStampLayout(mm, ss, ".", ff);
    } else {
      StampLayout(hh, mm, ss, ".", ff);
    }
  }

  // ---------------------------------------------------------------------------
  // SRT blocks
  // ---------------------------------------------------------------------------

  /** `seg.get('start', 0)` */
  function StartOrZero(s: Segment): nat {
    if s.start.Some? then s.start.value else 0
  }

  /** The media router's end: `seg.get('end', seg.get('start', 0.0) + 2)`. */
  function EndOrTwoSeconds(s: Segment): nat {
    if s.end.Some? then s.end.value else StartOrZero(s) + 2000
  }

  /** The database router's end: `seg.get('end', 0)`. */
  function EndOrZero(s: Segment): nat {
    if s.end.Some? then s.end.value else 0
  }

  /** `f"{fmt(start)} --> {fmt(end)}"` */
  function StampLine(s: Segment, endOf: Segment -> nat): string {
    SrtTime(StartOrZero(s)) + " --> " + SrtTime(endOf(s))
  }

  /** The four lines of the block numbered `index`. */
  function SrtBlock(index: nat, s: Segment, endOf: Segment -> nat): seq<string> {
    [NatToString(index), StampLine(s, endOf), Strip(s.text), ""]
  }

  /** The blocks of the media router's export. */
  function MediaRouterBlock(index: nat, s: Segment): seq<string> {
    SrtBlock(index, s, EndOrTwoSeconds)
  }

  /** The blocks of the database router's export. */
  function DatabaseRouterBlock(index: nat, s: Segment): seq<string> {
    SrtBlock(index, s, EndOrZero)
  }

  /** The lines of every block, numbered from 1 in segment order. */
  function Blocks(segs: seq<Segment>, block: (nat, Segment) -> seq<string>): seq<string> {
    if segs == [] then []
    else Blocks(segs[..|segs| - 1], block) + block(|segs|, segs[|segs| - 1])
  }

  /** With four-line blocks, lines 4i to 4i+3 are the block of segment i, numbered i + 1. */
  lemma {:induction false} BlocksSpec(segs: seq<Segment>, block: (nat, Segment) -> seq<string>)
    requires forall index: nat, s: Segment :: |block(index, s)| == 4
    ensures |Blocks(segs, block)| == 4 * |segs|
    ensures forall i :: 0 <= i < |segs| ==> Blocks(segs, block)[4 * i .. 4 * i + 4] == block(i + 1, segs[i])
  {
    if segs != [] {
      var init := segs[..|segs| - 1];
      BlocksSpec(init, block);
      var lines := Blocks(segs, block);
      var last := block(|segs|, segs[|segs| - 1]);
      assert lines == Blocks(init, block) + last;
      forall i | 0 <= i < |segs| ensures lines[4 * i .. 4 * i + 4] == block(i + 1, segs[i]) {
        if i < |init| {
          assert lines[4 * i .. 4 * i + 4] == Blocks(init, block)[4 * i .. 4 * i + 4];
          assert init[i] == segs[i];
        } else {
          assert lines[4 * i .. 4 * i + 4] == last;
        }
      }
    }
  }

  /** Both routers' blocks have four lines each. */
  lemma RouterBlocksSpec(segs: seq<Segment>)
    ensures |Blocks(segs, MediaRouterBlock)| == 4 * |segs|
    ensures forall i :: 0 <= i < |segs| ==> Blocks(segs, MediaRouterBlock)[4 * i .. 4 * i + 4] == SrtBlock(i + 1, segs[i], EndOrTwoSeconds)
    ensures |Blocks(segs, DatabaseRouterBlock)| == 4 * |segs|
    ensures forall i :: 0 <= i < |segs| ==> Blocks(segs, DatabaseRouterBlock)[4 * i .. 4 * i + 4] == SrtBlock(i + 1, segs[i], EndOrZero)
  {
    BlocksSpec(segs, MediaRouterBlock);
    BlocksSpec(segs, DatabaseRouterBlock);
  }

  /** The `for idx, seg in enumerate(...)` loop that appends the four lines of each block. */
  method BuildSrtLines(segs: seq<Segment>, block: (nat, Segment) -> seq<string>) returns (lines: seq<string>)
    ensures lines == Blocks(segs, block)
  {
    lines := [];
    var i := 0;
    while i < |segs|
      invariant 0 <= i <= |segs|
      invariant lines == Blocks(segs[..i], block)
    {
      assert segs[..i + 1][..i] == segs[..i];
      lines := lines + block(i + 1, segs[i]);
      i := i + 1;
    }
    assert segs[..|segs|] == segs;
  }

  /** The fallback block covering ten minutes. */
  const SrtFallbackStamps: string := "00:00:00,000" + " --> " + "00:10:00,000"

  lemma ZeroPadSmall(n: nat, w: nat)
    requires n < 10 && 1 <= w
    ensures ZeroPad(n, w) == Zeros(w - 1) + [DigitChar(n)]
  {
  }

  lemma ZeroPadZeros()
    ensures ZeroPad(0, 2) == "00" && ZeroPad(0, 3) == "000"
  {
    ZeroPadSmall(0, 2);
    ZeroPadSmall(0, 3);
  }

  lemma ZeroPadTen()
    ensures ZeroPad(10, 2) == "10"
  {
    assert NatToString(1) == "1";
    assert NatToString(10) == "10";
  }

  lemma SrtTimeZero()
    ensures SrtTime(0) == "00:00:00,000"
  {
    assert ClockOf(0) == Clock(0, 0, 0, 0);
    ZeroPadZeros();
  }

  lemma SrtTimeTenMinutes()
    ensures SrtTime(600000) == "00:10:00,000"
  {
    assert ClockOf(600000) == Clock(0, 10, 0, 0);
    ZeroPadZeros();
    ZeroPadTen();
  }

  /** The fallback block runs from 0 to ten minutes. */
  lemma FallbackStamps()
    ensures SrtFallbackStamps == SrtTime(0) + " --> " + SrtTime(600000)
  {
    SrtTimeZero();
    SrtTimeTenMinutes();
  }

  /** `export_srt` of the media router, for a transcript that was read. */
  function SrtContent(t: Transcript): string {
    if t.segments != [] then Join("\n", Blocks(t.segments, MediaRouterBlock))
    else "1\n" + SrtFallbackStamps + "\n" + t.text + "\n"
  }

  const TranscriptNotFound: string := "Transcript not found"

  /**
   * `export_srt` of the media router: 404 without a transcript, else the
   * blocks joined by newlines, or the fallback block around the full text.
   */
  method ExportSrt(transcripts: map<string, Transcript>, media: string) returns (r: Result<string, HttpError>)
    ensures media !in transcripts ==> r == Err(HttpError(404, TranscriptNotFound))
    ensures media in transcripts ==> r == Ok(SrtContent(transcripts[media]))
  {
    if media !in transcripts {
      return Err(HttpError(404, TranscriptNotFound));
    }
    var data := transcripts[media];
    var content;
    if data.segments != [] {
      var lines := BuildSrtLines(data.segments, MediaRouterBlock);
      content := Join("\n", lines);
    } else {
      content := "1\n" + SrtFallbackStamps + "\n" + data.text + "\n";
    }
    r := Ok(content);
  }

  /** Without segments, the export is one block from 0 to ten minutes carrying the whole text. */
  lemma SrtContentFallback(t: Transcript)
    requires t.segments == []
    ensures SrtContent(t) == "1\n" + SrtTime(0) + " --> " + SrtTime(600000) + "\n" + t.text + "\n"
  {
    FallbackStamps();
  }

  /**
   * With segments, the export is its lines joined by newlines, and lines 4i
   * to 4i+3 are segment i's number (from 1), its stamps, its stripped text
   * and a blank line.
   */
  lemma SrtContentBlocks(t: Transcript)
    requires t.segments != []
    ensures SrtContent(t) == Join("\n", Blocks(t.segments, MediaRouterBlock))
    ensures |Blocks(t.segments, MediaRouterBlock)| == 4 * |t.segments|
    ensures forall i :: 0 <= i < |t.segments| ==>
      Blocks(t.segments, MediaRouterBlock)[4 * i .. 4 * i + 4]
        == [NatToString(i + 1), SrtTime(StartOrZero(t.segments[i])) + " --> " + SrtTime(EndOrTwoSeconds(t.segments[i])), Strip(t.segments[i].text), ""]
  {
    RouterBlocksSpec(t.segments);
  }

  /** `export_txt`: 404 without a transcript, else its text or, when that is empty, the segment texts joined by spaces. */
  method ExportTxt(transcripts: map<string, Transcript>, media: string) returns (r: Result<string, HttpError>)
    ensures media !in transcripts ==> r == Err(HttpError(404, TranscriptNotFound))
    ensures media in transcripts ==> r == Ok(FullText(transcripts[media]))
  {
    if media !in transcripts {
      return Err(HttpError(404, TranscriptNotFound));
    }
    r := Ok(FullText(transcripts[media]));
  }
}
