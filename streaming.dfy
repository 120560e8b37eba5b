/**
 * `stream_chunks`: the answer is re-sent in pieces, cut greedily at
 * whitespace so that a piece stays within `size` characters unless it is a
 * single longer word.
 */
module Streaming {
  import opened Text

  /** The pieces yielded so far followed by the pending buffer, if any. */
  function Flush(out: seq<string>, buf: string): seq<string> {
    if buf == [] then out else out + [buf]
  }

  /** A piece either fits or is one word. */
  predicate FitsOrWord(c: string, size: int) {
    |c| <= size || NoSpace(c)
  }

  /** The buffer neither starts nor ends with whitespace. */
  predicate Trimmed(c: string) {
    c != [] ==> !IsSpace(c[0]) && !IsSpace(c[|c| - 1])
  }

  /** Yielding the buffer and starting a new one with `part` adds " " + part to the joined text. */
  lemma FlushYield(out: seq<string>, buf: string, part: string)
    requires buf != []
    ensures part != [] ==> Join(" ", Flush(out + [buf], part)) == Join(" ", Flush(out, buf)) + " " + part
  {
    JoinSnoc(" ", out + [buf], part);
  }

  /** Growing the buffer by " " + part adds " " + part to the joined text. */
  lemma FlushExtend(out: seq<string>, buf: string, part: string)
    requires buf != []
    ensures Join(" ", Flush(out, buf + " " + part)) == Join(" ", Flush(out, buf)) + " " + part
  {
    JoinSnoc(" ", out, buf);
    JoinSnoc(" ", out, buf + " " + part);
  }

  /** `f"{buf} {part}".strip()` for a trimmed buffer and a word. */
  lemma StripSpaced(buf: string, part: string)
    requires Trimmed(buf) && part != [] && NoSpace(part)
    ensures Strip(buf + " " + part) == if buf == [] then part else buf + " " + part
    ensures buf != [] ==> Trimmed(buf + " " + part)
  {
    if buf == [] {
      assert buf + " " + part == " " + part;
      StripLeadingSpace(part);
    } else {
      ExtendTrimmed(buf, part);
    }
  }

  lemma FlushFirst(part: string, firstPart: seq<string>)
    requires firstPart == [part]
    ensures Join(" ", Flush([], part)) == Join(" ", firstPart)
  {
    if part != [] {
      assert Flush([], part) == [part];
    }
  }

  /** Joining one more word. */
  lemma JoinPrefixSnoc(parts: seq<string>, i: nat)
    requires 0 < i < |parts|
    ensures Join(" ", parts[..i + 1]) == Join(" ", parts[..i]) + " " + parts[i]
  {
    assert parts[..i + 1] == parts[..i] + [parts[i]];
    JoinSnoc(" ", parts[..i], parts[i]);
  }

  /** The buffer grown by one word keeps trimmed ends. */
  lemma ExtendTrimmed(buf: string, part: string)
    requires buf != [] && Trimmed(buf) && part != [] && NoSpace(part)
    ensures Trimmed(buf + " " + part) && Strip(buf + " " + part) == buf + " " + part
  {
    var j := buf + " " + part;
    assert j[0] == buf[0] && j[|j| - 1] == part[|part| - 1];
    StripNoop(j);
  }

  /** The first word of `next` would not have fitted after `c` and a space. */
  predicate NoRoomFor(c: string, next: string, size: int) {
    |c| + 1 + WordLen(next) > size
  }

  /** No piece could have taken the first word of the piece after it. */
  predicate Greedy(cs: seq<string>, size: int) {
    forall k :: 0 <= k < |cs| - 1 ==> NoRoomFor(cs[k], cs[k + 1], size)
  }

  /** The loop invariant of the chunker after the first i words. */
  predicate ChunkerInv(parts: seq<string>, i: nat, out: seq<string>, buf: string, size: int) {
    && i <= |parts|
    && (i == 0 ==> out == [] && buf == [])
    && (i > 0 ==> buf != [])
    && Trimmed(buf) && FitsOrWord(buf, size)
    && (forall k :: 0 <= k < |out| ==> out[k] != [] && FitsOrWord(out[k], size))
    && Join(" ", Flush(out, buf)) == Join(" ", parts[..i])
  }

  /** The pieces yielded so far are greedy, and so is the last of them against the buffer. */
  predicate GreedyInv(out: seq<string>, buf: string, size: int) {
    Greedy(out, size) && (out != [] ==> NoRoomFor(out[|out| - 1], buf, size))
  }

  predicate AllWords(parts: seq<string>) {
    forall k :: 0 <= k < |parts| ==> parts[k] != [] && NoSpace(parts[k])
  }

  /** Yielding the full buffer keeps the invariant. */
  lemma YieldStep(parts: seq<string>, i: nat, out: seq<string>, buf: string, size: int)
    requires AllWords(parts) && ChunkerInv(parts, i, out, buf, size) && i < |parts|
    requires |buf| + |parts[i]| + 1 > size && buf != []
    ensures ChunkerInv(parts, i + 1, out + [buf], parts[i], size)
  {
    JoinPrefixSnoc(parts, i);
    FlushYield(out, buf, parts[i]);
  }

  /** Yielding the buffer because the next word did not fit keeps the pieces greedy. */
  lemma YieldGreedy(out: seq<string>, buf: string, part: string, size: int)
    requires GreedyInv(out, buf, size) && part != [] && NoSpace(part) && |buf| + |part| + 1 > size
    ensures GreedyInv(out + [buf], part, size)
  {
    WordLenOfWord(part, []);
    assert part + [] == part;
    var out' := out + [buf];
    forall k | 0 <= k < |out'| - 1 ensures NoRoomFor(out'[k], out'[k + 1], size) {
      if k < |out| - 1 {
        assert out'[k] == out[k] && out'[k + 1] == out[k + 1];
      }
    }
  }

  /** Text after whitespace does not change the first word. */
  lemma NoRoomKept(c: string, buf: string, t: string, size: int)
    requires NoRoomFor(c, buf, size) && buf != [] && t != [] && IsSpace(t[0])
    ensures NoRoomFor(c, buf + t, size)
  {
    WordLenAppend(buf, t);
  }

  /** Growing the buffer leaves its first word, so the pieces stay greedy. */
  lemma ExtendGreedy(out: seq<string>, buf: string, part: string, size: int)
    requires GreedyInv(out, buf, size) && (out != [] ==> buf != []) && Trimmed(buf) && part != [] && NoSpace(part)
    ensures GreedyInv(out, Strip(buf + " " + part), size)
  {
    if out != [] {
      var t := " " + part;
      assert t[0] == ' ';
      NoRoomKept(out[|out| - 1], buf, t, size);
      assert buf + " " + part == buf + t;
      StripSpaced(buf, part);
    }
  }

  /** The greedy pieces and the last buffer are greedy together. */
  lemma FlushGreedy(out: seq<string>, buf: string, size: int)
    requires GreedyInv(out, buf, size)
    ensures Greedy(Flush(out, buf), size)
  {
    if buf != [] {
      var cs := out + [buf];
      forall k | 0 <= k < |cs| - 1 ensures NoRoomFor(cs[k], cs[k + 1], size) {
        if k < |out| - 1 {
          assert cs[k] == out[k] && cs[k + 1] == out[k + 1];
        }
      }
    }
  }

  /** Growing the buffer by the next word keeps the invariant. */
  lemma ExtendStep(parts: seq<string>, i: nat, out: seq<string>, buf: string, size: int)
    requires AllWords(parts) && ChunkerInv(parts, i, out, buf, size) && i < |parts|
    requires !(|buf| + |parts[i]| + 1 > size && buf != [])
    ensures ChunkerInv(parts, i + 1, out, Strip(buf + " " + parts[i]), size)
  {
    var part := parts[i];
    StripSpaced(buf, part);
    if buf == [] {
      FlushFirst(part, parts[..1]);
    } else {
      JoinPrefixSnoc(parts, i);
      FlushExtend(out, buf, part);
    }
  }

  /**
   * The generator as a method returning everything it yields: no piece is
   * empty, the pieces joined by single spaces are the answer's words joined
   * by single spaces, and every piece is at most `size` characters or a
   * single word.
   */
  method StreamChunks(answer: string, size: int) returns (chunks: seq<string>)
    ensures forall i :: 0 <= i < |chunks| ==> chunks[i] != []
    ensures Join(" ", chunks) == Join(" ", Words(answer))
    ensures forall i :: 0 <= i < |chunks| ==> FitsOrWord(chunks[i], size)
    ensures Greedy(chunks, size)
  {
    var parts := Words(answer);
    var out: seq<string> := [];
    var buf := "";
    var i := 0;
    assert parts[..0] == [] && Flush(out, buf) == [];
    while i < |parts|
      invariant ChunkerInv(parts, i, out, buf, size)
      invariant GreedyInv(out, buf, size)
    {
      var part := parts[i];
      if |buf| + |part| + 1 > size && buf != [] {
        YieldStep(parts, i, out, buf, size);
        YieldGreedy(out, buf, part, size);
        out := out + [buf];
        buf := part;
      } else {
        ExtendStep(parts, i, out, buf, size);
        ExtendGreedy(out, buf, part, size);
        buf := Strip(buf + " " + part);
      }
      i := i + 1;
    }
    assert parts[..|parts|] == parts;
    FlushGreedy(out, buf, size);
    chunks := Flush(out, buf);
  }
}
