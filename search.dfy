/**
 * `search`: the embedding index first, BM25 over the segment texts as the
 * fallback, at most five results, best first. Both scorers are parameters:
 * `embed(media, query)` is what the embedding index returns, and
 * `bm25(docs, query)` the scores BM25 gives the tokenised documents, one per
 * document, as integers.
 */
module Search {
  import opened Wrappers
  import opened Text
  import opened Transcripts
  import opened Ranking

  /** `{'text': ..., 'timestamp': seg.get('start'), 'score': ...}` */
  datatype SearchHit = SearchHit(text: string, timestamp: Option<nat>, score: int)

  /** A segment paired with a score by `zip`. */
  datatype Pair = Pair(segment: Segment, score: int)

  function PairScore(p: Pair): int {
    p.score
  }

  /** `zip(segs, scores)`: pairs by position, as many as the shorter list. */
  function Zip(segs: seq<Segment>, scores: seq<int>): (r: seq<Pair>)
    ensures |r| == if |segs| < |scores| then |segs| else |scores|
    ensures forall i :: 0 <= i < |r| ==> r[i] == Pair(segs[i], scores[i])
  {
    if segs == [] || scores == [] then [] else [Pair(segs[0], scores[0])] + Zip(segs[1..], scores[1..])
  }

  /** The segments with a non-empty text: the documents BM25 scores. */
  function NonEmpty(segs: seq<Segment>): (r: seq<Segment>)
    ensures |r| <= |segs|
    ensures forall i :: 0 <= i < |r| ==> r[i].text != "" && r[i] in segs
    ensures forall s :: s in segs && s.text != "" ==> s in r
  {
    if segs == [] then []
    else (if segs[0].text != "" then [segs[0]] else []) + NonEmpty(segs[1..])
  }

  /** `[doc.split() for doc in docs if doc]` */
  function Tokenized(segs: seq<Segment>): (r: seq<seq<string>>)
    ensures |r| == |NonEmpty(segs)|
    ensures forall i :: 0 <= i < |r| ==> r[i] == Words(NonEmpty(segs)[i].text)
  {
    if segs == [] then []
    else (if segs[0].text != "" then [Words(segs[0].text)] else []) + Tokenized(segs[1..])
  }

  /** The result of one pair. */
  function HitOf(p: Pair): SearchHit {
    SearchHit(p.segment.text, p.segment.start, p.score)
  }

  function Hits(pairs: seq<Pair>): (r: seq<SearchHit>)
    ensures |r| == |pairs|
    ensures forall i :: 0 <= i < |r| ==> r[i] == HitOf(pairs[i])
  {
    if pairs == [] then [] else [HitOf(pairs[0])] + Hits(pairs[1..])
  }

  lemma HitsAppend(a: seq<Pair>, b: seq<Pair>)
    ensures Hits(a + b) == Hits(a) + Hits(b)
  {
  }

  function HitScore(h: SearchHit): int {
    h.score
  }

  /** Ranking pairs and then taking their hits is ranking their hits. */
  lemma {:induction false} HitsInsert(x: Pair, s: seq<Pair>)
    ensures Hits(Insert(x, s, PairScore)) == Insert(HitOf(x), Hits(s), HitScore)
  {
    if s == [] {
    } else if PairScore(s[0]) <= PairScore(x) {
      HitsAppend([x], s);
    } else {
      var t := Insert(x, s[1..], PairScore);
      HitsInsert(x, s[1..]);
      assert Insert(x, s, PairScore) == [s[0]] + t;
      HitsAppend([s[0]], t);
      assert Hits(s)[1..] == Hits(s[1..]);
    }
  }

  lemma {:induction false} HitsSortDesc(s: seq<Pair>)
    ensures Hits(SortDesc(s, PairScore)) == SortDesc(Hits(s), HitScore)
  {
    if s != [] {
      HitsSortDesc(s[1..]);
      HitsInsert(s[0], SortDesc(s[1..], PairScore));
      assert Hits(s)[1..] == Hits(s[1..]);
    }
  }

  /**
   * `r` is the top of the pairs: at most five and as many as there are up
   * to five, best first, drawn from the pairs' hits without repeating any
   * more often than it occurs, and every pair left out scores no higher
   * than the last result.
   */
  predicate TopOf(r: seq<SearchHit>, pairs: seq<Pair>) {
    && |r| == (if |pairs| < 5 then |pairs| else 5)
    && (forall i, j :: 0 <= i < j < |r| ==> r[i].score >= r[j].score)
    && multiset(r) <= multiset(Hits(pairs))
    && (forall k :: 0 <= k < |pairs| && HitOf(pairs[k]) !in r ==> r != [] && pairs[k].score <= r[|r| - 1].score)
  }

  /** `sorted(pairs, key=score, reverse=True)[:5]` as results. */
  function TopFive(pairs: seq<Pair>): seq<SearchHit> {
    Hits(Take(SortDesc(pairs, PairScore), 5))
  }

  /** The results and the hits of the pairs ranked below them make up the hits of all pairs. */
  lemma TopFiveSplit(pairs: seq<Pair>)
    ensures var sorted := SortDesc(pairs, PairScore); var n := |TopFive(pairs)|;
      && n <= |sorted| && TopFive(pairs) == Hits(sorted[..n])
      && multiset(Hits(pairs)) == multiset(TopFive(pairs)) + multiset(Hits(sorted[n..]))
  {
    var sorted := SortDesc(pairs, PairScore);
    SortDescPermutation(pairs, PairScore);
    var n := |TopFive(pairs)|;
    assert sorted == sorted[..n] + sorted[n..];
    HitsAppend(sorted[..n], sorted[n..]);
    HitsSortDesc(pairs);
    SortDescPermutation(Hits(pairs), HitScore);
  }

  /** A hit ranked below position n of a ranking scores no higher than the pair at n - 1. */
  lemma RankedBelow(sorted: seq<Pair>, n: nat, x: SearchHit)
    requires SortedDesc(sorted, PairScore) && 0 < n <= |sorted| && x in Hits(sorted[n..])
    ensures x.score <= sorted[n - 1].score
  {
    var rest := Hits(sorted[n..]);
    var j :| 0 <= j < |rest| && rest[j] == x;
    assert sorted[n..][j] == sorted[n + j];
  }

  /** An element of a whole that is not in one part is in the other. */
  lemma InOtherPart(all: seq<SearchHit>, part: seq<SearchHit>, other: seq<SearchHit>, x: SearchHit)
    requires multiset(all) == multiset(part) + multiset(other) && x in all && x !in part
    ensures x in other
  {
    assert x in multiset(all);
  }

  /** A pair whose hit is not among the results scores no higher than the last one. */
  lemma TopFiveLeftOut(pairs: seq<Pair>, k: nat)
    requires k < |pairs| && HitOf(pairs[k]) !in TopFive(pairs)
    ensures TopFive(pairs) != [] && pairs[k].score <= TopFive(pairs)[|TopFive(pairs)| - 1].score
  {
    TopFiveSplit(pairs);
    SortDescSorted(pairs, PairScore);
    var sorted := SortDesc(pairs, PairScore);
    var r := TopFive(pairs);
    var n := |r|;
    var x := HitOf(pairs[k]);
    assert Hits(pairs)[k] == x;
    InOtherPart(Hits(pairs), r, Hits(sorted[n..]), x);
    RankedBelow(sorted, n, x);
    assert r[n - 1] == HitOf(sorted[n - 1]);
  }

  lemma TopFiveOrdered(pairs: seq<Pair>)
    ensures var r := TopFive(pairs); forall i, j :: 0 <= i < j < |r| ==> r[i].score >= r[j].score
  {
    var sorted := SortDesc(pairs, PairScore);
    SortDescSorted(pairs, PairScore);
    var r := TopFive(pairs);
    var top := Take(sorted, 5);
    forall i, j | 0 <= i < j < |r| ensures r[i].score >= r[j].score {
      assert r[i] == HitOf(top[i]) && top[i] == sorted[i];
      assert r[j] == HitOf(top[j]) && top[j] == sorted[j];
    }
  }

  lemma TopFiveLeftOuts(pairs: seq<Pair>)
    ensures var r := TopFive(pairs);
      forall k :: 0 <= k < |pairs| && HitOf(pairs[k]) !in r ==> r != [] && pairs[k].score <= r[|r| - 1].score
  {
    var r := TopFive(pairs);
    forall k | 0 <= k < |pairs| && HitOf(pairs[k]) !in r ensures r != [] && pairs[k].score <= r[|r| - 1].score {
      TopFiveLeftOut(pairs, k);
    }
  }

  lemma TopFiveDrawn(pairs: seq<Pair>)
    ensures var r := TopFive(pairs);
      forall i :: 0 <= i < |r| ==> exists p :: p in pairs && r[i] == SearchHit(p.segment.text, p.segment.start, p.score)
  {
    var sorted := SortDesc(pairs, PairScore);
    SortDescPermutation(pairs, PairScore);
    var r := TopFive(pairs);
    forall i | 0 <= i < |r| ensures exists p :: p in pairs && r[i] == SearchHit(p.segment.text, p.segment.start, p.score) {
      assert sorted[i] in multiset(pairs);
    }
  }

  /** The top five hits of the pairs, each one of the pairs. */
  lemma TopFiveSpec(pairs: seq<Pair>)
    ensures TopOf(TopFive(pairs), pairs)
    ensures var r := TopFive(pairs);
      forall i :: 0 <= i < |r| ==> exists p :: p in pairs && r[i] == SearchHit(p.segment.text, p.segment.start, p.score)
  {
    SortDescPermutation(pairs, PairScore);
    TopFiveSplit(pairs);
    TopFiveOrdered(pairs);
    TopFiveLeftOuts(pairs);
    TopFiveDrawn(pairs);
  }

  /** The BM25 fallback as written: the scores, one per non-empty document, are zipped with all the segments. */
  function Bm25AsWritten(segs: seq<Segment>, query: string, bm25: (seq<seq<string>>, seq<string>) -> seq<int>): seq<SearchHit> {
    var tokenized := Tokenized(segs);
    if tokenized == [] then [] else TopFive(Zip(segs, bm25(tokenized, Words(query))))
  }

  /** The BM25 fallback with each score paired with the document it was computed for. */
  function Bm25Aligned(segs: seq<Segment>, query: string, bm25: (seq<seq<string>>, seq<string>) -> seq<int>): seq<SearchHit> {
    var tokenized := Tokenized(segs);
    if tokenized == [] then [] else TopFive(Zip(NonEmpty(segs), bm25(tokenized, Words(query))))
  }

  /** The chain: no transcript, then the embedding results, then the given BM25 fallback. */
  function Chain(data: Option<Transcript>, media: string, query: string,
                 embed: (string, string) -> seq<SearchHit>, fallback: seq<Segment> -> seq<SearchHit>): seq<SearchHit>
  {
    if data.None? then []
    else if embed(media, query) != [] then embed(media, query)
    else fallback(data.value.segments)
  }

  /** `search` as written. */
  function SearchAsWritten(data: Option<Transcript>, media: string, query: string,
                           embed: (string, string) -> seq<SearchHit>,
                           bm25: (seq<seq<string>>, seq<string>) -> seq<int>): seq<SearchHit>
  {
    Chain(data, media, query, embed, segs => Bm25AsWritten(segs, query, bm25))
  }

  /** `search` with aligned scores. */
  function SearchAligned(data: Option<Transcript>, media: string, query: string,
                         embed: (string, string) -> seq<SearchHit>,
                         bm25: (seq<seq<string>>, seq<string>) -> seq<int>): seq<SearchHit>
  {
    Chain(data, media, query, embed, segs => Bm25Aligned(segs, query, bm25))
  }

  /** No transcript gives no results; non-empty embedding results are returned as they are, and BM25 is not consulted. */
  lemma ChainSpec(data: Option<Transcript>, media: string, query: string,
                  embed: (string, string) -> seq<SearchHit>, fallback: seq<Segment> -> seq<SearchHit>)
    ensures data.None? ==> Chain(data, media, query, embed, fallback) == []
    ensures data.Some? && embed(media, query) != [] ==> Chain(data, media, query, embed, fallback) == embed(media, query)
    ensures data.Some? && embed(media, query) == [] ==> Chain(data, media, query, embed, fallback) == fallback(data.value.segments)
  {
  }

  /**
   * `r` is at most five results, no more than the documents, best first,
   * each document k carrying its start and score k.
   */
  predicate RankedFrom(r: seq<SearchHit>, docs: seq<Segment>, scores: seq<int>) {
    && |r| <= 5 && |r| <= |docs|
    && (forall i, j :: 0 <= i < j < |r| ==> r[i].score >= r[j].score)
    && (forall i :: 0 <= i < |r| ==>
          exists k :: 0 <= k < |docs| && k < |scores| && r[i] == SearchHit(docs[k].text, docs[k].start, scores[k]))
  }

  /** The top five of positionally paired segments and scores: each result is segment k with score k, for some k. */
  lemma TopFiveOfZip(docs: seq<Segment>, scores: seq<int>)
    ensures RankedFrom(TopFive(Zip(docs, scores)), docs, scores)
  {
    var pairs := Zip(docs, scores);
    SortDescPermutation(pairs, PairScore);
    TopFiveOrdered(pairs);
    TopFiveDrawn(pairs);
    var r := TopFive(pairs);
    forall i | 0 <= i < |r|
      ensures exists k :: 0 <= k < |docs| && k < |scores| && r[i] == SearchHit(docs[k].text, docs[k].start, scores[k])
    {
      var p :| p in pairs && r[i] == SearchHit(p.segment.text, p.segment.start, p.score);
      var k :| 0 <= k < |pairs| && pairs[k] == p;
      assert p == Pair(docs[k], scores[k]);
    }
  }

  /** Results drawn from documents with non-empty texts have non-empty texts. */
  lemma RankedTexts(r: seq<SearchHit>, docs: seq<Segment>, scores: seq<int>)
    requires RankedFrom(r, docs, scores)
    requires forall k :: 0 <= k < |docs| ==> docs[k].text != ""
    ensures forall i :: 0 <= i < |r| ==> r[i].text != ""
  {
    forall i | 0 <= i < |r| ensures r[i].text != "" {
      var k :| 0 <= k < |docs| && k < |scores| && r[i] == SearchHit(docs[k].text, docs[k].start, scores[k]);
    }
  }

  /**
   * With no non-empty segment text there are no results; otherwise at most
   * five, and no more than the non-empty texts, best first, each a
   * non-empty segment carrying its start and the BM25 score of that very
   * segment's tokens.
   */
  lemma Bm25AlignedSpec(segs: seq<Segment>, query: string, bm25: (seq<seq<string>>, seq<string>) -> seq<int>)
    ensures NonEmpty(segs) == [] ==> Bm25Aligned(segs, query, bm25) == []
    ensures RankedFrom(Bm25Aligned(segs, query, bm25), NonEmpty(segs), bm25(Tokenized(segs), Words(query)))
    ensures forall i :: 0 <= i < |Bm25Aligned(segs, query, bm25)| ==> Bm25Aligned(segs, query, bm25)[i].text != ""
    ensures NonEmpty(segs) != [] ==>
      TopOf(Bm25Aligned(segs, query, bm25), Zip(NonEmpty(segs), bm25(Tokenized(segs), Words(query))))
  {
    var docs := NonEmpty(segs);
    var scores := bm25(Tokenized(segs), Words(query));
    var r := Bm25Aligned(segs, query, bm25);
    if docs != [] {
      assert r == TopFive(Zip(docs, scores));
      TopFiveOfZip(docs, scores);
      RankedTexts(r, docs, scores);
      TopFiveSpec(Zip(docs, scores));
    }
  }

  /**
   * As written, with BM25 giving one score per document, the count and
   * order still hold: at most five, no more than the non-empty texts, best
   * first.
   */
  lemma Bm25AsWrittenBounds(segs: seq<Segment>, query: string, bm25: (seq<seq<string>>, seq<string>) -> seq<int>)
    requires |bm25(Tokenized(segs), Words(query))| == |Tokenized(segs)|
    ensures var r := Bm25AsWritten(segs, query, bm25);
      && |r| <= 5 && |r| <= |NonEmpty(segs)|
      && (forall i, j :: 0 <= i < j < |r| ==> r[i].score >= r[j].score)
  {
    var tokenized := Tokenized(segs);
    if tokenized != [] {
      TopFiveSpec(Zip(segs, bm25(tokenized, Words(query))));
    }
  }

  /** Sorting one pair leaves it alone. */
  lemma SortOne(p: Pair)
    ensures SortDesc([p], PairScore) == [p]
  {
    SortDescPermutation([p], PairScore);
    var s := SortDesc([p], PairScore);
    assert s[0] in multiset([p]);
  }

  /**
   * An empty segment before a non-empty one: BM25 scores the one document,
   * `zip` gives that score to the empty segment, and the result is the
   * empty segment instead of the matching one.
   */
  lemma SearchMisaligned(t: Transcript, media: string, query: string,
                         embed: (string, string) -> seq<SearchHit>,
                         bm25: (seq<seq<string>>, seq<string>) -> seq<int>, s0: Segment, s1: Segment, k: int)
    requires t.segments == [s0, s1] && s0.text == "" && s1.text != ""
    requires embed(media, query) == [] && bm25([Words(s1.text)], Words(query)) == [k]
    ensures SearchAsWritten(Some(t), media, query, embed, bm25) == [SearchHit(s0.text, s0.start, k)]
    ensures SearchAligned(Some(t), media, query, embed, bm25) == [SearchHit(s1.text, s1.start, k)]
    ensures SearchAsWritten(Some(t), media, query, embed, bm25) != SearchAligned(Some(t), media, query, embed, bm25)
  {
    assert SearchAsWritten(Some(t), media, query, embed, bm25) == Bm25AsWritten([s0, s1], query, bm25);
    assert SearchAligned(Some(t), media, query, embed, bm25) == Bm25Aligned([s0, s1], query, bm25);
    assert NonEmpty([s0, s1]) == [s1] by {
      assert [s0, s1][1..] == [s1];
      assert NonEmpty([s1]) == [s1];
    }
    assert Tokenized([s0, s1]) == [Words(s1.text)] by {
      assert [s0, s1][1..] == [s1];
      assert Tokenized([s1]) == [Words(s1.text)];
    }
    assert Zip([s0, s1], [k]) == [Pair(s0, k)];
    assert Zip([s1], [k]) == [Pair(s1, k)];
    SortOne(Pair(s0, k));
    SortOne(Pair(s1, k));
  }
}
