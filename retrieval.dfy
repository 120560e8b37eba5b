/**
 * The lexical keyword-overlap ranker shared by the three chat handlers
 * (call_gemini_chat and chat_agent in the chat service, and the database
 * chat route). The question is lower-cased and split on whitespace; words of
 * more than two characters are the terms. A segment scores the sum, over the
 * terms, of the non-overlapping occurrences of the term in the lower-cased
 * segment text. Segments that score zero are dropped, the rest are sorted
 * stably by descending score, the first k are kept, and when none is kept
 * the caller's fallback is the leading segments.
 */
module Retrieval {
  import opened Wrappers
  import opened Text
  import opened Ranking
  import opened Transcripts

  /** The words of more than two characters, in order. */
  function LongWords(ws: seq<string>): (r: seq<string>)
    ensures forall i :: 0 <= i < |r| ==> |r[i]| > 2
    ensures forall w :: w in ws && |w| > 2 ==> w in r
    ensures forall w :: w in r ==> w in ws
  {
    if ws == [] then []
    else (if |ws[0]| > 2 then [ws[0]] else []) + LongWords(ws[1..])
  }

  /** `[t for t in question.lower().split() if len(t) > 2]` */
  function Terms(question: string): seq<string> {
    LongWords(Words(Lower(question)))
  }

  /** `sum(text.lower().count(t) for t in terms)` */
  function Score(text: string, terms: seq<string>): nat {
    if terms == [] then 0 else Count(Lower(text), terms[0]) + Score(text, terms[1..])
  }

  /** A segment scores above zero exactly when some term occurs in its lower-cased text. */
  lemma {:induction false} ScorePositiveIffSomeTermOccurs(text: string, terms: seq<string>)
    requires forall i :: 0 <= i < |terms| ==> |terms[i]| > 0
    ensures Score(text, terms) > 0 <==> exists t :: t in terms && Contains(Lower(text), t)
  {
    if terms != [] {
      var t0 := terms[0];
      CountPositiveIffContains(Lower(text), t0);
      ScorePositiveIffSomeTermOccurs(text, terms[1..]);
      if Score(text, terms) > 0 {
        if Count(Lower(text), t0) > 0 {
          assert t0 in terms && Contains(Lower(text), t0);
        } else {
          var t :| t in terms[1..] && Contains(Lower(text), t);
          assert t in terms;
        }
      } else {
        forall t | t in terms ensures !Contains(Lower(text), t) {
          if t != t0 {
            assert t in terms[1..];
          }
        }
      }
    }
  }

  datatype Hit = Hit(score: nat, segment: Segment)

  function HitScore(h: Hit): int {
    h.score
  }

  function HitSegments(hits: seq<Hit>): (r: seq<Segment>)
    ensures |r| == |hits| && forall i :: 0 <= i < |hits| ==> r[i] == hits[i].segment
  {
    if hits == [] then [] else [hits[0].segment] + HitSegments(hits[1..])
  }

  /** The `(score, seg)` pairs the scoring loop appends, in segment order, zero scores left out. */
  function Scored(segs: seq<Segment>, terms: seq<string>): seq<Hit> {
    if segs == [] then []
    else
      var sc := Score(segs[0].text, terms);
      (if sc > 0 then [Hit(sc, segs[0])] else []) + Scored(segs[1..], terms)
  }

  lemma {:induction false} ScoredAppend(a: seq<Segment>, b: seq<Segment>, terms: seq<string>)
    ensures Scored(a + b, terms) == Scored(a, terms) + Scored(b, terms)
  {
    if a == [] {
      assert a + b == b;
    } else {
      assert (a + b)[1..] == a[1..] + b;
      ScoredAppend(a[1..], b, terms);
    }
  }

  /** Every kept pair carries its segment's own positive score, and every scoring segment is kept. */
  lemma {:induction false} ScoredHits(segs: seq<Segment>, terms: seq<string>)
    ensures forall h :: h in Scored(segs, terms) ==>
              h.score == Score(h.segment.text, terms) > 0 && h.segment in segs
    ensures forall s :: s in segs && Score(s.text, terms) > 0 ==>
              Hit(Score(s.text, terms), s) in Scored(segs, terms)
    ensures Scored(segs, terms) == [] <==> forall s :: s in segs ==> Score(s.text, terms) == 0
  {
    if segs != [] {
      ScoredHits(segs[1..], terms);
      assert forall s :: s in segs <==> s == segs[0] || s in segs[1..];
    }
  }

  /** The segments whose score is c, in segment order. */
  function WithScore(segs: seq<Segment>, terms: seq<string>, c: nat): seq<Segment> {
    if segs == [] then []
    else (if Score(segs[0].text, terms) == c then [segs[0]] else []) + WithScore(segs[1..], terms, c)
  }

  /** Picking the pairs of score c out of the kept pairs lists the segments of score c in order. */
  lemma {:induction false} ScoredWithKey(segs: seq<Segment>, terms: seq<string>, c: nat)
    requires c > 0
    ensures HitSegments(WithKey(Scored(segs, terms), HitScore, c)) == WithScore(segs, terms, c)
  {
    if segs != [] {
      ScoredWithKey(segs[1..], terms, c);
      var sc := Score(segs[0].text, terms);
      if sc > 0 {
        WithKeyPrepend(Hit(sc, segs[0]), Scored(segs[1..], terms), HitScore, c);
      } else {
        assert Scored(segs, terms) == Scored(segs[1..], terms);
      }
    }
  }

  /** For hits that carry their own segment's score, picking by score commutes with projecting. */
  lemma {:induction false} HitSegmentsWithKey(hits: seq<Hit>, terms: seq<string>, c: nat)
    requires forall h :: h in hits ==> h.score == Score(h.segment.text, terms)
    ensures HitSegments(WithKey(hits, HitScore, c)) == WithScore(HitSegments(hits), terms, c)
  {
    if hits != [] {
      HitSegmentsWithKey(hits[1..], terms, c);
      assert HitSegments(hits)[1..] == HitSegments(hits[1..]);
      var h := if hits[0].score == c then [hits[0]] else [];
      assert HitSegments(h + WithKey(hits[1..], HitScore, c))
          == HitSegments(h) + HitSegments(WithKey(hits[1..], HitScore, c)) by {
        HitSegmentsAppend(h, WithKey(hits[1..], HitScore, c));
      }
    }
  }

  lemma {:induction false} HitSegmentsAppend(a: seq<Hit>, b: seq<Hit>)
    ensures HitSegments(a + b) == HitSegments(a) + HitSegments(b)
  {
  }

  /** The scored pairs sorted stably by descending score. */
  function Ranked(segs: seq<Segment>, question: string): seq<Hit> {
    SortDesc(Scored(segs, Terms(question)), HitScore)
  }

  /** `[s for _, s in scored[:k]] or segments[:fallback]` */
  function Top(segs: seq<Segment>, question: string, k: nat, fallback: nat): seq<Segment> {
    var top := HitSegments(Take(Ranked(segs, question), k));
    if top == [] then Take(segs, fallback) else top
  }

  /** The scoring loop of the chat handlers. */
  method ScoreSegments(segs: seq<Segment>, terms: seq<string>) returns (scored: seq<Hit>)
    ensures scored == Scored(segs, terms)
  {
    scored := [];
    var i := 0;
    while i < |segs|
      invariant 0 <= i <= |segs|
      invariant scored == Scored(segs[..i], terms)
    {
      var seg := segs[i];
      var score := Score(seg.text, terms);
      if score > 0 {
        scored := scored + [Hit(score, seg)];
      }
      assert segs[..i + 1] == segs[..i] + [seg];
      ScoredAppend(segs[..i], [seg], terms);
      i := i + 1;
    }
    assert segs[..|segs|] == segs;
  }

  /** Scoring, the stable sort, the top-k cut and the leading-segments fallback. */
  method Retrieve(segs: seq<Segment>, question: string, k: nat, fallback: nat) returns (top: seq<Segment>)
    ensures top == Top(segs, question, k, fallback)
  {
    var terms := Terms(question);
    var scored := ScoreSegments(segs, terms);
    var ranked := SortDesc(scored, HitScore);
    top := HitSegments(Take(ranked, k));
    if top == [] {
      top := Take(segs, fallback);
    }
  }

  // ---------------------------------------------------------------------------
  // What the selection promises
  // ---------------------------------------------------------------------------

  /** The ranked pairs: exactly the scoring segments, each with its own score, best first. */
  lemma RankedHits(segs: seq<Segment>, question: string)
    ensures var terms := Terms(question); var ranked := Ranked(segs, question);
      && |ranked| == |Scored(segs, terms)|
      && SortedDesc(ranked, HitScore)
      && (forall h :: h in ranked ==> h.score == Score(h.segment.text, terms) > 0 && h.segment in segs)
      && (forall s :: s in segs && Score(s.text, terms) > 0 ==> Hit(Score(s.text, terms), s) in ranked)
      && (ranked == [] <==> forall s :: s in segs ==> Score(s.text, terms) == 0)
  {
    var terms := Terms(question);
    var scored := Scored(segs, terms);
    var ranked := Ranked(segs, question);
    ScoredHits(segs, terms);
    SortDescPermutation(scored, HitScore);
    SortDescSorted(scored, HitScore);
    forall h | h in ranked ensures h in scored {
      assert h in multiset(ranked);
    }
    forall s | s in segs && Score(s.text, terms) > 0 ensures Hit(Score(s.text, terms), s) in ranked {
      assert Hit(Score(s.text, terms), s) in multiset(scored);
    }
  }

  /** When no segment scores (or k is 0) the selection is the first `fallback` segments. */
  lemma TopFallback(segs: seq<Segment>, question: string, k: nat, fallback: nat)
    requires k == 0 || forall s :: s in segs ==> Score(s.text, Terms(question)) == 0
    ensures Top(segs, question, k, fallback) == Take(segs, fallback)
  {
    RankedHits(segs, question);
  }

  /**
   * When some segment scores and k > 0: min(k, number of scoring segments)
   * segments are selected, each scores above zero, they come in descending
   * score order, and no unselected segment scores above the lowest selected one.
   */
  lemma TopSelection(segs: seq<Segment>, question: string, k: nat, fallback: nat)
    requires k > 0 && exists s :: s in segs && Score(s.text, Terms(question)) > 0
    ensures var top := Top(segs, question, k, fallback);
      var terms := Terms(question);
      && |top| == (if k < |Scored(segs, terms)| then k else |Scored(segs, terms)|) > 0
      && (forall i :: 0 <= i < |top| ==> top[i] in segs && Score(top[i].text, terms) > 0)
      && (forall i, j :: 0 <= i < j < |top| ==> Score(top[i].text, terms) >= Score(top[j].text, terms))
      && (forall s :: s in segs && Score(s.text, terms) > Score(top[|top| - 1].text, terms) ==> s in top)
  {
    var terms := Terms(question);
    var ranked := Ranked(segs, question);
    RankedHits(segs, question);
    assert ranked != [];
    CutFacts(segs, terms, ranked, k);
  }

  /** The facts of TopSelection, for any sorted list of hits that carry their segments' scores. */
  lemma CutFacts(segs: seq<Segment>, terms: seq<string>, ranked: seq<Hit>, k: nat)
    requires k > 0 && ranked != [] && SortedDesc(ranked, HitScore)
    requires forall h :: h in ranked ==> h.score == Score(h.segment.text, terms) > 0 && h.segment in segs
    requires forall s :: s in segs && Score(s.text, terms) > 0 ==> Hit(Score(s.text, terms), s) in ranked
    ensures var top := HitSegments(Take(ranked, k));
      && |top| == (if k < |ranked| then k else |ranked|) > 0
      && (forall i :: 0 <= i < |top| ==> top[i] in segs && Score(top[i].text, terms) > 0)
      && (forall i, j :: 0 <= i < j < |top| ==> Score(top[i].text, terms) >= Score(top[j].text, terms))
      && (forall s :: s in segs && Score(s.text, terms) > Score(top[|top| - 1].text, terms) ==> s in top)
  {
    CutMembers(segs, terms, ranked, k);
    CutOrder(terms, ranked, k);
    CutIncludesBetter(segs, terms, ranked, k);
  }

  lemma CutMembers(segs: seq<Segment>, terms: seq<string>, ranked: seq<Hit>, k: nat)
    requires forall h :: h in ranked ==> h.score == Score(h.segment.text, terms) > 0 && h.segment in segs
    ensures var top := HitSegments(Take(ranked, k));
      forall i :: 0 <= i < |top| ==> top[i] in segs && Score(top[i].text, terms) > 0
  {
    var top := HitSegments(Take(ranked, k));
    forall i | 0 <= i < |top| ensures top[i] in segs && Score(top[i].text, terms) > 0 {
      assert ranked[i] in ranked;
    }
  }

  lemma CutOrder(terms: seq<string>, ranked: seq<Hit>, k: nat)
    requires SortedDesc(ranked, HitScore)
    requires forall h :: h in ranked ==> h.score == Score(h.segment.text, terms)
    ensures var top := HitSegments(Take(ranked, k));
      forall i, j :: 0 <= i < j < |top| ==> Score(top[i].text, terms) >= Score(top[j].text, terms)
  {
    var top := HitSegments(Take(ranked, k));
    forall i, j | 0 <= i < j < |top| ensures Score(top[i].text, terms) >= Score(top[j].text, terms) {
      assert ranked[i] in ranked && ranked[j] in ranked;
      assert HitScore(ranked[i]) >= HitScore(ranked[j]);
    }
  }

  lemma CutIncludesBetter(segs: seq<Segment>, terms: seq<string>, ranked: seq<Hit>, k: nat)
    requires k > 0 && ranked != [] && SortedDesc(ranked, HitScore)
    requires forall h :: h in ranked ==> h.score == Score(h.segment.text, terms)
    requires forall s :: s in segs && Score(s.text, terms) > 0 ==> Hit(Score(s.text, terms), s) in ranked
    ensures var top := HitSegments(Take(ranked, k));
      forall s :: s in segs && Score(s.text, terms) > Score(top[|top| - 1].text, terms) ==> s in top
  {
    var top := HitSegments(Take(ranked, k));
    var n := |top|;
    forall s | s in segs && Score(s.text, terms) > Score(top[n - 1].text, terms) ensures s in top {
      assert ranked[n - 1] in ranked;
      TopIncludesBetter(ranked, k, s, Score(s.text, terms));
    }
  }

  lemma TopIncludesBetter(ranked: seq<Hit>, k: nat, s: Segment, sc: nat)
    requires SortedDesc(ranked, HitScore)
    requires Hit(sc, s) in ranked && 0 < k
    requires sc > HitScore(ranked[(if k < |ranked| then k else |ranked|) - 1])
    ensures s in HitSegments(Take(ranked, k))
  {
    var n := if k < |ranked| then k else |ranked|;
    var p :| 0 <= p < |ranked| && ranked[p] == Hit(sc, s);
    assert !(n - 1 < p) || HitScore(ranked[n - 1]) >= HitScore(ranked[p]);
    assert HitSegments(Take(ranked, k))[p] == s;
  }

  /**
   * Ties keep segment order: for every score c, the selected segments that
   * score c are the first ones, in segment order, of all segments scoring c.
   */
  lemma TopStableOnTies(segs: seq<Segment>, question: string, k: nat, fallback: nat, c: nat)
    requires c > 0 && k > 0 && exists s :: s in segs && Score(s.text, Terms(question)) > 0
    ensures IsPrefix(WithScore(Top(segs, question, k, fallback), Terms(question), c),
                     WithScore(segs, Terms(question), c))
  {
    var terms := Terms(question);
    var scored := Scored(segs, terms);
    var ranked := Ranked(segs, question);
    RankedHits(segs, question);
    var cut := Take(ranked, k);
    var n := |cut|;
    assert cut == ranked[..n];
    assert Top(segs, question, k, fallback) == HitSegments(cut);
    forall h | h in cut ensures h.score == Score(h.segment.text, terms) {
      assert h in ranked;
    }
    WithKeyTakePrefix(ranked, HitScore, c, n);
    SortDescStable(scored, HitScore, c);
    ScoredWithKey(segs, terms, c);
    HitSegmentsWithKey(cut, terms, c);
    var a := WithKey(cut, HitScore, c);
    var b := WithKey(ranked, HitScore, c);
    PrefixProject(a, b);
  }

  lemma {:induction false} PrefixProject(a: seq<Hit>, b: seq<Hit>)
    requires IsPrefix(a, b)
    ensures IsPrefix(HitSegments(a), HitSegments(b))
  {
    assert HitSegments(b)[..|a|] == HitSegments(a);
  }

  lemma TermsOfDog()
    ensures Terms("Dog") == ["dog"]
  {
    assert Lower("Dog") == "dog" by {
      assert Lower("g") == "g";
      assert Lower("og") == "og";
    }
    assert WordLen("dog") == 3 by {
      assert WordLen("g") == 1;
      assert WordLen("og") == 2;
    }
    assert Words("dog") == ["dog"] by {
      assert !IsSpace('d');
      assert "dog"[..3] == "dog";
      assert "dog"[3..] == [];
    }
  }

  lemma ScoresAgainstDog()
    ensures Score("cat", ["dog"]) == 0 && Score("dog", ["dog"]) == 1
  {
    assert Lower("dog") == "dog" by {
      assert Lower("g") == "g";
      assert Lower("og") == "og";
    }
    assert Lower("cat") == "cat" by {
      assert Lower("t") == "t";
      assert Lower("at") == "at";
    }
    assert Count("cat", "dog") == 0 by {
      assert "cat"[..3] != "dog";
      assert Count("at", "dog") == 0;
    }
    assert Count("dog", "dog") == 1 by {
      assert "dog"[3..] == [];
    }
    assert ["dog"][1..] == [];
  }

  lemma ScoredCatDog(s1: Segment, s2: Segment)
    requires s1.text == "cat" && s2.text == "dog"
    ensures Scored([s1, s2], ["dog"]) == [Hit(1, s2)]
  {
    ScoresAgainstDog();
    assert [s1, s2][1..] == [s2];
    assert [s2][1..] == [];
    assert Scored([s2], ["dog"]) == [Hit(1, s2)] + Scored([], ["dog"]);
  }

  lemma RankedCatDog(s1: Segment, s2: Segment, q: string)
    requires s1.text == "cat" && s2.text == "dog" && q == "Dog"
    ensures Ranked([s1, s2], q) == [Hit(1, s2)]
  {
    TermsOfDog();
    ScoredCatDog(s1, s2);
    SortDescPermutation([Hit(1, s2)], HitScore);
    assert SortDesc([Hit(1, s2)], HitScore)[0] in multiset([Hit(1, s2)]);
  }

  /** Two one-word segments and the question "Dog": only the second is selected. */
  lemma ExampleDogQuestion(s1: Segment, s2: Segment, q: string)
    requires s1 == Segment(Some(0), Some(5000), "cat") && s2 == Segment(Some(5000), Some(10000), "dog") && q == "Dog"
    ensures Top([s1, s2], q, 8, 4) == [s2]
  {
    RankedCatDog(s1, s2, q);
    assert Take([Hit(1, s2)], 8) == [Hit(1, s2)];
    assert HitSegments([Hit(1, s2)]) == [s2];
  }
}
