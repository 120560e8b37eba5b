/**
 * The string operations of Python (and JavaScript) that the backend leans on,
 * written out as functions: whitespace splitting, stripping, lower-casing,
 * joining, prefix slicing, substring search and counting, and the decimal
 * rendering of integers used by every timestamp format.
 */
module Text {

  // ---------------------------------------------------------------------------
  // Characters
  // ---------------------------------------------------------------------------

  /** The ASCII characters Python's str.split() and str.strip() treat as whitespace. */
  predicate IsSpace(c: char) {
    (9 <= c as int <= 13) || (28 <= c as int <= 32)
  }

  /** A character that continues a word for the regular-expression boundary \b. */
  predicate IsWordChar(c: char) {
    ('a' <= c <= 'z') || ('A' <= c <= 'Z') || ('0' <= c <= '9') || c == '_'
  }

  function LowerChar(c: char): (r: char)
    ensures !('A' <= r <= 'Z')
    ensures 'A' <= c <= 'Z' ==> r as int == c as int + 32
    ensures !('A' <= c <= 'Z') ==> r == c
  {
    if 'A' <= c <= 'Z' then (c as int + 32) as char else c
  }

  /** str.lower(), restricted to ASCII letters. */
  function Lower(s: string): string {
    if s == [] then [] else [LowerChar(s[0])] + Lower(s[1..])
  }

  function UpperChar(c: char): (r: char)
    ensures !('a' <= r <= 'z')
    ensures 'a' <= c <= 'z' ==> r as int == c as int - 32
    ensures !('a' <= c <= 'z') ==> r == c
  {
    if 'a' <= c <= 'z' then (c as int - 32) as char else c
  }

  predicate IsAlpha(c: char) {
    ('a' <= c <= 'z') || ('A' <= c <= 'Z')
  }

  /**
   * str.title() on ASCII text: a letter that follows a non-letter (or starts
   * the string) is upper-cased, every other letter lower-cased.
   */
  function TitleCase(s: string): (r: string)
    ensures |r| == |s| && Lower(r) == Lower(s)
    ensures forall i :: 0 <= i < |s| && IsAlpha(s[i]) && (i == 0 || !IsAlpha(s[i - 1])) ==> r[i] == UpperChar(s[i])
    ensures forall i :: 0 < i < |s| && IsAlpha(s[i]) && IsAlpha(s[i - 1]) ==> r[i] == LowerChar(s[i])
    ensures forall i :: 0 <= i < |s| && !IsAlpha(s[i]) ==> r[i] == s[i]
  {
    TitleFrom(s, true)
  }

  /** TitleCase of a suffix; `wordStart` says whether the character before it was a non-letter. */
  function TitleFrom(s: string, wordStart: bool): (r: string)
    ensures |r| == |s| && Lower(r) == Lower(s)
    ensures forall i :: 0 <= i < |s| && IsAlpha(s[i]) && (if i == 0 then wordStart else !IsAlpha(s[i - 1])) ==>
      r[i] == UpperChar(s[i])
    ensures forall i :: 0 <= i < |s| && IsAlpha(s[i]) && (if i == 0 then !wordStart else IsAlpha(s[i - 1])) ==>
      r[i] == LowerChar(s[i])
    ensures forall i :: 0 <= i < |s| && !IsAlpha(s[i]) ==> r[i] == s[i]
  {
    if s == [] then []
    else if IsAlpha(s[0]) then
      [if wordStart then UpperChar(s[0]) else LowerChar(s[0])] + TitleFrom(s[1..], false)
    else [s[0]] + TitleFrom(s[1..], true)
  }

  predicate NoSpace(w: string) {
    forall i :: 0 <= i < |w| ==> !IsSpace(w[i])
  }

  // ---------------------------------------------------------------------------
  // Slicing
  // ---------------------------------------------------------------------------

  /** Python's s[:n] for n >= 0. */
  function Take<T>(s: seq<T>, n: nat): (r: seq<T>)
    ensures |r| == if n < |s| then n else |s|
    ensures r == s[..|r|]
  {
    if n < |s| then s[..n] else s
  }

  /** Python's s[-n:]: the last n elements, or all of them; since -0 is 0, n = 0 gives all of them too. */
  function Last<T>(s: seq<T>, n: nat): (r: seq<T>)
    ensures |r| == if 0 < n < |s| then n else |s|
    ensures r == s[|s| - |r|..]
  {
    if 0 < n < |s| then s[|s| - n..] else s
  }

  /**
   * The positions, in increasing order, of the elements of s that satisfy
   * keep: the index map behind a filtering comprehension `[... for x in s if keep(x)]`.
   */
  function KeptIndices<T>(s: seq<T>, keep: T -> bool): (ks: seq<nat>)
    ensures forall i :: 0 <= i < |ks| ==> ks[i] < |s| && keep(s[ks[i]])
    ensures forall i, j :: 0 <= i < j < |ks| ==> ks[i] < ks[j]
    ensures forall k :: 0 <= k < |s| && keep(s[k]) ==> k in ks
    ensures |ks| <= |s|
  {
    if s == [] then []
    else
      var init := s[..|s| - 1];
      assert forall k :: 0 <= k < |init| ==> init[k] == s[k];
      KeptIndices(init, keep) + (if keep(s[|s| - 1]) then [|s| - 1] else [])
  }

  /** Nothing is kept exactly when no element satisfies keep. */
  lemma KeptNone<T>(s: seq<T>, keep: T -> bool)
    ensures KeptIndices(s, keep) == [] <==> forall k :: 0 <= k < |s| ==> !keep(s[k])
  {
    var ks := KeptIndices(s, keep);
    if ks != [] {
      assert keep(s[ks[0]]);
    }
  }

  /** `[f(x) for x in s if keep(x)]` */
  function FilterMap<T, U>(s: seq<T>, keep: T -> bool, f: T -> U): seq<U> {
    if s == [] then [] else (if keep(s[0]) then [f(s[0])] else []) + FilterMap(s[1..], keep, f)
  }

  lemma {:induction false} FilterMapSnoc<T, U>(s: seq<T>, x: T, keep: T -> bool, f: T -> U)
    ensures FilterMap(s + [x], keep, f) == FilterMap(s, keep, f) + (if keep(x) then [f(x)] else [])
  {
    if s != [] {
      assert (s + [x])[1..] == s[1..] + [x];
      FilterMapSnoc(s[1..], x, keep, f);
    } else {
      assert [x][1..] == [];
    }
  }

  /** The comprehension maps f over the kept elements, in order: the i-th result comes from the i-th kept position. */
  lemma {:induction false} FilterMapSpec<T, U>(s: seq<T>, keep: T -> bool, f: T -> U)
    ensures var ks := KeptIndices(s, keep); var r := FilterMap(s, keep, f);
      |r| == |ks| && forall i :: 0 <= i < |r| ==> r[i] == f(s[ks[i]])
    decreases |s|
  {
    if s != [] {
      var init := s[..|s| - 1];
      var last := s[|s| - 1];
      assert s == init + [last];
      FilterMapSnoc(init, last, keep, f);
      FilterMapSpec(init, keep, f);
      var ki := KeptIndices(init, keep);
      var ri := FilterMap(init, keep, f);
      var ks := KeptIndices(s, keep);
      var r := FilterMap(s, keep, f);
      assert ks == ki + (if keep(last) then [|s| - 1] else []);
      forall i | 0 <= i < |r| ensures r[i] == f(s[ks[i]]) {
        if i < |ri| {
          assert r[i] == ri[i] && ks[i] == ki[i];
          assert init[ki[i]] == s[ki[i]];
        }
      }
    }
  }

  predicate StartsWith(s: string, p: string) {
    |p| <= |s| && s[..|p|] == p
  }

  predicate EndsWith(s: string, p: string) {
    |p| <= |s| && s[|s| - |p|..] == p
  }

  /** Python's `t in s`. */
  predicate Contains(s: string, t: string)
    decreases |s|
  {
    StartsWith(s, t) || (|s| > 0 && Contains(s[1..], t))
  }

  predicate OccursAt(s: string, t: string, i: nat) {
    i + |t| <= |s| && s[i..i + |t|] == t
  }

  lemma {:induction false} ContainsIffOccurs(s: string, t: string)
    ensures Contains(s, t) <==> exists i: nat :: OccursAt(s, t, i)
    decreases |s|
  {
    if StartsWith(s, t) {
      assert OccursAt(s, t, 0);
    } else if |s| > 0 {
      ContainsIffOccurs(s[1..], t);
      if Contains(s[1..], t) {
        var i: nat :| OccursAt(s[1..], t, i);
        assert s[1..][i..i + |t|] == s[i + 1..i + 1 + |t|];
        assert OccursAt(s, t, i + 1);
      }
      if exists i: nat :: OccursAt(s, t, i) {
        var i: nat :| OccursAt(s, t, i);
        assert i != 0;
        assert s[1..][i - 1..i - 1 + |t|] == s[i..i + |t|];
        assert OccursAt(s[1..], t, i - 1);
      }
    }
  }

  /** Python's s.count(t): non-overlapping occurrences, scanning from the left. */
  function Count(s: string, t: string): nat
    decreases |s|
  {
    if |t| == 0 then |s| + 1
    else if |s| < |t| then 0
    else if s[..|t|] == t then 1 + Count(s[|t|..], t)
    else Count(s[1..], t)
  }

  /** A non-empty needle is counted at least once exactly when it occurs. */
  lemma {:induction false} CountPositiveIffContains(s: string, t: string)
    requires |t| > 0
    ensures Count(s, t) > 0 <==> Contains(s, t)
    decreases |s|
  {
    if |s| < |t| {
      ContainsIffOccurs(s, t);
    } else if s[..|t|] == t {
    } else {
      CountPositiveIffContains(s[1..], t);
    }
  }

  // ---------------------------------------------------------------------------
  // Stripping and splitting
  // ---------------------------------------------------------------------------

  function TrimLeft(s: string): (r: string)
    ensures |r| <= |s| && r == s[|s| - |r|..]
    ensures forall i :: 0 <= i < |s| - |r| ==> IsSpace(s[i])
    ensures r != [] ==> !IsSpace(r[0])
  {
    if s != [] && IsSpace(s[0]) then TrimLeft(s[1..]) else s
  }

  function TrimRight(s: string): (r: string)
    ensures |r| <= |s| && r == s[..|r|]
    ensures forall i :: |r| <= i < |s| ==> IsSpace(s[i])
    ensures r != [] ==> !IsSpace(r[|r| - 1])
  {
    if s != [] && IsSpace(s[|s| - 1]) then TrimRight(s[..|s| - 1]) else s
  }

  /** str.strip(). */
  function Strip(s: string): string {
    TrimRight(TrimLeft(s))
  }

  /** The length of the run of non-space characters that begins s. */
  function WordLen(s: string): (n: nat)
    ensures n <= |s|
    ensures forall i :: 0 <= i < n ==> !IsSpace(s[i])
    ensures n < |s| ==> IsSpace(s[n])
  {
    if s == [] || IsSpace(s[0]) then 0 else 1 + WordLen(s[1..])
  }

  /** str.split() with no separator: the maximal runs of non-space characters, in order. */
  function Words(s: string): (ws: seq<string>)
    ensures forall i :: 0 <= i < |ws| ==> ws[i] != [] && NoSpace(ws[i])
    decreases |s|
  {
    if s == [] then []
    else if IsSpace(s[0]) then Words(s[1..])
    else
      var n := WordLen(s);
      [s[..n]] + Words(s[n..])
  }

  lemma {:induction false} WordLenOfWord(w: string, rest: string)
    requires NoSpace(w) && (rest == [] || IsSpace(rest[0]))
    ensures WordLen(w + rest) == |w|
    decreases |w|
  {
    if w != [] {
      assert (w + rest)[1..] == w[1..] + rest;
      WordLenOfWord(w[1..], rest);
    }
  }

  /** A single run of non-space characters splits into itself. */
  lemma WordsOfWord(w: string)
    requires w != [] && NoSpace(w)
    ensures Words(w) == [w]
  {
    WordLenOfWord(w, []);
    assert w + [] == w;
    assert w[|w|..] == [];
  }

  /** Text after a word's end (or after whitespace) does not lengthen the word. */
  lemma {:induction false} WordLenAppend(a: string, t: string)
    requires WordLen(a) < |a| || t == [] || IsSpace(t[0])
    ensures WordLen(a + t) == WordLen(a)
    decreases |a|
  {
    if a == [] {
      assert a + t == t;
    } else if IsSpace(a[0]) {
      assert (a + t)[0] == a[0];
    } else {
      assert (a + t)[0] == a[0] && (a + t)[1..] == a[1..] + t;
      WordLenAppend(a[1..], t);
    }
  }

  /** Leading whitespace never changes the words. */
  lemma {:induction false} WordsBlankPrefix(sp: string, b: string)
    requires IsBlank(sp)
    ensures Words(sp + b) == Words(b)
    decreases |sp|
  {
    if sp != [] {
      assert (sp + b)[1..] == sp[1..] + b;
      assert IsBlank(sp[1..]) by {
        forall i | 0 <= i < |sp[1..]| ensures IsSpace(sp[1..][i]) {
          assert sp[1..][i] == sp[i + 1];
        }
      }
      WordsBlankPrefix(sp[1..], b);
    } else {
      assert sp + b == b;
    }
  }

  /** Text that begins with whitespace splits apart from what precedes it. */
  lemma {:induction false} WordsAppendSpaced(a: string, t: string)
    requires t != [] && IsSpace(t[0])
    ensures Words(a + t) == Words(a) + Words(t)
    decreases |a|
  {
    if a == [] {
      assert a + t == t;
    } else if IsSpace(a[0]) {
      assert (a + t)[0] == a[0] && (a + t)[1..] == a[1..] + t;
      WordsAppendSpaced(a[1..], t);
    } else {
      var n := WordLen(a);
      calc {
        Words(a + t);
      == { WordLenAppend(a, t); assert (a + t)[0] == a[0]; }
        [(a + t)[..n]] + Words((a + t)[n..]);
      == { assert (a + t)[..n] == a[..n]; assert (a + t)[n..] == a[n..] + t; }
        [a[..n]] + Words(a[n..] + t);
      == { WordsAppendSpaced(a[n..], t); }
        [a[..n]] + Words(a[n..]) + Words(t);
      }
    }
  }

  /** Splitting distributes over a whitespace run: the words on either side, in order. */
  lemma WordsConcatSpace(a: string, sp: string, b: string)
    requires sp != [] && IsBlank(sp)
    ensures Words(a + sp + b) == Words(a) + Words(b)
  {
    assert a + sp + b == a + (sp + b);
    WordsAppendSpaced(a, sp + b);
    WordsBlankPrefix(sp, b);
  }

  /** `sep.join(parts)`. */
  function Join(sep: string, parts: seq<string>): string {
    if |parts| == 0 then []
    else if |parts| == 1 then parts[0]
    else parts[0] + sep + Join(sep, parts[1..])
  }

  lemma {:induction false} JoinSnoc(sep: string, parts: seq<string>, p: string)
    ensures Join(sep, parts + [p]) == if parts == [] then p else Join(sep, parts) + sep + p
  {
    if |parts| == 0 {
      assert parts + [p] == [p];
    } else if |parts| == 1 {
      assert parts + [p] == [parts[0], p];
      assert [parts[0], p][1..] == [p];
    } else {
      assert (parts + [p])[1..] == parts[1..] + [p];
      JoinSnoc(sep, parts[1..], p);
    }
  }

  /** Appending one whitespace character never changes the words. */
  lemma {:induction false} WordsSnocSpace(s: string, c: char)
    requires IsSpace(c)
    ensures Words(s + [c]) == Words(s)
    decreases |s|
  {
    if s == [] {
      assert Words([c]) == Words([c][1..]);
    } else if IsSpace(s[0]) {
      assert (s + [c])[1..] == s[1..] + [c];
      WordsSnocSpace(s[1..], c);
    } else {
      var n := WordLen(s);
      WordLenSnocSpace(s, c);
      assert (s + [c])[..n] == s[..n];
      assert (s + [c])[n..] == s[n..] + [c];
      WordsSnocSpace(s[n..], c);
    }
  }

  lemma {:induction false} WordLenSnocSpace(s: string, c: char)
    requires IsSpace(c)
    ensures WordLen(s + [c]) == WordLen(s)
    decreases |s|
  {
    if s == [] {
    } else if IsSpace(s[0]) {
    } else {
      assert (s + [c])[1..] == s[1..] + [c];
      WordLenSnocSpace(s[1..], c);
    }
  }

  lemma {:induction false} WordsTrimLeft(s: string)
    ensures Words(TrimLeft(s)) == Words(s)
    decreases |s|
  {
    if s != [] && IsSpace(s[0]) {
      WordsTrimLeft(s[1..]);
    }
  }

  lemma {:induction false} WordsTrimRight(s: string)
    ensures Words(TrimRight(s)) == Words(s)
    decreases |s|
  {
    if s != [] && IsSpace(s[|s| - 1]) {
      var init := s[..|s| - 1];
      assert s == init + [s[|s| - 1]];
      WordsSnocSpace(init, s[|s| - 1]);
      WordsTrimRight(init);
    }
  }

  /** Stripping a string never changes how str.split() splits it. */
  lemma WordsStrip(s: string)
    ensures Words(Strip(s)) == Words(s)
  {
    WordsTrimLeft(s);
    WordsTrimRight(TrimLeft(s));
  }

  /**
   * r is s with a whitespace prefix and a whitespace suffix cut off, and r
   * itself neither begins nor ends with whitespace.
   */
  predicate IsStripOf(r: string, s: string) {
    && (r != [] ==> !IsSpace(r[0]) && !IsSpace(r[|r| - 1]))
    && exists k :: 0 <= k <= |s| - |r| && s[k..k + |r|] == r && IsBlank(s[..k]) && IsBlank(s[k + |r|..])
  }

  lemma TrimLeftCutsBlank(s: string)
    ensures IsBlank(s[..|s| - |TrimLeft(s)|])
  {
    var k := |s| - |TrimLeft(s)|;
    forall i | 0 <= i < k ensures IsSpace(s[..k][i]) {
      assert s[..k][i] == s[i];
    }
  }

  lemma TrimRightCutsBlank(s: string)
    ensures IsBlank(s[|TrimRight(s)|..])
  {
    var tail := s[|TrimRight(s)|..];
    forall i | 0 <= i < |tail| ensures IsSpace(tail[i]) {
      assert tail[i] == s[|TrimRight(s)| + i];
    }
  }

  /** A blank prefix, then r, then a blank suffix. */
  lemma StripOfParts(s: string, k: nat, l: string, r: string)
    requires k <= |s| && l == s[k..] && |r| <= |l| && r == l[..|r|]
    requires IsBlank(s[..k]) && IsBlank(l[|r|..])
    requires r != [] ==> !IsSpace(r[0]) && !IsSpace(r[|r| - 1])
    ensures IsStripOf(r, s)
  {
    assert s[k..k + |r|] == r;
    assert s[k + |r|..] == l[|r|..];
  }

  /** str.strip() removes exactly the surrounding whitespace. */
  lemma StripIsStripOf(s: string)
    ensures IsStripOf(Strip(s), s)
  {
    var l := TrimLeft(s);
    var r := Strip(s);
    TrimLeftCutsBlank(s);
    TrimRightCutsBlank(l);
    if r != [] {
      assert r[0] == l[0];
    }
    StripOfParts(s, |s| - |l|, l, r);
  }

  /** A string whose two ends are not whitespace is its own strip. */
  lemma StripNoop(s: string)
    requires s != [] ==> !IsSpace(s[0]) && !IsSpace(s[|s| - 1])
    ensures Strip(s) == s
  {
  }

  /** Stripping twice is stripping once. */
  lemma StripIdempotent(s: string)
    ensures Strip(Strip(s)) == Strip(s)
  {
    var l := TrimLeft(s);
    var r := Strip(s);
    if r != [] {
      assert r[0] == l[0];
    }
    StripNoop(r);
  }

  /** Stripping a leading separator from a single word. */
  lemma StripLeadingSpace(w: string)
    requires w != [] && NoSpace(w)
    ensures Strip(" " + w) == w
  {
    assert (" " + w)[1..] == w;
    assert TrimLeft(w) == w;
    assert TrimLeft(" " + w) == w;
    assert TrimRight(w) == w;
  }

  /** A string has no words exactly when it is all whitespace. */
  lemma {:induction false} WordsEmptyIffBlank(s: string)
    ensures Words(s) == [] <==> IsBlank(s)
    decreases |s|
  {
    if s != [] {
      if IsSpace(s[0]) {
        WordsEmptyIffBlank(s[1..]);
        if IsBlank(s[1..]) {
          forall i | 0 <= i < |s| ensures IsSpace(s[i]) {
            if i > 0 { assert s[i] == s[1..][i - 1]; }
          }
        }
      }
    }
  }

  /** Every character is whitespace (so str.strip() leaves nothing). */
  predicate IsBlank(s: string) {
    forall i :: 0 <= i < |s| ==> IsSpace(s[i])
  }

  // ---------------------------------------------------------------------------
  // Decimal rendering of naturals
  // ---------------------------------------------------------------------------

  function DigitChar(d: nat): (c: char)
    requires d < 10
    ensures '0' <= c <= '9'
  {
    ('0' as int + d) as char
  }

  predicate IsDigits(s: string) {
    forall i :: 0 <= i < |s| ==> '0' <= s[i] <= '9'
  }

  /** str(n) for a non-negative integer. */
  function NatToString(n: nat): (s: string)
    ensures s != [] && IsDigits(s)
    decreases n
  {
    if n < 10 then [DigitChar(n)] else NatToString(n / 10) + [DigitChar(n % 10)]
  }

  /** The value of a string of decimal digits (int(s) for such strings). */
  function ParseNat(s: string): nat
    requires IsDigits(s)
  {
    if s == [] then 0 else ParseNat(s[..|s| - 1]) * 10 + (s[|s| - 1] as int - '0' as int)
  }

  lemma {:induction false} ParseNatToString(n: nat)
    ensures ParseNat(NatToString(n)) == n
    decreases n
  {
    if n >= 10 {
      var s := NatToString(n);
      assert s[..|s| - 1] == NatToString(n / 10);
      ParseNatToString(n / 10);
    }
  }

  function Zeros(k: nat): (s: string)
    ensures |s| == k && IsDigits(s)
  {
    if k == 0 then [] else "0" + Zeros(k - 1)
  }

  /** Python's f"{n:0w}": the decimal digits of n, padded on the left with zeros to width w. */
  function ZeroPad(n: nat, w: nat): (s: string)
    ensures IsDigits(s)
  {
    var d := NatToString(n);
    if |d| < w then Zeros(w - |d|) + d else d
  }

  lemma {:induction false} ParseZerosPrefix(k: nat, s: string)
    requires IsDigits(s)
    ensures ParseNat(Zeros(k) + s) == ParseNat(s)
    decreases |s|, k
  {
    if s == [] {
      assert Zeros(k) + s == Zeros(k);
      if k > 0 {
        assert Zeros(k)[..k - 1] == Zeros(k - 1) by {
          ZerosSnoc(k - 1);
        }
        ParseZerosPrefix(k - 1, []);
        assert Zeros(k - 1) + [] == Zeros(k - 1);
      }
    } else {
      assert (Zeros(k) + s)[..|Zeros(k) + s| - 1] == Zeros(k) + s[..|s| - 1];
      ParseZerosPrefix(k, s[..|s| - 1]);
    }
  }

  lemma {:induction false} ZerosSnoc(k: nat)
    ensures Zeros(k + 1) == Zeros(k) + "0"
    decreases k
  {
    if k > 0 {
      ZerosSnoc(k - 1);
    }
  }

  /** Zero padding keeps the value: int(f"{n:0w}") == n. */
  lemma ParseZeroPad(n: nat, w: nat)
    ensures ParseNat(ZeroPad(n, w)) == n
  {
    var d := NatToString(n);
    ParseNatToString(n);
    if |d| < w {
      var z := Zeros(w - |d|);
      assert IsDigits(z + d);
      ParseZerosPrefix(w - |d|, d);
      assert ZeroPad(n, w) == z + d;
    }
  }

  function Pow10(k: nat): nat {
    if k == 0 then 1 else 10 * Pow10(k - 1)
  }

  lemma {:induction false} NatToStringLength(n: nat, k: nat)
    requires 1 <= k && n < Pow10(k)
    ensures |NatToString(n)| <= k
    decreases n
  {
    if n >= 10 {
      assert k >= 2;
      NatToStringLength(n / 10, k - 1);
    }
  }

  /** A value below 10^w pads to exactly w digits. */
  lemma ZeroPadLength(n: nat, w: nat)
    requires 1 <= w && n < Pow10(w)
    ensures |ZeroPad(n, w)| == w
  {
    NatToStringLength(n, w);
  }
}
