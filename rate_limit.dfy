/**
 * The in-memory sliding-window rate limiter `_rate_limit`, of which the
 * media router and the legacy router each keep one copy with its own bucket
 * map (two instances of SlidingWindow). A bucket is the list of accepted
 * request times, in integer milliseconds; the window is given in seconds.
 */
module RateLimit {
  import opened Wrappers

  const DefaultLimit: nat := 10
  const DefaultWindow: nat := 60

  const RateLimitDetail: string := "Rate limit exceeded"

  /** `f"{namespace}:{key}" if key else namespace` */
  function BucketKey(namespace: string, key: string): string {
    if key == "" then namespace else namespace + ":" + key
  }

  /** Within one namespace, distinct keys get distinct buckets, and a keyed bucket is never the bare namespace. */
  lemma BucketKeyInjective(namespace: string, k1: string, k2: string)
    ensures k1 != "" ==> BucketKey(namespace, k1) != BucketKey(namespace, "")
    ensures BucketKey(namespace, k1) == BucketKey(namespace, k2) <==> k1 == k2
  {
    var p := namespace + ":";
    if k1 != "" {
      assert (p + k1)[|p|..] == k1;
    }
    if k2 != "" {
      assert (p + k2)[|p|..] == k2;
    }
  }

  /** `[t for t in entries if t > cutoff]` */
  function Prune(entries: seq<int>, cutoff: int): (r: seq<int>)
    ensures |r| <= |entries|
    ensures forall i :: 0 <= i < |r| ==> r[i] > cutoff
  {
    if entries == [] then []
    else (if entries[0] > cutoff then [entries[0]] else []) + Prune(entries[1..], cutoff)
  }

  /** Exactly the entries strictly newer than the cutoff survive. */
  lemma {:induction false} PruneMembers(entries: seq<int>, cutoff: int, x: int)
    ensures x in Prune(entries, cutoff) <==> x in entries && x > cutoff
  {
    if entries != [] {
      PruneMembers(entries[1..], cutoff, x);
      assert entries == [entries[0]] + entries[1..];
    }
  }

  lemma {:induction false} PruneAppend(a: seq<int>, b: seq<int>, cutoff: int)
    ensures Prune(a + b, cutoff) == Prune(a, cutoff) + Prune(b, cutoff)
  {
    if a == [] {
      assert a + b == b;
    } else {
      assert (a + b)[1..] == a[1..] + b;
      PruneAppend(a[1..], b, cutoff);
    }
  }

  /** Pruning at a later cutoff after an earlier one is pruning at the later one. */
  lemma {:induction false} PruneTwice(entries: seq<int>, c1: int, c2: int)
    requires c1 <= c2
    ensures Prune(Prune(entries, c1), c2) == Prune(entries, c2)
  {
    if entries != [] {
      PruneTwice(entries[1..], c1, c2);
      var head := if entries[0] > c1 then [entries[0]] else [];
      PruneAppend(head, Prune(entries[1..], c1), c2);
    }
  }

  /**
   * One request at `now` against a bucket: None when `limit` or more
   * entries are inside the window, else the pruned bucket with `now` added.
   */
  function Admit(entries: seq<int>, now: int, limit: int, windowMs: int): Option<seq<int>> {
    var live := Prune(entries, now - windowMs);
    if |live| >= limit then None else Some(live + [now])
  }

  /** An accepted request leaves at most `limit` entries, all inside the window, the newest being `now`. */
  lemma AdmitSpec(entries: seq<int>, now: int, limit: int, windowMs: int)
    requires windowMs > 0
    ensures var next := Admit(entries, now, limit, windowMs);
      && (next.None? <==> |Prune(entries, now - windowMs)| >= limit)
      && (next.Some? ==>
            && 0 < |next.value| <= limit
            && next.value[|next.value| - 1] == now
            && forall x :: x in next.value <==> x == now || (x in entries && x > now - windowMs))
  {
    var live := Prune(entries, now - windowMs);
    forall x ensures x in live <==> x in entries && x > now - windowMs {
      PruneMembers(entries, now - windowMs, x);
    }
  }

  // ---------------------------------------------------------------------------
  // The window bound over a run of requests on one bucket
  // ---------------------------------------------------------------------------

  predicate NonDecreasing(ts: seq<int>) {
    forall i, j :: 0 <= i < j < |ts| ==> ts[i] <= ts[j]
  }

  /** The bucket and the accepted request times after requests at the times `ts`, in order. */
  datatype Run = Run(stored: seq<int>, accepted: seq<int>)

  /** One request of a run. */
  function Step(prev: Run, now: int, limit: int, windowMs: int): Run {
    match Admit(prev.stored, now, limit, windowMs)
    case None => prev
    case Some(next) => Run(next, prev.accepted + [now])
  }

  function Replay(ts: seq<int>, limit: int, windowMs: int): Run {
    if ts == [] then Run([], [])
    else Step(Replay(ts[..|ts| - 1], limit, windowMs), ts[|ts| - 1], limit, windowMs)
  }

  /** If the bucket agreed with the accepted times over an earlier window, it does over the window ending at `now`. */
  lemma StepKeepsWindow(prev: Run, now: int, limit: nat, windowMs: int, before: int)
    requires windowMs > 0 && before <= now - windowMs
    requires Prune(prev.stored, before) == Prune(prev.accepted, before)
    requires |Prune(prev.accepted, before)| <= limit
    ensures var next := Step(prev, now, limit, windowMs); var cut := now - windowMs;
      && Prune(next.stored, cut) == Prune(next.accepted, cut)
      && |Prune(next.accepted, cut)| <= limit
  {
    var cut := now - windowMs;
    PruneTwice(prev.stored, before, cut);
    PruneTwice(prev.accepted, before, cut);
    var live := Prune(prev.stored, cut);
    assert live == Prune(prev.accepted, cut);
    if |live| < limit {
      var next := Step(prev, now, limit, windowMs);
      assert next.stored == live + [now] && next.accepted == prev.accepted + [now];
      assert Prune([now], cut) == [now] by {
        assert [now][1..] == [];
      }
      PruneTwice(prev.stored, cut, cut);
      PruneAppend(live, [now], cut);
      PruneAppend(prev.accepted, [now], cut);
    }
  }

  /**
   * With the clock never going back, a window ending at the latest request
   * holds at most `limit` accepted requests, and the bucket, pruned to that
   * window, holds exactly those.
   */
  lemma {:induction false} ReplayWindowBound(ts: seq<int>, limit: nat, windowMs: int)
    requires windowMs > 0 && ts != [] && NonDecreasing(ts)
    ensures var run := Replay(ts, limit, windowMs); var cutoff := ts[|ts| - 1] - windowMs;
      && Prune(run.stored, cutoff) == Prune(run.accepted, cutoff)
      && |Prune(run.accepted, cutoff)| <= limit
  {
    var now := ts[|ts| - 1];
    var prefix := ts[..|ts| - 1];
    if prefix == [] {
      StepKeepsWindow(Run([], []), now, limit, windowMs, now - windowMs);
    } else {
      assert NonDecreasing(prefix);
      ReplayWindowBound(prefix, limit, windowMs);
      StepKeepsWindow(Replay(prefix, limit, windowMs), now, limit, windowMs, prefix[|prefix| - 1] - windowMs);
    }
  }

  // ---------------------------------------------------------------------------
  // The limiter
  // ---------------------------------------------------------------------------

  class SlidingWindow {
    /** `_RL_BUCKET` */
    var buckets: map<string, seq<int>>

    constructor ()
      ensures buckets == map[]
    {
      buckets := map[];
    }

    /** `_RL_BUCKET.get(bucket_key, [])` */
    function Entries(k: string): (e: seq<int>)
      reads this
      ensures k !in buckets ==> e == []
      ensures k in buckets ==> e == buckets[k]
    {
      if k in buckets then buckets[k] else []
    }

    /** Every bucket holds at most `limit` entries. */
    predicate Bounded(limit: int)
      reads this
    {
      forall k :: k in buckets ==> |buckets[k]| <= limit
    }

    /**
     * `_rate_limit(namespace, key, limit, window)` at time `now`: a 429 when
     * the window is full, leaving every bucket as it was; otherwise only the
     * request's bucket is rewritten, to its pruned entries followed by `now`.
     */
    method RateLimit(namespace: string, key: string, now: int, limit: int, window: int) returns (r: Option<HttpError>)
      modifies this
      ensures var k := BucketKey(namespace, key);
        var next := Admit(old(Entries(k)), now, limit, window * 1000);
        && (next.None? ==> r == Some(HttpError(429, RateLimitDetail)) && buckets == old(buckets))
        && (next.Some? ==> r.None? && buckets == old(buckets)[k := next.value])
      ensures old(Bounded(limit)) ==> Bounded(limit)
    {
      var bucketKey := BucketKey(namespace, key);
      var windowStart := now - window * 1000;
      var entries := Entries(bucketKey);
      entries := Prune(entries, windowStart);
      if |entries| >= limit {
        return Some(HttpError(429, RateLimitDetail));
      }
      entries := entries + [now];
      buckets := buckets[bucketKey := entries];
      r := None;
    }
  }
}
