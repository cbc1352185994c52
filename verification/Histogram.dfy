/** Durations counted in buckets, and the percentiles read back from the counts. */
module Histogram {
  const WRAP := 0x1_0000_0000_0000_0000

  type U64 = n: nat | n < WRAP

  const BOUNDS: seq<U64> := [
    50, 100, 250, 500, 1000,
    2000, 4000, 8000, 12000, 16000,
    24000, 33000, 50000, 100000,
    WRAP - 1]

  const LAST := 14

  // ---- what was recorded ----

  function AtMost(xs: seq<U64>, v: int): (n: nat)
    ensures n <= |xs|
  {
    if xs == [] then 0 else (if xs[0] <= v then 1 else 0) + AtMost(xs[1..], v)
  }

  function InBucket(xs: seq<U64>, i: nat): (n: nat)
    requires i <= LAST
    ensures n <= |xs|
  {
    if xs == [] then 0 else (if Bucket(xs[0]) == i then 1 else 0) + InBucket(xs[1..], i)
  }

  function Sum(xs: seq<U64>): nat {
    if xs == [] then 0 else xs[0] + Sum(xs[1..])
  }

  function Max(xs: seq<U64>): U64 {
    if xs == [] then 0 else if xs[0] > Max(xs[1..]) then xs[0] else Max(xs[1..])
  }

  /** The bucket with the least bound that is not below. */
  function Bucket(microseconds: U64): (i: nat)
    ensures i <= LAST && microseconds <= BOUNDS[i] && (i > 0 ==> BOUNDS[i - 1] < microseconds)
  {
    if microseconds <= 50 then 0 else if microseconds <= 100 then 1 else if microseconds <= 250 then 2
    else if microseconds <= 500 then 3 else if microseconds <= 1000 then 4 else if microseconds <= 2000 then 5
    else if microseconds <= 4000 then 6 else if microseconds <= 8000 then 7 else if microseconds <= 12000 then 8
    else if microseconds <= 16000 then 9 else if microseconds <= 24000 then 10 else if microseconds <= 33000 then 11
    else if microseconds <= 50000 then 12 else if microseconds <= 100000 then 13 else 14
  }

  /** The nearest-rank order statistic: the `rank`-th smallest of the values. */
  ghost predicate IsRank(xs: seq<U64>, rank: nat, x: U64) {
    x in xs && AtMost(xs, x - 1) < rank <= AtMost(xs, x)
  }

  /** The rank that a percentile asks for. */
  function Rank(samples: nat, percentile: nat): nat {
    (samples * percentile + 99) / 100
  }

  lemma {:induction false} AtMostGrows(xs: seq<U64>, v: int, w: int)
    requires v <= w
    ensures AtMost(xs, v) <= AtMost(xs, w)
    decreases |xs|
  {
    if xs != [] {
      AtMostGrows(xs[1..], v, w);
    }
  }

  lemma {:induction false} AtMostAll(xs: seq<U64>)
    ensures AtMost(xs, WRAP - 1) == |xs|
    decreases |xs|
  {
    if xs != [] {
      AtMostAll(xs[1..]);
    }
  }

  /** Every rank from 1 to the number of samples has its order statistic. */
  lemma RankExists(xs: seq<U64>, rank: nat) returns (x: U64)
    requires 1 <= rank <= |xs|
    ensures IsRank(xs, rank, x)
  {
    AtMostAll(xs);
    x := LargestAtMost(xs, WRAP - 1);
    while AtMost(xs, x - 1) >= rank
      invariant x in xs && rank <= AtMost(xs, x)
      decreases x
    {
      x := LargestAtMost(xs, x - 1);
    }
  }

  lemma {:induction false} LargestAtMost(xs: seq<U64>, v: int) returns (x: U64)
    requires AtMost(xs, v) > 0
    ensures x in xs && x <= v && AtMost(xs, x) == AtMost(xs, v)
    decreases |xs|
  {
    var first, rest := xs[0], xs[1..];
    if AtMost(rest, v) == 0 {
      x := first;
      AtMostGrows(rest, x, v);
    } else {
      x := LargestAtMost(rest, v);
      if x < first <= v {
        AtMostGrows(rest, x, first);
        AtMostGrows(rest, first, v);
        x := first;
      }
    }
  }

  /** There is only one. */
  lemma RankIsUnique(xs: seq<U64>, rank: nat, x: U64, y: U64)
    requires IsRank(xs, rank, x) && IsRank(xs, rank, y)
    ensures x == y
  {
    if x < y {
      AtMostGrows(xs, x, y - 1);
    } else if y < x {
      AtMostGrows(xs, y, x - 1);
    }
  }

  // ---- what the buckets know ----

  /** The first bucket, from `i` on, up to which at least `rank` values lie. */
  function Reaching(xs: seq<U64>, rank: nat, i: nat): (r: nat)
    requires i <= LAST && rank <= |xs|
    ensures i <= r <= LAST
    decreases LAST - i
  {
    if i == LAST || AtMost(xs, BOUNDS[i]) >= rank then i else Reaching(xs, rank, i + 1)
  }

  lemma {:induction false} ReachingIsFirst(xs: seq<U64>, rank: nat, i: nat)
    requires i <= LAST && rank <= |xs|
    requires i > 0 ==> AtMost(xs, BOUNDS[i - 1]) < rank
    ensures var r := Reaching(xs, rank, i);
            AtMost(xs, BOUNDS[r]) >= rank && (r > 0 ==> AtMost(xs, BOUNDS[r - 1]) < rank)
    decreases LAST - i
  {
    AtMostAll(xs);
    if i != LAST && AtMost(xs, BOUNDS[i]) < rank {
      ReachingIsFirst(xs, rank, i + 1);
    }
  }

  /** What the histogram reports for a bucket, in microseconds. */
  function Upper(xs: seq<U64>, i: nat): U64
    requires i <= LAST
  {
    if i == LAST then Max(xs) else BOUNDS[i]
  }

  function Reported(xs: seq<U64>, rank: nat): U64
    requires rank <= |xs|
  {
    Upper(xs, Reaching(xs, rank, 0))
  }

  /** The bucket reported for a rank is the bucket of that order statistic. */
  lemma ReachesItsBucket(xs: seq<U64>, rank: nat, x: U64)
    requires rank <= |xs| && IsRank(xs, rank, x)
    ensures Reaching(xs, rank, 0) == Bucket(x)
  {
    var r, b := Reaching(xs, rank, 0), Bucket(x);
    ReachingIsFirst(xs, rank, 0);
    if BOUNDS[r] < x {
      AtMostGrows(xs, BOUNDS[r], x - 1);
    }
    if r > 0 && x <= BOUNDS[r - 1] {
      AtMostGrows(xs, x, BOUNDS[r - 1]);
    }
    OnlyBucket(x, r);
  }

  lemma OnlyBucket(x: U64, i: nat)
    requires i <= LAST && x <= BOUNDS[i] && (i > 0 ==> BOUNDS[i - 1] < x)
    ensures Bucket(x) == i
  {
  }

  lemma {:induction false} MaxIsLargest(xs: seq<U64>, x: U64)
    requires x in xs
    ensures x <= Max(xs)
    decreases |xs|
  {
    if x != xs[0] {
      MaxIsLargest(xs[1..], x);
    }
  }

  /** The reported percentile is not below the order statistic, and the bound before the
      reported bucket is: the true value is within one bucket. */
  lemma Bracket(xs: seq<U64>, rank: nat, x: U64)
    requires rank <= |xs| && IsRank(xs, rank, x)
    ensures x <= Reported(xs, rank)
    ensures Bucket(x) > 0 ==> BOUNDS[Bucket(x) - 1] < x
    ensures Reported(xs, rank) == if Bucket(x) == LAST then Max(xs) else BOUNDS[Bucket(x)]
  {
    ReachesItsBucket(xs, rank, x);
    MaxIsLargest(xs, x);
  }

  /** A higher percentile is never reported lower. */
  lemma ReportedGrows(xs: seq<U64>, rank: nat, rank': nat)
    requires 1 <= rank <= rank' <= |xs|
    ensures Reported(xs, rank) <= Reported(xs, rank')
  {
    var x := RankExists(xs, rank);
    var y := RankExists(xs, rank');
    Bracket(xs, rank, x);
    Bracket(xs, rank', y);
    if y < x {
      AtMostGrows(xs, y, x - 1);
    }
    if Bucket(x) != Bucket(y) {
      BoundsGrow(Bucket(x), Bucket(y), x, y);
    }
  }

  lemma BoundsGrow(i: nat, j: nat, x: U64, y: U64)
    requires i == Bucket(x) && j == Bucket(y) && x <= y && i != j
    ensures i < j && BOUNDS[i] < y
  {
  }

  lemma RankIsInRange(samples: nat, percentile: nat)
    requires samples > 0 && 1 <= percentile <= 100
    ensures 1 <= Rank(samples, percentile) <= samples
  {
    assert samples * percentile <= samples * 100;
    assert samples * percentile >= 1;
  }

  /** The rank is the least whose share of the samples is not below the percentage. */
  lemma RankIsNearest(samples: nat, percentile: nat)
    ensures 100 * (Rank(samples, percentile) - 1) < samples * percentile <= 100 * Rank(samples, percentile)
  {
    var x := samples * percentile;
    assert (x + 99) / 100 * 100 <= x + 99 < (x + 99) / 100 * 100 + 100;
  }

  lemma RankGrows(samples: nat, p: nat, q: nat)
    requires p <= q
    ensures Rank(samples, p) <= Rank(samples, q)
  {
    assert samples * p <= samples * q;
  }

  /** Percentiles grow with the percentage. */
  lemma PercentilesGrow(xs: seq<U64>, p: nat, q: nat)
    requires xs != [] && 1 <= p <= q <= 100
    ensures 1 <= Rank(|xs|, p) <= |xs| && 1 <= Rank(|xs|, q) <= |xs|
    ensures Reported(xs, Rank(|xs|, p)) <= Reported(xs, Rank(|xs|, q))
  {
    RankIsInRange(|xs|, p);
    RankIsInRange(|xs|, q);
    RankGrows(|xs|, p, q);
    ReportedGrows(xs, Rank(|xs|, p), Rank(|xs|, q));
  }

  /** How many values the first `i` buckets hold. */
  function Below(xs: seq<U64>, i: nat): (n: nat)
    requires i <= LAST + 1
    ensures n <= |xs|
  {
    if i == 0 then 0 else AtMost(xs, BOUNDS[i - 1])
  }

  /** The counts up to a bucket are the values up to its bound. */
  lemma {:induction false} CountsAddUp(xs: seq<U64>, i: nat)
    requires i <= LAST
    ensures Below(xs, i + 1) == Below(xs, i) + InBucket(xs, i)
    decreases |xs|
  {
    if xs != [] {
      CountsAddUp(xs[1..], i);
      InItsBucket(xs[0], i);
    }
  }

  lemma InItsBucket(x: U64, i: nat)
    requires i <= LAST
    ensures Bucket(x) == i <==> x <= BOUNDS[i] && (i > 0 ==> BOUNDS[i - 1] < x)
  {
  }

  // ---- one more value ----

  lemma {:induction false} InBucketAppend(xs: seq<U64>, x: U64, i: nat)
    requires i <= LAST
    ensures InBucket(xs + [x], i) == InBucket(xs, i) + if Bucket(x) == i then 1 else 0
    decreases |xs|
  {
    if xs == [] {
      assert (xs + [x])[1..] == [];
    } else {
      assert (xs + [x])[1..] == xs[1..] + [x];
      InBucketAppend(xs[1..], x, i);
    }
  }

  lemma {:induction false} SumAppend(xs: seq<U64>, x: U64)
    ensures Sum(xs + [x]) == Sum(xs) + x
    decreases |xs|
  {
    if xs == [] {
      assert (xs + [x])[1..] == [];
    } else {
      assert (xs + [x])[1..] == xs[1..] + [x];
      SumAppend(xs[1..], x);
    }
  }

  lemma {:induction false} MaxAppend(xs: seq<U64>, x: U64)
    ensures Max(xs + [x]) == if x > Max(xs) then x else Max(xs)
    decreases |xs|
  {
    if xs == [] {
      assert (xs + [x])[1..] == [];
    } else {
      assert (xs + [x])[1..] == xs[1..] + [x];
      MaxAppend(xs[1..], x);
    }
  }

  // ---- the histogram ----

  datatype Snapshot = Snapshot(samples: U64, average: real, p50: real, p95: real, p99: real, maximum: real)

  function Milliseconds(microseconds: nat): real {
    microseconds as real / 1000.0
  }

  /** What a snapshot says about the values, as long as no counter has wrapped. */
  function Summary(xs: seq<U64>): Snapshot {
    if xs == [] || |xs| * 100 >= WRAP then Snapshot(0, 0.0, 0.0, 0.0, 0.0, 0.0)
    else
      RankIsInRange(|xs|, 50);
      RankIsInRange(|xs|, 95);
      RankIsInRange(|xs|, 99);
      Snapshot(|xs|, Sum(xs) as real / |xs| as real / 1000.0,
               Milliseconds(Reported(xs, Rank(|xs|, 50))),
               Milliseconds(Reported(xs, Rank(|xs|, 95))),
               Milliseconds(Reported(xs, Rank(|xs|, 99))),
               Milliseconds(Max(xs)))
  }

  /** The percentile of a snapshot that is asked for by its percentage. */
  function PercentileOf(s: Snapshot, percentile: nat): real
    requires percentile in {50, 95, 99}
  {
    if percentile == 50 then s.p50 else if percentile == 95 then s.p95 else s.p99
  }

  lemma PercentileIsReported(xs: seq<U64>, percentile: nat)
    requires xs != [] && |xs| * 100 < WRAP && percentile in {50, 95, 99}
    ensures 1 <= Rank(|xs|, percentile) <= |xs|
    ensures PercentileOf(Summary(xs), percentile) == Milliseconds(Reported(xs, Rank(|xs|, percentile)))
  {
    RankIsInRange(|xs|, percentile);
  }

  /** Each percentile of a snapshot is, in milliseconds, the upper end of the bucket that holds
      the nearest-rank order statistic, which it is not below. */
  lemma SnapshotIsExact(xs: seq<U64>, percentile: nat, rank: nat, x: U64)
    requires xs != [] && |xs| * 100 < WRAP && percentile in {50, 95, 99}
    requires 100 * (rank - 1) < |xs| * percentile <= 100 * rank && IsRank(xs, rank, x)
    ensures
      var upper := if Bucket(x) == LAST then Max(xs) else BOUNDS[Bucket(x)];
      PercentileOf(Summary(xs), percentile) * 1000.0 == upper as real && x <= upper
  {
    RankIsNearest(|xs|, percentile);
    SameRank(rank, Rank(|xs|, percentile), |xs| * percentile);
    PercentileIsReported(xs, percentile);
    Bracket(xs, rank, x);
  }

  /** The percentiles of a snapshot are ordered. */
  lemma SnapshotIsOrdered(xs: seq<U64>, p: nat, q: nat)
    requires xs != [] && |xs| * 100 < WRAP && p in {50, 95, 99} && q in {50, 95, 99} && p <= q
    ensures PercentileOf(Summary(xs), p) <= PercentileOf(Summary(xs), q)
  {
    PercentileIsReported(xs, p);
    PercentileIsReported(xs, q);
    PercentilesGrow(xs, p, q);
  }

  /** The maximum of a snapshot is the largest value. */
  lemma SnapshotMaximum(xs: seq<U64>)
    requires xs != [] && |xs| * 100 < WRAP
    ensures exists x :: x in xs && Summary(xs).maximum * 1000.0 == x as real && forall y <- xs :: y <= x
  {
    MaxIsThere(xs);
    forall y | y in xs ensures y <= Max(xs) {
      MaxIsLargest(xs, y);
    }
  }

  lemma SnapshotAverage(xs: seq<U64>)
    requires xs != [] && |xs| * 100 < WRAP
    ensures Summary(xs).samples == |xs| && Summary(xs).average * 1000.0 == Sum(xs) as real / |xs| as real
  {
  }

  lemma {:induction false} MaxIsThere(xs: seq<U64>)
    requires xs != []
    ensures Max(xs) in xs
  {
    if |xs| > 1 {
      MaxIsThere(xs[1..]);
    }
  }

  lemma SameRank(r: nat, r': nat, share: nat)
    requires 100 * (r - 1) < share <= 100 * r && 100 * (r' - 1) < share <= 100 * r'
    ensures r == r'
  {
  }

  /** Addition as the counters do it. */
  function Plus(a: U64, b: U64): U64 {
    if a + b < WRAP then a + b else a + b - WRAP
  }

  /** The rank as the source computes it. */
  function Target(samples: U64, percentile: nat): U64 {
    (samples * percentile + 99) % WRAP / 100
  }

  lemma TargetIsRank(samples: U64, percentile: nat)
    requires samples * percentile + 99 < WRAP
    ensures Target(samples, percentile) == Rank(samples, percentile)
  {
  }

  /** Every counter is exact until it wraps. */
  ghost predicate Counts(buckets: seq<U64>, xs: seq<U64>) {
    |buckets| == LAST + 1 && forall i | 0 <= i <= LAST :: InBucket(xs, i) < WRAP ==> buckets[i] == InBucket(xs, i)
  }

  lemma OneMoreCounted(buckets: seq<U64>, xs: seq<U64>, x: U64)
    requires Counts(buckets, xs)
    ensures Counts(buckets[Bucket(x) := Plus(buckets[Bucket(x)], 1)], xs + [x])
  {
    forall i | 0 <= i <= LAST
      ensures InBucket(xs + [x], i) == InBucket(xs, i) + if Bucket(x) == i then 1 else 0
    {
      InBucketAppend(xs, x, i);
    }
  }

  class DurationHistogram {
    var samples: U64
    var total: U64
    var maximum: U64
    const buckets: array<U64>
    /** What has been recorded since the last reset. */
    ghost var recorded: seq<U64>

    ghost predicate Valid()
      reads this, buckets
    {
      && (|recorded| < WRAP ==> samples == |recorded|)
      && (Sum(recorded) < WRAP ==> total == Sum(recorded))
      && maximum == Max(recorded)
      && Counts(buckets[..], recorded)
    }

    constructor ()
      ensures Valid() && recorded == [] && fresh(buckets)
    {
      samples, total, maximum, recorded := 0, 0, 0, [];
      buckets := new U64[LAST + 1](_ => 0);
    }

    /** `measured` is the duration in whole microseconds, as the cast truncates it; a negative
        one counts as none. */
    method Record(measured: int)
      requires Valid() && measured < WRAP
      modifies this, buckets
      ensures Valid() && recorded == old(recorded) + [if measured <= 0 then 0 else measured]
    {
      var microseconds: U64 := if measured <= 0 then 0 else measured;
      SumAppend(recorded, microseconds);
      MaxAppend(recorded, microseconds);
      OneMoreCounted(buckets[..], recorded, microseconds);
      samples := Plus(samples, 1);
      total := Plus(total, microseconds);
      if microseconds > maximum {
        maximum := microseconds;
      }
      var i := BucketIndex(microseconds);
      buckets[i] := Plus(buckets[i], 1);
      recorded := recorded + [microseconds];
    }

    method Reset()
      requires Valid()
      modifies this, buckets
      ensures Valid() && recorded == []
    {
      samples, total, maximum, recorded := 0, 0, 0, [];
      var i := 0;
      while i <= LAST
        invariant 0 <= i <= LAST + 1 && forall k | 0 <= k < i :: buckets[k] == 0
        invariant samples == 0 && total == 0 && maximum == 0 && recorded == []
        invariant buckets.Length == LAST + 1
      {
        buckets[i] := 0;
        i := i + 1;
      }
    }

    /** The last return is reached only when the rank asked for exceeds the number of
        samples, which no percentile up to 100 does. */
    method Percentile(percentile: nat) returns (milliseconds: real)
      requires Valid() && |recorded| < WRAP && |recorded| * percentile + 99 < WRAP
      ensures Rank(|recorded|, percentile) <= |recorded| ==>
                milliseconds == Milliseconds(Reported(recorded, Rank(|recorded|, percentile)))
      ensures Rank(|recorded|, percentile) > |recorded| ==> milliseconds == 0.0
    {
      var target := Target(samples, percentile);
      TargetIsRank(samples, percentile);
      ghost var xs := recorded;
      AtMostAll(xs);
      var accumulated: U64 := 0;
      var i := 0;
      while i <= LAST
        invariant 0 <= i <= LAST + 1
        invariant accumulated == Below(xs, i) && (i > 0 ==> accumulated < target)
        invariant target <= |xs| ==> i <= LAST && Reaching(xs, target, 0) == Reaching(xs, target, i)
      {
        NextCount(xs, buckets[..], i);
        accumulated := Plus(accumulated, buckets[i]);
        if accumulated >= target {
          if BOUNDS[i] == WRAP - 1 {
            return Milliseconds(maximum);
          }
          return Milliseconds(BOUNDS[i]);
        }
        i := i + 1;
      }
      return 0.0;
    }

    method TakeSnapshot() returns (s: Snapshot)
      requires Valid() && |recorded| * 100 < WRAP && Sum(recorded) < WRAP
      ensures s == Summary(recorded)
    {
      if samples == 0 {
        return Snapshot(0, 0.0, 0.0, 0.0, 0.0, 0.0);
      }
      RankIsInRange(|recorded|, 50);
      RankIsInRange(|recorded|, 95);
      RankIsInRange(|recorded|, 99);
      var average := total as real / samples as real / 1000.0;
      var p50 := Percentile(50);
      var p95 := Percentile(95);
      var p99 := Percentile(99);
      return Snapshot(samples, average, p50, p95, p99, Milliseconds(maximum));
    }
  }

  /** Adding the next count neither wraps nor misses a value. */
  lemma NextCount(xs: seq<U64>, buckets: seq<U64>, i: nat)
    requires i <= LAST && |xs| < WRAP && Counts(buckets, xs)
    ensures Plus(Below(xs, i), buckets[i]) == Below(xs, i + 1)
  {
    CountsAddUp(xs, i);
    assert buckets[i] == InBucket(xs, i);
  }

  /** The loop that finds a value's bucket; the last bucket takes what no other does. */
  method BucketIndex(microseconds: U64) returns (index: nat)
    ensures index == Bucket(microseconds)
  {
    index := 0;
    while index < LAST
      invariant 0 <= index <= LAST && (index > 0 ==> BOUNDS[index - 1] < microseconds)
    {
      if microseconds <= BOUNDS[index] {
        OnlyBucket(microseconds, index);
        return;
      }
      index := index + 1;
    }
    OnlyBucket(microseconds, index);
  }
}
