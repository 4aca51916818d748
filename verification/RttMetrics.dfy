/** Round-trip-time metrics: a power-of-two histogram whose percentile answers bound the true nearest-rank percentile. */
module RttMetrics {
  import opened Bytes

  const WORD32: int := 0x1_0000_0000
  const WORD64: int := 0x1_0000_0000_0000_0000
  const BUCKET_COUNT: nat := 64
  const NANOSECONDS_PER_SECOND: nat := 1_000_000_000

  // ---- powers of two and buckets ----

  function Pow2(n: nat): (p: nat)
    ensures p > 0
  {
    if n == 0 then 1 else 2 * Pow2(n - 1)
  }

  /** Number of bits needed to write `v`. */
  function BitWidth(v: nat): nat {
    if v == 0 then 0 else 1 + BitWidth(v / 2)
  }

  function RttBucket(elapsed: nat): nat {
    if elapsed == 0 then 0 else BitWidth(elapsed) - 1
  }

  lemma {:induction false} Pow2Monotone(m: nat, n: nat)
    requires m <= n
    ensures Pow2(m) <= Pow2(n)
  {
    if m < n {
      Pow2Monotone(m, n - 1);
    }
  }

  lemma {:induction false} BitWidthBounds(v: nat)
    requires v > 0
    ensures BitWidth(v) > 0 && Pow2(BitWidth(v) - 1) <= v < Pow2(BitWidth(v))
  {
    if v > 1 {
      BitWidthBounds(v / 2);
    }
  }

  /** A bucket holds the values between two consecutive powers of two; the first also holds zero. */
  lemma BucketBounds(v: nat)
    ensures v < Pow2(RttBucket(v) + 1)
    ensures v > 0 ==> Pow2(RttBucket(v)) <= v
  {
    if v > 0 {
      BitWidthBounds(v);
    }
  }

  lemma BucketMonotone(v: nat, w: nat)
    requires v <= w
    ensures RttBucket(v) <= RttBucket(w)
  {
    BucketBounds(v);
    BucketBounds(w);
    if RttBucket(w) < RttBucket(v) {
      Pow2Monotone(RttBucket(w) + 1, RttBucket(v));
    }
  }

  lemma Pow2Of64()
    ensures Pow2(64) == WORD64
  {
    assert Pow2(8) == 0x100;
    assert Pow2(16) == 0x100 * Pow2(8);
    assert Pow2(24) == 0x100 * Pow2(16);
    assert Pow2(32) == 0x100 * Pow2(24);
    assert Pow2(40) == 0x100 * Pow2(32);
    assert Pow2(48) == 0x100 * Pow2(40);
    assert Pow2(56) == 0x100 * Pow2(48);
    assert Pow2(64) == 0x100 * Pow2(56);
  }

  lemma BucketFits(v: u64)
    ensures RttBucket(v) < BUCKET_COUNT
  {
    BucketBounds(v);
    Pow2Of64();
    if RttBucket(v) >= 64 {
      Pow2Monotone(64, RttBucket(v));
    }
  }

  // ---- counting samples ----

  function Count(samples: seq<u64>, p: u64 -> bool): nat {
    if samples == [] then 0
    else Count(samples[..|samples| - 1], p) + if p(samples[|samples| - 1]) then 1 else 0
  }

  function InBucket(samples: seq<u64>, bucket: nat): nat {
    Count(samples, (v: u64) => RttBucket(v) == bucket)
  }

  function Histogram(samples: seq<u64>): (h: seq<nat>)
    ensures |h| == BUCKET_COUNT
  {
    seq(BUCKET_COUNT, b requires 0 <= b < BUCKET_COUNT => InBucket(samples, b))
  }

  lemma {:induction false} CountImplies(samples: seq<u64>, p: u64 -> bool, q: u64 -> bool)
    requires forall v :: p(v) ==> q(v)
    ensures Count(samples, p) <= Count(samples, q) <= |samples|
  {
    if samples != [] {
      CountImplies(samples[..|samples| - 1], p, q);
    }
  }

  lemma {:induction false} CountSplit(samples: seq<u64>, p: u64 -> bool, q: u64 -> bool, either: u64 -> bool)
    requires forall v :: either(v) <==> p(v) || q(v)
    requires forall v :: !(p(v) && q(v))
    ensures Count(samples, either) == Count(samples, p) + Count(samples, q)
  {
    if samples != [] {
      CountSplit(samples[..|samples| - 1], p, q, either);
    }
  }

  lemma {:induction false} CountJoin(a: seq<u64>, b: seq<u64>, p: u64 -> bool)
    ensures Count(a + b, p) == Count(a, p) + Count(b, p)
  {
    if b == [] {
      assert a + b == a;
    } else {
      assert (a + b)[..|a + b| - 1] == a + b[..|b| - 1];
      CountJoin(a, b[..|b| - 1], p);
    }
  }

  lemma {:induction false} CountAll(samples: seq<u64>, p: u64 -> bool)
    requires forall v :: v in samples ==> p(v)
    ensures Count(samples, p) == |samples|
  {
    if samples != [] {
      CountAll(samples[..|samples| - 1], p);
    }
  }

  lemma {:induction false} CountNone(samples: seq<u64>, p: u64 -> bool)
    requires forall v :: v in samples ==> !p(v)
    ensures Count(samples, p) == 0
  {
    if samples != [] {
      CountNone(samples[..|samples| - 1], p);
    }
  }

  lemma WithoutOne(front: seq<u64>, v: u64, back: seq<u64>, all: seq<u64>)
    requires all == front + [v] + back
    ensures multiset(front + back) == multiset(all) - multiset{v}
  {
    assert multiset(all) == multiset(front) + multiset{v} + multiset(back);
  }

  lemma CountAround(front: seq<u64>, v: u64, back: seq<u64>, all: seq<u64>, p: u64 -> bool)
    requires all == front + [v] + back
    ensures Count(all, p) == Count(front + back, p) + if p(v) then 1 else 0
  {
    CountJoin(front + [v], back, p);
    CountJoin(front, back, p);
    assert (front + [v])[..|front|] == front;
  }

  lemma SplitAround(b: seq<u64>, a: seq<u64>, v: u64) returns (front: seq<u64>, back: seq<u64>)
    requires multiset(a) == multiset(b) && v in a
    ensures b == front + [v] + back
  {
    assert v in multiset(b);
    var i :| 0 <= i < |b| && b[i] == v;
    front, back := b[..i], b[i + 1..];
  }

  lemma WithoutLast(a: seq<u64>, before: seq<u64>, v: u64)
    requires a == before + [v]
    ensures multiset(before) == multiset(a) - multiset{v}
  {
    assert a == before + [v] + [] && before + [] == before;
    WithoutOne(before, v, [], a);
  }

  /** Counting does not depend on the order of the samples. */
  lemma {:induction false} CountPermutation(a: seq<u64>, b: seq<u64>, p: u64 -> bool)
    requires multiset(a) == multiset(b)
    ensures Count(a, p) == Count(b, p)
    decreases |a|
  {
    if a == [] {
      assert |multiset(b)| == 0;
    } else {
      var before, last := a[..|a| - 1], a[|a| - 1];
      var front, back := SplitAround(b, a, last);
      WithoutLast(a, before, last);
      WithoutOne(front, last, back, b);
      CountPermutation(before, front + back, p);
      CountAround(front, last, back, b, p);
    }
  }

  // ---- the percentile scan ----

  function Prefix(histogram: seq<nat>, n: nat): nat
    requires n <= |histogram|
  {
    if n == 0 then 0 else Prefix(histogram, n - 1) + histogram[n - 1]
  }

  lemma {:induction false} PrefixMonotone(histogram: seq<nat>, m: nat, n: nat)
    requires m <= n <= |histogram|
    ensures Prefix(histogram, m) <= Prefix(histogram, n)
  {
    if m < n {
      PrefixMonotone(histogram, m, n - 1);
    }
  }

  /** A bucket whose running total reaches the target for the first time, or none. */
  predicate IsFirstReaching(histogram: seq<nat>, target: nat, bucket: nat) {
    bucket < |histogram| && Prefix(histogram, bucket + 1) >= target && (bucket > 0 ==> Prefix(histogram, bucket) < target)
  }

  lemma FirstReachingUnique(histogram: seq<nat>, target: nat, a: nat, b: nat)
    requires IsFirstReaching(histogram, target, a) && IsFirstReaching(histogram, target, b)
    ensures a == b
  {
    if a < b {
      PrefixMonotone(histogram, a + 1, b);
    } else if b < a {
      PrefixMonotone(histogram, b + 1, a);
    }
  }

  /** Exclusive upper end of a bucket; the last bucket answers with the largest representable value. */
  function BucketUpper(bucket: nat): nat {
    if bucket + 1 == BUCKET_COUNT then WORD64 - 1 else Pow2(bucket + 1)
  }

  /** Nearest-rank position of the p-th percentile among n samples, counted from one. */
  function Rank(n: nat, percentile: nat): nat {
    (n * percentile + 99) / 100
  }

  lemma RankBounds(n: nat, percentile: nat)
    requires n > 0 && 1 <= percentile <= 100
    ensures 1 <= Rank(n, percentile) <= n
  {
    assert n * percentile <= n * 100;
    assert n * percentile >= n;
  }

  lemma RankMonotone(n: nat, p: nat, q: nat)
    requires p <= q
    ensures Rank(n, p) <= Rank(n, q)
  {
    assert n * p <= n * q;
  }

  /** The running totals count the samples in the lower buckets. */
  lemma {:induction false} PrefixCounts(samples: seq<u64>, n: nat)
    requires n <= BUCKET_COUNT
    ensures Prefix(Histogram(samples), n) == Count(samples, (v: u64) => RttBucket(v) < n)
  {
    var below := (v: u64) => RttBucket(v) < n;
    if n == 0 {
      CountNone(samples, below);
    } else {
      PrefixCounts(samples, n - 1);
      CountSplit(samples, (v: u64) => RttBucket(v) < n - 1, (v: u64) => RttBucket(v) == n - 1, below);
    }
  }

  /** Bucket counts add up to the number of samples. */
  lemma HistogramTotal(samples: seq<u64>)
    ensures Prefix(Histogram(samples), BUCKET_COUNT) == |samples|
  {
    PrefixCounts(samples, BUCKET_COUNT);
    forall v: u64 ensures RttBucket(v) < BUCKET_COUNT {
      BucketFits(v);
    }
    CountAll(samples, (v: u64) => RttBucket(v) < BUCKET_COUNT);
  }

  ghost predicate Sorted(s: seq<u64>) {
    forall i, j :: 0 <= i <= j < |s| ==> s[i] <= s[j]
  }

  lemma SortedRank(sorted: seq<u64>, k: nat, v: u64)
    requires Sorted(sorted) && k < |sorted| && v == sorted[k]
    ensures Count(sorted, (x: u64) => x < v) <= k
    ensures Count(sorted, (x: u64) => x <= v) >= k + 1
  {
    var less, atMost := (x: u64) => x < v, (x: u64) => x <= v;
    assert sorted == sorted[..k] + sorted[k..] && sorted == sorted[..k + 1] + sorted[k + 1..];
    CountJoin(sorted[..k], sorted[k..], less);
    CountNone(sorted[k..], less);
    CountImplies(sorted[..k], less, less);
    CountJoin(sorted[..k + 1], sorted[k + 1..], atMost);
    CountAll(sorted[..k + 1], atMost);
  }

  /** The nearest-rank sample lies in the bucket that the scan stops at. */
  lemma NearestRankBucket(samples: seq<u64>, sorted: seq<u64>, rank: nat)
    requires Sorted(sorted) && multiset(sorted) == multiset(samples) && 1 <= rank <= |sorted|
    ensures IsFirstReaching(Histogram(samples), rank, RttBucket(sorted[rank - 1]))
  {
    var v := sorted[rank - 1];
    var b := RttBucket(v);
    BucketFits(v);
    SortedRank(sorted, rank - 1, v);
    CountPermutation(sorted, samples, (x: u64) => x < v);
    CountPermutation(sorted, samples, (x: u64) => x <= v);
    PrefixCounts(samples, b);
    PrefixCounts(samples, b + 1);
    forall x: u64
      ensures RttBucket(x) < b ==> x < v
      ensures x <= v ==> RttBucket(x) < b + 1
    {
      if v <= x {
        BucketMonotone(v, x);
      } else {
        BucketMonotone(x, v);
      }
    }
    CountImplies(samples, (x: u64) => RttBucket(x) < b, (x: u64) => x < v);
    CountImplies(samples, (x: u64) => x <= v, (x: u64) => RttBucket(x) < b + 1);
  }

  /** What the percentile query answers for a histogram and a sample count. */
  ghost predicate IsPercentileUpper(histogram: seq<nat>, samples: nat, percentile: nat, upper: nat)
    requires |histogram| == BUCKET_COUNT
  {
    var target := Rank(samples, percentile);
    if samples == 0 || Prefix(histogram, BUCKET_COUNT) < target then upper == 0
    else exists bucket :: IsFirstReaching(histogram, target, bucket) && upper == BucketUpper(bucket)
  }

  /** The nearest-rank definition: the least rank at or below which at least p percent of the n samples lie. */
  predicate IsNearestRank(n: nat, percentile: nat, rank: nat) {
    100 * (rank - 1) < n * percentile <= 100 * rank
  }

  lemma RankIsNearest(n: nat, percentile: nat)
    ensures IsNearestRank(n, percentile, Rank(n, percentile))
    ensures forall rank: nat :: IsNearestRank(n, percentile, rank) ==> rank == Rank(n, percentile)
  {
  }

  /**
   * The percentile answer is an upper bound of the true nearest-rank percentile, and outside the two end buckets it is
   * at most twice that sample. In particular the scan always stops inside the histogram.
   */
  lemma PercentileBound(samples: seq<u64>, sorted: seq<u64>, percentile: nat, rank: nat, upper: nat)
    requires Sorted(sorted) && multiset(sorted) == multiset(samples) && |samples| > 0 && 1 <= percentile <= 100
    requires IsNearestRank(|samples|, percentile, rank)
    requires IsPercentileUpper(Histogram(samples), |samples|, percentile, upper)
    ensures 1 <= rank <= |sorted|
    ensures var sample := sorted[rank - 1];
            && sample <= upper
            && (RttBucket(sample) < BUCKET_COUNT - 1 ==> sample < upper)
            && (0 < sample && RttBucket(sample) < BUCKET_COUNT - 1 ==> upper <= 2 * sample)
  {
    assert |sorted| == |multiset(sorted)| == |samples|;
    RankBounds(|samples|, percentile);
    RankIsNearest(|samples|, percentile);
    var sample := sorted[rank - 1];
    NearestRankBucket(samples, sorted, rank);
    HistogramTotal(samples);
    var bucket: nat :| IsFirstReaching(Histogram(samples), rank, bucket) && upper == BucketUpper(bucket);
    FirstReachingUnique(Histogram(samples), rank, bucket, RttBucket(sample));
    BucketBounds(sample);
  }

  // What the answer says about the samples themselves.

  function Below(samples: seq<u64>, v: nat): nat {
    Count(samples, (x: u64) => x < v)
  }

  /**
   * The two ends of a bucket in numbers: 0 and 2, a power of two and its double, or 2^63 and the largest 64-bit value,
   * which stands for 2^64.
   */
  ghost predicate BucketEnds(low: nat, upper: nat) {
    || (low == 0 && upper == 2)
    || (low == 0x8000_0000_0000_0000 && upper == WORD64 - 1)
    || exists k: nat :: 1 <= k < 63 && low == Pow2(k) && upper == 2 * low
  }

  /**
   * At least p percent of the samples lie below the answer, except that the answer for the last bucket is not above
   * them all, and fewer than p percent below the lower end of its bucket.
   */
  ghost predicate HoldsPercent(samples: seq<u64>, percentile: nat, upper: nat) {
    exists low: nat ::
      && BucketEnds(low, upper)
      && 100 * Below(samples, low) < percentile * |samples|
      && (upper < WORD64 - 1 ==> 100 * Below(samples, upper) >= percentile * |samples|)
  }

  function BucketLow(bucket: nat): nat {
    if bucket == 0 then 0 else Pow2(bucket)
  }

  lemma EndsOfBucket(bucket: nat)
    requires bucket < BUCKET_COUNT
    ensures BucketEnds(BucketLow(bucket), BucketUpper(bucket))
    ensures bucket + 1 < BUCKET_COUNT ==> BucketUpper(bucket) == Pow2(bucket + 1) < WORD64 - 1
  {
    Pow2Of64();
    assert Pow2(64) == 2 * Pow2(63) && Pow2(bucket + 1) == 2 * Pow2(bucket);
    if bucket < 63 {
      Pow2Monotone(bucket + 1, 63);
    }
  }

  /** Being in a lower bucket is being below the power of two at which the bucket starts. */
  lemma LowerBuckets(samples: seq<u64>, bucket: nat)
    ensures Count(samples, (x: u64) => RttBucket(x) < bucket + 1) == Below(samples, Pow2(bucket + 1))
  {
    var p, q := (x: u64) => RttBucket(x) < bucket + 1, (x: u64) => x < Pow2(bucket + 1);
    forall x: u64 ensures p(x) <==> q(x) {
      BucketBounds(x);
      if RttBucket(x) < bucket + 1 {
        Pow2Monotone(RttBucket(x) + 1, bucket + 1);
      } else {
        Pow2Monotone(bucket + 1, RttBucket(x));
      }
    }
    CountImplies(samples, p, q);
    CountImplies(samples, q, p);
  }

  lemma ReachingHolds(samples: seq<u64>, percentile: nat, rank: nat, bucket: nat)
    requires samples != [] && percentile >= 1 && IsNearestRank(|samples|, percentile, rank)
    requires IsFirstReaching(Histogram(samples), rank, bucket)
    ensures HoldsPercent(samples, percentile, BucketUpper(bucket))
  {
    EndsOfBucket(bucket);
    PrefixCounts(samples, bucket + 1);
    LowerBuckets(samples, bucket);
    if bucket == 0 {
      CountNone(samples, (x: u64) => x < 0);
    } else {
      PrefixCounts(samples, bucket);
      LowerBuckets(samples, bucket - 1);
    }
    assert 100 * Below(samples, BucketLow(bucket)) < percentile * |samples|;
  }

  /** For every history and every percentile from 1 to 100 the answer is the bucket's end that holds so many percent. */
  lemma AnswerHoldsPercent(samples: seq<u64>, percentile: nat, upper: nat)
    requires samples != [] && 1 <= percentile <= 100
    requires IsPercentileUpper(Histogram(samples), |samples|, percentile, upper)
    ensures HoldsPercent(samples, percentile, upper)
  {
    TargetIsReached(samples, percentile);
    RankIsNearest(|samples|, percentile);
    var rank := Rank(|samples|, percentile);
    var bucket: nat :| IsFirstReaching(Histogram(samples), rank, bucket) && upper == BucketUpper(bucket);
    ReachingHolds(samples, percentile, rank, bucket);
  }

  predicate InPercentRange(samples: seq<u64>, percentile: nat) {
    samples != [] && 1 <= percentile <= 100
  }

  lemma EveryAnswerHoldsPercent(samples: seq<u64>, percentile: nat)
    requires InPercentRange(samples, percentile)
    ensures forall u: nat :: IsPercentileUpper(Histogram(samples), |samples|, percentile, u) ==> HoldsPercent(samples, percentile, u)
  {
    forall u: nat | IsPercentileUpper(Histogram(samples), |samples|, percentile, u)
      ensures HoldsPercent(samples, percentile, u)
    {
      AnswerHoldsPercent(samples, percentile, u);
    }
  }

  /** Two buckets are the same or one ends where the other has not started yet. */
  lemma EndsApart(low: nat, upper: nat, low': nat, upper': nat)
    requires BucketEnds(low, upper) && BucketEnds(low', upper') && upper < upper'
    ensures upper <= low' && upper < WORD64 - 1
  {
    Pow2Of64();
    assert Pow2(64) == 2 * Pow2(63) && Pow2(1) == 2 * Pow2(0);
    var a := BucketIndex(low, upper);
    var b := BucketIndex(low', upper');
    if b <= a {
      UpperMonotone(b, a);
    } else {
      Pow2Monotone(a + 1, b);
      EndsOfBucket(a);
    }
  }

  lemma BucketIndex(low: nat, upper: nat) returns (bucket: nat)
    requires BucketEnds(low, upper)
    ensures bucket < BUCKET_COUNT && low == BucketLow(bucket) && upper == BucketUpper(bucket)
  {
    Pow2Of64();
    assert Pow2(64) == 2 * Pow2(63) && Pow2(1) == 2 * Pow2(0);
    if low == 0 {
      bucket := 0;
    } else if upper == WORD64 - 1 {
      bucket := 63;
    } else {
      var k: nat :| 1 <= k < 63 && low == Pow2(k) && upper == 2 * low;
      bucket := k;
    }
  }

  lemma BelowMonotone(samples: seq<u64>, v: nat, w: nat)
    requires v <= w
    ensures Below(samples, v) <= Below(samples, w)
  {
    CountImplies(samples, (x: u64) => x < v, (x: u64) => x < w);
  }

  /** Those two counts leave one answer only. */
  lemma OneAnswerHoldsPercent(samples: seq<u64>, percentile: nat, upper: nat, upper': nat)
    requires HoldsPercent(samples, percentile, upper) && HoldsPercent(samples, percentile, upper')
    ensures upper == upper'
  {
    var low: nat :| BucketEnds(low, upper) && 100 * Below(samples, low) < percentile * |samples|
      && (upper < WORD64 - 1 ==> 100 * Below(samples, upper) >= percentile * |samples|);
    var low': nat :| BucketEnds(low', upper') && 100 * Below(samples, low') < percentile * |samples|
      && (upper' < WORD64 - 1 ==> 100 * Below(samples, upper') >= percentile * |samples|);
    if upper < upper' {
      EndsApart(low, upper, low', upper');
      BelowMonotone(samples, upper, low');
    } else if upper' < upper {
      EndsApart(low', upper', low, upper);
      BelowMonotone(samples, upper', low);
    }
  }

  lemma RankAbove(n: nat, percentile: nat)
    requires n > 0 && percentile > 100
    ensures Rank(n, percentile) > n
  {
    assert n * percentile >= n * 101;
  }

  /** No echo yet, or a percentile above 100, is answered with 0; percentile 0 with the end of the first bucket. */
  lemma OutsideThePercentiles(samples: seq<u64>, percentile: nat, upper: nat)
    requires IsPercentileUpper(Histogram(samples), |samples|, percentile, upper)
    ensures samples == [] || percentile > 100 ==> upper == 0
    ensures samples != [] && percentile == 0 ==> upper == 2
  {
    if samples != [] && percentile > 100 {
      HistogramTotal(samples);
      RankAbove(|samples|, percentile);
    } else if samples != [] && percentile == 0 {
      FirstBucketReachesZero(Histogram(samples), |samples|, upper);
    }
  }

  lemma FirstBucketReachesZero(histogram: seq<nat>, n: nat, upper: nat)
    requires |histogram| == BUCKET_COUNT && n > 0 && IsPercentileUpper(histogram, n, 0, upper)
    ensures upper == 2
  {
    var bucket: nat :| IsFirstReaching(histogram, 0, bucket) && upper == BucketUpper(bucket);
    assert Pow2(1) == 2 * Pow2(0);
  }

  lemma UpperMonotone(a: nat, b: nat)
    requires a <= b < BUCKET_COUNT
    ensures BucketUpper(a) <= BucketUpper(b)
  {
    Pow2Of64();
    Pow2Monotone(a + 1, b + 1);
    assert Pow2(64) == 2 * Pow2(63);
    if a < 63 {
      Pow2Monotone(a + 1, 63);
    }
  }

  /** Higher percentiles never answer lower. */
  lemma PercentileMonotone(samples: seq<u64>, p: nat, q: nat, upperP: nat, upperQ: nat)
    requires p <= q <= 100
    requires IsPercentileUpper(Histogram(samples), |samples|, p, upperP)
    requires IsPercentileUpper(Histogram(samples), |samples|, q, upperQ)
    ensures upperP <= upperQ
  {
    var n, h := |samples|, Histogram(samples);
    if n > 0 {
      HistogramTotal(samples);
      RankMonotone(n, p, q);
      RankMonotone(n, q, 100);
      assert Rank(n, 100) == n;
      var a: nat :| IsFirstReaching(h, Rank(n, p), a) && upperP == BucketUpper(a);
      var b: nat :| IsFirstReaching(h, Rank(n, q), b) && upperQ == BucketUpper(b);
      if b < a {
        PrefixMonotone(h, b + 1, a);
      }
      UpperMonotone(a, b);
    }
  }

  // ---- ticks ----

  /** The conversion as the program computes it, every operation in 64 bits. */
  function TicksToNanoseconds(ticks: u64, frequency: u64): u64 {
    if frequency == 0 then 0
    else Combine(ticks / frequency * NANOSECONDS_PER_SECOND, ticks % frequency * NANOSECONDS_PER_SECOND, frequency)
  }

  function Combine(seconds: nat, fraction: nat, frequency: u64): u64
    requires frequency > 0
  {
    (seconds % WORD64 + fraction % WORD64 / frequency) % WORD64
  }

  lemma CombineExactly(seconds: nat, fraction: nat, frequency: u64)
    requires frequency > 0 && fraction < WORD64
    ensures Combine(seconds, fraction, frequency) == (seconds + fraction / frequency) % WORD64
  {
    assert fraction % WORD64 == fraction;
    WrapSum(seconds, fraction / frequency);
  }

  lemma ProductMonotone(a: int, b: int, f: nat)
    requires a <= b
    ensures a * f <= b * f
  {
  }

  lemma QuotientIs(n: nat, q: nat, f: nat, s: nat)
    requires f > 0 && s < f && n == q * f + s
    ensures n / f == q
  {
    var d := n / f;
    assert n == d * f + n % f;
    if d > q {
      ProductMonotone(q + 1, d, f);
    } else if d < q {
      ProductMonotone(d + 1, q, f);
    }
  }

  lemma SecondsTimesBillion(q: nat, f: nat, r: nat, m: nat, s: nat)
    requires r * NANOSECONDS_PER_SECOND == m * f + s
    ensures (q * f + r) * NANOSECONDS_PER_SECOND == (q * NANOSECONDS_PER_SECOND + m) * f + s
  {
    var x := q * f;
    assert (x + r) * NANOSECONDS_PER_SECOND == x * NANOSECONDS_PER_SECOND + m * f + s;
    assert x * NANOSECONDS_PER_SECOND == q * NANOSECONDS_PER_SECOND * f;
    assert (q * NANOSECONDS_PER_SECOND + m) * f == q * NANOSECONDS_PER_SECOND * f + m * f;
  }

  lemma ExactNanoseconds(ticks: nat, frequency: nat, q: nat, r: nat)
    requires 0 < frequency && q == ticks / frequency && r == ticks % frequency
    ensures ticks * NANOSECONDS_PER_SECOND / frequency == q * NANOSECONDS_PER_SECOND + r * NANOSECONDS_PER_SECOND / frequency
  {
    var fraction := r * NANOSECONDS_PER_SECOND;
    var m, s := fraction / frequency, fraction % frequency;
    assert fraction == m * frequency + s;
    SecondsTimesBillion(q, frequency, r, m, s);
    assert ticks == q * frequency + r;
    QuotientIs(ticks * NANOSECONDS_PER_SECOND, q * NANOSECONDS_PER_SECOND + m, frequency, s);
  }

  lemma QuotientsApart(a: nat, b: nat, f: nat)
    requires f > 0 && a >= b + f
    ensures b / f < a / f
  {
    var m, n := a / f, b / f;
    assert a == m * f + a % f && b == n * f + b % f;
    if m <= n {
      ProductMonotone(m, n, f);
    }
  }

  lemma SumsDiffer(s: nat, m: nat, n: nat)
    requires 0 < m - n < WORD64
    ensures (s + m) % WORD64 != (s + n) % WORD64
  {
    var a, b := (s + m) / WORD64, (s + n) / WORD64;
    assert s + m == WORD64 * a + (s + m) % WORD64 && s + n == WORD64 * b + (s + n) % WORD64;
    assert (s + m) % WORD64 == (s + n) % WORD64 ==> m - n == WORD64 * (a - b);
  }

  lemma CombineWraps(seconds: nat, fraction: nat, frequency: u64)
    requires frequency > 0 && fraction >= WORD64 && fraction / frequency < WORD64
    ensures Combine(seconds, fraction, frequency) != (seconds + fraction / frequency) % WORD64
  {
    var low := fraction % WORD64;
    assert fraction >= low + WORD64;
    QuotientsApart(fraction, low, frequency);
    WrapSum(seconds, low / frequency);
    SumsDiffer(seconds, fraction / frequency, low / frequency);
  }

  /** The part of a second, in nanoseconds, is below 10^9. */
  lemma FractionBound(r: nat, frequency: nat)
    requires r < frequency
    ensures r * NANOSECONDS_PER_SECOND / frequency < WORD64
  {
    var fraction := r * NANOSECONDS_PER_SECOND;
    var m := fraction / frequency;
    assert fraction == m * frequency + fraction % frequency;
    if m >= NANOSECONDS_PER_SECOND {
      ProductMonotone(NANOSECONDS_PER_SECOND, m, frequency);
    }
  }

  /**
   * The conversion is the exact quotient, modulo 2^64, if and only if the ticks left over from whole seconds,
   * times 10^9, fit 64 bits. Without a frequency it is 0.
   */
  lemma TicksConversion(ticks: u64, frequency: u64)
    ensures frequency == 0 ==> TicksToNanoseconds(ticks, frequency) == 0
    ensures frequency > 0 ==>
      var exact := ticks * NANOSECONDS_PER_SECOND / frequency % WORD64;
      TicksToNanoseconds(ticks, frequency) == exact <==> ticks % frequency * NANOSECONDS_PER_SECOND < WORD64
  {
    if frequency > 0 {
      FrequencyConverts(ticks, frequency);
    }
  }

  lemma FrequencyConverts(ticks: u64, frequency: u64)
    requires 0 < frequency
    ensures TicksToNanoseconds(ticks, frequency) == ticks * NANOSECONDS_PER_SECOND / frequency % WORD64
        <==> ticks % frequency * NANOSECONDS_PER_SECOND < WORD64
  {
    var q, r := ticks / frequency, ticks % frequency;
    var seconds, fraction := q * NANOSECONDS_PER_SECOND, r * NANOSECONDS_PER_SECOND;
    ExactNanoseconds(ticks, frequency, q, r);
    if fraction < WORD64 {
      CombineExactly(seconds, fraction, frequency);
    } else {
      FractionBound(r, frequency);
      CombineWraps(seconds, fraction, frequency);
    }
  }

  /** A tick counter below 18.4 GHz never meets the other case. */
  lemma SlowCountersConvertExactly(ticks: u64, frequency: u64)
    requires 0 < frequency && (frequency - 1) * NANOSECONDS_PER_SECOND < WORD64
    ensures TicksToNanoseconds(ticks, frequency) == ticks * NANOSECONDS_PER_SECOND / frequency % WORD64
  {
    ProductMonotone(ticks % frequency, frequency - 1, NANOSECONDS_PER_SECOND);
    TicksConversion(ticks, frequency);
  }

  lemma WrapSum(a: nat, b: nat)
    ensures (a % WORD64 + b) % WORD64 == (a + b) % WORD64
  {
    var k, m := (a % WORD64 + b) / WORD64, (a % WORD64 + b) % WORD64;
    assert a + b == WORD64 * (a / WORD64 + k) + m;
  }

  // ---- the metrics object ----

  function Total(samples: seq<u64>): nat {
    if samples == [] then 0 else Total(samples[..|samples| - 1]) + samples[|samples| - 1]
  }

  /** Extremes of the samples; the maximum starts at zero, the minimum with the first sample of each counter cycle. */
  ghost predicate IsRange(samples: seq<u64>, low: u64, high: u64) {
    && (0 < |samples| < WORD32 ==> low in samples && (high in samples || high == 0))
    && (|samples| < WORD32 ==> forall v :: v in samples ==> low <= v <= high)
    && (samples == [] ==> high == 0)
  }

  /** Bucket counters, each modulo its own width. */
  ghost predicate IsHistogram(histogram: seq<u32>, samples: seq<u64>) {
    |histogram| == BUCKET_COUNT && forall b :: 0 <= b < BUCKET_COUNT ==> histogram[b] == InBucket(samples, b) % WORD32
  }

  lemma NextHistogram(histogram: seq<u32>, samples: seq<u64>, elapsed: u64, next: seq<u64>, bucket: nat)
    requires IsHistogram(histogram, samples) && next == samples + [elapsed] && bucket == RttBucket(elapsed)
    ensures bucket < BUCKET_COUNT && IsHistogram(histogram[bucket := (histogram[bucket] + 1) % WORD32], next)
  {
    BucketFits(elapsed);
    NextSample(samples, elapsed, next);
    WrapNext(InBucket(samples, bucket));
  }

  lemma NextSample(samples: seq<u64>, elapsed: u64, next: seq<u64>)
    requires next == samples + [elapsed]
    ensures Total(next) == Total(samples) + elapsed
    ensures forall b: nat :: InBucket(next, b) == InBucket(samples, b) + if RttBucket(elapsed) == b then 1 else 0
  {
    assert next[..|next| - 1] == samples;
  }

  lemma NextRange(samples: seq<u64>, elapsed: u64, next: seq<u64>, low: u64, high: u64)
    requires next == samples + [elapsed] && IsRange(samples, low, high)
    ensures IsRange(next, if |samples| % WORD32 == 0 || elapsed < low then elapsed else low, if elapsed > high then elapsed else high)
  {
    assert elapsed in next && forall v :: v in next <==> v in samples || v == elapsed;
  }

  lemma WrapNext(n: nat)
    ensures (n % WORD32 + 1) % WORD32 == (n + 1) % WORD32
  {
    var k, m := n / WORD32, n % WORD32;
    assert n + 1 == WORD32 * k + (m + 1);
  }

  /** The elapsed time of one echo; tick subtraction wraps like the program's. */
  function ElapsedNanoseconds(start: u64, end: u64, frequency: u64): u64 {
    TicksToNanoseconds((end - start) % WORD64, frequency)
  }

  class UdpWorkloadMetrics {
    var firstSubmissionTick: u64
    var lastSubmissionTick: u64
    var submittedBytes: u64
    var echoedBytes: u64
    var rttMin: u64
    var rttMax: u64
    var rttTotal: u64
    var attempted: u32
    var submitted: u32
    var echoed: u32
    var histogram: array<u32>
    /** Every echo time recorded so far, in order. */
    ghost var samples: seq<u64>

    /** The counters are those of the recorded samples, each in its own width. */
    ghost predicate Valid()
      reads this, histogram
    {
      && IsHistogram(histogram[..], samples)
      && echoed == |samples| % WORD32
      && rttTotal == Total(samples) % WORD64
      && IsRange(samples, rttMin, rttMax)
    }

    constructor ()
      ensures Valid() && fresh(histogram) && samples == []
      ensures attempted == submitted == 0 && submittedBytes == echoedBytes == 0
    {
      firstSubmissionTick, lastSubmissionTick, submittedBytes, echoedBytes := 0, 0, 0, 0;
      rttMin, rttMax, rttTotal := 0, 0, 0;
      attempted, submitted, echoed := 0, 0, 0;
      histogram := new u32[BUCKET_COUNT](_ => 0);
      samples := [];
    }

    method RecordAttempt()
      modifies this`attempted
      ensures attempted == (old(attempted) + 1) % WORD32
    {
      attempted := (attempted + 1) % WORD32;
    }

    method RecordSubmission(tick: u64, payloadBytes: u64)
      modifies this`firstSubmissionTick, this`lastSubmissionTick, this`submitted, this`submittedBytes
      ensures firstSubmissionTick == if old(submitted) == 0 then tick else old(firstSubmissionTick)
      ensures lastSubmissionTick == tick && submitted == (old(submitted) + 1) % WORD32
      ensures submittedBytes == (old(submittedBytes) + payloadBytes) % WORD64
    {
      if submitted == 0 {
        firstSubmissionTick := tick;
      }
      lastSubmissionTick := tick;
      submitted := (submitted + 1) % WORD32;
      submittedBytes := (submittedBytes + payloadBytes) % WORD64;
    }

    method NoteExtremes(elapsed: u64)
      requires IsRange(samples, rttMin, rttMax) && echoed == |samples| % WORD32
      modifies this`rttMin, this`rttMax
      ensures IsRange(samples + [elapsed], rttMin, rttMax)
    {
      NextRange(samples, elapsed, samples + [elapsed], rttMin, rttMax);
      if echoed == 0 || elapsed < rttMin {
        rttMin := elapsed;
      }
      if elapsed > rttMax {
        rttMax := elapsed;
      }
    }

    method NoteBucket(elapsed: u64)
      requires IsHistogram(histogram[..], samples)
      modifies histogram
      ensures IsHistogram(histogram[..], samples + [elapsed])
    {
      var bucket := RttBucket(elapsed);
      ghost var counts := histogram[..];
      NextHistogram(counts, samples, elapsed, samples + [elapsed], bucket);
      histogram[bucket] := (histogram[bucket] + 1) % WORD32;
      assert histogram[..] == counts[bucket := (counts[bucket] + 1) % WORD32];
    }

    /** One more echo time: extremes, total, counters and histogram move together. */
    method RecordElapsed(elapsed: u64)
      requires Valid()
      modifies this`rttMin, this`rttMax, this`rttTotal, this`echoed, this`samples, histogram
      ensures Valid() && samples == old(samples) + [elapsed]
    {
      ghost var next := samples + [elapsed];
      NoteExtremes(elapsed);
      NextSample(samples, elapsed, next);
      WrapSum(Total(samples), elapsed);
      rttTotal := (rttTotal + elapsed) % WORD64;
      assert rttTotal == Total(next) % WORD64;
      WrapNext(|samples|);
      echoed := (echoed + 1) % WORD32;
      NoteBucket(elapsed);
      samples := next;
    }

    method RecordEcho(start: u64, end: u64, frequency: u64, payloadBytes: u64)
      requires Valid()
      modifies this`rttMin, this`rttMax, this`rttTotal, this`echoed, this`echoedBytes, this`samples, histogram
      ensures Valid()
      ensures samples == old(samples) + [ElapsedNanoseconds(start, end, frequency)]
      ensures echoedBytes == (old(echoedBytes) + payloadBytes) % WORD64
    {
      RecordElapsed(TicksToNanoseconds((end - start) % WORD64, frequency));
      echoedBytes := (echoedBytes + payloadBytes) % WORD64;
    }

    /** The scan of the buckets: the first one at which the running total reaches the target. */
    method FirstReaching(target: nat) returns (found: bool, index: nat)
      requires histogram.Length == BUCKET_COUNT
      ensures found ==> IsFirstReaching(histogram[..], target, index)
      ensures !found ==> Prefix(histogram[..], BUCKET_COUNT) < target
    {
      var observed: nat := 0;
      index := 0;
      while index < BUCKET_COUNT
        invariant index <= BUCKET_COUNT && observed == Prefix(histogram[..], index)
        invariant index > 0 ==> observed < target
      {
        observed := observed + histogram[index] as int;
        if observed >= target {
          return true, index;
        }
        index := index + 1;
      }
      found := false;
    }

    method RttPercentileUpperNanoseconds(percentile: u32) returns (upper: u64)
      requires Valid()
      ensures IsPercentileUpper(histogram[..], echoed, percentile, upper)
      ensures |samples| < WORD32 ==> IsPercentileUpper(Histogram(samples), |samples|, percentile, upper)
      ensures |samples| < WORD32 && InPercentRange(samples, percentile) ==> HoldsPercent(samples, percentile, upper)
    {
      if |samples| < WORD32 {
        SmallHistogram(samples, histogram[..]);
      }
      if InPercentRange(samples, percentile) {
        EveryAnswerHoldsPercent(samples, percentile);
      }
      if echoed == 0 {
        return 0;
      }
      var found, index := FirstReaching(Rank(echoed, percentile));
      if !found {
        return 0;
      }
      ReachingIsUpper(histogram[..], echoed, percentile, index);
      upper := if index + 1 == BUCKET_COUNT then WORD64 - 1 else Pow2(index + 1);
    }
  }

  lemma TargetIsReached(samples: seq<u64>, percentile: nat)
    requires |samples| > 0 && 1 <= percentile <= 100
    ensures Rank(|samples|, percentile) <= Prefix(Histogram(samples), BUCKET_COUNT)
  {
    RankBounds(|samples|, percentile);
    HistogramTotal(samples);
  }

  lemma ReachingIsUpper(histogram: seq<nat>, n: nat, percentile: nat, index: nat)
    requires |histogram| == BUCKET_COUNT && n > 0 && IsFirstReaching(histogram, Rank(n, percentile), index)
    ensures IsPercentileUpper(histogram, n, percentile, BucketUpper(index))
    ensures 0 < BucketUpper(index) < WORD64
  {
    PrefixMonotone(histogram, index + 1, BUCKET_COUNT);
    UpperMonotone(index, BUCKET_COUNT - 1);
  }

  /** Below 2^32 echoes no counter of the histogram has wrapped. */
  lemma SmallHistogram(samples: seq<u64>, histogram: seq<u32>)
    requires IsHistogram(histogram, samples) && |samples| < WORD32
    ensures histogram == Histogram(samples)
  {
    forall b | 0 <= b < BUCKET_COUNT
      ensures histogram[b] == Histogram(samples)[b]
    {
      var p := (v: u64) => RttBucket(v) == b;
      CountImplies(samples, p, p);
    }
  }
}
