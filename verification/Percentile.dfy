/** The percentile that experiment reports estimate from histogram buckets (`approximate_percentile`), over reals. */
module Percentile {
  import opened Common
  import opened Metrics

  const BUCKET_UPPER: seq<nat> := [100, 500, 1000, 5000, 10000, 50000, 100000, 100000]

  /** `int(x)`: towards zero. */
  function Truncate(x: real): int {
    if x >= 0.0 then x.Floor else -(-x).Floor
  }

  /** The rank looked for. */
  function Target(percentile: real, total: nat): nat {
    var t := Truncate(percentile / 100.0 * total as real + 0.999999);
    if t < 1 then 1 else t
  }

  function Clamp(x: int, low: int, high: int): int {
    var raised := if low < x then x else low;
    if high < raised then high else raised
  }

  /** How many samples lie in the buckets up to and including `k`. */
  function UpTo(buckets: seq<nat>, k: nat): nat
    requires k < |buckets|
  {
    Sum(buckets[..k + 1])
  }

  /** The first bucket, from `from` on, up to which at least `target` samples lie; `|buckets|` if there is none. */
  function FirstReaching(buckets: seq<nat>, target: nat, from: nat): (i: nat)
    requires from <= |buckets|
    ensures from <= i <= |buckets|
    ensures i < |buckets| ==> UpTo(buckets, i) >= target
    ensures forall k | from <= k < i :: UpTo(buckets, k) < target
    decreases |buckets| - from
  {
    if from == |buckets| || UpTo(buckets, from) >= target then from else FirstReaching(buckets, target, from + 1)
  }

  function Estimate(buckets: seq<nat>, percentile: real, min: int, max: int): int
    requires |buckets| <= |BUCKET_UPPER|
  {
    if Sum(buckets) == 0 then 0
    else
      var i := FirstReaching(buckets, Target(percentile, Sum(buckets)), 0);
      if i == |buckets| then max else Clamp(BUCKET_UPPER[i], min, max)
  }

  /** `approximate_percentile` */
  method ApproximatePercentile(buckets: seq<nat>, percentile: real, min: int, max: int) returns (r: int)
    requires |buckets| <= |BUCKET_UPPER|
    ensures r == Estimate(buckets, percentile, min, max)
    ensures Sum(buckets) == 0 ==> r == 0
  {
    var total := Sum(buckets);
    if total <= 0 {
      return 0;
    }
    var target := Target(percentile, total);
    var seen := 0;
    var i := 0;
    while i < |buckets|
      invariant 0 <= i <= |buckets| && seen == Sum(buckets[..i])
      invariant FirstReaching(buckets, target, 0) == FirstReaching(buckets, target, i)
    {
      assert buckets[..i + 1][..i] == buckets[..i];
      seen := seen + buckets[i];
      if seen >= target {
        return Clamp(BUCKET_UPPER[i], min, max);
      }
      i := i + 1;
    }
    return max;
  }

  // ---------------------------------------------------------------- the histogram of a sample

  /** How many samples are smaller than `limit`. */
  function Below(ds: seq<U64>, limit: nat): (n: nat)
    ensures n <= |ds|
  {
    if ds == [] then 0 else Below(ds[..|ds| - 1], limit) + (if ds[|ds| - 1] < limit then 1 else 0)
  }

  /** `x` is the sample at rank `t`, counting from one in increasing order. */
  ghost predicate Ranked(ds: seq<U64>, t: nat, x: U64) {
    x in ds && Below(ds, x) < t <= Below(ds, x + 1)
  }

  ghost predicate Histogram(buckets: seq<nat>, ds: seq<U64>) {
    |buckets| == BUCKETS && forall b | 0 <= b < BUCKETS :: buckets[b] == InBucket(ds, b)
  }

  lemma {:induction false} BelowGrows(ds: seq<U64>, a: nat, b: nat)
    requires a <= b
    ensures Below(ds, a) <= Below(ds, b)
  {
    if ds != [] { BelowGrows(ds[..|ds| - 1], a, b); }
  }

  /** A bucket holds what lies between its bounds. */
  lemma {:induction false} BucketIsDifference(ds: seq<U64>, b: nat)
    requires b < 7
    ensures Below(ds, if b == 0 then 0 else BUCKET_UPPER[b - 1]) + InBucket(ds, b) == Below(ds, BUCKET_UPPER[b])
  {
    if ds != [] { BucketIsDifference(ds[..|ds| - 1], b); }
  }

  lemma {:induction false} NoneBelowZero(ds: seq<U64>)
    ensures Below(ds, 0) == 0
  {
    if ds != [] { NoneBelowZero(ds[..|ds| - 1]); }
  }

  lemma {:induction false} LastBucketIsRest(ds: seq<U64>)
    ensures Below(ds, 100000) + InBucket(ds, 7) == |ds|
  {
    if ds != [] { LastBucketIsRest(ds[..|ds| - 1]); }
  }

  /** The buckets up to `b` hold exactly the samples below its upper bound. */
  lemma {:induction false} PrefixCounts(buckets: seq<nat>, ds: seq<U64>, b: nat)
    requires Histogram(buckets, ds) && b < BUCKETS
    ensures UpTo(buckets, b) == if b == 7 then |ds| else Below(ds, BUCKET_UPPER[b])
  {
    assert buckets[..b + 1][..b] == buckets[..b];
    assert UpTo(buckets, b) == Sum(buckets[..b]) + buckets[b];
    if b == 0 {
      NoneBelowZero(ds);
      BucketIsDifference(ds, 0);
    } else {
      PrefixCounts(buckets, ds, b - 1);
      if b == 7 { LastBucketIsRest(ds); } else { BucketIsDifference(ds, b); }
    }
  }

  lemma HistogramTotal(buckets: seq<nat>, ds: seq<U64>)
    requires Histogram(buckets, ds)
    ensures Sum(buckets) == |ds|
  {
    PrefixCounts(buckets, ds, 7);
    assert buckets[..8] == buckets;
  }

  // ---------------------------------------------------------------- what the estimate says

  lemma TruncateMonotone(x: real, y: real)
    requires x <= y
    ensures Truncate(x) <= Truncate(y)
  {
  }

  lemma Scaled(percentile: real, bound: real, total: nat)
    requires percentile <= bound
    ensures percentile / 100.0 * total as real <= bound / 100.0 * total as real
  {
  }

  lemma TargetWithinTotal(percentile: real, total: nat)
    requires percentile <= 100.0 && total >= 1
    ensures 1 <= Target(percentile, total) <= total
  {
    Scaled(percentile, 100.0, total);
    TruncateMonotone(percentile / 100.0 * total as real + 0.999999, total as real + 0.999999);
  }

  lemma {:induction false} PrefixIsSmaller(s: seq<nat>, n: nat)
    requires n <= |s|
    ensures Sum(s[..n]) <= Sum(s)
  {
    if n == |s| {
      assert s[..n] == s;
    } else {
      PrefixIsSmaller(s[..|s| - 1], n);
      assert s[..|s| - 1][..n] == s[..n];
    }
  }

  /** The loop leaves through a bucket exactly when the rank does not exceed the number of samples. */
  lemma BucketFoundIff(buckets: seq<nat>, percentile: real)
    requires Sum(buckets) > 0
    ensures var t := Target(percentile, Sum(buckets));
            FirstReaching(buckets, t, 0) < |buckets| <==> t <= Sum(buckets)
    ensures percentile <= 100.0 ==> FirstReaching(buckets, Target(percentile, Sum(buckets)), 0) < |buckets|
  {
    var t := Target(percentile, Sum(buckets));
    var i := FirstReaching(buckets, t, 0);
    if i < |buckets| {
      PrefixIsSmaller(buckets, i + 1);
    } else {
      assert buckets[..|buckets|] == buckets;
      assert UpTo(buckets, |buckets| - 1) < t;
    }
    if percentile <= 100.0 { TargetWithinTotal(percentile, Sum(buckets)); }
  }

  lemma TargetGrows(p: real, q: real, total: nat)
    requires p <= q
    ensures Target(p, total) <= Target(q, total)
  {
    Scaled(p, q, total);
    TruncateMonotone(p / 100.0 * total as real + 0.999999, q / 100.0 * total as real + 0.999999);
  }

  lemma UpperGrows(i: nat, j: nat)
    requires i <= j < |BUCKET_UPPER|
    ensures BUCKET_UPPER[i] <= BUCKET_UPPER[j]
  {
  }

  /** A higher percentile never gives a smaller estimate. */
  lemma EstimateMonotone(buckets: seq<nat>, p: real, q: real, min: int, max: int)
    requires |buckets| <= |BUCKET_UPPER| && p <= q && min <= max
    ensures Estimate(buckets, p, min, max) <= Estimate(buckets, q, min, max)
  {
    var total := Sum(buckets);
    TargetGrows(p, q, total);
    ReachingGrows(buckets, Target(p, total), Target(q, total), min, max);
  }

  lemma ReachingGrows(buckets: seq<nat>, s: nat, t: nat, min: int, max: int)
    requires |buckets| <= |BUCKET_UPPER| && s <= t && min <= max
    ensures var i, j := FirstReaching(buckets, s, 0), FirstReaching(buckets, t, 0);
            && i <= j
            && (j < |buckets| ==> Clamp(BUCKET_UPPER[i], min, max) <= Clamp(BUCKET_UPPER[j], min, max))
  {
    var i, j := FirstReaching(buckets, s, 0), FirstReaching(buckets, t, 0);
    if i <= j < |buckets| {
      UpperGrows(i, j);
    }
  }

  /** The sample at the rank looked for lies in the bucket found. */
  lemma RankedInBucket(buckets: seq<nat>, ds: seq<U64>, t: nat, x: U64)
    requires Histogram(buckets, ds) && Ranked(ds, t, x)
    ensures FirstReaching(buckets, t, 0) == HistBucket(x)
  {
    var b := HistBucket(x);
    PrefixCounts(buckets, ds, b);
    if b < 7 {
      BelowGrows(ds, x + 1, BUCKET_UPPER[b]);
    }
    assert UpTo(buckets, b) >= t;
    forall k | 0 <= k < b
      ensures UpTo(buckets, k) < t
    {
      PrefixCounts(buckets, ds, k);
      BelowGrows(ds, BUCKET_UPPER[k], x);
    }
  }

  /** The estimate is sound: it lies in the sample's range; it is at least the ranked sample but within that sample's
      bucket; and in the open last bucket it is at most the ranked sample. */
  lemma EstimateSound(buckets: seq<nat>, ds: seq<U64>, percentile: real, min: U64, max: U64, x: U64)
    requires Histogram(buckets, ds) && min in ds && max in ds && Within(ds, min, max)
    requires Ranked(ds, Target(percentile, |ds|), x)
    ensures var r := Estimate(buckets, percentile, min, max);
            && min <= r <= max
            && (HistBucket(x) < 7 ==> x <= r <= BUCKET_UPPER[HistBucket(x)])
            && (HistBucket(x) == 7 ==> 100000 <= r <= x)
  {
    HistogramTotal(buckets, ds);
    RankedInBucket(buckets, ds, Target(percentile, |ds|), x);
  }

  lemma {:induction false} BelowCovers(ds: seq<U64>, limit: nat)
    requires forall i | 0 <= i < |ds| :: ds[i] < limit
    ensures Below(ds, limit) == |ds|
  {
    if ds != [] { BelowCovers(ds[..|ds| - 1], limit); }
  }

  lemma {:induction false} BelowJumps(ds: seq<U64>, limit: nat)
    requires Below(ds, limit) < Below(ds, limit + 1)
    ensures limit in ds
  {
    var n := |ds| - 1;
    if ds[n] != limit {
      BelowJumps(ds[..n], limit);
    }
  }

  lemma {:induction false} RankReached(ds: seq<U64>, t: nat, limit: nat) returns (x: U64)
    requires 1 <= t <= Below(ds, limit)
    ensures Ranked(ds, t, x)
  {
    if limit == 0 {
      NoneBelowZero(ds);
    } else if Below(ds, limit - 1) < t {
      BelowJumps(ds, limit - 1);
      x := limit - 1;
    } else {
      x := RankReached(ds, t, limit - 1);
    }
  }

  /** Every rank from one to the number of samples is some sample's. */
  lemma RankExists(ds: seq<U64>, t: nat)
    requires 1 <= t <= |ds|
    ensures exists x: U64 :: Ranked(ds, t, x)
  {
    BelowCovers(ds, U64_MAX + 1);
    var x := RankReached(ds, t, U64_MAX + 1);
  }

  /** Up to the hundredth percentile there is always a sample that the estimate is about. */
  lemma EstimateHasSample(ds: seq<U64>, percentile: real)
    requires ds != [] && percentile <= 100.0
    ensures exists x: U64 :: Ranked(ds, Target(percentile, |ds|), x)
  {
    TargetWithinTotal(percentile, |ds|);
    RankExists(ds, Target(percentile, |ds|));
  }

  /** For whole percentiles the rank is the nearest rank: the least one that covers the percentage. */
  lemma WholePercentileIsNearestRank(percentile: nat, total: nat)
    requires 1 <= percentile <= 100 && total >= 1
    ensures var t := Target(percentile as real, total);
            100 * (t - 1) < percentile * total <= 100 * t
  {
    var product := percentile * total;
    var q := percentile as real / 100.0 * total as real;
    assert q * 100.0 == product as real;
    RoundedUp(product);
    assert q == product as real / 100.0;
  }

  lemma RoundedUp(product: nat)
    requires product >= 1
    ensures var t := (product as real / 100.0 + 0.999999).Floor;
            1 <= t && 100 * (t - 1) < product <= 100 * t
  {
    var t := (product as real / 100.0 + 0.999999).Floor;
    assert t as real <= product as real / 100.0 + 0.999999 < t as real + 1.0;
    assert 100.0 * t as real <= product as real + 99.9999 < 100.0 * t as real + 100.0;
    assert (100 * t) as real == 100.0 * t as real;
  }
}
