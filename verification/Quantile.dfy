/** The quantile estimate read from a latency histogram: it looks in the bucket of the
    right observation, errs by at most that bucket's width, and grows with the quantile. */
module Quantile {
  import opened Basics
  import opened EdgeSamples

  // ---- the estimator ----

  /** The number of observations in the first i buckets. */
  function Prefix(counts: seq<nat>, i: nat): nat
    requires i <= |counts|
  {
    SumSeq(counts[..i])
  }

  lemma PrefixNext(counts: seq<nat>, i: nat)
    requires i < |counts|
    ensures Prefix(counts, i + 1) == Prefix(counts, i) + counts[i]
  {
    assert counts[..i + 1][..i] == counts[..i];
  }

  lemma {:induction false} PrefixMonotone(counts: seq<nat>, i: nat, j: nat)
    requires i <= j <= |counts|
    ensures Prefix(counts, i) <= Prefix(counts, j)
    decreases j
  {
    if i < j {
      PrefixMonotone(counts, i, j - 1);
      PrefixNext(counts, j - 1);
    }
  }

  /** The cumulative count up to and including bucket b reaches the target. */
  predicate Reaches(counts: seq<nat>, target: real, b: nat)
    requires b < |counts|
  {
    target <= Prefix(counts, b + 1) as real
  }

  /** The first bucket from i on whose cumulative count reaches the target. */
  function FirstReaching(counts: seq<nat>, target: real, i: nat): (b: nat)
    requires i <= |counts|
    ensures i <= b <= |counts|
    ensures b < |counts| ==> Reaches(counts, target, b)
    ensures forall j :: i <= j < b ==> !Reaches(counts, target, j)
    decreases |counts| - i
  {
    if i == |counts| then i
    else if Reaches(counts, target, i) then i
    else FirstReaching(counts, target, i + 1)
  }

  function Lower(b: nat): real
    requires b <= |LATENCY_BOUNDS|
  {
    if b == 0 then 0.0 else LATENCY_BOUNDS[b - 1] as real
  }

  function Upper(b: nat): real
    requires b < |LATENCY_BOUNDS|
  {
    LATENCY_BOUNDS[b] as real
  }

  const LAST_BOUND: real := 10000.0

  /** Linear interpolation inside a bucket. */
  function Interpolate(counts: seq<nat>, target: real, b: nat): real
    requires |counts| == BUCKET_COUNT && b < |LATENCY_BOUNDS|
  {
    if counts[b] == 0 then Upper(b)
    else Lower(b) + (Upper(b) - Lower(b)) * ((target - Prefix(counts, b) as real) / counts[b] as real)
  }

  /** The estimate for a given rank, in milliseconds. */
  function At(counts: seq<nat>, target: real): real
    requires |counts| == BUCKET_COUNT
  {
    var b := FirstReaching(counts, target, 0);
    if b >= |LATENCY_BOUNDS| then LAST_BOUND else Interpolate(counts, target, b)
  }

  function Target(q: real, total: nat): real {
    q * total as real
  }

  function Estimate(counts: seq<nat>, q: real): real
    requires |counts| == BUCKET_COUNT
  {
    var total := SumSeq(counts);
    if total == 0 then 0.0 else At(counts, Target(q, total))
  }

  method Total(counts: seq<nat>) returns (total: nat)
    ensures total == SumSeq(counts)
  {
    total := 0;
    var n := 0;
    while n < |counts|
      invariant n <= |counts| && total == Prefix(counts, n)
    {
      PrefixNext(counts, n);
      total := total + counts[n];
      n := n + 1;
    }
    assert counts[..n] == counts;
  }

  method Inside(counts: seq<nat>, target: real, prev: nat, i: nat) returns (r: real)
    requires |counts| == BUCKET_COUNT && i < |LATENCY_BOUNDS| && prev == Prefix(counts, i)
    ensures r == Interpolate(counts, target, i)
  {
    var lower := if i > 0 then LATENCY_BOUNDS[i - 1] as real else 0.0;
    var upper := LATENCY_BOUNDS[i] as real;
    if counts[i] == 0 {
      return upper;
    }
    return lower + (upper - lower) * ((target - prev as real) / counts[i] as real);
  }

  /** The estimator as the source computes it, with one running sum. */
  method HistogramQuantile(counts: seq<nat>, q: real) returns (r: real)
    requires |counts| == BUCKET_COUNT
    ensures r == Estimate(counts, q)
  {
    var total := Total(counts);
    if total == 0 {
      return 0.0;
    }
    var target := Target(q, total);
    var cum := 0;
    var i := 0;
    while i < |counts|
      invariant i <= |counts| && cum == Prefix(counts, i)
      invariant FirstReaching(counts, target, i) == FirstReaching(counts, target, 0)
    {
      var prev := cum;
      PrefixNext(counts, i);
      cum := cum + counts[i];
      if cum as real >= target {
        assert FirstReaching(counts, target, 0) == i;
        if i >= |LATENCY_BOUNDS| {
          return LAST_BOUND;
        }
        r := Inside(counts, target, prev, i);
        return;
      }
      i := i + 1;
    }
    assert FirstReaching(counts, target, 0) == |counts| > |LATENCY_BOUNDS|;
    return LAST_BOUND;
  }

  // ---- interpolation stays in its bucket and is monotone ----

  lemma Fraction(a: real, c: real)
    requires c > 0.0
    ensures a <= c ==> a / c <= 1.0
    ensures a >= 0.0 ==> a / c >= 0.0
  {
  }

  lemma DivisionMonotone(a: real, b: real, c: real)
    requires c > 0.0 && a <= b
    ensures a / c <= b / c
  {
    var x, y := a / c, b / c;
    assert x * c == a && y * c == b;
    assert (x - y) * c == a - b;
    assert x > y ==> (x - y) * c > 0.0;
  }

  lemma ScaleMonotone(w: real, x: real, y: real)
    requires w >= 0.0 && x <= y
    ensures w * x <= w * y
  {
  }

  lemma InterpolateBelow(counts: seq<nat>, target: real, b: nat)
    requires |counts| == BUCKET_COUNT && b < |LATENCY_BOUNDS|
    requires target <= Prefix(counts, b + 1) as real
    ensures Interpolate(counts, target, b) <= Upper(b)
  {
    PrefixNext(counts, b);
    if counts[b] > 0 {
      Fraction(target - Prefix(counts, b) as real, counts[b] as real);
      ScaleMonotone(Upper(b) - Lower(b), (target - Prefix(counts, b) as real) / counts[b] as real, 1.0);
    }
  }

  lemma InterpolateAbove(counts: seq<nat>, target: real, b: nat)
    requires |counts| == BUCKET_COUNT && b < |LATENCY_BOUNDS|
    requires Prefix(counts, b) as real <= target
    ensures Lower(b) <= Interpolate(counts, target, b)
  {
    if counts[b] > 0 {
      Fraction(target - Prefix(counts, b) as real, counts[b] as real);
      ScaleMonotone(Upper(b) - Lower(b), 0.0, (target - Prefix(counts, b) as real) / counts[b] as real);
    }
  }

  lemma InterpolateMonotone(counts: seq<nat>, s: real, t: real, b: nat)
    requires |counts| == BUCKET_COUNT && b < |LATENCY_BOUNDS| && s <= t
    ensures Interpolate(counts, s, b) <= Interpolate(counts, t, b)
  {
    if counts[b] > 0 {
      var c, p := counts[b] as real, Prefix(counts, b) as real;
      DivisionMonotone(s - p, t - p, c);
      ScaleMonotone(Upper(b) - Lower(b), (s - p) / c, (t - p) / c);
    }
  }

  lemma BoundsIncrease(a: nat, b: nat)
    requires a < b <= |LATENCY_BOUNDS|
    ensures Upper(a) <= Lower(b) <= LAST_BOUND
  {
  }

  lemma LaterTargetLaterBucket(counts: seq<nat>, s: real, t: real)
    requires s <= t
    ensures FirstReaching(counts, s, 0) <= FirstReaching(counts, t, 0)
  {
    var b, d := FirstReaching(counts, s, 0), FirstReaching(counts, t, 0);
    assert d < |counts| ==> Reaches(counts, s, d);
  }

  lemma AtMonotone(counts: seq<nat>, s: real, t: real)
    requires |counts| == BUCKET_COUNT && s <= t
    ensures At(counts, s) <= At(counts, t)
  {
    var b, d := FirstReaching(counts, s, 0), FirstReaching(counts, t, 0);
    LaterTargetLaterBucket(counts, s, t);
    if b < |LATENCY_BOUNDS| {
      if b == d {
        InterpolateMonotone(counts, s, t, b);
      } else {
        AtBelowUpper(counts, s);
        AtAboveLower(counts, t);
        BoundsIncrease(b, if d < |LATENCY_BOUNDS| then d else |LATENCY_BOUNDS|);
      }
    }
  }

  lemma AtBelowUpper(counts: seq<nat>, s: real)
    requires |counts| == BUCKET_COUNT && FirstReaching(counts, s, 0) < |LATENCY_BOUNDS|
    ensures At(counts, s) <= Upper(FirstReaching(counts, s, 0))
  {
    var b := FirstReaching(counts, s, 0);
    assert Reaches(counts, s, b);
    InterpolateBelow(counts, s, b);
  }

  lemma AtAboveLower(counts: seq<nat>, t: real)
    requires |counts| == BUCKET_COUNT && FirstReaching(counts, t, 0) > 0
    ensures var d := FirstReaching(counts, t, 0);
            if d < |LATENCY_BOUNDS| then Lower(d) <= At(counts, t) else At(counts, t) == LAST_BOUND
  {
    var d := FirstReaching(counts, t, 0);
    assert !Reaches(counts, t, d - 1);
    if d < |LATENCY_BOUNDS| {
      InterpolateAbove(counts, t, d);
    }
  }

  /** A larger quantile never has a smaller estimate; in particular p95 <= p99. */
  lemma EstimateMonotone(counts: seq<nat>, q: real, q': real)
    requires |counts| == BUCKET_COUNT && q <= q'
    ensures Estimate(counts, q) <= Estimate(counts, q')
  {
    var total := SumSeq(counts);
    if total > 0 {
      ScaleMonotone(total as real, q, q');
      AtMonotone(counts, Target(q, total), Target(q', total));
    }
  }

  // ---- the bucket holds the right observation ----

  function CountBucket(ds: seq<nat>, b: nat): nat {
    if ds == [] then 0
    else CountBucket(ds[..|ds| - 1], b) + if BucketIndex(ds[|ds| - 1]) == b then 1 else 0
  }

  function Histogram(ds: seq<nat>): seq<nat> {
    seq(BUCKET_COUNT, b requires 0 <= b < BUCKET_COUNT => CountBucket(ds, b))
  }

  /** How many observations fall in a bucket before b. */
  function Below(ds: seq<nat>, b: nat): nat {
    if ds == [] then 0
    else Below(ds[..|ds| - 1], b) + if BucketIndex(ds[|ds| - 1]) < b then 1 else 0
  }

  lemma {:induction false} BelowNext(ds: seq<nat>, b: nat)
    ensures Below(ds, b + 1) == Below(ds, b) + CountBucket(ds, b)
  {
    if ds == [] {
    } else {
      BelowNext(ds[..|ds| - 1], b);
    }
  }

  lemma {:induction false} NoneBelowZero(ds: seq<nat>)
    ensures Below(ds, 0) == 0
  {
    if ds == [] {
    } else {
      NoneBelowZero(ds[..|ds| - 1]);
    }
  }

  lemma {:induction false} PrefixIsBelow(ds: seq<nat>, b: nat)
    requires b <= BUCKET_COUNT
    ensures Prefix(Histogram(ds), b) == Below(ds, b)
  {
    if b == 0 {
      NoneBelowZero(ds);
    } else {
      PrefixIsBelow(ds, b - 1);
      PrefixNext(Histogram(ds), b - 1);
      BelowNext(ds, b - 1);
    }
  }

  lemma {:induction false} AtMostAll(ds: seq<nat>, b: nat)
    ensures Below(ds, b) <= |ds|
    ensures b >= BUCKET_COUNT ==> Below(ds, b) == |ds|
  {
    if ds == [] {
    } else {
      AtMostAll(ds[..|ds| - 1], b);
    }
  }

  predicate Sorted(ds: seq<nat>) {
    forall i, j :: 0 <= i < j < |ds| ==> ds[i] <= ds[j]
  }

  lemma BucketIndexMonotone(d: nat, e: nat)
    requires d <= e
    ensures BucketIndex(d) <= BucketIndex(e)
  {
  }

  lemma {:induction false} AllBelow(ds: seq<nat>, b: nat)
    requires forall i :: 0 <= i < |ds| ==> BucketIndex(ds[i]) < b
    ensures Below(ds, b) == |ds|
  {
    if ds == [] {
    } else {
      AllBelow(ds[..|ds| - 1], b);
    }
  }

  /** In sorted order, the observations before a bucket come first. */
  lemma {:induction false} SortedBelow(ds: seq<nat>, b: nat, j: nat)
    requires Sorted(ds) && j < |ds|
    ensures BucketIndex(ds[j]) < b <==> j < Below(ds, b)
  {
    var front, last := ds[..|ds| - 1], ds[|ds| - 1];
    BucketIndexMonotone(ds[j], last);
    if BucketIndex(last) < b {
      SortedAllBelow(ds, b);
    } else {
      assert Below(ds, b) == Below(front, b);
      AtMostAll(front, b);
      if j < |front| {
        SortedFront(ds);
        SortedBelow(front, b, j);
      }
    }
  }

  lemma SortedFront(ds: seq<nat>)
    requires Sorted(ds) && ds != []
    ensures Sorted(ds[..|ds| - 1])
  {
  }

  lemma SortedAllBelow(ds: seq<nat>, b: nat)
    requires Sorted(ds) && ds != [] && BucketIndex(ds[|ds| - 1]) < b
    ensures Below(ds, b) == |ds|
  {
    forall i | 0 <= i < |ds| ensures BucketIndex(ds[i]) < b {
      BucketIndexMonotone(ds[i], ds[|ds| - 1]);
    }
    AllBelow(ds, b);
  }

  /** The rank of the q-quantile among n observations: the least integer not below q * n. */
  ghost predicate IsRank(r: nat, q: real, n: nat) {
    1 <= r <= n && (r - 1) as real < Target(q, n) <= r as real
  }

  lemma RankExists(q: real, n: nat) returns (r: nat)
    requires 0.0 < q <= 1.0 && n > 0
    ensures IsRank(r, q, n)
  {
    var x := Target(q, n);
    assert 0.0 < x <= n as real by {
      ScaleMonotone(n as real, q, 1.0);
    }
    r := if x.Floor as real == x then x.Floor else x.Floor + 1;
  }

  lemma HistogramTotal(ds: seq<nat>)
    ensures SumSeq(Histogram(ds)) == |ds|
  {
    PrefixIsBelow(ds, BUCKET_COUNT);
    AtMostAll(ds, BUCKET_COUNT);
    assert Histogram(ds)[..BUCKET_COUNT] == Histogram(ds);
  }

  /** The cumulative counts around the bucket of the observation of rank r. */
  lemma RankBucketCounts(ds: seq<nat>, r: nat, b: nat)
    requires Sorted(ds) && 1 <= r <= |ds| && b == BucketIndex(ds[r - 1])
    ensures Below(ds, b) < r <= Below(ds, b + 1)
    ensures Prefix(Histogram(ds), b) == Below(ds, b)
    ensures Prefix(Histogram(ds), b + 1) == Below(ds, b + 1)
  {
    SortedBelow(ds, b, r - 1);
    SortedBelow(ds, b + 1, r - 1);
    PrefixIsBelow(ds, b);
    PrefixIsBelow(ds, b + 1);
  }

  lemma FirstReachingIs(counts: seq<nat>, target: real, b: nat)
    requires b < |counts| && (Prefix(counts, b) as real) < target <= Prefix(counts, b + 1) as real
    ensures FirstReaching(counts, target, 0) == b
  {
    var f := FirstReaching(counts, target, 0);
    assert Reaches(counts, target, b);
    if f < b {
      PrefixMonotone(counts, f + 1, b);
    }
  }

  /** The chosen bucket is that of the observation of the requested rank. */
  lemma ChosenBucketIsRankBucket(ds: seq<nat>, q: real, r: nat)
    requires Sorted(ds) && IsRank(r, q, |ds|)
    ensures SumSeq(Histogram(ds)) == |ds|
    ensures FirstReaching(Histogram(ds), Target(q, |ds|), 0) == BucketIndex(ds[r - 1])
  {
    RankBucketCounts(ds, r, BucketIndex(ds[r - 1]));
    HistogramTotal(ds);
    FirstReachingIs(Histogram(ds), Target(q, |ds|), BucketIndex(ds[r - 1]));
  }

  function Distance(x: real, y: real): real {
    if x <= y then y - x else x - y
  }

  /** A duration lies within the bounds of its bucket. */
  lemma InItsBucket(d: nat)
    ensures var b := BucketIndex(d);
            && Lower(b) * NS_PER_MS as real <= d as real
            && (b < |LATENCY_BOUNDS| ==> d as real <= Upper(b) * NS_PER_MS as real)
  {
    var b := BucketIndex(d);
    if b > 0 {
      assert BoundNs(b - 1) < d;
    }
    if b < |LATENCY_BOUNDS| {
      assert d <= BoundNs(b);
    }
  }

  /** Rank correctness: with a finite bucket the estimate and the true quantile lie in the same
      bucket, so they differ by at most its width; in the unbounded bucket it is the last bound. */
  lemma EstimateIsRankCorrect(ds: seq<nat>, q: real, r: nat)
    requires Sorted(ds) && IsRank(r, q, |ds|)
    ensures var d, b, e := ds[r - 1], BucketIndex(ds[r - 1]), Estimate(Histogram(ds), q);
            if b < |LATENCY_BOUNDS|
            then Lower(b) <= e <= Upper(b)
                 && Lower(b) * NS_PER_MS as real <= d as real <= Upper(b) * NS_PER_MS as real
                 && Distance(e * NS_PER_MS as real, d as real) <= (Upper(b) - Lower(b)) * NS_PER_MS as real
            else e == LAST_BOUND && LAST_BOUND * NS_PER_MS as real <= d as real
  {
    var counts, target, b := Histogram(ds), Target(q, |ds|), BucketIndex(ds[r - 1]);
    ChosenBucketIsRankBucket(ds, q, r);
    InItsBucket(ds[r - 1]);
    if b < |LATENCY_BOUNDS| {
      AtBelowUpper(counts, target);
      RankBucketCounts(ds, r, b);
      InterpolateAbove(counts, target, b);
    }
  }

  // ---- the histogram of an edge sample ----

  lemma {:induction false} SameCount(es: seq<Event>, b: nat)
    ensures CountInBucket(es, b) == CountBucket(Durations(es), b)
  {
    if es == [] {
    } else {
      SameCount(es[..|es| - 1], b);
      assert Durations(es)[..|es| - 1] == Durations(es[..|es| - 1]);
    }
  }

  lemma {:induction false} CountConcat(a: seq<nat>, c: seq<nat>, b: nat)
    ensures CountBucket(a + c, b) == CountBucket(a, b) + CountBucket(c, b)
  {
    if c == [] {
      assert a + c == a;
    } else {
      assert (a + c)[..|a + c| - 1] == a + c[..|c| - 1];
      CountConcat(a, c[..|c| - 1], b);
    }
  }

  lemma {:induction false} CountIgnoresOrder(a: seq<nat>, c: seq<nat>, b: nat)
    requires multiset(a) == multiset(c)
    ensures CountBucket(a, b) == CountBucket(c, b)
    decreases |c|
  {
    if c == [] {
      assert |multiset(a)| == 0;
    } else {
      var front, last := c[..|c| - 1], c[|c| - 1];
      var l, r := CutLast(a, c);
      CountIgnoresOrder(l + r, front, b);
      assert c == front + [last];
      CountConcat(front, [last], b);
      CountConcat(l + [last], r, b);
      CountConcat(l, [last], b);
      CountConcat(l, r, b);
    }
  }

  /** The histogram columns of a sample are the histogram of its calls' durations, however those
      are arranged; so the estimate read from a stored sample is rank-correct for the raw calls. */
  lemma SampleHistogram(es: seq<Event>, sorted: seq<nat>)
    requires multiset(sorted) == multiset(Durations(es))
    ensures Of(es).buckets == Histogram(sorted)
  {
    forall b | 0 <= b < BUCKET_COUNT ensures Of(es).buckets[b] == Histogram(sorted)[b] {
      SampleBuckets(es, b);
      SameCount(es, b);
      CountIgnoresOrder(sorted, Durations(es), b);
    }
  }
}
