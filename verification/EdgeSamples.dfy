/** Per-minute edge samples: what one sample says about the raw events it
    replaces, the merge columns of the storage table, and the agreement of any
    query over the stored rows with the raw events. */
module EdgeSamples {
  import opened Basics
  import opened Spans

  /** Upper bounds of the latency histogram, in milliseconds; the last bucket is unbounded. */
  const LATENCY_BOUNDS: seq<nat> := [1, 2, 5, 10, 25, 50, 100, 250, 500, 1000, 2500, 5000, 10000]
  const BUCKET_COUNT: nat := 14
  const NS_PER_MS: nat := 1_000_000

  datatype EdgeKey = EdgeKey(
    client: string,
    server: string,
    clientNamespace: string,
    clientWorkload: string,
    serverNamespace: string,
    serverWorkload: string,
    clientNode: string,
    serverNode: string,
    connType: ConnType)

  /** The aggregation key: a minute and an edge. */
  datatype AggKey = AggKey(minute: int, edge: EdgeKey)

  /** One observed call: the fact that `record` folds into a sample. */
  datatype Event = Event(at: AggKey, durationNs: nat, isError: bool)

  datatype Sample = Sample(calls: nat, errors: nat, durationSum: nat, durationMax: nat, buckets: seq<nat>)

  const ZERO: Sample := Sample(0, 0, 0, 0, [0, 0, 0, 0, 0, 0, 0, 0, 0, 0, 0, 0, 0, 0])

  predicate WellFormed(s: Sample) {
    |s.buckets| == BUCKET_COUNT
  }

  // ---- one sample ----

  function BoundNs(i: nat): nat
    requires i < |LATENCY_BOUNDS|
  {
    LATENCY_BOUNDS[i] * NS_PER_MS
  }

  function BucketFrom(durationNs: nat, i: nat): (b: nat)
    requires i <= |LATENCY_BOUNDS|
    ensures i <= b < BUCKET_COUNT
    ensures b < |LATENCY_BOUNDS| ==> durationNs <= BoundNs(b)
    ensures forall j :: i <= j < b ==> BoundNs(j) < durationNs
    decreases |LATENCY_BOUNDS| - i, durationNs
  {
    if i == |LATENCY_BOUNDS| then i
    else if durationNs <= BoundNs(i) then i
    else BucketFrom(durationNs, i + 1)
  }

  /** The bucket of a duration: the first whose bound is not exceeded. */
  function BucketIndex(durationNs: nat): (b: nat)
    ensures b < BUCKET_COUNT
    ensures b < |LATENCY_BOUNDS| ==> durationNs <= BoundNs(b)
    ensures forall j :: 0 <= j < b ==> BoundNs(j) < durationNs
  {
    BucketFrom(durationNs, 0)
  }

  method FindBucket(durationNs: nat) returns (b: nat)
    ensures b == BucketIndex(durationNs)
  {
    b := 0;
    while b < |LATENCY_BOUNDS|
      invariant b <= |LATENCY_BOUNDS|
      invariant BucketFrom(durationNs, b) == BucketIndex(durationNs)
    {
      if durationNs <= BoundNs(b) {
        return;
      }
      b := b + 1;
    }
  }

  function Add(s: Sample, e: Event): Sample
    requires WellFormed(s)
    ensures WellFormed(Add(s, e))
  {
    var b := BucketIndex(e.durationNs);
    Sample(s.calls + 1,
           if e.isError then s.errors + 1 else s.errors,
           s.durationSum + e.durationNs,
           Max(s.durationMax, e.durationNs),
           s.buckets[b := s.buckets[b] + 1])
  }

  /** One call folded into its sample, column by column. */
  method FoldInto(s: Sample, e: Event) returns (s': Sample)
    requires WellFormed(s)
    ensures s' == Add(s, e)
  {
    var b := FindBucket(e.durationNs);
    s' := s.(calls := s.calls + 1, durationSum := s.durationSum + e.durationNs,
             buckets := s.buckets[b := s.buckets[b] + 1]);
    if e.isError {
      s' := s'.(errors := s.errors + 1);
    }
    if e.durationNs > s.durationMax {
      s' := s'.(durationMax := e.durationNs);
    }
  }

  /** The sample of a sequence of events: the fold `record` performs. */
  function Of(es: seq<Event>): (s: Sample)
    ensures WellFormed(s)
  {
    if es == [] then ZERO else Add(Of(es[..|es| - 1]), es[|es| - 1])
  }

  /** The merge of two rows: sum columns add, the maximum column takes the larger. */
  function Combine(a: Sample, b: Sample): (s: Sample)
    requires WellFormed(a) && WellFormed(b)
    ensures WellFormed(s)
  {
    Sample(a.calls + b.calls, a.errors + b.errors, a.durationSum + b.durationSum,
           Max(a.durationMax, b.durationMax),
           seq(BUCKET_COUNT, i requires 0 <= i < BUCKET_COUNT => a.buckets[i] + b.buckets[i]))
  }

  // ---- what a sample means ----

  function CountErrors(es: seq<Event>): nat {
    if es == [] then 0
    else CountErrors(es[..|es| - 1]) + if es[|es| - 1].isError then 1 else 0
  }

  function CountInBucket(es: seq<Event>, b: nat): nat {
    if es == [] then 0
    else CountInBucket(es[..|es| - 1], b) + if BucketIndex(es[|es| - 1].durationNs) == b then 1 else 0
  }

  function Durations(es: seq<Event>): seq<nat> {
    seq(|es|, i requires 0 <= i < |es| => es[i].durationNs)
  }

  /** The count and sum columns are what their names promise. */
  lemma {:induction false} SampleCounts(es: seq<Event>)
    ensures Of(es).calls == |es|
    ensures Of(es).errors == CountErrors(es) <= |es|
    ensures Of(es).durationSum == SumSeq(Durations(es))
  {
    if es == [] {
    } else {
      var n := |es| - 1;
      SampleCounts(es[..n]);
      assert Durations(es)[..n] == Durations(es[..n]);
    }
  }

  /** The maximum column bounds every duration. */
  lemma {:induction false} MaximumBounds(es: seq<Event>, i: nat)
    requires i < |es|
    ensures es[i].durationNs <= Of(es).durationMax
  {
    if i < |es| - 1 {
      MaximumBounds(es[..|es| - 1], i);
    }
  }

  predicate Takes(es: seq<Event>, i: nat, d: nat) {
    i < |es| && es[i].durationNs == d
  }

  /** The maximum column is the duration of some call. */
  lemma {:induction false} MaximumIsAttained(es: seq<Event>)
    requires es != []
    ensures exists i: nat :: Takes(es, i, Of(es).durationMax)
  {
    var n := |es| - 1;
    var front := es[..n];
    if front != [] && es[n].durationNs < Of(front).durationMax {
      MaximumIsAttained(front);
      var i: nat :| Takes(front, i, Of(front).durationMax);
      assert Takes(es, i, Of(es).durationMax);
    } else {
      assert front == [] ==> Of(front) == ZERO;
      assert Takes(es, n, Of(es).durationMax);
    }
  }

  /** Histogram column b counts the calls whose duration falls in bucket b. */
  lemma {:induction false} SampleBuckets(es: seq<Event>, b: nat)
    requires b < BUCKET_COUNT
    ensures Of(es).buckets[b] == CountInBucket(es, b)
  {
    if es == [] {
    } else {
      SampleBuckets(es[..|es| - 1], b);
    }
  }

  /** The histogram columns add up to the number of calls. */
  lemma {:induction false} BucketsSumToCalls(es: seq<Event>)
    ensures SumSeq(Of(es).buckets) == Of(es).calls
  {
    if es == [] {
      SumSeqBound(ZERO.buckets, 0);
    } else {
      var s := Of(es[..|es| - 1]);
      var b := BucketIndex(es[|es| - 1].durationNs);
      BucketsSumToCalls(es[..|es| - 1]);
      SumSeqUpdate(s.buckets, b, s.buckets[b] + 1);
    }
  }

  /** The arithmetic every stored sample satisfies. */
  lemma {:induction false} SampleBounds(es: seq<Event>)
    ensures Of(es).errors <= Of(es).calls
    ensures Of(es).durationMax <= Of(es).durationSum <= Of(es).calls * Of(es).durationMax
  {
    SampleCounts(es);
    var ds := Durations(es);
    forall i | 0 <= i < |ds| ensures ds[i] <= Of(es).durationMax {
      MaximumBounds(es, i);
    }
    SumSeqBound(ds, Of(es).durationMax);
    if es != [] {
      MaximumIsAttained(es);
      var i: nat :| Takes(es, i, Of(es).durationMax);
      SumSeqAtLeast(ds, i);
    }
  }

  // ---- the merge algebra ----

  lemma CombineCommutes(a: Sample, b: Sample)
    requires WellFormed(a) && WellFormed(b)
    ensures Combine(a, b) == Combine(b, a)
  {
  }

  lemma CombineAssociates(a: Sample, b: Sample, c: Sample)
    requires WellFormed(a) && WellFormed(b) && WellFormed(c)
    ensures Combine(Combine(a, b), c) == Combine(a, Combine(b, c))
  {
  }

  lemma CombineZero(a: Sample)
    requires WellFormed(a)
    ensures Combine(a, ZERO) == a == Combine(ZERO, a)
  {
    assert Combine(a, ZERO).buckets == a.buckets;
    assert Combine(ZERO, a).buckets == a.buckets;
  }

  lemma CombineAdd(a: Sample, b: Sample, e: Event)
    requires WellFormed(a) && WellFormed(b)
    ensures Combine(a, Add(b, e)) == Add(Combine(a, b), e)
  {
    assert Combine(a, Add(b, e)).buckets == Add(Combine(a, b), e).buckets;
  }

  /** Two folds merge into the fold of both: cutting a run is invisible. */
  lemma {:induction false} CombineIsConcat(a: seq<Event>, b: seq<Event>)
    ensures Combine(Of(a), Of(b)) == Of(a + b)
  {
    if b == [] {
      assert a + b == a;
      CombineZero(Of(a));
    } else {
      var n := |b| - 1;
      assert (a + b)[..|a + b| - 1] == a + b[..n];
      CombineIsConcat(a, b[..n]);
      CombineAdd(Of(a), Of(b[..n]), b[n]);
    }
  }

  // ---- selecting events ----

  type Filter = AggKey -> bool

  /** The events whose key satisfies the filter, in order. */
  function Select(es: seq<Event>, p: Filter): seq<Event> {
    if es == [] then []
    else
      var rest := Select(es[..|es| - 1], p);
      if p(es[|es| - 1].at) then rest + [es[|es| - 1]] else rest
  }

  function Exactly(k: AggKey): Filter {
    (other: AggKey) => other == k
  }

  lemma {:induction false} SelectConcat(a: seq<Event>, b: seq<Event>, p: Filter)
    ensures Select(a + b, p) == Select(a, p) + Select(b, p)
  {
    if b == [] {
      assert a + b == a;
    } else {
      assert (a + b)[..|a + b| - 1] == a + b[..|b| - 1];
      SelectConcat(a, b[..|b| - 1], p);
    }
  }

  lemma {:induction false} SelectEmptyIff(es: seq<Event>, p: Filter)
    ensures Select(es, p) == [] <==> forall i :: 0 <= i < |es| ==> !p(es[i].at)
  {
    if es == [] {
    } else {
      var n := |es| - 1;
      SelectEmptyIff(es[..n], p);
      assert forall i :: 0 <= i < n ==> es[..n][i] == es[i];
    }
  }

  lemma {:induction false} SelectAgrees(es: seq<Event>, p: Filter, q: Filter)
    requires forall k: AggKey :: p(k) == q(k)
    ensures Select(es, p) == Select(es, q)
  {
    if es == [] {
    } else {
      SelectAgrees(es[..|es| - 1], p, q);
    }
  }

  lemma OfSnoc(es: seq<Event>, e: Event)
    ensures Of(es + [e]) == Add(Of(es), e)
  {
    assert (es + [e])[..|es|] == es;
  }

  lemma AddLeft(a: Sample, b: Sample, e: Event)
    requires WellFormed(a) && WellFormed(b)
    ensures Combine(Add(a, e), b) == Add(Combine(a, b), e)
  {
    CombineCommutes(Add(a, e), b);
    CombineAdd(b, a, e);
    CombineCommutes(a, b);
  }

  /** Selecting two disjoint groups and merging their samples loses nothing. */
  lemma {:induction false} SelectSplits(es: seq<Event>, p: Filter, q: Filter, either: Filter)
    requires forall k: AggKey :: !(p(k) && q(k))
    requires forall k: AggKey :: either(k) == (p(k) || q(k))
    ensures Of(Select(es, either)) == Combine(Of(Select(es, p)), Of(Select(es, q)))
  {
    if es == [] {
      CombineZero(ZERO);
    } else {
      var n := |es| - 1;
      var e, a, b := es[n], Select(es[..n], p), Select(es[..n], q);
      SelectSplits(es[..n], p, q, either);
      OfSnoc(Select(es[..n], either), e);
      if p(e.at) {
        OfSnoc(a, e);
        AddLeft(Of(a), Of(b), e);
      } else if q(e.at) {
        OfSnoc(b, e);
        CombineAdd(Of(a), Of(b), e);
      }
    }
  }

  // ---- the in-memory aggregate map ----

  function Lookup(m: map<AggKey, Sample>, k: AggKey): Sample {
    if k in m then m[k] else ZERO
  }

  ghost predicate AllWellFormed(m: map<AggKey, Sample>) {
    forall k :: k in m ==> WellFormed(m[k])
  }

  /** What `record` does to the map. */
  function Record(m: map<AggKey, Sample>, e: Event): map<AggKey, Sample>
    requires AllWellFormed(m)
  {
    m[e.at := Add(Lookup(m, e.at), e)]
  }

  /** The map holds, for exactly the keys that occurred, the sample of their events. */
  ghost predicate Summarises(m: map<AggKey, Sample>, es: seq<Event>) {
    forall k :: (k in m <==> Select(es, Exactly(k)) != []) && Lookup(m, k) == Of(Select(es, Exactly(k)))
  }

  lemma SummarisesWellFormed(m: map<AggKey, Sample>, es: seq<Event>)
    requires Summarises(m, es)
    ensures AllWellFormed(m)
  {
    forall k | k in m ensures WellFormed(m[k]) {
      assert Lookup(m, k) == Of(Select(es, Exactly(k)));
    }
  }

  /** One call of `record` keeps the map equal to the fold of all events so far. */
  lemma RecordSummarises(m: map<AggKey, Sample>, es: seq<Event>, e: Event)
    requires Summarises(m, es)
    ensures AllWellFormed(m) && Summarises(Record(m, e), es + [e])
  {
    SummarisesWellFormed(m, es);
    var m' := Record(m, e);
    assert (es + [e])[..|es|] == es;
    forall k
      ensures k in m' <==> Select(es + [e], Exactly(k)) != []
      ensures Lookup(m', k) == Of(Select(es + [e], Exactly(k)))
    {
      var before := Select(es, Exactly(k));
      assert k in m <==> before != [];
      assert (before + [e])[..|before|] == before;
    }
  }

  // ---- stored rows ----

  datatype Row = Row(at: AggKey, sample: Sample)

  ghost predicate RowsWellFormed(rows: seq<Row>) {
    forall i :: 0 <= i < |rows| ==> WellFormed(rows[i].sample)
  }

  /** The aggregate a query returns for one group: the merge of the rows in it. */
  function QueryTotal(rows: seq<Row>, p: Filter): (s: Sample)
    requires RowsWellFormed(rows)
    ensures WellFormed(s)
  {
    if rows == [] then ZERO
    else
      var rest := QueryTotal(rows[..|rows| - 1], p);
      if p(rows[|rows| - 1].at) then Combine(rest, rows[|rows| - 1].sample) else rest
  }

  /** The rows list every entry of the map exactly once. */
  ghost predicate Lists(rows: seq<Row>, m: map<AggKey, Sample>) {
    && (forall i :: 0 <= i < |rows| ==> rows[i].at in m && m[rows[i].at] == rows[i].sample)
    && (forall i, j :: 0 <= i < j < |rows| ==> rows[i].at != rows[j].at)
    && (forall k :: k in m ==> exists i :: 0 <= i < |rows| && rows[i].at == k)
  }

  predicate HasKey(rows: seq<Row>, k: AggKey) {
    exists i :: 0 <= i < |rows| && rows[i].at == k
  }

  function Within(p: Filter, rows: seq<Row>): Filter {
    (k: AggKey) => p(k) && HasKey(rows, k)
  }

  lemma HasKeySnoc(rows: seq<Row>, last: Row, k: AggKey)
    ensures HasKey(rows + [last], k) == (HasKey(rows, k) || k == last.at)
  {
    if HasKey(rows, k) {
      var i :| 0 <= i < |rows| && rows[i].at == k;
      assert (rows + [last])[i].at == k;
    } else if k == last.at {
      assert (rows + [last])[|rows|].at == k;
    }
  }

  lemma {:induction false} DistinctRowsTotal(rows: seq<Row>, es: seq<Event>, p: Filter)
    requires forall i, j :: 0 <= i < j < |rows| ==> rows[i].at != rows[j].at
    requires forall i :: 0 <= i < |rows| ==> rows[i].sample == Of(Select(es, Exactly(rows[i].at)))
    ensures RowsWellFormed(rows)
    ensures QueryTotal(rows, p) == Of(Select(es, Within(p, rows)))
  {
    var held := Within(p, rows);
    if rows == [] {
      forall k: AggKey ensures !held(k) {
        assert held(k) == (p(k) && HasKey(rows, k));
      }
      SelectEmptyIff(es, held);
      assert Select(es, held) == [];
    } else {
      var n := |rows| - 1;
      var front, last := rows[..n], rows[n];
      DistinctRowsTotal(front, es, p);
      var before := Within(p, front);
      forall k: AggKey ensures HasKey(rows, k) == (HasKey(front, k) || k == last.at) {
        HasKeySnoc(front, last, k);
      }
      assert rows == front + [last];
      assert !HasKey(front, last.at);
      if p(last.at) {
        SelectSplits(es, before, Exactly(last.at), held);
      } else {
        SelectAgrees(es, before, held);
      }
    }
  }

  /** The rows one flush writes answer every query as the raw events would. */
  lemma FlushedRowsTotal(rows: seq<Row>, m: map<AggKey, Sample>, es: seq<Event>, p: Filter)
    requires Summarises(m, es) && Lists(rows, m)
    ensures RowsWellFormed(rows) && QueryTotal(rows, p) == Of(Select(es, p))
  {
    forall i | 0 <= i < |rows| ensures rows[i].sample == Of(Select(es, Exactly(rows[i].at))) {
      assert Lookup(m, rows[i].at) == rows[i].sample;
    }
    DistinctRowsTotal(rows, es, p);
    forall i | 0 <= i < |es| ensures HasKey(rows, es[i].at) {
      SelectEmptyIff(es, Exactly(es[i].at));
      assert es[i].at in m;
    }
    SelectOnly(es, p, Within(p, rows));
  }

  lemma {:induction false} SelectOnly(es: seq<Event>, p: Filter, q: Filter)
    requires forall i :: 0 <= i < |es| ==> p(es[i].at) == q(es[i].at)
    ensures Select(es, p) == Select(es, q)
  {
    if es == [] {
    } else {
      assert forall i :: 0 <= i < |es| - 1 ==> es[..|es| - 1][i] == es[i];
      SelectOnly(es[..|es| - 1], p, q);
    }
  }

  // ---- order does not matter ----

  /** The sample of a group does not depend on the order in which its calls were recorded. */
  lemma {:induction false} SampleIgnoresOrder(a: seq<Event>, b: seq<Event>, p: Filter)
    requires multiset(a) == multiset(b)
    ensures Of(Select(a, p)) == Of(Select(b, p))
    decreases |b|
  {
    if b == [] {
      assert |multiset(a)| == 0;
    } else {
      var front, last := b[..|b| - 1], b[|b| - 1];
      var l, r := CutLast(a, b);
      SampleIgnoresOrder(l + r, front, p);
      assert b == front + [last];
      SelectConcat(front, [last], p);
      SelectConcat(l + [last], r, p);
      SelectConcat(l, [last], p);
      SelectConcat(l, r, p);
      MoveToEnd(Select(l, p), Select([last], p), Select(r, p));
      CombineIsConcat(Select(l, p) + Select(r, p), Select([last], p));
      CombineIsConcat(Select(front, p), Select([last], p));
    }
  }

  lemma MoveToEnd(a: seq<Event>, x: seq<Event>, b: seq<Event>)
    ensures Of(a + x + b) == Of(a + b + x)
  {
    CombineIsConcat(a + x, b);
    CombineIsConcat(a, x);
    CombineIsConcat(a + b, x);
    CombineIsConcat(a, b);
    CombineAssociates(Of(a), Of(x), Of(b));
    CombineCommutes(Of(x), Of(b));
    CombineAssociates(Of(a), Of(b), Of(x));
  }

  /** Maps summarising the same calls in different orders are the same map. */
  lemma SummaryIgnoresOrder(m: map<AggKey, Sample>, a: seq<Event>, n: map<AggKey, Sample>, b: seq<Event>)
    requires Summarises(m, a) && Summarises(n, b) && multiset(a) == multiset(b)
    ensures m == n
  {
    forall k: AggKey ensures (k in m <==> k in n) && Lookup(m, k) == Lookup(n, k) {
      SampleIgnoresOrder(a, b, Exactly(k));
      SampleCounts(Select(a, Exactly(k)));
      SampleCounts(Select(b, Exactly(k)));
    }
  }
}
