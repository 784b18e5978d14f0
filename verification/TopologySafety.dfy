/** What every reachable state of the topology engine satisfies: no span is lost or
    counted twice, memory stays bounded, and what a query reads back is exactly the
    aggregate of the raw calls it stands for. */
module TopologySafety {
  import opened Basics
  import opened Spans
  import opened EdgeSamples
  import opened PairTable
  import opened TopologySystem

  // ---- the pairing table ----

  function HomeOf(c: Config, i: nat): string -> bool
    requires c.shards >= 1
  {
    (k: string) => ShardOf(c, k) == i
  }

  ghost predicate TableSound(c: Config, st: State) {
    && ValidConfig(c)
    && |st.shards| == c.shards >= 1
    && forall i :: 0 <= i < |st.shards| ==> Sound(st.shards[i], HomeOf(c, i), c.cap)
  }

  lemma InitSound(c: Config)
    requires ValidConfig(c)
    ensures TableSound(c, Init(c))
  {
    ShardOfIsValid(c, "");
  }

  lemma OneStripeSound(c: Config, st: State, st': State, i: nat)
    requires TableSound(c, st) && i < |st.shards| == |st'.shards|
    requires Sound(st'.shards[i], HomeOf(c, i), c.cap)
    requires st'.shards == st.shards[i := st'.shards[i]]
    ensures TableSound(c, st')
  {
  }

  lemma StepKeepsTableSound(c: Config, st: State, a: Action)
    requires TableSound(c, st) && Enabled(c, st, a)
    ensures TableSound(c, Step(c, st, a))
  {
    match a
    case Arrive(s) =>
      var i := ShardOf(c, PairKey(s));
      AfterIsSound(st.shards[i], PairKey(s), PendingOf(s), HomeOf(c, i), c.cap);
      OneStripeSound(c, st, Step(c, st, a), i);
    case RotateShard(i) =>
      RotatedIsSound(st.shards[i], HomeOf(c, i), c.cap);
      OneStripeSound(c, st, Step(c, st, a), i);
    case _ =>
  }

  // ---- conservation ----

  function Sizes(shards: seq<Gens>): seq<nat> {
    seq(|shards|, i requires 0 <= i < |shards| => Held(shards[i]))
  }

  /** The number of spans waiting anywhere in the table. */
  function HeldIn(shards: seq<Gens>): nat {
    SumSeq(Sizes(shards))
  }

  lemma HeldInUpdate(shards: seq<Gens>, i: nat, g: Gens)
    requires i < |shards|
    ensures HeldIn(shards[i := g]) + Held(shards[i]) == HeldIn(shards) + Held(g)
  {
    assert Sizes(shards[i := g]) == Sizes(shards)[i := Held(g)];
    SumSeqUpdate(Sizes(shards), i, Held(g));
  }

  /** Every span that entered the table was paired with one other, dropped, evicted, displaced
      by a duplicate, or is still waiting; items between two steps are counted where they stand. */
  ghost predicate SpansConserved(st: State) {
    |st.arrived| ==
      2 * (st.stats.paired + |st.flight.pairing|)
      + (st.stats.pendingDropped + |st.flight.dropping|)
      + (st.stats.evicted + |st.flight.evicting|)
      + HeldIn(st.shards) + st.displaced
  }

  /** Every counted emission is in the aggregates, on its way into or out of them, stored, or
      was in a batch whose write failed. */
  ghost predicate CallsConserved(st: State) {
    var l := st.ledger;
    |st.flight.recording| + |l.log| + |l.batchLog| + |l.storedLog| + |l.lostLog|
      == st.stats.paired + st.stats.inferredPeers + st.stats.entryPoints
  }

  lemma InitConserves(c: Config)
    ensures SpansConserved(Init(c)) && CallsConserved(Init(c))
  {
    SumSeqBound(Sizes(Init(c).shards), 0);
  }

  lemma ArriveConservesSpans(c: Config, st: State, s: Span)
    requires Enabled(c, st, Arrive(s)) && SpansConserved(st)
    ensures SpansConserved(ArriveStep(c, st, s))
  {
    var key, p := PairKey(s), PendingOf(s);
    var i := ShardOf(c, key);
    ArrivalAccount(st.shards[i], key, p, c.cap);
    HeldInUpdate(st.shards, i, After(st.shards[i], key, p, c.cap));
  }

  lemma StepConservesSpans(c: Config, st: State, a: Action)
    requires Enabled(c, st, a) && SpansConserved(st)
    ensures SpansConserved(Step(c, st, a))
  {
    match a
    case Arrive(s) =>
      ArriveConservesSpans(c, st, s);
    case RotateShard(i) =>
      HeldInUpdate(st.shards, i, Rotated(st.shards[i]));
    case CountEviction(k) =>
      RemoveSize(st.flight.evicting, k);
    case _ =>
  }

  lemma StepConservesCalls(c: Config, st: State, a: Action)
    requires Enabled(c, st, a) && CallsConserved(st)
    requires st.ledger.batch == None ==> st.ledger.batchLog == []
    ensures CallsConserved(Step(c, st, a))
  {
    if a.SwapAggregates? || a.WriteOk? || a.WriteFails? || a.MergeRows? {
      LedgerConservesCalls(c, st, a);
    } else if a.Enter? || a.CountPair? || a.Infer? || a.RecordEdge? {
      EmissionConservesCalls(c, st, a);
    } else {
      TableConservesCalls(c, st, a);
    }
  }

  /** What an emission counts it puts in flight, and what is recorded leaves the flight. */
  lemma EmissionConservesCalls(c: Config, st: State, a: Action)
    requires a.Enter? || a.CountPair? || a.Infer? || a.RecordEdge?
    requires Enabled(c, st, a) && CallsConserved(st)
    ensures CallsConserved(Step(c, st, a))
  {
  }

  lemma TableConservesCalls(c: Config, st: State, a: Action)
    requires a.Arrive? || a.CountDrop? || a.CountEviction? || a.RotateShard?
    requires Enabled(c, st, a) && CallsConserved(st)
    ensures CallsConserved(Step(c, st, a))
  {
  }

  lemma LedgerConservesCalls(c: Config, st: State, a: Action)
    requires a.SwapAggregates? || a.WriteOk? || a.WriteFails? || a.MergeRows?
    requires Enabled(c, st, a) && CallsConserved(st)
    requires st.ledger.batch == None ==> st.ledger.batchLog == []
    ensures CallsConserved(Step(c, st, a))
  {
  }

  // ---- the aggregates ----

  ghost predicate LedgerFaithful(l: Ledger) {
    && Summarises(l.agg, l.log)
    && (l.batch == None ==> l.batchLog == [])
    && (l.batch.Some? ==> Summarises(l.batch.value, l.batchLog))
    && RowsWellFormed(l.rows)
  }

  /** The stored rows answer a query as the raw calls they stand for would. */
  ghost predicate Answers(l: Ledger, p: Filter)
    requires RowsWellFormed(l.rows)
  {
    QueryTotal(l.rows, p) == Of(Select(l.storedLog, p))
  }

  lemma {:induction false} QueryTotalConcat(a: seq<Row>, b: seq<Row>, p: Filter)
    requires RowsWellFormed(a) && RowsWellFormed(b)
    ensures RowsWellFormed(a + b)
    ensures QueryTotal(a + b, p) == Combine(QueryTotal(a, p), QueryTotal(b, p))
  {
    if b == [] {
      assert a + b == a;
      CombineZero(QueryTotal(a, p));
    } else {
      var front := b[..|b| - 1];
      assert (a + b)[..|a + b| - 1] == a + front;
      QueryTotalConcat(a, front, p);
      CombineAssociates(QueryTotal(a, p), QueryTotal(front, p), b[|b| - 1].sample);
    }
  }

  lemma QueryTotalParts(a: seq<Row>, x: Row, b: seq<Row>, d: seq<Row>, p: Filter)
    requires RowsWellFormed(a) && RowsWellFormed(b) && RowsWellFormed(d) && WellFormed(x.sample)
    ensures RowsWellFormed(a + [x] + b + d)
    ensures QueryTotal(a + [x] + b + d, p)
            == Combine(Combine(Combine(QueryTotal(a, p), QueryTotal([x], p)), QueryTotal(b, p)), QueryTotal(d, p))
  {
    QueryTotalConcat(a, [x], p);
    QueryTotalConcat(a + [x], b, p);
    QueryTotalConcat(a + [x] + b, d, p);
  }

  /** What a row adds to a query. */
  function Part(x: Row, p: Filter): (s: Sample)
    requires WellFormed(x.sample)
    ensures WellFormed(s)
  {
    if p(x.at) then x.sample else ZERO
  }

  lemma SplitParts(a: seq<Row>, x: Row, b: seq<Row>, y: Row, d: seq<Row>, p: Filter)
    requires RowsWellFormed(a) && RowsWellFormed(b) && RowsWellFormed(d) && WellFormed(x.sample) && WellFormed(y.sample)
    ensures RowsWellFormed(a + [x] + b + ([y] + d))
    ensures QueryTotal(a + [x] + b + ([y] + d), p)
            == Combine(Combine(Combine(QueryTotal(a, p), Part(x, p)), QueryTotal(b, p)), Combine(Part(y, p), QueryTotal(d, p)))
  {
    var tail := [y] + d;
    QueryTotalConcat([y], d, p);
    SingleRow(y, p);
    QueryTotalParts(a, x, b, tail, p);
    SingleRow(x, p);
  }

  lemma MergeParts(a: seq<Row>, x: Row, b: seq<Row>, y: Row, d: seq<Row>, p: Filter)
    requires RowsWellFormed(a) && RowsWellFormed(b) && RowsWellFormed(d)
    requires WellFormed(x.sample) && WellFormed(y.sample) && x.at == y.at
    ensures var xy := Row(x.at, Combine(x.sample, y.sample));
            && RowsWellFormed(a + [xy] + b + d) && RowsWellFormed(a + [x] + b + ([y] + d))
            && QueryTotal(a + [xy] + b + d, p) == QueryTotal(a + [x] + b + ([y] + d), p)
  {
    var xy := Row(x.at, Combine(x.sample, y.sample));
    SplitParts(a, x, b, y, d, p);
    QueryTotalParts(a, xy, b, d, p);
    SingleRow(xy, p);
    PartsMerge(x, y, p);
    Regroup(QueryTotal(a, p), Part(x, p), QueryTotal(b, p), Part(y, p), QueryTotal(d, p));
  }

  lemma PartsMerge(x: Row, y: Row, p: Filter)
    requires WellFormed(x.sample) && WellFormed(y.sample) && x.at == y.at
    ensures Combine(Part(x, p), Part(y, p)) == Part(Row(x.at, Combine(x.sample, y.sample)), p)
  {
    var xy := Row(x.at, Combine(x.sample, y.sample));
    assert xy.at == x.at && p(xy.at) == p(x.at);
    CombineZero(Part(y, p));
    if !p(x.at) {
      assert Part(y, p) == ZERO;
      assert !p(xy.at);
    }
  }

  /** A background merge of two rows is invisible to every query. */
  lemma MergeIsInvisible(rows: seq<Row>, i: nat, j: nat, p: Filter)
    requires i < j < |rows| && RowsWellFormed(rows) && rows[i].at == rows[j].at
    ensures RowsWellFormed(MergedRows(rows, i, j))
    ensures QueryTotal(MergedRows(rows, i, j), p) == QueryTotal(rows, p)
  {
    var a, b, d := CutRows(rows, i, j);
    MergeParts(a, rows[i], b, rows[j], d, p);
  }

  lemma CutRows(rows: seq<Row>, i: nat, j: nat) returns (a: seq<Row>, b: seq<Row>, d: seq<Row>)
    requires i < j < |rows| && RowsWellFormed(rows)
    ensures a == rows[..i] && b == rows[i + 1..j] && d == rows[j + 1..]
    ensures RowsWellFormed(a) && RowsWellFormed(b) && RowsWellFormed(d)
    ensures rows == a + [rows[i]] + b + ([rows[j]] + d)
  {
    a, b, d := rows[..i], rows[i + 1..j], rows[j + 1..];
  }

  lemma SingleRow(r: Row, p: Filter)
    requires WellFormed(r.sample)
    ensures QueryTotal([r], p) == Part(r, p)
  {
    assert [r][..0] == [];
    CombineZero(r.sample);
  }

  lemma Regroup(a: Sample, x: Sample, b: Sample, y: Sample, d: Sample)
    requires WellFormed(a) && WellFormed(x) && WellFormed(b) && WellFormed(y) && WellFormed(d)
    ensures Combine(Combine(Combine(a, x), b), Combine(y, d)) == Combine(Combine(Combine(a, Combine(x, y)), b), d)
  {
  }

  lemma SummarisesNothing()
    ensures Summarises(map[], [])
  {
  }

  lemma StepKeepsRows(c: Config, st: State, a: Action)
    requires Enabled(c, st, a) && LedgerFaithful(st.ledger)
    ensures RowsWellFormed(Step(c, st, a).ledger.rows)
  {
    match a
    case WriteOk(out) =>
      FlushedRowsTotal(out, st.ledger.batch.value, st.ledger.batchLog, _ => true);
    case MergeRows(i, j) =>
      MergeIsInvisible(st.ledger.rows, i, j, _ => true);
    case _ =>
  }

  lemma StepKeepsLedgerFaithful(c: Config, st: State, a: Action)
    requires Enabled(c, st, a) && LedgerFaithful(st.ledger)
    ensures LedgerFaithful(Step(c, st, a).ledger)
  {
    StepKeepsRows(c, st, a);
    SummarisesNothing();
    if a.RecordEdge? {
      RecordSummarises(st.ledger.agg, st.ledger.log, EventAt(a.edge, a.minute));
    }
  }

  lemma StepKeepsAnswers(c: Config, st: State, a: Action, p: Filter)
    requires Enabled(c, st, a) && LedgerFaithful(st.ledger) && Answers(st.ledger, p)
    ensures RowsWellFormed(Step(c, st, a).ledger.rows) && Answers(Step(c, st, a).ledger, p)
  {
    StepKeepsLedgerFaithful(c, st, a);
    var l := st.ledger;
    match a
    case WriteOk(out) =>
      FlushedRowsTotal(out, l.batch.value, l.batchLog, p);
      QueryTotalConcat(l.rows, out, p);
      SelectConcat(l.storedLog, l.batchLog, p);
      CombineIsConcat(Select(l.storedLog, p), Select(l.batchLog, p));
    case MergeRows(i, j) =>
      MergeIsInvisible(l.rows, i, j, p);
    case _ =>
  }

  // ---- whole runs ----

  ghost predicate Inv(c: Config, st: State) {
    TableSound(c, st) && SpansConserved(st) && CallsConserved(st) && LedgerFaithful(st.ledger)
  }

  lemma {:induction false} RunKeepsInv(c: Config, st: State, actions: seq<Action>, st': State)
    requires Inv(c, st) && IsRun(c, st, actions, st')
    ensures Inv(c, st')
    decreases |actions|
  {
    if actions == [] {
    } else {
      var n := |actions| - 1;
      var mid := LastStep(c, st, actions, st');
      RunKeepsInv(c, st, actions[..n], mid);
      StepKeepsTableSound(c, mid, actions[n]);
      StepConservesSpans(c, mid, actions[n]);
      StepConservesCalls(c, mid, actions[n]);
      StepKeepsLedgerFaithful(c, mid, actions[n]);
    }
  }

  lemma InitInv(c: Config)
    requires ValidConfig(c)
    ensures Inv(c, Init(c))
  {
    InitSound(c);
    InitConserves(c);
  }

  /** In every reachable state spans and calls are conserved. */
  lemma NothingIsLost(c: Config, st: State)
    requires ValidConfig(c) && Reachable(c, st)
    ensures SpansConserved(st) && CallsConserved(st)
  {
    InitInv(c);
    var actions :| IsRun(c, Init(c), actions, st);
    RunKeepsInv(c, Init(c), actions, st);
  }

  /** In every reachable state the two generations of a stripe share no key, every key sits in
      the stripe its hash selects, and the table holds at most 2 * shards * cap records. */
  lemma MemoryIsBounded(c: Config, st: State)
    requires ValidConfig(c) && Reachable(c, st)
    ensures TableSound(c, st)
    ensures HeldIn(st.shards) <= 2 * c.shards * Limit(c.cap)
  {
    InitInv(c);
    var actions :| IsRun(c, Init(c), actions, st);
    RunKeepsInv(c, Init(c), actions, st);
    SoundTableFits(c, st);
  }

  lemma SoundFits(g: Gens, home: string -> bool, cap: int)
    requires Sound(g, home, cap)
    ensures Held(g) <= 2 * Limit(cap)
  {
  }

  lemma SoundTableFits(c: Config, st: State)
    requires TableSound(c, st)
    ensures HeldIn(st.shards) <= 2 * c.shards * Limit(c.cap)
  {
    forall i | 0 <= i < |st.shards| ensures Held(st.shards[i]) <= 2 * Limit(c.cap) {
      SoundFits(st.shards[i], HomeOf(c, i), c.cap);
    }
    SizesFit(st.shards, 2 * Limit(c.cap));
    Reorder(c.shards, Limit(c.cap));
  }

  lemma Reorder(n: nat, l: nat)
    ensures n * (2 * l) == 2 * n * l
  {
  }

  lemma SizesFit(shards: seq<Gens>, most: nat)
    requires forall i :: 0 <= i < |shards| ==> Held(shards[i]) <= most
    ensures HeldIn(shards) <= |shards| * most
  {
    SumSeqBound(Sizes(shards), most);
  }

  /** The in-memory sample of each minute and edge is the fold of exactly the calls recorded
      for it since the last swap. */
  lemma AggregatesAreFaithful(c: Config, st: State)
    requires ValidConfig(c) && Reachable(c, st)
    ensures LedgerFaithful(st.ledger)
  {
    InitInv(c);
    var actions :| IsRun(c, Init(c), actions, st);
    RunKeepsInv(c, Init(c), actions, st);
  }

  lemma {:induction false} RunKeepsAnswers(c: Config, st: State, actions: seq<Action>, st': State, p: Filter)
    requires Inv(c, st) && IsRun(c, st, actions, st') && Answers(st.ledger, p)
    ensures Inv(c, st') && Answers(st'.ledger, p)
    decreases |actions|
  {
    RunKeepsInv(c, st, actions, st');
    if actions == [] {
    } else {
      var n := |actions| - 1;
      var mid := LastStep(c, st, actions, st');
      RunKeepsAnswers(c, st, actions[..n], mid, p);
      StepKeepsAnswers(c, mid, actions[n], p);
    }
  }

  /** However the run was cut into flushes and however the stored rows were merged, a query over
      any set of minutes and edges returns the sample of the stored calls it covers. */
  lemma QueriesAgreeWithRawCalls(c: Config, st: State, p: Filter)
    requires ValidConfig(c) && Reachable(c, st)
    ensures RowsWellFormed(st.ledger.rows)
    ensures QueryTotal(st.ledger.rows, p) == Of(Select(st.ledger.storedLog, p))
  {
    InitInv(c);
    var actions :| IsRun(c, Init(c), actions, st);
    RunKeepsAnswers(c, Init(c), actions, st, p);
  }

  /** Once every batch was written and nothing is pending, the stored rows hold the calls of
      every pairing, every inferred edge and every entry. */
  lemma StoredCallsAreComplete(c: Config, st: State)
    requires ValidConfig(c) && Reachable(c, st)
    requires st.flight.recording == multiset{} && st.ledger.log == [] && st.ledger.batchLog == []
    ensures RowsWellFormed(st.ledger.rows)
    ensures QueryTotal(st.ledger.rows, _ => true).calls + |st.ledger.lostLog|
            == st.stats.paired + st.stats.inferredPeers + st.stats.entryPoints
  {
    var all: Filter := _ => true;
    NothingIsLost(c, st);
    QueriesAgreeWithRawCalls(c, st, all);
    SelectAll(st.ledger.storedLog, all);
    SampleCounts(st.ledger.storedLog);
  }

  lemma {:induction false} SelectAll(es: seq<Event>, p: Filter)
    requires forall k: AggKey :: p(k)
    ensures Select(es, p) == es
  {
    if es == [] {
    } else {
      SelectAll(es[..|es| - 1], p);
    }
  }
}
