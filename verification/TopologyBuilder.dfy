/** The topology builder as the source holds it: stripes, aggregate map and counters
    updated in place. Every method hands back the trace of atomic steps it performed,
    so each call is a run of the step system from the state before to the state after. */
module TopologyBuilder {
  import opened Basics
  import opened Spans
  import opened EdgeSamples
  import opened PairTable
  import opened ShardIndex
  import opened TopologySystem
  import opened TopologySafety

  const DEFAULT_CAP: int := 50_000

  // ---- traces ----

  /** The aggregates after one more recorded call. */
  ghost function Folded(l: Ledger, e: Event): Ledger
    requires AllWellFormed(l.agg)
  {
    l.(agg := Record(l.agg, e), log := l.log + [e])
  }

  /** The state after an unpaired client's edge was derived and recorded. */
  ghost function InferredState(c: Config, st: State, p: Pending, minute: int): State
    requires AllWellFormed(st.ledger.agg)
  {
    if p.peer == "" then st
    else st.(stats := st.stats.(inferredPeers := st.stats.inferredPeers + 1),
             ledger := Folded(st.ledger, EventAt(PeerEdge(c, p), minute)))
  }

  ghost function InferActions(c: Config, p: Pending, minute: int): seq<Action> {
    if p.peer == "" then [Infer(p)] else [Infer(p), RecordEdge(PeerEdge(c, p), minute)]
  }

  lemma Extend(c: Config, st: State, actions: seq<Action>, mid: State, a: Action, st': State)
    requires IsRun(c, st, actions, mid) && Enabled(c, mid, a) && Step(c, mid, a) == st'
    ensures IsRun(c, st, actions + [a], st')
  {
    RunSnoc(c, st, actions, a);
  }

  lemma Begin(c: Config, st: State, a: Action, st': State)
    requires Enabled(c, st, a) && Step(c, st, a) == st'
    ensures IsRun(c, st, [a], st')
  {
    Extend(c, st, [], st, a, st');
    assert [] + [a] == [a];
  }

  lemma RecordStep(c: Config, st: State, e: Edge, minute: int)
    requires st.flight.recording == multiset{e} && AllWellFormed(st.ledger.agg)
    ensures Enabled(c, st, RecordEdge(e, minute))
    ensures Step(c, st, RecordEdge(e, minute))
            == st.(flight := st.flight.(recording := multiset{}), ledger := Folded(st.ledger, EventAt(e, minute)))
  {
  }

  lemma InferStep(c: Config, st: State, p: Pending)
    requires st.flight.inferring == multiset{p} && st.flight.recording == multiset{}
    ensures Enabled(c, st, Infer(p))
    ensures Step(c, st, Infer(p))
            == if p.peer == "" then st.(flight := st.flight.(inferring := multiset{}))
               else st.(stats := st.stats.(inferredPeers := st.stats.inferredPeers + 1),
                        flight := st.flight.(inferring := multiset{}, recording := multiset{PeerEdge(c, p)}))
  {
  }

  /** A pending inference, taken to its end. */
  lemma InferIsRun(c: Config, st: State, p: Pending, minute: int)
    requires AllWellFormed(st.ledger.agg)
    requires st.flight.inferring == multiset{p} && st.flight.recording == multiset{}
    ensures IsRun(c, st, InferActions(c, p, minute),
                  InferredState(c, st.(flight := st.flight.(inferring := multiset{})), p, minute))
  {
    InferStep(c, st, p);
    var mid := Step(c, st, Infer(p));
    Begin(c, st, Infer(p), mid);
    if p.peer != "" {
      var e := PeerEdge(c, p);
      RecordStep(c, mid, e, minute);
      Extend(c, st, [Infer(p)], mid, RecordEdge(e, minute), Step(c, mid, RecordEdge(e, minute)));
      assert [Infer(p)] + [RecordEdge(e, minute)] == InferActions(c, p, minute);
    }
  }

  /** The lock section of an arrival, before its emission. */
  ghost function Landed(c: Config, st: State, s: Span): State
    requires Enabled(c, st, Arrive(s))
  {
    var key, p := PairKey(s), PendingOf(s);
    var i := ShardOf(c, key);
    st.(shards := st.shards[i := After(st.shards[i], key, p, c.cap)],
        arrived := st.arrived + [s],
        displaced := st.displaced + if Displaces(st.shards[i], key, p) then 1 else 0)
  }

  ghost function Paired(c: Config, st: State, s: Span, e: Edge, minute: int): State
    requires Enabled(c, st, Arrive(s)) && AllWellFormed(st.ledger.agg)
  {
    Landed(c, st, s).(stats := st.stats.(paired := st.stats.paired + 1),
                      ledger := Folded(st.ledger, EventAt(e, minute)))
  }

  ghost function Dropped(c: Config, st: State, s: Span): State
    requires Enabled(c, st, Arrive(s))
  {
    Landed(c, st, s).(stats := st.stats.(pendingDropped := st.stats.pendingDropped + 1))
  }

  ghost function Entered(c: Config, st: State, s: Span, minute: int): State
    requires AllWellFormed(st.ledger.agg)
  {
    st.(stats := st.stats.(entryPoints := st.stats.entryPoints + 1),
        ledger := Folded(st.ledger, EventAt(EntryEdge(c, s), minute)))
  }

  ghost function VerdictOn(c: Config, st: State, s: Span): Verdict
    requires Enabled(c, st, Arrive(s))
  {
    Judge(st.shards[ShardOf(c, PairKey(s))], PairKey(s), PendingOf(s), c.cap)
  }

  lemma CountPairStep(c: Config, st: State, e: Edge)
    requires st.flight == NO_FLIGHT.(pairing := multiset{e})
    ensures Enabled(c, st, CountPair(e))
    ensures Step(c, st, CountPair(e))
            == st.(flight := NO_FLIGHT.(recording := multiset{e}), stats := st.stats.(paired := st.stats.paired + 1))
  {
  }

  lemma CountDropStep(c: Config, st: State, p: Pending)
    requires st.flight == NO_FLIGHT.(dropping := multiset{p})
    ensures Enabled(c, st, CountDrop(p))
    ensures Step(c, st, CountDrop(p))
            == st.(flight := if p.side == ClientSide then NO_FLIGHT.(inferring := multiset{p}) else NO_FLIGHT,
                   stats := st.stats.(pendingDropped := st.stats.pendingDropped + 1))
  {
  }

  lemma ArriveOutcome(c: Config, st: State, s: Span)
    requires Enabled(c, st, Arrive(s)) && st.flight == NO_FLIGHT
    ensures Step(c, st, Arrive(s)) == match VerdictOn(c, st, s)
            case Stored => Landed(c, st, s)
            case Matched(other) =>
              Landed(c, st, s).(flight := NO_FLIGHT.(pairing := multiset{Matching(c, PendingOf(s), other)}))
            case Full => Landed(c, st, s).(flight := NO_FLIGHT.(dropping := multiset{PendingOf(s)}))
  {
  }

  /** An arrival that waits is its lock section and nothing more. */
  lemma StoredIsRun(c: Config, st: State, s: Span)
    requires Enabled(c, st, Arrive(s)) && st.flight == NO_FLIGHT && VerdictOn(c, st, s).Stored?
    ensures IsRun(c, st, [Arrive(s)], Landed(c, st, s))
  {
    ArriveOutcome(c, st, s);
    Begin(c, st, Arrive(s), Landed(c, st, s));
  }

  /** A matched arrival: lock section, counter, record. */
  lemma PairIsRun(c: Config, st: State, s: Span, other: Pending, minute: int)
    requires Enabled(c, st, Arrive(s)) && st.flight == NO_FLIGHT && AllWellFormed(st.ledger.agg)
    requires VerdictOn(c, st, s) == Matched(other)
    ensures var e := Matching(c, PendingOf(s), other);
            IsRun(c, st, [Arrive(s)] + [CountPair(e)] + [RecordEdge(e, minute)], Paired(c, st, s, e, minute))
  {
    var e := Matching(c, PendingOf(s), other);
    ArriveOutcome(c, st, s);
    var one := Landed(c, st, s).(flight := NO_FLIGHT.(pairing := multiset{e}));
    Begin(c, st, Arrive(s), one);
    CountPairStep(c, one, e);
    var two := one.(flight := NO_FLIGHT.(recording := multiset{e}), stats := st.stats.(paired := st.stats.paired + 1));
    Extend(c, st, [Arrive(s)], one, CountPair(e), two);
    RecordStep(c, two, e, minute);
    assert Paired(c, st, s, e, minute) == two.(flight := NO_FLIGHT, ledger := Folded(two.ledger, EventAt(e, minute)));
    Extend(c, st, [Arrive(s)] + [CountPair(e)], two, RecordEdge(e, minute), Paired(c, st, s, e, minute));
  }

  lemma DropIsRun(c: Config, st: State, s: Span)
    requires Enabled(c, st, Arrive(s)) && st.flight == NO_FLIGHT && VerdictOn(c, st, s).Full?
    ensures IsRun(c, st, [Arrive(s)] + [CountDrop(PendingOf(s))],
                  Dropped(c, st, s).(
                    flight := if IsClient(s) then NO_FLIGHT.(inferring := multiset{PendingOf(s)}) else NO_FLIGHT))
  {
    var p := PendingOf(s);
    ArriveOutcome(c, st, s);
    var one := Landed(c, st, s).(flight := NO_FLIGHT.(dropping := multiset{p}));
    Begin(c, st, Arrive(s), one);
    CountDropStep(c, one, p);
    Extend(c, st, [Arrive(s)], one, CountDrop(p), Step(c, one, CountDrop(p)));
  }

  /** A refused client is dropped from the table but its edge is derived. */
  lemma RefusedClientIsRun(c: Config, st: State, s: Span, minute: int)
    requires Enabled(c, st, Arrive(s)) && st.flight == NO_FLIGHT && AllWellFormed(st.ledger.agg)
    requires VerdictOn(c, st, s).Full? && IsClient(s)
    ensures IsRun(c, st, [Arrive(s)] + [CountDrop(PendingOf(s))] + InferActions(c, PendingOf(s), minute),
                  InferredState(c, Dropped(c, st, s), PendingOf(s), minute))
  {
    var p := PendingOf(s);
    DropIsRun(c, st, s);
    var mid := Dropped(c, st, s).(flight := NO_FLIGHT.(inferring := multiset{p}));
    InferIsRun(c, mid, p, minute);
    RunConcat(c, st, [Arrive(s)] + [CountDrop(p)], mid, InferActions(c, p, minute));
  }

  lemma EntryIsRun(c: Config, st: State, s: Span, minute: int)
    requires IsEntry(s) && st.flight == NO_FLIGHT && AllWellFormed(st.ledger.agg)
    ensures IsRun(c, st, [Enter(s)] + [RecordEdge(EntryEdge(c, s), minute)], Entered(c, st, s, minute))
  {
    var e := EntryEdge(c, s);
    var mid := Step(c, st, Enter(s));
    assert mid.flight == NO_FLIGHT.(recording := multiset{e});
    Begin(c, st, Enter(s), mid);
    RecordStep(c, mid, e, minute);
    Extend(c, st, [Enter(s)], mid, RecordEdge(e, minute), Step(c, mid, RecordEdge(e, minute)));
  }

  /** The stripes a trace rotated, in order. */
  ghost function RotatedIn(actions: seq<Action>): seq<nat> {
    if actions == [] then []
    else
      var rest := RotatedIn(actions[..|actions| - 1]);
      if actions[|actions| - 1].RotateShard? then rest + [actions[|actions| - 1].i] else rest
  }

  lemma {:induction false} RotatedInConcat(a: seq<Action>, b: seq<Action>)
    ensures RotatedIn(a + b) == RotatedIn(a) + RotatedIn(b)
  {
    if b == [] {
      assert a + b == a;
    } else {
      assert (a + b)[..|a + b| - 1] == a + b[..|b| - 1];
      RotatedInConcat(a, b[..|b| - 1]);
    }
  }

  lemma {:induction false} ObservedConcat(a: seq<Action>, b: seq<Action>)
    ensures Observed(a + b) == Observed(a) + Observed(b)
  {
    if b == [] {
      assert a + b == a;
    } else {
      assert (a + b)[..|a + b| - 1] == a + b[..|b| - 1];
      ObservedConcat(a, b[..|b| - 1]);
    }
  }

  /** The first n stripes rotated, the others not yet. */
  function AllRotated(shards: seq<Gens>, n: nat): seq<Gens> {
    seq(|shards|, i requires 0 <= i < |shards| => if i < n then Rotated(shards[i]) else shards[i])
  }

  lemma AllRotatedNone(shards: seq<Gens>)
    ensures AllRotated(shards, 0) == shards
  {
  }

  lemma AllRotatedNext(shards: seq<Gens>, n: nat)
    requires n < |shards|
    ensures AllRotated(shards, n)[n := Rotated(AllRotated(shards, n)[n])] == AllRotated(shards, n + 1)
  {
  }

  function CurrentSizes(shards: seq<Gens>): seq<nat> {
    seq(|shards|, i requires 0 <= i < |shards| => |shards[i].cur|)
  }

  /** A single round leaves exactly the records of the current generations pending, and none if and only
      if all of those were empty. */
  lemma OneRoundLeaves(shards: seq<Gens>)
    ensures HeldIn(AllRotated(shards, |shards|)) == SumSeq(CurrentSizes(shards))
    ensures HeldIn(AllRotated(shards, |shards|)) == 0 <==> forall i :: 0 <= i < |shards| ==> shards[i].cur == map[]
  {
    var sizes := CurrentSizes(shards);
    assert Sizes(AllRotated(shards, |shards|)) == sizes;
    if SumSeq(sizes) == 0 {
      forall i | 0 <= i < |shards| ensures shards[i].cur == map[] {
        SumSeqAtLeast(sizes, i);
        assert sizes[i] == |shards[i].cur|;
      }
    }
    if forall i :: 0 <= i < |shards| ==> shards[i].cur == map[] {
      SumSeqBound(sizes, 0);
    }
  }

  function UpTo(n: nat): seq<nat> {
    if n == 0 then [] else UpTo(n - 1) + [n - 1]
  }

  lemma JoinTraces(c: Config, st: State, first: seq<Action>, mid: State, second: seq<Action>, st': State)
    requires IsRun(c, st, first, mid) && IsRun(c, mid, second, st')
    ensures IsRun(c, st, first + second, st')
    ensures Observed(first + second) == Observed(first) + Observed(second)
    ensures RotatedIn(first + second) == RotatedIn(first) + RotatedIn(second)
  {
    JoinRuns(c, st, first, mid, second, st');
    ObservedConcat(first, second);
    RotatedInConcat(first, second);
  }

  /** Emission steps neither observe nor rotate. */
  predicate Silent(a: Action) {
    !a.Arrive? && !a.Enter? && !a.RotateShard?
  }

  lemma {:induction false} SilentTrace(actions: seq<Action>)
    requires forall i :: 0 <= i < |actions| ==> Silent(actions[i])
    ensures Observed(actions) == [] && RotatedIn(actions) == []
  {
    if actions == [] {
    } else {
      SilentTrace(actions[..|actions| - 1]);
    }
  }

  /** The trace of one observed span: its lock section, then nothing but emission steps. */
  ghost predicate OneArrival(actions: seq<Action>, s: Span) {
    && actions != [] && (actions[0] == Arrive(s) || actions[0] == Enter(s))
    && forall i :: 1 <= i < |actions| ==> Silent(actions[i])
  }

  lemma {:induction false} ArrivalTraceShape(c: Config, s: Span, actions: seq<Action>)
    requires OneArrival(actions, s)
    ensures Observed(actions) == [s] && RotatedIn(actions) == []
  {
    assert actions == [actions[0]] + actions[1..];
    ObservedConcat([actions[0]], actions[1..]);
    RotatedInConcat([actions[0]], actions[1..]);
    SilentTrace(actions[1..]);
  }

  /** The eviction of one record of the discarded generation, taken to its end. */
  ghost function EvictActions(c: Config, k: string, p: Pending, minute: int): seq<Action> {
    [CountEviction(k)] + if p.side == ClientSide then InferActions(c, p, minute) else []
  }

  lemma EvictIsSilent(c: Config, k: string, p: Pending, minute: int)
    ensures Observed(EvictActions(c, k, p, minute)) == [] && RotatedIn(EvictActions(c, k, p, minute)) == []
  {
    SilentTrace(EvictActions(c, k, p, minute));
  }

  lemma EvictStep(c: Config, st: State, k: string)
    requires k in st.flight.evicting && st.flight.inferring == multiset{}
    ensures var p := st.flight.evicting[k];
            Step(c, st, CountEviction(k))
            == st.(stats := st.stats.(evicted := st.stats.evicted + 1),
                   flight := st.flight.(evicting := st.flight.evicting - {k},
                                        inferring := if p.side == ClientSide then multiset{p} else multiset{}))
  {
  }

  /** The eviction of one record, taken to its end. */
  ghost function EvictedState(c: Config, st: State, k: string, minute: int): State
    requires AllWellFormed(st.ledger.agg) && k in st.flight.evicting
  {
    var p := st.flight.evicting[k];
    var counted := st.(stats := st.stats.(evicted := st.stats.evicted + 1),
                       flight := st.flight.(evicting := st.flight.evicting - {k}));
    if p.side == ClientSide then InferredState(c, counted, p, minute) else counted
  }

  lemma EvictIsRun(c: Config, st: State, k: string, minute: int)
    requires AllWellFormed(st.ledger.agg) && k in st.flight.evicting
    requires st.flight.inferring == multiset{} && st.flight.recording == multiset{}
    ensures IsRun(c, st, EvictActions(c, k, st.flight.evicting[k], minute), EvictedState(c, st, k, minute))
  {
    var p := st.flight.evicting[k];
    EvictStep(c, st, k);
    var mid := Step(c, st, CountEviction(k));
    Begin(c, st, CountEviction(k), mid);
    if p.side == ClientSide {
      InferIsRun(c, mid, p, minute);
      RunConcat(c, st, [CountEviction(k)], mid, InferActions(c, p, minute));
    } else {
      assert EvictActions(c, k, p, minute) == [CountEviction(k)];
    }
  }

  /** The spans of a batch that the topology looks at. */
  function Relevant(spans: seq<Span>): seq<Span> {
    if spans == [] then []
    else
      var rest, s := Relevant(spans[..|spans| - 1]), spans[|spans| - 1];
      if Keyed(s) || IsEntry(s) then rest + [s] else rest
  }

  /** The state in the middle of a rotation, with part of the discarded generation left to walk. */
  function Evicting(st: State, rest: map<string, Pending>): State {
    st.(flight := NO_FLIGHT.(evicting := rest))
  }

  lemma JoinRuns(c: Config, st: State, first: seq<Action>, mid: State, second: seq<Action>, st': State)
    requires IsRun(c, st, first, mid) && IsRun(c, mid, second, st')
    ensures IsRun(c, st, first + second, st')
  {
    RunConcat(c, st, first, mid, second);
  }

  ghost function Written(st: State, out: seq<Row>): State {
    var l := st.ledger;
    st.(ledger := l.(agg := map[], log := [], rows := l.rows + out, storedLog := l.storedLog + l.log),
        stats := st.stats.(edgesWritten := st.stats.edgesWritten + |out|))
  }

  ghost function Lost(st: State): State {
    var l := st.ledger;
    st.(ledger := l.(agg := map[], log := [], lostLog := l.lostLog + l.log))
  }

  lemma FlushIsRun(c: Config, st: State, out: seq<Row>)
    requires st.flight == NO_FLIGHT && st.ledger.batch == None && st.ledger.batchLog == []
    requires st.ledger.agg != map[] && Lists(out, st.ledger.agg)
    ensures IsRun(c, st, [SwapAggregates] + [WriteOk(out)], Written(st, out))
    ensures IsRun(c, st, [SwapAggregates] + [WriteFails], Lost(st))
  {
    var mid := st.(ledger := st.ledger.(agg := map[], log := [],
                                        batch := Some(st.ledger.agg), batchLog := st.ledger.log));
    Begin(c, st, SwapAggregates, mid);
    Extend(c, st, [SwapAggregates], mid, WriteOk(out), Step(c, mid, WriteOk(out)));
    Extend(c, st, [SwapAggregates], mid, WriteFails, Step(c, mid, WriteFails));
  }

  /** One row for every entry of the map, in whatever order the map is walked. */
  method ListRows(m: map<AggKey, Sample>) returns (out: seq<Row>)
    ensures Lists(out, m)
  {
    out := [];
    var left := m.Keys;
    while left != {}
      invariant left <= m.Keys
      invariant forall i :: 0 <= i < |out| ==> out[i].at in m && out[i].at !in left && m[out[i].at] == out[i].sample
      invariant forall i, j :: 0 <= i < j < |out| ==> out[i].at != out[j].at
      invariant forall k :: k in m && k !in left ==> HasKey(out, k)
      decreases left
    {
      var k :| k in left;
      ghost var before := out;
      out := out + [Row(k, m[k])];
      left := left - {k};
      forall other | other in m && other !in left ensures HasKey(out, other) {
        HasKeySnoc(before, Row(k, m[k]), other);
      }
    }
    forall k | k in m ensures exists i :: 0 <= i < |out| && out[i].at == k {
      assert HasKey(out, k);
    }
  }

  // ---- the builder ----

  ghost function StatesOf(shards: seq<Shard>): (gs: seq<Gens>)
    reads shards
    ensures |gs| == |shards|
    ensures forall i :: 0 <= i < |shards| ==> gs[i] == shards[i].State()
  {
    if shards == [] then [] else [shards[0].State()] + StatesOf(shards[1..])
  }

  /** The parts of the state an arrival changes. */
  lemma LandedIs(c: Config, st: State, s: Span, i: nat)
    requires Enabled(c, st, Arrive(s)) && i == ShardOf(c, PairKey(s))
    ensures VerdictOn(c, st, s) == Judge(st.shards[i], PairKey(s), PendingOf(s), c.cap)
    ensures Landed(c, st, s)
            == st.(shards := st.shards[i := After(st.shards[i], PairKey(s), PendingOf(s), c.cap)],
                   arrived := st.arrived + [s],
                   displaced := if Displaces(st.shards[i], PairKey(s), PendingOf(s))
                                then st.displaced + 1 else st.displaced)
  {
  }

  /** Only one stripe changed. */
  lemma StatesAfter(shards: seq<Shard>, before: seq<Gens>, i: nat, g: Gens)
    requires i < |shards| == |before| && shards[i].State() == g
    requires forall j :: 0 <= j < |shards| && j != i ==> shards[j].State() == before[j]
    ensures StatesOf(shards) == before[i := g]
  {
  }

  class Builder {
    const cfg: Config
    const shards: seq<Shard>
    var agg: map<AggKey, Sample>
    var paired: nat
    var inferredPeers: nat
    var entryPoints: nat
    var evicted: nat
    var edgesWritten: nat
    var pendingDropped: nat

    // History: what the counters and the storage stand for.
    ghost var log: seq<Event>
    ghost var rows: seq<Row>
    ghost var storedLog: seq<Event>
    ghost var lostLog: seq<Event>
    ghost var arrived: seq<Span>
    ghost var displaced: nat

    /** The state of the step system between two calls: nothing is in flight. */
    ghost function View(): State
      reads this, shards
    {
      State(StatesOf(shards), NO_FLIGHT, Ledger(agg, log, None, [], rows, storedLog, lostLog),
            Stats(paired, inferredPeers, entryPoints, evicted, edgesWritten, pendingDropped), arrived, displaced)
    }

    ghost predicate Valid()
      reads this, shards
    {
      && ValidConfig(cfg)
      && |shards| == cfg.shards >= 1
      && (forall i, j :: 0 <= i < j < |shards| ==> shards[i] != shards[j])
      && AllWellFormed(agg)
    }

    constructor (requested: int, cap: int, includeNode: bool, hash: string -> nat)
      requires requested <= MAX_SHARDS
      ensures Valid() && fresh(shards) && View() == Init(cfg)
      ensures cfg.hash == hash
      ensures requested <= 0 ==> cfg.shards == DEFAULT_SHARDS && cfg.cap == DEFAULT_CAP && !cfg.includeNode
      ensures requested > 0 ==> requested <= cfg.shards && (cfg.shards == 1 || cfg.shards < 2 * requested)
      ensures requested > 0 ==> cfg.cap == cap && cfg.includeNode == includeNode
    {
      var n := RoundShards(requested);
      var c := if requested <= 0 then Config(hash, n, DEFAULT_CAP, false) else Config(hash, n, cap, includeNode);
      var made: seq<Shard> := [];
      while |made| < n
        invariant |made| <= n
        invariant fresh(made)
        invariant forall i, j :: 0 <= i < j < |made| ==> made[i] != made[j]
        invariant forall i :: 0 <= i < |made| ==> made[i].State() == EMPTY
      {
        var sh := new Shard();
        made := made + [sh];
      }
      ShardOfIsValid(c, "");
      cfg, shards, agg := c, made, map[];
      paired, inferredPeers, entryPoints, evicted, edgesWritten, pendingDropped := 0, 0, 0, 0, 0, 0;
      log, rows, storedLog, lostLog, arrived, displaced := [], [], [], [], [], 0;
      new;
      assert StatesOf(shards) == Init(cfg).shards;
    }

    /** The position of a key's stripe. */
    method ShardFor(key: string) returns (i: nat)
      requires ValidConfig(cfg) && |shards| == cfg.shards
      ensures cfg.shards >= 1 && i == ShardOf(cfg, key) < |shards|
    {
      ShardOfIsValid(cfg, key);
      i := BitAnd(cfg.hash(key), cfg.shards - 1);
    }

    /** Folds one call into the sample of its minute and edge. */
    method RecordCall(e: Edge, minute: int)
      requires AllWellFormed(agg)
      modifies this`agg, this`log
      ensures AllWellFormed(agg)
      ensures View() == old(View()).(ledger := Folded(old(View()).ledger, EventAt(e, minute)))
    {
      var ev := EventAt(e, minute);
      var sample := if ev.at in agg then agg[ev.at] else ZERO;
      sample := FoldInto(sample, ev);
      agg := agg[ev.at := sample];
      log := log + [ev];
    }

    /** Emits the edge of a matched pair, right after the lock section that matched it. */
    method EmitPair(client: Pending, server: Pending, minute: int, ghost st: State, ghost s: Span)
      returns (ghost actions: seq<Action>)
      requires AllWellFormed(agg) && st.flight == NO_FLIGHT && st.ledger.agg == agg
      requires Enabled(cfg, st, Arrive(s)) && View() == Landed(cfg, st, s)
      requires VerdictOn(cfg, st, s).Matched?
      requires PairEdge(cfg, client, server) == Matching(cfg, PendingOf(s), VerdictOn(cfg, st, s).other)
      modifies this`agg, this`log, this`paired
      ensures AllWellFormed(agg) && OneArrival(actions, s) && IsRun(cfg, st, actions, View())
    {
      var e := PairEdge(cfg, client, server);
      actions := [Arrive(s)] + [CountPair(e)] + [RecordEdge(e, minute)];
      ghost var end := Paired(cfg, st, s, e, minute);
      assert IsRun(cfg, st, actions, end) by {
        PairIsRun(cfg, st, s, VerdictOn(cfg, st, s).other, minute);
      }
      paired := paired + 1;
      RecordCall(e, minute);
      assert View() == end;
    }

    method EmitInferred(p: Pending, minute: int)
      requires AllWellFormed(agg)
      modifies this`agg, this`log, this`inferredPeers
      ensures AllWellFormed(agg)
      ensures View() == InferredState(cfg, old(View()), p, minute)
    {
      if p.peer == "" {
        return;
      }
      inferredPeers := inferredPeers + 1;
      RecordCall(PeerEdge(cfg, p), minute);
    }

    lemma CanArrive(s: Span)
      requires Valid() && Keyed(s)
      ensures Enabled(cfg, View(), Arrive(s))
    {
      ShardOfIsValid(cfg, PairKey(s));
    }

    /** What an arrival does to its stripe: take the key's record, and either meet it, find no room,
        or wait. */
    method Visit(sh: Shard, key: string, p: Pending) returns (v: Verdict)
      modifies sh
      ensures v == Judge(old(sh.State()), key, p, cfg.cap)
      ensures sh.State() == After(old(sh.State()), key, p, cfg.cap)
    {
      var found := sh.Take(key);
      if found.Some? && found.value.side != p.side {
        return Matched(found.value);
      }
      if |sh.cur| >= cfg.cap {
        return Full;
      }
      sh.cur := sh.cur[key := p];
      v := Stored;
    }

    /** The visit, as it shows in the table. */
    method VisitStripe(i: nat, key: string, p: Pending) returns (v: Verdict)
      requires Valid() && i < |shards|
      modifies shards
      ensures v == Judge(old(StatesOf(shards))[i], key, p, cfg.cap)
      ensures StatesOf(shards) == old(StatesOf(shards))[i := After(old(StatesOf(shards))[i], key, p, cfg.cap)]
    {
      ghost var before := StatesOf(shards);
      v := Visit(shards[i], key, p);
      StatesAfter(shards, before, i, After(before[i], key, p, cfg.cap));
    }

    /** The bookkeeping of the run about an arrival. */
    ghost method Arrived(s: Span, i: nat)
      requires i < |shards|
      modifies this`arrived, this`displaced
      ensures arrived == old(arrived) + [s]
      ensures displaced == if Displaces(StatesOf(shards)[i], PairKey(s), PendingOf(s))
                           then old(displaced) + 1 else old(displaced)
      ensures StatesOf(shards) == old(StatesOf(shards))
    {
      displaced := if Displaces(StatesOf(shards)[i], PairKey(s), PendingOf(s)) then displaced + 1 else displaced;
      arrived := arrived + [s];
    }

    /** The lock section both kinds of arrival run. */
    method LockSection(key: string, p: Pending, ghost s: Span) returns (v: Verdict)
      requires Valid() && Keyed(s) && key == PairKey(s) && p == PendingOf(s)
      modifies this`arrived, this`displaced, shards
      ensures Enabled(cfg, old(View()), Arrive(s))
      ensures v == VerdictOn(cfg, old(View()), s) && View() == Landed(cfg, old(View()), s)
    {
      CanArrive(s);
      var i := ShardFor(key);
      ghost var st := View();
      Arrived(s, i);
      v := VisitStripe(i, key, p);
      assert StatesOf(shards) == st.shards[i := After(st.shards[i], key, p, cfg.cap)];
      LandedIs(cfg, st, s, i);
      ghost var end := Landed(cfg, st, s);
      assert end.shards == StatesOf(shards) && end.arrived == arrived && end.displaced == displaced;
      assert end.flight == View().flight && end.ledger == View().ledger && end.stats == View().stats;
    }

    /** No room for a client: it is dropped from the table and its edge is derived. */
    method RefuseClient(p: Pending, minute: int, ghost st: State, ghost s: Span)
      returns (ghost actions: seq<Action>)
      requires AllWellFormed(agg) && st.flight == NO_FLIGHT && st.ledger.agg == agg
      requires Enabled(cfg, st, Arrive(s)) && View() == Landed(cfg, st, s)
      requires VerdictOn(cfg, st, s).Full? && IsClient(s) && p == PendingOf(s)
      modifies this`agg, this`log, this`inferredPeers, this`pendingDropped
      ensures AllWellFormed(agg) && OneArrival(actions, s) && IsRun(cfg, st, actions, View())
    {
      actions := [Arrive(s)] + [CountDrop(p)] + InferActions(cfg, p, minute);
      ghost var end := InferredState(cfg, Dropped(cfg, st, s), p, minute);
      assert IsRun(cfg, st, actions, end) by {
        RefusedClientIsRun(cfg, st, s, minute);
      }
      pendingDropped := pendingDropped + 1;
      assert View() == Dropped(cfg, st, s);
      EmitInferred(p, minute);
      assert View() == end;
    }

    method ObserveClient(s: Span, minute: int) returns (ghost actions: seq<Action>)
      requires Valid() && IsClient(s)
      modifies this, shards
      ensures Valid() && IsRun(cfg, old(View()), actions, View())
      ensures if Keyed(s) then OneArrival(actions, s) else actions == []
    {
      var key := s.spanId;
      if key == "" {
        return [];
      }
      ghost var st := View();
      var p := Pending(ClientSide, NodeOf(s), s.durationNs, IsError(s), ConnTypeOf(s), PeerNameOf(s));
      var v := LockSection(key, p, s);
      match v {
        case Matched(other) =>
          actions := EmitPair(p, other, minute, st, s);
        case Full =>
          actions := RefuseClient(p, minute, st, s);
        case Stored =>
          actions := [Arrive(s)];
          StoredIsRun(cfg, st, s);
      }
    }

    method ObserveServer(s: Span, minute: int) returns (ghost actions: seq<Action>)
      requires Valid() && IsServer(s)
      modifies this, shards
      ensures Valid() && IsRun(cfg, old(View()), actions, View())
      ensures OneArrival(actions, s)
    {
      ghost var st := View();
      if s.parentSpanId == "" {
        actions := ObserveEntry(s, minute);
        return;
      }
      var p := Pending(ServerSide, NodeOf(s), s.durationNs, IsError(s), ConnService, "");
      var v := LockSection(s.parentSpanId, p, s);
      match v {
        case Matched(other) =>
          actions := EmitPair(other, p, minute, st, s);
        case Full =>
          actions := [Arrive(s)] + [CountDrop(p)];
          DropIsRun(cfg, st, s);
          pendingDropped := pendingDropped + 1;
          assert View() == Dropped(cfg, st, s);
        case Stored =>
          actions := [Arrive(s)];
          StoredIsRun(cfg, st, s);
      }
    }

    /** Requests that come from outside: the edge is recorded without waiting for a partner. */
    method ObserveEntry(s: Span, minute: int) returns (ghost actions: seq<Action>)
      requires Valid() && IsEntry(s)
      modifies this
      ensures Valid() && IsRun(cfg, old(View()), actions, View())
      ensures OneArrival(actions, s)
    {
      ghost var st := View();
      var e := EntryEdge(cfg, s);
      actions := [Enter(s)] + [RecordEdge(e, minute)];
      ghost var end := Entered(cfg, st, s, minute);
      assert IsRun(cfg, st, actions, end) by {
        EntryIsRun(cfg, st, s, minute);
      }
      entryPoints := entryPoints + 1;
      RecordCall(e, minute);
      assert View() == end;
    }

    /** Dispatches a span by its kind; internal spans contribute nothing. */
    method ObserveSpan(s: Span, minute: int) returns (ghost actions: seq<Action>)
      requires Valid()
      modifies this, shards
      ensures Valid() && IsRun(cfg, old(View()), actions, View())
      ensures Observed(actions) == (if Keyed(s) || IsEntry(s) then [s] else []) && RotatedIn(actions) == []
    {
      if IsClient(s) {
        actions := ObserveClient(s, minute);
        if Keyed(s) {
          ArrivalTraceShape(cfg, s, actions);
        }
      } else if IsServer(s) {
        actions := ObserveServer(s, minute);
        ArrivalTraceShape(cfg, s, actions);
      } else {
        actions := [];
      }
    }

    /** Observes the spans one after the other; the minute may change between two of them. */
    method Process(spans: seq<Span>) returns (ghost actions: seq<Action>)
      requires Valid()
      modifies this, shards
      ensures Valid() && IsRun(cfg, old(View()), actions, View())
      ensures Observed(actions) == Relevant(spans) && RotatedIn(actions) == []
    {
      ghost var st := View();
      actions := [];
      var n := 0;
      while n < |spans|
        invariant n <= |spans|
        invariant Valid() && IsRun(cfg, st, actions, View())
        invariant Observed(actions) == Relevant(spans[..n]) && RotatedIn(actions) == []
      {
        var minute: int := *;
        ghost var mid := View();
        ghost var more := ObserveSpan(spans[n], minute);
        JoinRuns(cfg, st, actions, mid, more, View());
        ObservedConcat(actions, more);
        RotatedInConcat(actions, more);
        assert spans[..n + 1][..n] == spans[..n];
        actions := actions + more;
        n := n + 1;
      }
      assert spans[..n] == spans;
    }

    /** Counts one record of the discarded generation; a client among them has its edge derived. */
    method EvictOne(ghost rest: map<string, Pending>, k: string, p: Pending, minute: int)
      returns (ghost actions: seq<Action>)
      requires AllWellFormed(agg) && k in rest && rest[k] == p
      modifies this`agg, this`log, this`evicted, this`inferredPeers
      ensures AllWellFormed(agg) && IsRun(cfg, Evicting(old(View()), rest), actions, Evicting(View(), rest - {k}))
      ensures Observed(actions) == [] && RotatedIn(actions) == [] && View().shards == old(View()).shards
      ensures evicted == old(evicted) + 1
    {
      ghost var st := Evicting(View(), rest);
      actions := EvictActions(cfg, k, p, minute);
      ghost var end := EvictedState(cfg, st, k, minute);
      assert IsRun(cfg, st, actions, end) by {
        EvictIsRun(cfg, st, k, minute);
      }
      EvictIsSilent(cfg, k, p, minute);
      evicted := evicted + 1;
      if p.side == ClientSide {
        EmitInferred(p, minute);
      }
      assert Evicting(View(), rest - {k}) == end;
    }

    /** Walks the discarded generation of one stripe, in whatever order. */
    method WalkDropped(dropped: map<string, Pending>) returns (ghost actions: seq<Action>)
      requires AllWellFormed(agg)
      modifies this`agg, this`log, this`evicted, this`inferredPeers
      ensures AllWellFormed(agg) && IsRun(cfg, Evicting(old(View()), dropped), actions, View())
      ensures Observed(actions) == [] && RotatedIn(actions) == [] && View().shards == old(View()).shards
      ensures evicted == old(evicted) + |dropped|
    {
      ghost var st := Evicting(View(), dropped);
      var rest := dropped;
      actions := [];
      while rest != map[]
        invariant AllWellFormed(agg) && IsRun(cfg, st, actions, Evicting(View(), rest))
        invariant Observed(actions) == [] && RotatedIn(actions) == [] && View().shards == old(View()).shards
        invariant evicted + |rest| == old(evicted) + |dropped|
        decreases |rest|
      {
        var k :| k in rest;
        var minute: int := *;
        ghost var mid := Evicting(View(), rest);
        ghost var more := EvictOne(rest, k, rest[k], minute);
        RemoveSize(rest, k);
        rest := rest - {k};
        JoinRuns(cfg, st, actions, mid, more, Evicting(View(), rest));
        ObservedConcat(actions, more);
        RotatedInConcat(actions, more);
        actions := actions + more;
      }
      assert Evicting(View(), map[]) == View();
    }

    /** Rotates one stripe and walks what it discards. */
    method RotateOne(n: nat) returns (ghost actions: seq<Action>)
      requires Valid() && n < |shards|
      modifies this, shards
      ensures Valid() && IsRun(cfg, old(View()), actions, View())
      ensures Observed(actions) == [] && RotatedIn(actions) == [n]
      ensures View().shards == old(View()).shards[n := Rotated(old(View()).shards[n])]
    {
      ghost var st := View();
      var dropped := shards[n].Rotate();
      StatesAfter(shards, st.shards, n, Rotated(st.shards[n]));
      ghost var turned := Evicting(View(), dropped);
      assert IsRun(cfg, st, [RotateShard(n)], turned) by {
        Begin(cfg, st, RotateShard(n), turned);
      }
      ghost var more := WalkDropped(dropped);
      JoinRuns(cfg, st, [RotateShard(n)], turned, more, View());
      actions := [RotateShard(n)] + more;
      ObservedConcat([RotateShard(n)], more);
      RotatedInConcat([RotateShard(n)], more);
    }

    /** One round: every stripe rotates once, in order, and its discarded generation is walked before
        the next stripe rotates. */
    method Rotate() returns (ghost actions: seq<Action>)
      requires Valid()
      modifies this, shards
      ensures Valid() && IsRun(cfg, old(View()), actions, View())
      ensures Observed(actions) == [] && RotatedIn(actions) == UpTo(|shards|)
      ensures View().shards == AllRotated(old(View()).shards, |shards|)
    {
      ghost var st := View();
      actions := [];
      var n := 0;
      AllRotatedNone(st.shards);
      while n < |shards|
        invariant n <= |shards| == |st.shards|
        invariant Valid() && IsRun(cfg, st, actions, View())
        invariant Observed(actions) == [] && RotatedIn(actions) == UpTo(n)
        invariant View().shards == AllRotated(st.shards, n)
      {
        ghost var mid := View();
        ghost var more := RotateOne(n);
        AllRotatedNext(st.shards, n);
        JoinTraces(cfg, st, actions, mid, more, View());
        actions := actions + more;
        n := n + 1;
      }
    }

    /** Writes a swapped-out batch; the sink decides whether the write succeeds, and a failed write
        loses the batch. */
    method WriteBatch(out: seq<Row>, ghost st: State) returns (ghost actions: seq<Action>)
      requires st.flight == NO_FLIGHT && st.ledger.batch == None && st.ledger.batchLog == []
      requires st.ledger.agg != map[] && Lists(out, st.ledger.agg)
      requires View() == st.(ledger := st.ledger.(agg := map[], log := []))
      modifies this`edgesWritten, this`rows, this`storedLog, this`lostLog
      ensures IsRun(cfg, st, actions, View())
      ensures Observed(actions) == [] && RotatedIn(actions) == []
    {
      var ok: bool := *;
      if ok {
        edgesWritten := edgesWritten + |out|;
        rows, storedLog := rows + out, storedLog + st.ledger.log;
        actions := [SwapAggregates] + [WriteOk(out)];
        assert View() == Written(st, out);
      } else {
        lostLog := lostLog + st.ledger.log;
        actions := [SwapAggregates] + [WriteFails];
        assert View() == Lost(st);
      }
      FlushIsRun(cfg, st, out);
      SilentTrace(actions);
    }

    /** Swaps the aggregates out and hands them to the sink. */
    method Flush() returns (ghost actions: seq<Action>)
      requires Valid()
      modifies this
      ensures Valid() && IsRun(cfg, old(View()), actions, View())
      ensures Observed(actions) == [] && RotatedIn(actions) == []
      ensures agg == map[] && View().shards == old(View()).shards
    {
      if agg == map[] {
        return [];
      }
      ghost var st := View();
      var out := ListRows(agg);
      agg, log := map[], [];
      actions := WriteBatch(out, st);
    }

    /** Stopping rotates once and flushes once: what was in a current generation stays pending. */
    method Shutdown() returns (ghost actions: seq<Action>)
      requires Valid()
      modifies this, shards
      ensures Valid() && IsRun(cfg, old(View()), actions, View())
      ensures Observed(actions) == [] && RotatedIn(actions) == UpTo(|shards|)
      ensures View().shards == AllRotated(old(View()).shards, |shards|) && agg == map[]
    {
      ghost var st := View();
      actions := Rotate();
      ghost var mid := View();
      ghost var more := Flush();
      JoinTraces(cfg, st, actions, mid, more, View());
      actions := actions + more;
    }
  }
}
