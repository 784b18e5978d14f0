/** Every edge the pairing table decides on is recorded exactly once, and nothing else is.
    The recorded edges of a run are the edges of its entry spans and, key by key, those the
    pairing rule gives to the key. Edges are counted one value at a time. */
module EdgeFlow {
  import opened Basics
  import opened Spans
  import opened EdgeSamples
  import opened PairTable
  import opened TopologySystem
  import opened KeyProjection
  import opened PairWindow
  import opened Sharding

  // ---- sums over keys ----

  ghost function SumKeys(f: string -> nat, keys: set<string>): nat {
    if keys == {} then 0
    else
      var k :| k in keys;
      f(k) + SumKeys(f, keys - {k})
  }

  lemma {:induction false} SumKeysRemove(f: string -> nat, keys: set<string>, k: string)
    requires k in keys
    ensures SumKeys(f, keys) == f(k) + SumKeys(f, keys - {k})
    decreases |keys|
  {
    var c :| c in keys && SumKeys(f, keys) == f(c) + SumKeys(f, keys - {c});
    if c != k {
      SumKeysRemove(f, keys - {c}, k);
      SumKeysRemove(f, keys - {k}, c);
      assert keys - {c} - {k} == keys - {k} - {c};
    }
  }

  lemma {:induction false} SumKeysAdd(h: string -> nat, f: string -> nat, g: string -> nat, keys: set<string>)
    requires forall k :: k in keys ==> h(k) == f(k) + g(k)
    ensures SumKeys(h, keys) == SumKeys(f, keys) + SumKeys(g, keys)
    decreases |keys|
  {
    if keys != {} {
      var k :| k in keys;
      SumKeysAdd(h, f, g, keys - {k});
      SumKeysRemove(h, keys, k);
      SumKeysRemove(f, keys, k);
      SumKeysRemove(g, keys, k);
    }
  }

  lemma {:induction false} SumKeysZero(f: string -> nat, keys: set<string>)
    requires forall k :: k in keys ==> f(k) == 0
    ensures SumKeys(f, keys) == 0
    decreases |keys|
  {
    if keys != {} {
      var k :| k in keys;
      SumKeysZero(f, keys - {k});
      SumKeysRemove(f, keys, k);
    }
  }

  /** Keys that contribute nothing may be left out. */
  lemma {:induction false} SumKeysSupport(f: string -> nat, g: string -> nat, few: set<string>, keys: set<string>)
    requires few <= keys
    requires forall k :: k in keys ==> f(k) == if k in few then g(k) else 0
    ensures SumKeys(f, keys) == SumKeys(g, few)
    decreases |few|
  {
    if few == {} {
      SumKeysZero(f, keys);
    } else {
      var k :| k in few;
      SumKeysSupport(f, g, few - {k}, keys - {k});
      SumKeysRemove(f, keys, k);
      SumKeysRemove(g, few, k);
    }
  }

  // ---- how often an edge occurs ----

  /** The edge of a record that found no partner: a client's, when its target has a name. */
  function Peers(c: Config, p: Pending, e: Edge): nat {
    if p.side == ClientSide && p.peer != "" && PeerEdge(c, p) == e then 1 else 0
  }

  function PeersUnder(c: Config, m: map<string, Pending>, e: Edge): string -> nat {
    (k: string) => if k in m then Peers(c, m[k], e) else 0
  }

  ghost function PeersInMap(c: Config, m: map<string, Pending>, e: Edge): nat {
    SumKeys(PeersUnder(c, m, e), m.Keys)
  }

  lemma PeersInMapRemove(c: Config, m: map<string, Pending>, k: string, e: Edge)
    requires k in m
    ensures PeersInMap(c, m, e) == Peers(c, m[k], e) + PeersInMap(c, m - {k}, e)
  {
    SumKeysRemove(PeersUnder(c, m, e), m.Keys, k);
    assert (m - {k}).Keys == m.Keys - {k};
    SumKeysSupport(PeersUnder(c, m, e), PeersUnder(c, m - {k}, e), m.Keys - {k}, m.Keys - {k});
  }

  ghost function PeersIn(c: Config, ps: multiset<Pending>, e: Edge): nat {
    if ps == multiset{} then 0
    else
      var p :| p in ps;
      Peers(c, p, e) + PeersIn(c, ps - multiset{p}, e)
  }

  lemma {:induction false} PeersInRemove(c: Config, ps: multiset<Pending>, p: Pending, e: Edge)
    requires p in ps
    ensures PeersIn(c, ps, e) == Peers(c, p, e) + PeersIn(c, ps - multiset{p}, e)
    decreases |ps|
  {
    var q :| q in ps && PeersIn(c, ps, e) == Peers(c, q, e) + PeersIn(c, ps - multiset{q}, e);
    if q != p {
      PeersInRemove(c, ps - multiset{q}, p, e);
      PeersInRemove(c, ps - multiset{p}, q, e);
      assert ps - multiset{q} - multiset{p} == ps - multiset{p} - multiset{q};
    }
  }

  lemma PeersInAdd(c: Config, ps: multiset<Pending>, p: Pending, e: Edge)
    ensures PeersIn(c, ps + multiset{p}, e) == PeersIn(c, ps, e) + Peers(c, p, e)
  {
    PeersInRemove(c, ps + multiset{p}, p, e);
    assert ps + multiset{p} - multiset{p} == ps;
  }

  function EdgeOf(v: Event): Edge {
    Edge(v.at.edge, v.durationNs, v.isError)
  }

  function Same(a: Edge, b: Edge): nat {
    if a == b then 1 else 0
  }

  /** How often a stretch of recorded events repeats an edge. */
  function Logged(vs: seq<Event>, e: Edge): nat {
    if vs == [] then 0 else Logged(vs[..|vs| - 1], e) + Same(EdgeOf(vs[|vs| - 1]), e)
  }

  lemma {:induction false} LoggedConcat(a: seq<Event>, b: seq<Event>, e: Edge)
    ensures Logged(a + b, e) == Logged(a, e) + Logged(b, e)
  {
    if b == [] {
      assert a + b == a;
    } else {
      assert (a + b)[..|a + b| - 1] == a + b[..|b| - 1];
      LoggedConcat(a, b[..|b| - 1], e);
    }
  }

  lemma LoggedSnoc(vs: seq<Event>, v: Event, e: Edge)
    ensures Logged(vs + [v], e) == Logged(vs, e) + Same(EdgeOf(v), e)
  {
    assert (vs + [v])[..|vs|] == vs;
  }

  // ---- one step ----

  /** An edge decided but not yet recorded, wherever it stands. */
  ghost function InFlight(c: Config, f: Flight, e: Edge): nat {
    f.pairing[e] + PeersIn(c, f.dropping, e) + PeersInMap(c, f.evicting, e) + PeersIn(c, f.inferring, e) + f.recording[e]
  }

  function Recorded(l: Ledger, e: Edge): nat {
    Logged(l.log, e) + Logged(l.batchLog, e) + Logged(l.storedLog, e) + Logged(l.lostLog, e)
  }

  /** What an operation of a stripe decides. */
  ghost function Decides(c: Config, g: Gens, op: TableOp, e: Edge): nat {
    match op
    case Arrival(key, p) =>
      (match Judge(g, key, p, c.cap)
       case Stored => 0
       case Matched(other) => Same(Matching(c, p, other), e)
       case Full => Peers(c, p, e))
    case Rotation => PeersInMap(c, g.prev, e)
  }

  ghost function Yields(c: Config, st: State, a: Action, e: Edge): nat
    requires Enabled(c, st, a)
  {
    match a
    case Arrive(s) => Decides(c, st.shards[ShardOf(c, PairKey(s))], Arrival(PairKey(s), PendingOf(s)), e)
    case Enter(s) => Same(EntryEdge(c, s), e)
    case RotateShard(i) => Decides(c, st.shards[i], Rotation, e)
    case _ => 0
  }

  ghost function ArriveFlight(c: Config, f: Flight, p: Pending, v: Verdict): Flight {
    match v
    case Stored => f
    case Matched(other) => f.(pairing := f.pairing + multiset{Matching(c, p, other)})
    case Full => f.(dropping := f.dropping + multiset{p})
  }

  lemma ArriveFlightEdges(c: Config, f: Flight, p: Pending, v: Verdict, e: Edge)
    ensures InFlight(c, ArriveFlight(c, f, p, v), e)
            == InFlight(c, f, e) + (match v
                                    case Stored => 0
                                    case Matched(other) => Same(Matching(c, p, other), e)
                                    case Full => Peers(c, p, e))
  {
    PeersInAdd(c, f.dropping, p, e);
  }

  lemma ArriveMovesEdges(c: Config, st: State, s: Span, e: Edge)
    requires Enabled(c, st, Arrive(s))
    ensures InFlight(c, ArriveStep(c, st, s).flight, e) == InFlight(c, st.flight, e) + Yields(c, st, Arrive(s), e)
  {
    var key, p := PairKey(s), PendingOf(s);
    var v := Judge(st.shards[ShardOf(c, key)], key, p, c.cap);
    assert ArriveStep(c, st, s).flight == ArriveFlight(c, st.flight, p, v);
    ArriveFlightEdges(c, st.flight, p, v, e);
  }

  lemma ArriveLeavesLedger(c: Config, st: State, s: Span)
    requires Enabled(c, st, Arrive(s))
    ensures ArriveStep(c, st, s).ledger == st.ledger
  {
  }

  lemma InferredMovesEdges(c: Config, st: State, p: Pending, e: Edge)
    ensures PeersIn(c, Inferred(st, p).inferring, e) == PeersIn(c, st.flight.inferring, e) + Peers(c, p, e)
  {
    PeersInAdd(c, st.flight.inferring, p, e);
  }

  lemma CountDropMovesEdges(c: Config, st: State, p: Pending, e: Edge)
    requires Enabled(c, st, CountDrop(p))
    ensures InFlight(c, Step(c, st, CountDrop(p)).flight, e) == InFlight(c, st.flight, e)
  {
    PeersInRemove(c, st.flight.dropping, p, e);
    InferredMovesEdges(c, st, p, e);
  }

  lemma CountEvictionMovesEdges(c: Config, st: State, k: string, e: Edge)
    requires Enabled(c, st, CountEviction(k))
    ensures InFlight(c, Step(c, st, CountEviction(k)).flight, e) == InFlight(c, st.flight, e)
  {
    PeersInMapRemove(c, st.flight.evicting, k, e);
    InferredMovesEdges(c, st, st.flight.evicting[k], e);
  }

  ghost function InferFlight(c: Config, f: Flight, p: Pending): Flight {
    if p.peer == "" then f.(inferring := f.inferring - multiset{p})
    else f.(inferring := f.inferring - multiset{p}, recording := f.recording + multiset{PeerEdge(c, p)})
  }

  lemma InferFlightEdges(c: Config, f: Flight, p: Pending, e: Edge)
    requires p in f.inferring && p.side == ClientSide
    ensures InFlight(c, InferFlight(c, f, p), e) == InFlight(c, f, e)
  {
    PeersInRemove(c, f.inferring, p, e);
  }

  lemma InferMovesEdges(c: Config, st: State, p: Pending, e: Edge)
    requires Enabled(c, st, Infer(p)) && p.side == ClientSide
    ensures InFlight(c, Step(c, st, Infer(p)).flight, e) == InFlight(c, st.flight, e)
    ensures Step(c, st, Infer(p)).ledger == st.ledger
  {
    assert Step(c, st, Infer(p)).flight == InferFlight(c, st.flight, p);
    InferFlightEdges(c, st.flight, p, e);
  }

  lemma LedgerMovesEdges(c: Config, st: State, a: Action, e: Edge)
    requires Enabled(c, st, a) && (a.SwapAggregates? || a.WriteOk? || a.WriteFails? || a.MergeRows?)
    requires st.ledger.batch == None ==> st.ledger.batchLog == []
    ensures Recorded(LedgerStep(c, st, a), e) == Recorded(st.ledger, e)
  {
    LoggedConcat(st.ledger.storedLog, st.ledger.batchLog, e);
    LoggedConcat(st.ledger.lostLog, st.ledger.batchLog, e);
  }

  /** Only clients are in flight towards an inferred edge, and a batch carries its events. */
  ghost predicate Proper(st: State) {
    && (forall p :: p in st.flight.inferring ==> p.side == ClientSide)
    && (st.ledger.batch == None ==> st.ledger.batchLog == [])
  }

  lemma StepKeepsProper(c: Config, st: State, a: Action)
    requires Enabled(c, st, a) && Proper(st)
    ensures Proper(Step(c, st, a))
  {
  }

  ghost function Accounted(c: Config, st: State, e: Edge): nat {
    InFlight(c, st.flight, e) + Recorded(st.ledger, e)
  }

  lemma NothingInMap(c: Config, e: Edge)
    ensures PeersInMap(c, map[], e) == 0
  {
    var nothing: map<string, Pending> := map[];
    assert nothing.Keys == {};
  }

  lemma RecordMovesEdges(c: Config, st: State, x: Edge, minute: int, e: Edge)
    requires Enabled(c, st, RecordEdge(x, minute))
    ensures Accounted(c, Step(c, st, RecordEdge(x, minute)), e) == Accounted(c, st, e)
  {
    LoggedSnoc(st.ledger.log, EventAt(x, minute), e);
  }

  lemma RotateMovesEdges(c: Config, st: State, i: nat, e: Edge)
    requires Enabled(c, st, RotateShard(i))
    ensures Accounted(c, Step(c, st, RotateShard(i)), e) == Accounted(c, st, e) + Yields(c, st, RotateShard(i), e)
  {
    NothingInMap(c, e);
  }

  lemma CountMovesEdges(c: Config, st: State, a: Action, e: Edge)
    requires Enabled(c, st, a) && (a.Enter? || a.CountPair?)
    ensures Accounted(c, Step(c, st, a), e) == Accounted(c, st, e) + Yields(c, st, a, e)
  {
  }

  /** A step changes the edges decided so far by exactly those it decides: it forges none,
      loses none and alters none. */
  lemma StepMovesEdges(c: Config, st: State, a: Action, e: Edge)
    requires Enabled(c, st, a) && Proper(st)
    ensures Accounted(c, Step(c, st, a), e) == Accounted(c, st, e) + Yields(c, st, a, e)
  {
    match a
    case Arrive(s) =>
      ArriveMovesEdges(c, st, s, e);
      ArriveLeavesLedger(c, st, s);
    case CountDrop(p) => CountDropMovesEdges(c, st, p, e);
    case CountEviction(k) => CountEvictionMovesEdges(c, st, k, e);
    case Infer(p) => InferMovesEdges(c, st, p, e);
    case RecordEdge(x, minute) => RecordMovesEdges(c, st, x, minute, e);
    case RotateShard(i) => RotateMovesEdges(c, st, i, e);
    case Enter(_) => CountMovesEdges(c, st, a, e);
    case CountPair(_) => CountMovesEdges(c, st, a, e);
    case _ => LedgerMovesEdges(c, st, a, e);
  }

  // ---- whole runs ----

  /** The operations of a run on the pairing table. */
  function TableOps(actions: seq<Action>): seq<StripedOp> {
    if actions == [] then []
    else
      var rest, a := TableOps(actions[..|actions| - 1]), actions[|actions| - 1];
      match a
      case Arrive(s) => rest + [ArriveAt(PairKey(s), PendingOf(s))]
      case RotateShard(i) => rest + [RotateStripe(i)]
      case _ => rest
  }

  /** How often the entry spans of a run yield an edge. */
  function Entries(c: Config, actions: seq<Action>, e: Edge): nat {
    if actions == [] then 0
    else
      var rest, a := Entries(c, actions[..|actions| - 1], e), actions[|actions| - 1];
      if a.Enter? then rest + Same(EntryEdge(c, a.span), e) else rest
  }

  /** How often the pairing table decides on an edge. */
  ghost function Decided(c: Config, ops: seq<StripedOp>, e: Edge): nat
    requires ValidConfig(c) && AllInRange(c, ops)
  {
    if ops == [] then 0
    else
      var front, op := ops[..|ops| - 1], ops[|ops| - 1];
      ValidStripe(c, op);
      Decided(c, front, e) + Decides(c, Stripes(c, front)[StripeOf(c, op)], Local(op), e)
  }

  lemma DecidedSnoc(c: Config, ops: seq<StripedOp>, op: StripedOp, e: Edge)
    requires ValidConfig(c) && AllInRange(c, ops) && InRange(c, op)
    ensures AllInRange(c, ops + [op]) && StripeOf(c, op) < c.shards
    ensures Stripes(c, ops + [op])
            == Stripes(c, ops)[StripeOf(c, op) := Apply(Stripes(c, ops)[StripeOf(c, op)], Local(op), c.cap)]
    ensures Decided(c, ops + [op], e) == Decided(c, ops, e) + Decides(c, Stripes(c, ops)[StripeOf(c, op)], Local(op), e)
  {
    ValidStripe(c, op);
    assert (ops + [op])[..|ops|] == ops;
  }

  /** The table of the engine is the striped table, run on the engine's arrivals and rotations. */
  ghost predicate Tracks(c: Config, st: State, actions: seq<Action>, e: Edge)
    requires ValidConfig(c)
  {
    var ops := TableOps(actions);
    && AllInRange(c, ops)
    && st.shards == Stripes(c, ops)
    && Accounted(c, st, e) == Entries(c, actions, e) + Decided(c, ops, e)
  }

  lemma InitTracks(c: Config, e: Edge)
    requires ValidConfig(c)
    ensures Tracks(c, Init(c), [], e) && Proper(Init(c))
  {
    ShardOfIsValid(c, "");
    NothingInMap(c, e);
  }

  /** The operation of the pairing table that a step performs, if any. */
  function TableOpOf(a: Action): seq<StripedOp> {
    match a
    case Arrive(s) => [ArriveAt(PairKey(s), PendingOf(s))]
    case RotateShard(i) => [RotateStripe(i)]
    case _ => []
  }

  lemma ActionsSnoc(c: Config, actions: seq<Action>, a: Action, e: Edge)
    ensures TableOps(actions + [a]) == TableOps(actions) + TableOpOf(a)
    ensures Entries(c, actions + [a], e) == Entries(c, actions, e) + if a.Enter? then Same(EntryEdge(c, a.span), e) else 0
  {
    assert (actions + [a])[..|actions|] == actions;
  }

  lemma StepMovesShards(c: Config, st: State, a: Action)
    requires ValidConfig(c) && Enabled(c, st, a) && |st.shards| == c.shards
    ensures TableOpOf(a) == [] ==> Step(c, st, a).shards == st.shards
    ensures TableOpOf(a) != [] ==>
              var op := TableOpOf(a)[0];
              && InRange(c, op) && StripeOf(c, op) < c.shards
              && Step(c, st, a).shards == st.shards[StripeOf(c, op) := Apply(st.shards[StripeOf(c, op)], Local(op), c.cap)]
  {
  }

  lemma YieldsAsDecided(c: Config, st: State, a: Action, e: Edge)
    requires ValidConfig(c) && Enabled(c, st, a) && |st.shards| == c.shards
    ensures TableOpOf(a) == [] ==> Yields(c, st, a, e) == if a.Enter? then Same(EntryEdge(c, a.span), e) else 0
    ensures TableOpOf(a) != [] ==>
              var op := TableOpOf(a)[0];
              && !a.Enter? && InRange(c, op) && StripeOf(c, op) < c.shards
              && Yields(c, st, a, e) == Decides(c, st.shards[StripeOf(c, op)], Local(op), e)
  {
  }

  lemma StepTracks(c: Config, st: State, actions: seq<Action>, a: Action, e: Edge)
    requires ValidConfig(c) && Enabled(c, st, a) && Proper(st) && Tracks(c, st, actions, e)
    ensures Tracks(c, Step(c, st, a), actions + [a], e)
  {
    ActionsSnoc(c, actions, a, e);
    StepMovesEdges(c, st, a, e);
    StepMovesShards(c, st, a);
    YieldsAsDecided(c, st, a, e);
    TracksOn(c, st, Step(c, st, a), actions, a, e);
  }

  lemma TracksOn(c: Config, st: State, st': State, actions: seq<Action>, a: Action, e: Edge)
    requires ValidConfig(c) && Enabled(c, st, a) && Tracks(c, st, actions, e)
    requires TableOps(actions + [a]) == TableOps(actions) + TableOpOf(a)
    requires Entries(c, actions + [a], e) == Entries(c, actions, e) + if a.Enter? then Same(EntryEdge(c, a.span), e) else 0
    requires Accounted(c, st', e) == Accounted(c, st, e) + Yields(c, st, a, e)
    requires TableOpOf(a) == [] ==>
               && st'.shards == st.shards
               && Yields(c, st, a, e) == if a.Enter? then Same(EntryEdge(c, a.span), e) else 0
    requires TableOpOf(a) != [] ==>
               var op := TableOpOf(a)[0];
               && !a.Enter? && InRange(c, op) && StripeOf(c, op) < c.shards
               && Yields(c, st, a, e) == Decides(c, st.shards[StripeOf(c, op)], Local(op), e)
               && st'.shards == st.shards[StripeOf(c, op) := Apply(st.shards[StripeOf(c, op)], Local(op), c.cap)]
    ensures Tracks(c, st', actions + [a], e)
  {
    if TableOpOf(a) != [] {
      DecidedSnoc(c, TableOps(actions), TableOpOf(a)[0], e);
    }
  }

  /** In every run, an edge stands in flight and in the ledger exactly as often as entry spans
      and the pairing table decided on it. */
  lemma {:induction false} EdgesAreAccounted(c: Config, actions: seq<Action>, st: State, e: Edge)
    requires ValidConfig(c) && IsRun(c, Init(c), actions, st)
    ensures Tracks(c, st, actions, e) && Proper(st)
    decreases |actions|
  {
    if actions == [] {
      InitTracks(c, e);
    } else {
      var n := |actions| - 1;
      var mid := LastStep(c, Init(c), actions, st);
      EdgesAreAccounted(c, actions[..n], mid, e);
      StepKeepsProper(c, mid, actions[n]);
      StepTracks(c, mid, actions[..n], actions[n], e);
    }
  }

  // ---- key by key ----

  /** The edge a table output stands for. */
  function OutEdge(c: Config, o: KeyOut, e: Edge): nat {
    match o
    case PairOut(client, server) => Same(PairEdge(c, client, server), e)
    case EvictOut(p) => Peers(c, p, e)
    case DisplaceOut(_) => 0
  }

  function OutEdges(c: Config, outs: seq<KeyOut>, e: Edge): nat {
    if outs == [] then 0 else OutEdges(c, outs[..|outs| - 1], e) + OutEdge(c, outs[|outs| - 1], e)
  }

  lemma OutEdgesShort(c: Config, outs: seq<KeyOut>, more: seq<KeyOut>, e: Edge)
    requires |more| <= 1
    ensures OutEdges(c, outs + more, e) == OutEdges(c, outs, e) + OutEdges(c, more, e)
  {
    if more == [] {
      assert outs + more == outs;
    } else {
      assert (outs + more)[..|outs|] == outs;
      assert more[..0] == [];
    }
  }

  /** How often the outputs for one key yield an edge. */
  ghost function OfKey(c: Config, ops: seq<StripedOp>, e: Edge): string -> nat
    requires ValidConfig(c) && AllInRange(c, ops)
  {
    (k: string) => OutEdges(c, StripedTrace(c, ops, k), e)
  }

  ghost function StepOfKey(c: Config, g: Gens, op: TableOp, e: Edge): string -> nat {
    (k: string) => OutEdges(c, EmittedFor(g, op, c.cap, k), e)
  }

  lemma SingleOut(c: Config, o: KeyOut, e: Edge)
    ensures OutEdges(c, [o], e) == OutEdge(c, o, e)
  {
    assert [o][..0] == [];
  }

  /** What an operation decides is what it emits, summed over the keys. */
  lemma DecidesByKey(c: Config, g: Gens, op: TableOp, keys: set<string>, e: Edge)
    requires HasRoom(g, op, c.cap)
    requires op.Arrival? ==> op.key in keys
    requires g.prev.Keys <= keys
    ensures Decides(c, g, op, e) == SumKeys(StepOfKey(c, g, op, e), keys)
  {
    var f := StepOfKey(c, g, op, e);
    match op
    case Arrival(key, p) =>
      SumKeysSupport(f, f, {key}, keys);
      SumKeysRemove(f, {key}, key);
      assert {key} - {key} == {};
      if Meets(g, key, p) {
        SingleOut(c, PairUp(p, Find(g, key).value), e);
      } else if Displaces(g, key, p) {
        SingleOut(c, DisplaceOut(Find(g, key).value), e);
      }
    case Rotation =>
      forall k | k in g.prev ensures f(k) == Peers(c, g.prev[k], e) {
        SingleOut(c, EvictOut(g.prev[k]), e);
      }
      SumKeysSupport(f, PeersUnder(c, g.prev, e), g.prev.Keys, keys);
  }

  /** Every key that arrives lies in the given set. */
  ghost predicate ArriveWithin(ops: seq<StripedOp>, keys: set<string>) {
    forall n :: 0 <= n < |ops| && ops[n].ArriveAt? ==> ops[n].key in keys
  }

  lemma {:induction false} HeldKeysArrived(c: Config, ops: seq<StripedOp>, keys: set<string>, i: nat)
    requires ValidConfig(c) && AllInRange(c, ops) && ArriveWithin(ops, keys) && i < c.shards
    ensures Stripes(c, ops)[i].cur.Keys <= keys && Stripes(c, ops)[i].prev.Keys <= keys
  {
    if ops == [] {
    } else {
      var front, op := ops[..|ops| - 1], ops[|ops| - 1];
      HeldKeysArrived(c, front, keys, i);
      ValidStripe(c, op);
    }
  }

  lemma RoomInFront(c: Config, ops: seq<StripedOp>)
    requires ValidConfig(c) && AllInRange(c, ops) && StripedNeverFull(c, ops) && ops != []
    ensures StripedNeverFull(c, ops[..|ops| - 1])
    ensures var op := ops[|ops| - 1];
            StripeOf(c, op) < c.shards && HasRoom(Stripes(c, ops[..|ops| - 1])[StripeOf(c, op)], Local(op), c.cap)
  {
    var front, op := ops[..|ops| - 1], ops[|ops| - 1];
    ValidStripe(c, op);
    var i := StripeOf(c, op);
    assert Restrict(c, ops, i) == Restrict(c, front, i) + [Local(op)];
    StripeIsLocal(c, front, i);
    forall j | 0 <= j < c.shards ensures NeverFull(EMPTY, Restrict(c, front, j), c.cap) {
      if j == i {
        assert Restrict(c, ops, i)[..|Restrict(c, ops, i)| - 1] == Restrict(c, front, i);
      } else {
        assert Restrict(c, ops, j) == Restrict(c, front, j);
      }
    }
  }

  /** The edges the striped table decides on are those of its keys, one by one. */
  lemma {:induction false} DecidedByKey(c: Config, ops: seq<StripedOp>, keys: set<string>, e: Edge)
    requires ValidConfig(c) && AllInRange(c, ops) && StripedNeverFull(c, ops) && ArriveWithin(ops, keys)
    ensures Decided(c, ops, e) == SumKeys(OfKey(c, ops, e), keys)
  {
    if ops == [] {
      SumKeysZero(OfKey(c, ops, e), keys);
    } else {
      var front, op := ops[..|ops| - 1], ops[|ops| - 1];
      RoomInFront(c, ops);
      DecidedByKey(c, front, keys, e);
      var g := Stripes(c, front)[StripeOf(c, op)];
      HeldKeysArrived(c, front, keys, StripeOf(c, op));
      DecidesByKey(c, g, Local(op), keys, e);
      forall k | k in keys ensures OfKey(c, ops, e)(k) == OfKey(c, front, e)(k) + StepOfKey(c, g, Local(op), e)(k) {
        OutEdgesShort(c, StripedTrace(c, front, k), EmittedFor(g, Local(op), c.cap, k), e);
      }
      SumKeysAdd(OfKey(c, ops, e), OfKey(c, front, e), StepOfKey(c, g, Local(op), e), keys);
    }
  }

  /** The end-to-end account. In a run that never finds a stripe full, every edge is in flight or
      recorded exactly as often as the entry spans and, key by key, the pairing rule yield it. */
  lemma RecordedEdgesAreThePairings(c: Config, actions: seq<Action>, st: State, keys: set<string>, e: Edge)
    requires ValidConfig(c) && IsRun(c, Init(c), actions, st)
    requires c.shards >= 1 && StripedNeverFull(c, TableOps(actions))
    requires ArriveWithin(TableOps(actions), keys)
    ensures AllInRange(c, TableOps(actions))
    ensures InFlight(c, st.flight, e) + Recorded(st.ledger, e)
            == Entries(c, actions, e) + SumKeys(OfKey(c, TableOps(actions), e), keys)
  {
    EdgesAreAccounted(c, actions, st, e);
    DecidedByKey(c, TableOps(actions), keys, e);
  }

  // ---- the pairing window, in edges ----

  /** A client and a server that share a key with nothing else yield their pair edge, and only it,
      when fewer than two rotations of their stripe separate them. Otherwise each of them yields,
      once evicted, an inferred edge exactly when it is a client with a named target. */
  lemma PairYields(c: Config, ops: seq<StripedOp>, key: string, a: seq<TableOp>, x: Pending, b: seq<TableOp>, y: Pending,
                   d: seq<TableOp>, e: Edge)
    requires ValidConfig(c) && AllInRange(c, ops) && NeverFull(EMPTY, Restrict(c, ops, ShardOf(c, key)), c.cap)
    requires Restrict(c, ops, ShardOf(c, key)) == a + [Arrival(key, x)] + b + [Arrival(key, y)] + d
    requires x.side != y.side
    requires NoArrival(a, key) && NoArrival(b, key) && NoArrival(d, key)
    ensures var client, server := if x.side == ClientSide then x else y, if x.side == ClientSide then y else x;
            OfKey(c, ops, e)(key)
            == if Rotations(b) < 2 then Same(PairEdge(c, client, server), e)
               else Peers(c, x, e) + if Rotations(d) >= 2 then Peers(c, y, e) else 0
  {
    ShardOfIsValid(c, key);
    TraceIsLocal(c, ops, key);
    PairingWindow(a, x, b, y, d, c.cap, key);
    if Rotations(b) < 2 {
      SingleOut(c, PairUp(x, y), e);
    } else {
      SingleOut(c, EvictOut(x), e);
      SingleOut(c, EvictOut(y), e);
      OutEdgesShort(c, [EvictOut(x)], if Rotations(d) >= 2 then [EvictOut(y)] else [], e);
    }
  }

  /** A span whose other half never comes yields its inferred edge, at most once, when the second
      rotation evicts it. */
  lemma LonelyYields(c: Config, ops: seq<StripedOp>, key: string, a: seq<TableOp>, x: Pending, b: seq<TableOp>, e: Edge)
    requires ValidConfig(c) && AllInRange(c, ops) && NeverFull(EMPTY, Restrict(c, ops, ShardOf(c, key)), c.cap)
    requires Restrict(c, ops, ShardOf(c, key)) == a + [Arrival(key, x)] + b
    requires NoArrival(a, key) && NoArrival(b, key)
    ensures OfKey(c, ops, e)(key) == if Rotations(b) >= 2 then Peers(c, x, e) else 0
  {
    ShardOfIsValid(c, key);
    TraceIsLocal(c, ops, key);
    LonelyRecord(a, x, b, c.cap, key);
    SingleOut(c, EvictOut(x), e);
  }
}
