/** The topology engine as a system of atomic steps. A lock section of the pairing
    table, a lock section of the aggregate map, one counter update, the rotation of
    one stripe, and the swap of the aggregate map are one step each; an emission
    between two of them is an item in flight. */
module TopologySystem {
  import opened Basics
  import opened Spans
  import opened EdgeSamples
  import opened PairTable
  import opened ShardIndex

  datatype Config = Config(hash: string -> nat, shards: nat, cap: int, includeNode: bool)

  ghost predicate ValidConfig(c: Config) {
    IsPowerOfTwo(c.shards)
  }

  function ShardOf(c: Config, key: string): (i: nat)
    requires c.shards >= 1
  {
    BitAnd(c.hash(key), c.shards - 1)
  }

  lemma ShardOfIsValid(c: Config, key: string)
    requires ValidConfig(c)
    ensures c.shards >= 1 && ShardOf(c, key) < c.shards
  {
    MaskedIndexIsValid(c.hash(key), c.shards);
  }

  // ---- what a span asks of the engine ----

  predicate IsClient(s: Span) {
    s.kind == Client || s.kind == Producer
  }

  predicate IsServer(s: Span) {
    s.kind == Server || s.kind == Consumer
  }

  /** The span goes through the pairing table. */
  predicate Keyed(s: Span) {
    (IsClient(s) && s.spanId != "") || (IsServer(s) && s.parentSpanId != "")
  }

  /** The span enters the system from outside. */
  predicate IsEntry(s: Span) {
    IsServer(s) && s.parentSpanId == ""
  }

  function PairKey(s: Span): string {
    if IsClient(s) then s.spanId else s.parentSpanId
  }

  function PendingOf(s: Span): Pending {
    if IsClient(s) then Pending(ClientSide, NodeOf(s), s.durationNs, IsError(s), ConnTypeOf(s), PeerNameOf(s))
    else Pending(ServerSide, NodeOf(s), s.durationNs, IsError(s), ConnService, "")
  }

  /** An edge observation on its way to `record`. */
  datatype Edge = Edge(key: EdgeKey, durationNs: nat, isError: bool)

  function NodeDim(c: Config, n: string): string {
    if c.includeNode then n else ""
  }

  /** The latency of a pair is the server's; the client's steps in when the server has none. */
  function PairEdge(c: Config, client: Pending, server: Pending): Edge {
    Edge(EdgeKey(client.node.service, server.node.service,
                 client.node.namespace, client.node.workload,
                 server.node.namespace, server.node.workload,
                 NodeDim(c, client.node.k8sNode), NodeDim(c, server.node.k8sNode), ConnService),
         if server.durationNs == 0 then client.durationNs else server.durationNs,
         client.isError || server.isError)
  }

  function PeerEdge(c: Config, p: Pending): Edge {
    Edge(EdgeKey(p.node.service, p.peer, p.node.namespace, p.node.workload, "", "",
                 NodeDim(c, p.node.k8sNode), "", p.connType),
         p.durationNs, p.isError)
  }

  function EntryEdge(c: Config, s: Span): Edge {
    Edge(EdgeKey("user", ServiceKey(s), "", "", s.k8sNamespace, s.k8sWorkload,
                 "", NodeDim(c, s.k8sNode), ConnEntry),
         s.durationNs, IsError(s))
  }

  function Matching(c: Config, a: Pending, b: Pending): Edge {
    if a.side == ClientSide then PairEdge(c, a, b) else PairEdge(c, b, a)
  }

  /** The pair edge of two spans, whichever of them arrived first: it leads from the client's service to
      the server's, fails when either did, and takes the server's time unless that is zero. */
  lemma PairEdgeMeaning(c: Config, client: Span, server: Span)
    requires IsClient(client) && IsServer(server)
    ensures var e := Matching(c, PendingOf(client), PendingOf(server));
            && e == Matching(c, PendingOf(server), PendingOf(client))
            && e.key.client == ServiceKey(client) && e.key.server == ServiceKey(server)
            && e.key.connType == ConnService
            && (e.isError <==> IsError(client) || IsError(server))
            && e.durationNs in {client.durationNs, server.durationNs}
            && (server.durationNs != 0 ==> e.durationNs == server.durationNs)
  {
  }

  /** The spans differ in nothing but the Kubernetes node. */
  predicate SameButNode(a: Span, b: Span) {
    a.(k8sNode := "") == b.(k8sNode := "")
  }

  /** Unless the node dimension is switched on, nodes multiply no edges: spans that differ only in
      their node yield the same entry, inferred and pair edges. */
  lemma NodeDimensionOff(c: Config, a: Span, b: Span, other: Pending)
    requires !c.includeNode && SameButNode(a, b)
    ensures EntryEdge(c, a) == EntryEdge(c, b)
    ensures PeerEdge(c, PendingOf(a)) == PeerEdge(c, PendingOf(b))
    ensures Matching(c, PendingOf(a), other) == Matching(c, PendingOf(b), other)
  {
    SameLookups(a, b);
  }

  lemma SameLookups(a: Span, b: Span)
    requires SameButNode(a, b)
    ensures a.(k8sNode := b.k8sNode) == b
    ensures ServiceKey(a) == ServiceKey(b) && ConnTypeOf(a) == ConnTypeOf(b) && PeerNameOf(a) == PeerNameOf(b)
  {
  }

  // ---- the state ----

  /** Emissions between two lock sections. */
  datatype Flight = Flight(
    pairing: multiset<Edge>,            // matched, counter not yet bumped
    dropping: multiset<Pending>,        // refused by a full stripe, counter not yet bumped
    evicting: map<string, Pending>,     // the discarded generation being walked
    inferring: multiset<Pending>,       // unpaired clients whose edge is about to be derived
    recording: multiset<Edge>)          // counted, about to enter the aggregate map

  /** The aggregates, and for each the events it stands for. */
  datatype Ledger = Ledger(
    agg: map<AggKey, Sample>,
    log: seq<Event>,
    batch: Option<map<AggKey, Sample>>,
    batchLog: seq<Event>,
    rows: seq<Row>,
    storedLog: seq<Event>,
    lostLog: seq<Event>)

  datatype Stats = Stats(
    paired: nat,
    inferredPeers: nat,
    entryPoints: nat,
    evicted: nat,
    edgesWritten: nat,
    pendingDropped: nat)

  datatype State = State(
    shards: seq<Gens>,
    flight: Flight,
    ledger: Ledger,
    stats: Stats,
    arrived: seq<Span>,     // the keyed spans observed so far, in lock order
    displaced: nat)         // records `take` discarded for an arrival of their own side

  const NO_FLIGHT: Flight := Flight(multiset{}, multiset{}, map[], multiset{}, multiset{})
  const NO_LEDGER: Ledger := Ledger(map[], [], None, [], [], [], [])

  function Init(c: Config): State {
    State(seq(c.shards, _ => EMPTY), NO_FLIGHT, NO_LEDGER, Stats(0, 0, 0, 0, 0, 0), [], 0)
  }

  // ---- the steps ----

  datatype Action =
    | Arrive(span: Span)
    | Enter(span: Span)
    | CountPair(edge: Edge)
    | CountDrop(p: Pending)
    | CountEviction(key: string)
    | Infer(p: Pending)
    | RecordEdge(edge: Edge, minute: int)
    | RotateShard(i: nat)
    | SwapAggregates
    | WriteOk(out: seq<Row>)
    | WriteFails
    | MergeRows(i: nat, j: nat)

  function EventAt(e: Edge, minute: int): Event {
    Event(AggKey(minute, e.key), e.durationNs, e.isError)
  }

  ghost predicate Enabled(c: Config, st: State, a: Action) {
    match a
    case Arrive(s) => Keyed(s) && c.shards >= 1 && ShardOf(c, PairKey(s)) < |st.shards|
    case Enter(s) => IsEntry(s)
    case CountPair(e) => e in st.flight.pairing
    case CountDrop(p) => p in st.flight.dropping
    case CountEviction(k) => k in st.flight.evicting
    case Infer(p) => p in st.flight.inferring
    case RecordEdge(e, _) => e in st.flight.recording && AllWellFormed(st.ledger.agg)
    case RotateShard(i) => i < |st.shards| && st.flight.evicting == map[]
    case SwapAggregates => st.ledger.agg != map[] && st.ledger.batch == None
    case WriteOk(out) => st.ledger.batch.Some? && Lists(out, st.ledger.batch.value)
    case WriteFails => st.ledger.batch.Some?
    case MergeRows(i, j) =>
      i < j < |st.ledger.rows| && RowsWellFormed(st.ledger.rows) && st.ledger.rows[i].at == st.ledger.rows[j].at
  }

  ghost function ArriveStep(c: Config, st: State, s: Span): State
    requires Enabled(c, st, Arrive(s))
  {
    var key, p := PairKey(s), PendingOf(s);
    var i := ShardOf(c, key);
    var g := st.shards[i];
    var st' := st.(shards := st.shards[i := After(g, key, p, c.cap)],
                   arrived := st.arrived + [s],
                   displaced := st.displaced + if Displaces(g, key, p) then 1 else 0);
    match Judge(g, key, p, c.cap)
    case Stored => st'
    case Matched(other) =>
      st'.(flight := st.flight.(pairing := st.flight.pairing + multiset{Matching(c, p, other)}))
    case Full => st'.(flight := st.flight.(dropping := st.flight.dropping + multiset{p}))
  }

  /** An unpaired client yields an edge exactly when its target has a name. */
  function Inferred(st: State, p: Pending): Flight {
    if p.side == ClientSide then st.flight.(inferring := st.flight.inferring + multiset{p}) else st.flight
  }

  ghost function LedgerStep(c: Config, st: State, a: Action): Ledger
    requires a.SwapAggregates? || a.WriteOk? || a.WriteFails? || a.MergeRows?
    requires Enabled(c, st, a)
  {
    var l := st.ledger;
    match a
    case SwapAggregates => l.(agg := map[], log := [], batch := Some(l.agg), batchLog := l.log)
    case WriteOk(out) => l.(batch := None, batchLog := [], rows := l.rows + out, storedLog := l.storedLog + l.batchLog)
    case WriteFails => l.(batch := None, batchLog := [], lostLog := l.lostLog + l.batchLog)
    case MergeRows(i, j) => l.(rows := MergedRows(l.rows, i, j))
  }

  /** A background merge replaces two rows of the same key by their combination. */
  function MergedRows(rows: seq<Row>, i: nat, j: nat): seq<Row>
    requires i < j < |rows|
    requires WellFormed(rows[i].sample) && WellFormed(rows[j].sample)
  {
    rows[..i] + [Row(rows[i].at, Combine(rows[i].sample, rows[j].sample))] + rows[i + 1..j] + rows[j + 1..]
  }

  ghost function Step(c: Config, st: State, a: Action): State
    requires Enabled(c, st, a)
  {
    var f, n := st.flight, st.stats;
    match a
    case Arrive(s) => ArriveStep(c, st, s)
    case Enter(s) =>
      st.(stats := n.(entryPoints := n.entryPoints + 1),
          flight := f.(recording := f.recording + multiset{EntryEdge(c, s)}))
    case CountPair(e) =>
      st.(stats := n.(paired := n.paired + 1),
          flight := f.(pairing := f.pairing - multiset{e}, recording := f.recording + multiset{e}))
    case CountDrop(p) =>
      st.(stats := n.(pendingDropped := n.pendingDropped + 1),
          flight := Inferred(st, p).(dropping := f.dropping - multiset{p}))
    case CountEviction(k) =>
      st.(stats := n.(evicted := n.evicted + 1),
          flight := Inferred(st, f.evicting[k]).(evicting := f.evicting - {k}))
    case Infer(p) =>
      if p.peer == "" then st.(flight := f.(inferring := f.inferring - multiset{p}))
      else st.(stats := n.(inferredPeers := n.inferredPeers + 1),
               flight := f.(inferring := f.inferring - multiset{p},
                            recording := f.recording + multiset{PeerEdge(c, p)}))
    case RecordEdge(e, minute) =>
      st.(flight := f.(recording := f.recording - multiset{e}),
          ledger := st.ledger.(agg := Record(st.ledger.agg, EventAt(e, minute)),
                               log := st.ledger.log + [EventAt(e, minute)]))
    case RotateShard(i) =>
      st.(shards := st.shards[i := Rotated(st.shards[i])], flight := f.(evicting := st.shards[i].prev))
    case WriteOk(out) => st.(ledger := LedgerStep(c, st, a), stats := n.(edgesWritten := n.edgesWritten + |out|))
    case _ => st.(ledger := LedgerStep(c, st, a))
  }

  // ---- runs ----

  /** The state after performing the actions in order; none when one is not enabled. */
  ghost function Run(c: Config, st: State, actions: seq<Action>): Option<State>
    decreases |actions|
  {
    if actions == [] then Some(st)
    else
      var n := |actions| - 1;
      var mid := Run(c, st, actions[..n]);
      if mid.Some? && Enabled(c, mid.value, actions[n]) then Some(Step(c, mid.value, actions[n])) else None
  }

  ghost predicate IsRun(c: Config, st: State, actions: seq<Action>, st': State) {
    Run(c, st, actions) == Some(st')
  }

  ghost predicate Reachable(c: Config, st: State) {
    exists actions :: IsRun(c, Init(c), actions, st)
  }

  /** The spans a run observed, in lock order. */
  function Observed(actions: seq<Action>): seq<Span> {
    if actions == [] then []
    else
      var rest, a := Observed(actions[..|actions| - 1]), actions[|actions| - 1];
      if a.Arrive? || a.Enter? then rest + [a.span] else rest
  }

  lemma RunSnoc(c: Config, st: State, actions: seq<Action>, a: Action)
    ensures Run(c, st, actions + [a])
            == if Run(c, st, actions).Some? && Enabled(c, Run(c, st, actions).value, a)
               then Some(Step(c, Run(c, st, actions).value, a)) else None
  {
    assert (actions + [a])[..|actions|] == actions;
  }

  lemma LastStep(c: Config, st: State, actions: seq<Action>, st': State) returns (mid: State)
    requires IsRun(c, st, actions, st') && actions != []
    ensures var n := |actions| - 1;
            && IsRun(c, st, actions[..n], mid)
            && Enabled(c, mid, actions[n]) && Step(c, mid, actions[n]) == st'
            && actions == actions[..n] + [actions[n]]
  {
    mid := Run(c, st, actions[..|actions| - 1]).value;
  }

  lemma {:induction false} RunConcat(c: Config, st: State, first: seq<Action>, mid: State, second: seq<Action>)
    requires IsRun(c, st, first, mid)
    ensures Run(c, st, first + second) == Run(c, mid, second)
    decreases |second|
  {
    if second == [] {
      assert first + second == first;
    } else {
      var n := |second| - 1;
      RunConcat(c, st, first, mid, second[..n]);
      RunSnoc(c, st, first + second[..n], second[n]);
      assert first + second == first + second[..n] + [second[n]];
    }
  }
}
