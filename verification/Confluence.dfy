/** Order does not matter: while no stripe is full and none rotates, any interleaving
    of the observing workers that has finished its emissions leaves the same pairing
    table and the same aggregates. */
module Confluence {
  import opened Basics
  import opened Spans
  import opened EdgeSamples
  import opened PairTable
  import opened TopologySystem
  import opened TopologySafety

  // ---- what a sequence of spans amounts to ----

  /** The spans still waiting, and the edges emitted so far. */
  datatype Outcome = Outcome(waiting: map<string, Pending>, edges: multiset<Edge>)

  predicate Pairs(waiting: map<string, Pending>, key: string, p: Pending) {
    key in waiting && waiting[key].side != p.side
  }

  function Leave(waiting: map<string, Pending>, key: string, p: Pending): map<string, Pending> {
    if Pairs(waiting, key, p) then waiting - {key} else waiting[key := p]
  }

  function Emit(c: Config, waiting: map<string, Pending>, key: string, p: Pending): multiset<Edge> {
    if Pairs(waiting, key, p) then multiset{Matching(c, p, waiting[key])} else multiset{}
  }

  function Settle(c: Config, o: Outcome, key: string, p: Pending): Outcome {
    Outcome(Leave(o.waiting, key, p), o.edges + Emit(c, o.waiting, key, p))
  }

  function Observe(c: Config, o: Outcome, s: Span): Outcome {
    if Keyed(s) then Settle(c, o, PairKey(s), PendingOf(s))
    else if IsEntry(s) then o.(edges := o.edges + multiset{EntryEdge(c, s)})
    else o
  }

  function ObserveAll(c: Config, spans: seq<Span>): Outcome {
    if spans == [] then Outcome(map[], multiset{})
    else Observe(c, ObserveAll(c, spans[..|spans| - 1]), spans[|spans| - 1])
  }

  /** Two keyed spans clash when they come from the same side under the same key. */
  predicate Clash(a: Span, b: Span) {
    Keyed(a) && Keyed(b) && PairKey(a) == PairKey(b) && PendingOf(a).side == PendingOf(b).side
  }

  ghost predicate NoClash(spans: seq<Span>) {
    forall i, j :: 0 <= i < j < |spans| ==> !Clash(spans[i], spans[j])
  }

  lemma ObserveSnoc(c: Config, spans: seq<Span>, s: Span)
    ensures ObserveAll(c, spans + [s]) == Observe(c, ObserveAll(c, spans), s)
  {
    assert (spans + [s])[..|spans|] == spans;
  }

  predicate Under(s: Span, key: string) {
    Keyed(s) && PairKey(s) == key
  }

  lemma {:induction false} WaitingCameFrom(c: Config, spans: seq<Span>, key: string)
    requires forall i :: 0 <= i < |spans| ==> !Under(spans[i], key)
    ensures key !in ObserveAll(c, spans).waiting
  {
    if spans == [] {
    } else {
      var front := spans[..|spans| - 1];
      assert forall i :: 0 <= i < |front| ==> front[i] == spans[i];
      WaitingCameFrom(c, front, key);
    }
  }

  /** Opposite sides under one key pair up in either order; different keys do not interfere. */
  lemma SettleCommutes(c: Config, o: Outcome, k: string, p: Pending, l: string, q: Pending)
    requires k == l ==> p.side != q.side && k !in o.waiting
    ensures Settle(c, Settle(c, o, k, p), l, q) == Settle(c, Settle(c, o, l, q), k, p)
  {
    if k == l {
      assert o.waiting[k := p] - {k} == o.waiting == o.waiting[k := q] - {k};
      assert Matching(c, p, q) == Matching(c, q, p);
    } else {
      LeaveCommutes(o.waiting, k, p, l, q);
      EmitIsLocal(c, o.waiting, k, p, l, q);
      EmitIsLocal(c, o.waiting, l, q, k, p);
    }
  }

  lemma LeaveCommutes(w: map<string, Pending>, k: string, p: Pending, l: string, q: Pending)
    requires k != l
    ensures Leave(Leave(w, k, p), l, q) == Leave(Leave(w, l, q), k, p)
  {
    assert Pairs(Leave(w, k, p), l, q) == Pairs(w, l, q);
    assert Pairs(Leave(w, l, q), k, p) == Pairs(w, k, p);
  }

  lemma EmitIsLocal(c: Config, w: map<string, Pending>, k: string, p: Pending, l: string, q: Pending)
    requires k != l
    ensures Emit(c, Leave(w, k, p), l, q) == Emit(c, w, l, q)
  {
    assert Pairs(Leave(w, k, p), l, q) == Pairs(w, l, q);
  }

  /** Two spans that do not clash commute, unless a third record waits under their common key. */
  lemma Commute(c: Config, o: Outcome, x: Span, y: Span)
    requires !Clash(x, y)
    requires Keyed(x) && Under(y, PairKey(x)) ==> PairKey(x) !in o.waiting
    ensures Observe(c, Observe(c, o, x), y) == Observe(c, Observe(c, o, y), x)
  {
    if Keyed(x) && Keyed(y) {
      SettleCommutes(c, o, PairKey(x), PendingOf(x), PairKey(y), PendingOf(y));
    }
  }

  lemma SwapLastTwo(c: Config, front: seq<Span>, x: Span, y: Span)
    requires NoClash(front + [x] + [y])
    ensures ObserveAll(c, front + [x] + [y]) == ObserveAll(c, front + [y] + [x])
  {
    ObserveSnoc(c, front + [x], y);
    ObserveSnoc(c, front, x);
    ObserveSnoc(c, front + [y], x);
    ObserveSnoc(c, front, y);
    NoThirdRecord(c, front, x, y);
    Commute(c, ObserveAll(c, front), x, y);
  }

  lemma NoThirdRecord(c: Config, front: seq<Span>, x: Span, y: Span)
    requires NoClash(front + [x] + [y])
    ensures !Clash(x, y)
    ensures Keyed(x) && Under(y, PairKey(x)) ==> PairKey(x) !in ObserveAll(c, front).waiting
  {
    var all, n := front + [x] + [y], |front|;
    assert all[n] == x && all[n + 1] == y;
    if Keyed(x) && Under(y, PairKey(x)) {
      forall i | 0 <= i < n ensures !Under(front[i], PairKey(x)) {
        assert all[i] == front[i] && !Clash(all[i], all[n]) && !Clash(all[i], all[n + 1]);
      }
      WaitingCameFrom(c, front, PairKey(x));
    }
  }

  lemma NoClashPart(a: seq<Span>, x: seq<Span>, b: seq<Span>)
    requires NoClash(a + x + b)
    ensures NoClash(a + b)
  {
    var all, part := a + x + b, a + b;
    forall i, j | 0 <= i < j < |part| ensures !Clash(part[i], part[j]) {
      var i' := if i < |a| then i else i + |x|;
      var j' := if j < |a| then j else j + |x|;
      assert all[i'] == part[i] && all[j'] == part[j];
    }
  }

  lemma {:induction false} MoveSpanToEnd(c: Config, a: seq<Span>, x: Span, b: seq<Span>)
    requires NoClash(a + [x] + b)
    ensures ObserveAll(c, a + [x] + b) == ObserveAll(c, a + b + [x])
    decreases |b|
  {
    if b == [] {
      assert a + [x] + b == a + b + [x];
    } else {
      var front, y := b[..|b| - 1], b[|b| - 1];
      assert b == front + [y];
      Associates(a + [x], front, [y]);
      Associates(a, front, [y]);
      NoClashPart(a + [x] + front, [y], []);
      assert a + [x] + front + [] == a + [x] + front;
      MoveSpanToEnd(c, a, x, front);
      ObserveSnoc(c, a + [x] + front, y);
      ObserveSnoc(c, a + front + [x], y);
      ClashMoves(a, x, front, y);
      SwapLastTwo(c, a + front, x, y);
    }
  }

  lemma ClashMoves(a: seq<Span>, x: Span, b: seq<Span>, y: Span)
    requires NoClash(a + [x] + b + [y])
    ensures NoClash(a + b + [x] + [y])
  {
    var all, moved := a + [x] + b + [y], a + b + [x] + [y];
    forall i, j | 0 <= i < j < |moved| ensures !Clash(moved[i], moved[j]) {
      var n, m := |a|, |a| + |b|;
      var i' := if i < n then i else if i < m then i + 1 else if i == m then n else i;
      var j' := if j < n then j else if j < m then j + 1 else if j == m then n else j;
      assert all[i'] == moved[i] && all[j'] == moved[j];
      assert Clash(all[i'], all[j']) == Clash(all[j'], all[i']);
    }
  }

  /** Any rearrangement of the spans leaves the same records waiting and emits the same edges. */
  lemma {:induction false} OutcomeIgnoresOrder(c: Config, a: seq<Span>, b: seq<Span>)
    requires multiset(a) == multiset(b) && NoClash(a)
    ensures ObserveAll(c, a) == ObserveAll(c, b)
    decreases |b|
  {
    if b == [] {
      assert |multiset(a)| == 0;
    } else {
      var front, last := b[..|b| - 1], b[|b| - 1];
      var l, r := CutLast(a, b);
      NoClashPart(l, [last], r);
      MoveSpanToEnd(c, l, last, r);
      OutcomeIgnoresOrder(c, l + r, front);
      ObserveSnoc(c, l + r, last);
    }
  }

  // ---- calm runs of the engine ----

  /** Arrivals, entries and the emissions they cause, all recorded within one minute; no stripe
      rotates, none is found full, and nothing is flushed. */
  predicate Calm(a: Action, minute: int) {
    a.Arrive? || a.Enter? || a.CountPair? || (a.RecordEdge? && a.minute == minute)
  }

  ghost predicate CalmRun(actions: seq<Action>, minute: int) {
    forall i :: 0 <= i < |actions| ==> Calm(actions[i], minute)
  }

  /** The edges the run recorded, in order. */
  function EdgesOf(actions: seq<Action>): seq<Edge> {
    if actions == [] then []
    else
      var rest, a := EdgesOf(actions[..|actions| - 1]), actions[|actions| - 1];
      if a.RecordEdge? then rest + [a.edge] else rest
  }

  function Stamp(edges: seq<Edge>, minute: int): seq<Event> {
    seq(|edges|, i requires 0 <= i < |edges| => EventAt(edges[i], minute))
  }

  /** A stripe holds exactly the waiting records whose key it owns, all in the current generation. */
  ghost predicate Mirrors(c: Config, g: Gens, i: nat, waiting: map<string, Pending>)
    requires c.shards >= 1
  {
    && g.prev == map[]
    && (forall k :: k in g.cur <==> k in waiting && ShardOf(c, k) == i)
    && (forall k :: k in g.cur ==> g.cur[k] == waiting[k])
  }

  ghost predicate Holds(c: Config, shards: seq<Gens>, waiting: map<string, Pending>) {
    && ValidConfig(c) && |shards| == c.shards >= 1
    && forall i :: 0 <= i < |shards| ==> Mirrors(c, shards[i], i, waiting)
  }

  /** Every emitted edge is in flight or recorded, exactly once. */
  ghost predicate EdgesAccounted(st: State, edges: multiset<Edge>, recorded: seq<Edge>, minute: int) {
    && st.flight.pairing + st.flight.recording + multiset(recorded) == edges
    && st.ledger.log == Stamp(recorded, minute)
  }

  lemma MirrorsAtHome(c: Config, g: Gens, i: nat, waiting: map<string, Pending>, key: string, p: Pending)
    requires c.shards >= 1 && Mirrors(c, g, i, waiting) && i == ShardOf(c, key)
    requires !Judge(g, key, p, c.cap).Full?
    ensures Mirrors(c, After(g, key, p, c.cap), i, Leave(waiting, key, p))
    ensures Meets(g, key, p) == Pairs(waiting, key, p)
    ensures Meets(g, key, p) ==> Judge(g, key, p, c.cap) == Matched(waiting[key])
  {
  }

  lemma MirrorsElsewhere(c: Config, g: Gens, i: nat, waiting: map<string, Pending>, key: string, p: Pending)
    requires c.shards >= 1 && Mirrors(c, g, i, waiting) && i != ShardOf(c, key)
    ensures Mirrors(c, g, i, Leave(waiting, key, p))
  {
  }

  lemma HoldsArrival(c: Config, shards: seq<Gens>, waiting: map<string, Pending>, key: string, p: Pending, home: nat)
    requires Holds(c, shards, waiting) && home == ShardOf(c, key) < |shards|
    requires !Judge(shards[home], key, p, c.cap).Full?
    ensures Holds(c, shards[home := After(shards[home], key, p, c.cap)], Leave(waiting, key, p))
  {
    var shards' := shards[home := After(shards[home], key, p, c.cap)];
    forall i | 0 <= i < |shards'| ensures Mirrors(c, shards'[i], i, Leave(waiting, key, p)) {
      if i == home {
        MirrorsAtHome(c, shards[i], i, waiting, key, p);
      } else {
        MirrorsElsewhere(c, shards[i], i, waiting, key, p);
      }
    }
  }

  lemma MirrorsDetermines(c: Config, g: Gens, h: Gens, i: nat, waiting: map<string, Pending>)
    requires c.shards >= 1 && Mirrors(c, g, i, waiting) && Mirrors(c, h, i, waiting)
    ensures g == h
  {
    assert g.cur == h.cur;
  }

  lemma HoldsDetermines(c: Config, a: seq<Gens>, b: seq<Gens>, waiting: map<string, Pending>)
    requires Holds(c, a, waiting) && Holds(c, b, waiting)
    ensures a == b
  {
    forall i | 0 <= i < |a| ensures a[i] == b[i] {
      MirrorsDetermines(c, a[i], b[i], i, waiting);
    }
  }

  lemma RefusalShows(c: Config, st: State, s: Span)
    requires Enabled(c, st, Arrive(s))
    ensures Judge(st.shards[ShardOf(c, PairKey(s))], PairKey(s), PendingOf(s), c.cap).Full?
            ==> ArriveStep(c, st, s).flight.dropping != multiset{}
  {
    if Judge(st.shards[ShardOf(c, PairKey(s))], PairKey(s), PendingOf(s), c.cap).Full? {
      assert PendingOf(s) in ArriveStep(c, st, s).flight.dropping;
    }
  }

  lemma ArriveTracks(c: Config, st: State, s: Span, o: Outcome, recorded: seq<Edge>, minute: int)
    requires Enabled(c, st, Arrive(s)) && ArriveStep(c, st, s).flight.dropping == multiset{}
    requires Holds(c, st.shards, o.waiting) && EdgesAccounted(st, o.edges, recorded, minute)
    ensures Holds(c, ArriveStep(c, st, s).shards, Observe(c, o, s).waiting)
    ensures EdgesAccounted(ArriveStep(c, st, s), Observe(c, o, s).edges, recorded, minute)
  {
    var key, p := PairKey(s), PendingOf(s);
    var i := ShardOf(c, key);
    RefusalShows(c, st, s);
    HoldsArrival(c, st.shards, o.waiting, key, p, i);
    MirrorsAtHome(c, st.shards[i], i, o.waiting, key, p);
  }

  lemma StampSnoc(edges: seq<Edge>, e: Edge, minute: int)
    ensures Stamp(edges + [e], minute) == Stamp(edges, minute) + [EventAt(e, minute)]
  {
  }

  lemma RecordTracks(c: Config, st: State, e: Edge, o: Outcome, recorded: seq<Edge>, minute: int)
    requires Enabled(c, st, RecordEdge(e, minute)) && EdgesAccounted(st, o.edges, recorded, minute)
    ensures EdgesAccounted(Step(c, st, RecordEdge(e, minute)), o.edges, recorded + [e], minute)
  {
    StampSnoc(recorded, e, minute);
    assert multiset(recorded + [e]) == multiset(recorded) + multiset{e};
  }

  lemma EnterTracks(c: Config, st: State, s: Span, o: Outcome, recorded: seq<Edge>, minute: int)
    requires Enabled(c, st, Enter(s)) && EdgesAccounted(st, o.edges, recorded, minute)
    ensures EdgesAccounted(Step(c, st, Enter(s)), Observe(c, o, s).edges, recorded, minute)
    ensures Observe(c, o, s).waiting == o.waiting
  {
  }

  lemma StepTracks(c: Config, st: State, a: Action, o: Outcome, recorded: seq<Edge>, minute: int)
    requires Enabled(c, st, a) && Calm(a, minute) && Step(c, st, a).flight.dropping == multiset{}
    requires Holds(c, st.shards, o.waiting) && EdgesAccounted(st, o.edges, recorded, minute)
    ensures var o' := if a.Arrive? || a.Enter? then Observe(c, o, a.span) else o;
            var recorded' := if a.RecordEdge? then recorded + [a.edge] else recorded;
            && Holds(c, Step(c, st, a).shards, o'.waiting)
            && EdgesAccounted(Step(c, st, a), o'.edges, recorded', minute)
  {
    match a
    case Arrive(s) => ArriveTracks(c, st, s, o, recorded, minute);
    case RecordEdge(e, _) => RecordTracks(c, st, e, o, recorded, minute);
    case Enter(s) => EnterTracks(c, st, s, o, recorded, minute);
    case _ =>
  }

  lemma StepKeepsDropping(c: Config, st: State, a: Action, minute: int)
    requires Enabled(c, st, a) && Calm(a, minute)
    ensures st.flight.dropping <= Step(c, st, a).flight.dropping
  {
  }

  lemma {:induction false} CalmRunTracks(c: Config, actions: seq<Action>, st: State, minute: int)
    requires ValidConfig(c) && IsRun(c, Init(c), actions, st) && CalmRun(actions, minute)
    requires st.flight.dropping == multiset{}
    ensures Holds(c, st.shards, ObserveAll(c, Observed(actions)).waiting)
    ensures EdgesAccounted(st, ObserveAll(c, Observed(actions)).edges, EdgesOf(actions), minute)
    decreases |actions|
  {
    if actions == [] {
      ShardOfIsValid(c, "");
    } else {
      var n := |actions| - 1;
      var front, a := actions[..n], actions[n];
      var mid := Run(c, Init(c), front).value;
      forall i | 0 <= i < n ensures Calm(front[i], minute) {
        assert front[i] == actions[i];
      }
      StepKeepsDropping(c, mid, a, minute);
      CalmRunTracks(c, front, mid, minute);
      StepTracks(c, mid, a, ObserveAll(c, Observed(front)), EdgesOf(front), minute);
      if a.Arrive? || a.Enter? {
        ObserveSnoc(c, Observed(front), a.span);
      }
    }
  }

  lemma {:induction false} StampIgnoresOrder(a: seq<Edge>, b: seq<Edge>, minute: int)
    requires multiset(a) == multiset(b)
    ensures multiset(Stamp(a, minute)) == multiset(Stamp(b, minute))
    decreases |b|
  {
    if b == [] {
      assert |multiset(a)| == 0;
    } else {
      var front, last := b[..|b| - 1], b[|b| - 1];
      var l, r := CutLast(a, b);
      StampIgnoresOrder(l + r, front, minute);
      assert b == front + [last];
      StampSnoc(front, last, minute);
      var e := EventAt(last, minute);
      assert Stamp(l + [last] + r, minute) == Stamp(l, minute) + [e] + Stamp(r, minute);
      assert Stamp(l + r, minute) == Stamp(l, minute) + Stamp(r, minute);
    }
  }

  /** How a calm run that has finished its emissions ends. */
  lemma CalmRunEnds(c: Config, actions: seq<Action>, st: State, minute: int)
    requires ValidConfig(c) && IsRun(c, Init(c), actions, st) && CalmRun(actions, minute)
    requires st.flight == NO_FLIGHT
    ensures Holds(c, st.shards, ObserveAll(c, Observed(actions)).waiting)
    ensures multiset(EdgesOf(actions)) == ObserveAll(c, Observed(actions)).edges
    ensures Summarises(st.ledger.agg, Stamp(EdgesOf(actions), minute))
  {
    CalmRunTracks(c, actions, st, minute);
    InitInv(c);
    RunKeepsInv(c, Init(c), actions, st);
  }

  /** Confluence: two runs that observed the same spans, in any order and under any interleaving of
      the lock sections, and have finished their emissions, agree on the table and the aggregates. */
  lemma RunsConverge(c: Config, actionsA: seq<Action>, stA: State, actionsB: seq<Action>, stB: State, minute: int)
    requires ValidConfig(c)
    requires IsRun(c, Init(c), actionsA, stA) && IsRun(c, Init(c), actionsB, stB)
    requires CalmRun(actionsA, minute) && CalmRun(actionsB, minute)
    requires stA.flight == NO_FLIGHT && stB.flight == NO_FLIGHT
    requires multiset(Observed(actionsA)) == multiset(Observed(actionsB)) && NoClash(Observed(actionsA))
    ensures stA.shards == stB.shards && stA.ledger.agg == stB.ledger.agg
  {
    CalmRunEnds(c, actionsA, stA, minute);
    CalmRunEnds(c, actionsB, stB, minute);
    OutcomeIgnoresOrder(c, Observed(actionsA), Observed(actionsB));
    SameOutcomeSameState(c, stA, EdgesOf(actionsA), stB, EdgesOf(actionsB), ObserveAll(c, Observed(actionsA)), minute);
  }

  lemma SameOutcomeSameState(c: Config, a: State, edgesA: seq<Edge>, b: State, edgesB: seq<Edge>, o: Outcome, minute: int)
    requires Holds(c, a.shards, o.waiting) && Holds(c, b.shards, o.waiting)
    requires multiset(edgesA) == o.edges == multiset(edgesB)
    requires Summarises(a.ledger.agg, Stamp(edgesA, minute)) && Summarises(b.ledger.agg, Stamp(edgesB, minute))
    ensures a.shards == b.shards && a.ledger.agg == b.ledger.agg
  {
    HoldsDetermines(c, a.shards, b.shards, o.waiting);
    StampIgnoresOrder(edgesA, edgesB, minute);
    SummaryIgnoresOrder(a.ledger.agg, Stamp(edgesA, minute), b.ledger.agg, Stamp(edgesB, minute));
  }
}
