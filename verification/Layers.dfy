/** The layered first guess of the service map: a breadth-first relaxation that gives
    every node the length of the longest walk reaching it, in rounds. */
module Layers {
  import opened Basics

  datatype Node = Node(id: string, calls: nat)

  /** A link of the map; links from a node to itself are filtered out beforehand. */
  datatype Link = Link(source: string, target: string)

  function Ids(nodes: seq<Node>): (ids: set<string>)
    ensures |ids| <= |nodes|
  {
    if nodes == [] then {} else Ids(nodes[..|nodes| - 1]) + {nodes[|nodes| - 1].id}
  }

  /** Links lead from one known node to another. */
  ghost predicate Within(links: seq<Link>, ids: set<string>) {
    forall l :: l in links ==> l.source in ids && l.target in ids && l.source != l.target
  }

  ghost predicate ProperGraph(nodes: seq<Node>, links: seq<Link>) {
    nodes != [] && Within(links, Ids(nodes))
  }

  // ---- what the rounds compute ----

  /** The targets of the links that leave a set of nodes. */
  function Targets(links: seq<Link>, from: set<string>): set<string> {
    if links == [] then {}
    else
      var rest, last := Targets(links[..|links| - 1], from), links[|links| - 1];
      if last.source in from then rest + {last.target} else rest
  }

  lemma {:induction false} TargetHasLink(links: seq<Link>, from: set<string>, t: string) returns (s: string)
    requires t in Targets(links, from)
    ensures Link(s, t) in links && s in from
  {
    var front, last := links[..|links| - 1], links[|links| - 1];
    if last.source in from && last.target == t {
      s := last.source;
      assert last == Link(s, t);
    } else {
      s := TargetHasLink(front, from, t);
    }
  }

  lemma {:induction false} LinkHasTarget(links: seq<Link>, from: set<string>, l: Link)
    requires l in links && l.source in from
    ensures l.target in Targets(links, from)
  {
    if l != links[|links| - 1] {
      LinkHasTarget(links[..|links| - 1], from, l);
    }
  }

  /** The nodes reached from the frontier by a walk of exactly d links. */
  function Reached(links: seq<Link>, frontier: set<string>, d: nat): set<string> {
    if d == 0 then frontier else Targets(links, Reached(links, frontier, d - 1))
  }

  /** A map holds, for every node reached within d rounds, the last round that reached it. */
  ghost predicate LastRound(depth: map<string, nat>, links: seq<Link>, frontier: set<string>, d: nat) {
    && (forall v :: v in depth ==> depth[v] <= d && v in Reached(links, frontier, depth[v]))
    && (forall v: string, e: nat :: e <= d && v in Reached(links, frontier, e) ==> v in depth && e <= depth[v])
  }

  // ---- the frontier ----

  function HasIncoming(links: seq<Link>, id: string): bool {
    exists i :: 0 <= i < |links| && links[i].target == id
  }

  function SourcesOf(nodes: seq<Node>, links: seq<Link>): seq<string> {
    if nodes == [] then []
    else
      var rest, n := SourcesOf(nodes[..|nodes| - 1], links), nodes[|nodes| - 1];
      if HasIncoming(links, n.id) then rest else rest + [n.id]
  }

  /** The first of the busiest nodes. */
  function Busiest(nodes: seq<Node>): (b: Node)
    requires nodes != []
    ensures b in nodes && forall n :: n in nodes ==> n.calls <= b.calls
  {
    var front, last := nodes[..|nodes| - 1], nodes[|nodes| - 1];
    assert nodes == front + [last];
    if front == [] then last
    else if last.calls > Busiest(front).calls then last
    else Busiest(front)
  }

  function FrontierOf(nodes: seq<Node>, links: seq<Link>): seq<string>
    requires nodes != []
  {
    if SourcesOf(nodes, links) != [] then SourcesOf(nodes, links) else [Busiest(nodes).id]
  }

  function Elements(s: seq<string>): (r: set<string>)
    ensures forall x :: x in r <==> x in s
  {
    set x | x in s
  }

  function Count(m: map<string, nat>, k: string): nat {
    if k in m then m[k] else 0
  }

  lemma IncomingSnoc(links: seq<Link>, n: nat)
    requires n < |links|
    ensures forall id: string :: HasIncoming(links[..n + 1], id) == (HasIncoming(links[..n], id) || links[n].target == id)
  {
    forall id: string ensures HasIncoming(links[..n + 1], id) == (HasIncoming(links[..n], id) || links[n].target == id) {
      if HasIncoming(links[..n], id) {
        var i :| 0 <= i < n && links[..n][i].target == id;
        assert links[..n + 1][i].target == id;
      }
      assert links[..n + 1][n] == links[n];
      if HasIncoming(links[..n + 1], id) {
        var i :| 0 <= i < n + 1 && links[..n + 1][i].target == id;
        assert i < n ==> links[..n][i].target == id;
      }
    }
  }

  method FindFrontier(nodes: seq<Node>, links: seq<Link>) returns (frontier: seq<string>)
    requires nodes != []
    ensures frontier == FrontierOf(nodes, links)
  {
    var incoming: map<string, nat> := map[];
    var n := 0;
    while n < |links|
      invariant n <= |links|
      invariant forall id: string :: Count(incoming, id) > 0 <==> HasIncoming(links[..n], id)
    {
      IncomingSnoc(links, n);
      ghost var before := incoming;
      incoming := incoming[links[n].target := Count(incoming, links[n].target) + 1];
      forall id: string ensures Count(incoming, id) > 0 <==> HasIncoming(links[..n + 1], id) {
        assert Count(incoming, id) == (if id == links[n].target then Count(before, id) + 1 else Count(before, id));
        assert Count(before, id) > 0 <==> HasIncoming(links[..n], id);
      }
      n := n + 1;
    }
    assert links[..n] == links;
    frontier := [];
    n := 0;
    while n < |nodes|
      invariant n <= |nodes| && frontier == SourcesOf(nodes[..n], links)
    {
      assert nodes[..n + 1][..n] == nodes[..n];
      if Count(incoming, nodes[n].id) == 0 {
        frontier := frontier + [nodes[n].id];
      }
      n := n + 1;
    }
    assert nodes[..n] == nodes;
    if frontier == [] {
      frontier := [Busiest(nodes).id];
    }
  }

  // ---- the relaxation ----

  function OutOf(links: seq<Link>, id: string): seq<string> {
    if links == [] then []
    else
      var rest, l := OutOf(links[..|links| - 1], id), links[|links| - 1];
      if l.source == id then rest + [l.target] else rest
  }

  lemma {:induction false} OutOfIsTargets(links: seq<Link>, id: string)
    ensures Elements(OutOf(links, id)) == Targets(links, {id})
  {
    if links == [] {
    } else {
      OutOfIsTargets(links[..|links| - 1], id);
    }
  }

  lemma {:induction false} TargetsUnion(links: seq<Link>, a: set<string>, b: set<string>)
    ensures Targets(links, a + b) == Targets(links, a) + Targets(links, b)
  {
    if links == [] {
    } else {
      TargetsUnion(links[..|links| - 1], a, b);
    }
  }

  function Listed(out: map<string, seq<string>>, id: string): seq<string> {
    if id in out then out[id] else []
  }

  method BuildOut(links: seq<Link>) returns (out: map<string, seq<string>>)
    ensures forall id: string :: Listed(out, id) == OutOf(links, id)
  {
    out := map[];
    var n := 0;
    while n < |links|
      invariant n <= |links|
      invariant forall id: string :: Listed(out, id) == OutOf(links[..n], id)
    {
      assert links[..n + 1][..n] == links[..n];
      var s := links[n].source;
      out := out[s := Listed(out, s) + [links[n].target]];
      n := n + 1;
    }
    assert links[..n] == links;
  }

  /** Within a round, the nodes met so far stand one layer deeper than before the round. */
  ghost predicate Deepened(depth: map<string, nat>, before: map<string, nat>, met: set<string>, d: nat) {
    && depth.Keys == before.Keys + met
    && (forall v :: v in met ==> depth[v] == d + 1)
    && (forall v :: v in before && v !in met ==> depth[v] == before[v])
  }

  /** Relaxes the links out of one node: its targets that were not met this round join the next one. */
  method RelaxOne(targets: seq<string>, depth0: map<string, nat>, next0: seq<string>, d: nat,
                  ghost before: map<string, nat>, ghost met: set<string>)
    returns (depth: map<string, nat>, next: seq<string>)
    requires forall v :: v in before ==> before[v] <= d
    requires Deepened(depth0, before, met, d) && Elements(next0) == met
    ensures Deepened(depth, before, met + Elements(targets), d) && Elements(next) == met + Elements(targets)
  {
    depth, next := depth0, next0;
    var j := 0;
    while j < |targets|
      invariant j <= |targets|
      invariant Deepened(depth, before, met + Elements(targets[..j]), d)
      invariant Elements(next) == met + Elements(targets[..j])
    {
      var t := targets[j];
      assert targets[..j + 1] == targets[..j] + [t];
      if t !in depth || depth[t] < d + 1 {
        depth := depth[t := d + 1];
        next := next + [t];
      }
      j := j + 1;
    }
    assert targets[..j] == targets;
  }

  /** One round: every link out of the current nodes is relaxed. */
  method Round(cur: seq<string>, links: seq<Link>, out: map<string, seq<string>>, before: map<string, nat>, d: nat)
    returns (depth: map<string, nat>, next: seq<string>)
    requires forall id: string :: Listed(out, id) == OutOf(links, id)
    requires forall v :: v in before ==> before[v] <= d
    ensures Elements(next) == Targets(links, Elements(cur))
    ensures Deepened(depth, before, Targets(links, Elements(cur)), d)
  {
    depth, next := before, [];
    var i := 0;
    NoTargets(links);
    assert Elements(cur[..0]) == {};
    while i < |cur|
      invariant i <= |cur|
      invariant Elements(next) == Targets(links, Elements(cur[..i]))
      invariant Deepened(depth, before, Targets(links, Elements(cur[..i])), d)
    {
      var id := cur[i];
      assert Elements(cur[..i + 1]) == Elements(cur[..i]) + {id};
      TargetsUnion(links, Elements(cur[..i]), {id});
      OutOfIsTargets(links, id);
      depth, next := RelaxOne(Listed(out, id), depth, next, d, before, Targets(links, Elements(cur[..i])));
      i := i + 1;
    }
    assert cur[..i] == cur;
  }

  lemma {:induction false} NoTargets(links: seq<Link>)
    ensures Targets(links, {}) == {}
  {
    if links == [] {
    } else {
      NoTargets(links[..|links| - 1]);
    }
  }

  lemma RoundKeepsLastRound(before: map<string, nat>, depth: map<string, nat>, links: seq<Link>,
                            frontier: set<string>, d: nat)
    requires LastRound(before, links, frontier, d)
    requires Deepened(depth, before, Reached(links, frontier, d + 1), d)
    ensures LastRound(depth, links, frontier, d + 1)
  {
  }

  /** The relaxation loop: it stops when a round meets nothing, at the latest after |nodes| + 2
      rounds, and every depth it assigns is that of the last round that met the node. */
  method SeedDepths(nodes: seq<Node>, links: seq<Link>) returns (depth: map<string, nat>, rounds: nat)
    requires nodes != []
    ensures LastRound(depth, links, Elements(FrontierOf(nodes, links)), rounds)
    ensures StopsRight(nodes, links, rounds)
  {
    var frontier := FindFrontier(nodes, links);
    ghost var f := Elements(frontier);
    depth := map id | id in frontier :: 0;
    var out := BuildOut(links);
    var cur := frontier;
    rounds := 0;
    while cur != [] && rounds < |nodes| + 2
      invariant rounds <= |nodes| + 2
      invariant Elements(cur) == Reached(links, f, rounds)
      invariant LastRound(depth, links, f, rounds)
      invariant forall d: nat :: d < rounds ==> Reached(links, f, d) != {}
      decreases |nodes| + 2 - rounds
    {
      ghost var before := depth;
      assert cur[0] in Reached(links, f, rounds);
      depth, cur := Round(cur, links, out, depth, rounds);
      RoundKeepsLastRound(before, depth, links, f, rounds);
      rounds := rounds + 1;
    }
  }

  // ---- depths are walks ----

  predicate Hop(links: seq<Link>, w: seq<string>, i: nat)
    requires i + 1 < |w|
  {
    Link(w[i], w[i + 1]) in links
  }

  ghost predicate IsWalk(links: seq<Link>, w: seq<string>) {
    && w != []
    && forall i :: 0 <= i < |w| - 1 ==> Hop(links, w, i)
  }

  ghost predicate WalkTo(links: seq<Link>, frontier: set<string>, v: string, d: nat, w: seq<string>) {
    IsWalk(links, w) && |w| == d + 1 && w[0] in frontier && w[d] == v
  }

  lemma WalkAppend(links: seq<Link>, w: seq<string>, t: string)
    requires IsWalk(links, w) && Link(w[|w| - 1], t) in links
    ensures IsWalk(links, w + [t])
  {
    forall i | 0 <= i < |w| ensures Hop(links, w + [t], i) {
      assert i < |w| - 1 ==> Hop(links, w, i);
    }
  }

  lemma WalkPrepend(links: seq<Link>, s: string, w: seq<string>)
    requires IsWalk(links, w) && Link(s, w[0]) in links
    ensures IsWalk(links, [s] + w)
  {
    forall i | 0 <= i < |w| ensures Hop(links, [s] + w, i) {
      assert i > 0 ==> Hop(links, w, i - 1);
    }
  }

  lemma WalkPart(links: seq<Link>, w: seq<string>, i: nat, j: nat)
    requires IsWalk(links, w) && i < j <= |w|
    ensures IsWalk(links, w[i..j])
  {
    forall k | 0 <= k < j - i - 1 ensures Hop(links, w[i..j], k) {
      assert Hop(links, w, i + k);
    }
  }

  /** Being reached in round d means being the end of a real walk of d links from the frontier. */
  lemma {:induction false} ReachedByWalk(links: seq<Link>, frontier: set<string>, v: string, d: nat)
    ensures v in Reached(links, frontier, d) <==> exists w :: WalkTo(links, frontier, v, d, w)
  {
    if v in Reached(links, frontier, d) {
      var w := WalkOf(links, frontier, v, d);
    }
    forall w | WalkTo(links, frontier, v, d, w) ensures v in Reached(links, frontier, d) {
      WalkReaches(links, frontier, v, d, w);
    }
  }

  lemma {:induction false} WalkOf(links: seq<Link>, frontier: set<string>, v: string, d: nat) returns (w: seq<string>)
    requires v in Reached(links, frontier, d)
    ensures WalkTo(links, frontier, v, d, w)
    decreases d
  {
    if d == 0 {
      w := [v];
    } else {
      var s := TargetHasLink(links, Reached(links, frontier, d - 1), v);
      w := WalkOf(links, frontier, s, d - 1);
      WalkAppend(links, w, v);
      w := w + [v];
    }
  }

  lemma {:induction false} WalkReaches(links: seq<Link>, frontier: set<string>, v: string, d: nat, w: seq<string>)
    requires WalkTo(links, frontier, v, d, w)
    ensures v in Reached(links, frontier, d)
    decreases d
  {
    if d == 0 {
    } else {
      WalkPart(links, w, 0, d);
      assert w[0..d] == w[..d] && Hop(links, w, d - 1);
      WalkReaches(links, frontier, w[d - 1], d - 1, w[..d]);
      LinkHasTarget(links, Reached(links, frontier, d - 1), Link(w[d - 1], v));
    }
  }

  // ---- acyclic graphs ----

  ghost predicate Acyclic(links: seq<Link>) {
    forall w :: IsWalk(links, w) && |w| > 1 ==> w[0] != w[|w| - 1]
  }

  lemma WalkStaysInGraph(ids: set<string>, links: seq<Link>, w: seq<string>, i: nat)
    requires Within(links, ids) && IsWalk(links, w) && w[0] in ids && i < |w|
    ensures w[i] in ids
  {
    if i > 0 {
      assert Hop(links, w, i - 1);
    }
  }

  lemma WalkVisitsOnce(links: seq<Link>, w: seq<string>, i: nat, j: nat)
    requires Acyclic(links) && IsWalk(links, w) && i < j < |w|
    ensures w[i] != w[j]
  {
    WalkPart(links, w, i, j + 1);
    var part := w[i..j + 1];
    assert part[0] == w[i] && part[|part| - 1] == w[j];
  }

  /** Without cycles a walk visits no node twice, so it is no longer than there are nodes. */
  lemma WalkFits(ids: set<string>, links: seq<Link>, w: seq<string>)
    requires Within(links, ids) && Acyclic(links) && IsWalk(links, w) && w[0] in ids
    ensures |w| <= |ids|
  {
    forall i, j | 0 <= i < j < |w| ensures w[i] != w[j] {
      WalkVisitsOnce(links, w, i, j);
    }
    forall i | 0 <= i < |w| ensures w[i] in ids {
      WalkStaysInGraph(ids, links, w, i);
    }
    DistinctSeqFits(w, ids);
  }

  lemma {:induction false} SourcesAre(nodes: seq<Node>, links: seq<Link>, id: string)
    ensures id in SourcesOf(nodes, links) <==> id in Ids(nodes) && !HasIncoming(links, id)
  {
    if nodes == [] {
    } else {
      SourcesAre(nodes[..|nodes| - 1], links, id);
    }
  }

  /** A set holds exactly the nodes that no link leads to. */
  ghost predicate AreSources(f: set<string>, ids: set<string>, links: seq<Link>) {
    forall id :: id in f <==> id in ids && !HasIncoming(links, id)
  }

  lemma LinkInto(links: seq<Link>, t: string) returns (s: string)
    requires HasIncoming(links, t)
    ensures Link(s, t) in links
  {
    var i :| 0 <= i < |links| && links[i].target == t;
    s := links[i].source;
    assert links[i] == Link(s, t);
  }

  lemma OneStepBack(ids: set<string>, links: seq<Link>, w: seq<string>) returns (longer: seq<string>)
    requires Within(links, ids) && IsWalk(links, w) && HasIncoming(links, w[0])
    ensures IsWalk(links, longer) && |longer| == |w| + 1 && longer[|longer| - 1] == w[|w| - 1] && longer[0] in ids
  {
    var s := LinkInto(links, w[0]);
    WalkPrepend(links, s, w);
    longer := [s] + w;
  }

  /** Any walk can be followed backwards to a source. */
  lemma {:induction false} BackToSource(f: set<string>, ids: set<string>, links: seq<Link>, w: seq<string>)
    returns (u: seq<string>)
    requires Within(links, ids) && Acyclic(links) && AreSources(f, ids, links) && IsWalk(links, w) && w[0] in ids
    ensures IsWalk(links, u) && |u| >= |w| && u[|u| - 1] == w[|w| - 1] && u[0] in f
    decreases |ids| - |w|
  {
    WalkFits(ids, links, w);
    if w[0] in f {
      u := w;
    } else {
      var longer := OneStepBack(ids, links, w);
      WalkFits(ids, links, longer);
      u := BackToSource(f, ids, links, longer);
    }
  }

  lemma {:induction false} EmptyStaysEmpty(links: seq<Link>, frontier: set<string>, d: nat, e: nat)
    requires d <= e && Reached(links, frontier, d) == {}
    ensures Reached(links, frontier, e) == {}
    decreases e
  {
    if d < e {
      EmptyStaysEmpty(links, frontier, d, e - 1);
      NoTargets(links);
    }
  }

  lemma SingleIsWalk(links: seq<Link>, v: string)
    ensures IsWalk(links, [v])
  {
  }

  /** An acyclic graph has sources, and they are the frontier. */
  lemma AcyclicFrontier(nodes: seq<Node>, links: seq<Link>)
    requires ProperGraph(nodes, links) && Acyclic(links)
    ensures FrontierOf(nodes, links) == SourcesOf(nodes, links)
    ensures AreSources(Elements(FrontierOf(nodes, links)), Ids(nodes), links)
  {
    var f := Elements(SourcesOf(nodes, links));
    forall id ensures id in f <==> id in Ids(nodes) && !HasIncoming(links, id) {
      SourcesAre(nodes, links, id);
    }
    var v := nodes[|nodes| - 1].id;
    SingleIsWalk(links, v);
    var u := BackToSource(f, Ids(nodes), links, [v]);
    assert u[0] in SourcesOf(nodes, links);
  }

  /** The rounds of an acyclic graph run empty before there were more of them than nodes. */
  lemma AcyclicRunsEmpty(f: set<string>, ids: set<string>, links: seq<Link>)
    requires Within(links, ids) && Acyclic(links) && f <= ids
    ensures Reached(links, f, |ids|) == {}
  {
    forall v ensures v !in Reached(links, f, |ids|) {
      if v in Reached(links, f, |ids|) {
        var w := WalkOf(links, f, v, |ids|);
        WalkFits(ids, links, w);
      }
    }
  }

  /** The longest walk that ends in v has d links. */
  ghost predicate LongestWalk(links: seq<Link>, v: string, d: nat) {
    && (exists w :: EndsIn(links, w, v) && |w| == d + 1)
    && (forall w :: EndsIn(links, w, v) ==> |w| <= d + 1)
  }

  ghost predicate EndsIn(links: seq<Link>, w: seq<string>, v: string) {
    IsWalk(links, w) && w[|w| - 1] == v
  }

  /** What the depths mean on an acyclic graph: every node has one, and it is the length of the longest
      walk that ends in the node. */
  ghost predicate LongestWalks(ids: set<string>, links: seq<Link>, depth: map<string, nat>) {
    && depth.Keys == ids
    && (forall v :: v in depth ==> LongestWalk(links, v, depth[v]))
  }

  lemma StartInGraph(ids: set<string>, links: seq<Link>, w: seq<string>)
    requires Within(links, ids) && IsWalk(links, w) && w[|w| - 1] in ids
    ensures w[0] in ids
  {
    if |w| > 1 {
      assert Hop(links, w, 0);
    }
  }

  lemma SourceWalkIsDeep(f: set<string>, links: seq<Link>, depth: map<string, nat>, rounds: nat,
                         u: seq<string>, v: string)
    requires LastRound(depth, links, f, rounds) && Reached(links, f, rounds) == {}
    requires EndsIn(links, u, v) && u[0] in f
    ensures v in depth && |u| <= depth[v] + 1
  {
    var d := |u| - 1;
    assert WalkTo(links, f, v, d, u);
    WalkReaches(links, f, v, d, u);
    if d >= rounds {
      EmptyStaysEmpty(links, f, rounds, d);
    }
  }

  lemma WalkIsDeep(f: set<string>, ids: set<string>, links: seq<Link>, depth: map<string, nat>, rounds: nat,
                   w: seq<string>, v: string)
    requires Within(links, ids) && Acyclic(links) && AreSources(f, ids, links)
    requires LastRound(depth, links, f, rounds) && Reached(links, f, rounds) == {}
    requires EndsIn(links, w, v) && v in ids
    ensures v in depth && |w| <= depth[v] + 1
  {
    StartInGraph(ids, links, w);
    var u := BackToSource(f, ids, links, w);
    SourceWalkIsDeep(f, links, depth, rounds, u, v);
  }

  lemma DepthIsLongest(f: set<string>, ids: set<string>, links: seq<Link>, depth: map<string, nat>, rounds: nat,
                       v: string)
    requires Within(links, ids) && Acyclic(links) && AreSources(f, ids, links)
    requires LastRound(depth, links, f, rounds) && Reached(links, f, rounds) == {}
    ensures v in depth <==> v in ids
    ensures v in depth ==> LongestWalk(links, v, depth[v])
  {
    if v in depth {
      var w := WalkOf(links, f, v, depth[v]);
      WalkStaysInGraph(ids, links, w, depth[v]);
      assert EndsIn(links, w, v);
      forall u | EndsIn(links, u, v) ensures |u| <= depth[v] + 1 {
        WalkIsDeep(f, ids, links, depth, rounds, u, v);
      }
    } else if v in ids {
      SingleIsWalk(links, v);
      WalkIsDeep(f, ids, links, depth, rounds, [v], v);
    }
  }

  lemma LinkGoesDeeper(ids: set<string>, links: seq<Link>, depth: map<string, nat>, l: Link)
    requires Within(links, ids) && LongestWalks(ids, links, depth) && l in links
    ensures GoesDeeper(depth, l)
  {
    assert LongestWalk(links, l.source, depth[l.source]);
    var w :| EndsIn(links, w, l.source) && |w| == depth[l.source] + 1;
    WalkAppend(links, w, l.target);
    assert EndsIn(links, w + [l.target], l.target);
    assert LongestWalk(links, l.target, depth[l.target]);
  }

  predicate GoesDeeper(depth: map<string, nat>, l: Link) {
    l.source in depth && l.target in depth && depth[l.source] < depth[l.target]
  }

  lemma AcyclicDepths(f: set<string>, ids: set<string>, links: seq<Link>, depth: map<string, nat>, rounds: nat)
    requires Within(links, ids) && Acyclic(links) && AreSources(f, ids, links)
    requires LastRound(depth, links, f, rounds) && Reached(links, f, rounds) == {}
    ensures LongestWalks(ids, links, depth)
    ensures forall l :: l in links ==> GoesDeeper(depth, l)
  {
    forall v ensures v in depth <==> v in ids {
      DepthIsLongest(f, ids, links, depth, rounds, v);
    }
    forall v | v in depth ensures LongestWalk(links, v, depth[v]) {
      DepthIsLongest(f, ids, links, depth, rounds, v);
    }
    forall l | l in links ensures GoesDeeper(depth, l) {
      LinkGoesDeeper(ids, links, depth, l);
    }
  }

  /** The depth of a node is the length of a real walk from the frontier. */
  ghost predicate DepthIsWalk(nodes: seq<Node>, links: seq<Link>, depth: map<string, nat>, v: string)
    requires nodes != [] && v in depth
  {
    exists w :: WalkTo(links, Elements(FrontierOf(nodes, links)), v, depth[v], w)
  }

  /** On an acyclic graph the loop stops because its frontier is empty, not because of the cap, and
      leaves the longest walks. */
  lemma AcyclicSeeding(nodes: seq<Node>, links: seq<Link>, depth: map<string, nat>, rounds: nat)
    requires ProperGraph(nodes, links) && Acyclic(links)
    requires LastRound(depth, links, Elements(FrontierOf(nodes, links)), rounds) && StopsRight(nodes, links, rounds)
    ensures rounds <= |Ids(nodes)|
    ensures LongestWalks(Ids(nodes), links, depth)
    ensures forall l :: l in links ==> GoesDeeper(depth, l)
  {
    var f := Elements(FrontierOf(nodes, links));
    AcyclicFrontier(nodes, links);
    AcyclicRunsEmpty(f, Ids(nodes), links);
    AcyclicDepths(f, Ids(nodes), links, depth, rounds);
  }

  /** The loop stops at the first round that meets nothing, or at the cap. */
  ghost predicate StopsRight(nodes: seq<Node>, links: seq<Link>, rounds: nat)
    requires nodes != []
  {
    var f := Elements(FrontierOf(nodes, links));
    && rounds <= |nodes| + 2
    && (rounds < |nodes| + 2 ==> Reached(links, f, rounds) == {})
    && (forall d: nat :: d < rounds ==> Reached(links, f, d) != {})
  }

  // ---- layers ----

  function LayerOf(depth: map<string, nat>, n: Node): nat {
    if n.id in depth then depth[n.id] else 0
  }

  function LayerMembers(nodes: seq<Node>, depth: map<string, nat>, l: nat): seq<Node> {
    if nodes == [] then []
    else
      var rest, n := LayerMembers(nodes[..|nodes| - 1], depth, l), nodes[|nodes| - 1];
      if LayerOf(depth, n) == l then rest + [n] else rest
  }

  function Members(perLayer: map<nat, seq<Node>>, l: nat): seq<Node> {
    if l in perLayer then perLayer[l] else []
  }

  method AssignLayers(nodes: seq<Node>, depth: map<string, nat>) returns (perLayer: map<nat, seq<Node>>)
    ensures forall l: nat :: Members(perLayer, l) == LayerMembers(nodes, depth, l)
  {
    perLayer := map[];
    var n := 0;
    while n < |nodes|
      invariant n <= |nodes|
      invariant forall l: nat :: Members(perLayer, l) == LayerMembers(nodes[..n], depth, l)
    {
      assert nodes[..n + 1][..n] == nodes[..n];
      var l := LayerOf(depth, nodes[n]);
      perLayer := perLayer[l := Members(perLayer, l) + [nodes[n]]];
      n := n + 1;
    }
    assert nodes[..n] == nodes;
  }

  /** Seeds the layout: on an acyclic graph the layers are those of the longest walks. */
  method SeedPositions(nodes: seq<Node>, links: seq<Link>)
    returns (depth: map<string, nat>, perLayer: map<nat, seq<Node>>, rounds: nat)
    requires ProperGraph(nodes, links)
    ensures rounds <= |nodes| + 2
    ensures forall v :: v in depth ==> DepthIsWalk(nodes, links, depth, v)
    ensures Acyclic(links) ==> rounds <= |nodes| && LongestWalks(Ids(nodes), links, depth)
    ensures Acyclic(links) ==> forall l :: l in links ==> GoesDeeper(depth, l)
    ensures forall l: nat :: Members(perLayer, l) == LayerMembers(nodes, depth, l)
  {
    depth, rounds := SeedDepths(nodes, links);
    forall v | v in depth ensures DepthIsWalk(nodes, links, depth, v) {
      ReachedByWalk(links, Elements(FrontierOf(nodes, links)), v, depth[v]);
    }
    if Acyclic(links) {
      AcyclicSeeding(nodes, links, depth, rounds);
    }
    perLayer := AssignLayers(nodes, depth);
  }
}
