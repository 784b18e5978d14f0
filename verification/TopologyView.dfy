/** The service map a query draws from the stored rows: grouping at three levels, the node roll-up,
    and what the numbers on it mean for the raw calls. */
module TopologyView {
  import opened Basics
  import opened Spans
  import opened EdgeSamples
  import opened Quantile
  import TopologySystem
  import TopologySafety

  // ---- grouping ----

  datatype Level = ByService | ByWorkload | ByNamespace

  /** The group an end falls into; what has no workload or namespace stands for itself. */
  function EndAt(l: Level, service: string, namespace: string, workload: string): string {
    match l
    case ByService => service
    case ByWorkload => if workload != "" then namespace + "/" + workload else service
    case ByNamespace => if namespace != "" then namespace else service
  }

  datatype Group = Group(src: string, dst: string, connType: ConnType)

  function GroupOf(l: Level, e: EdgeKey): Group {
    Group(EndAt(l, e.client, e.clientNamespace, e.clientWorkload),
          EndAt(l, e.server, e.serverNamespace, e.serverWorkload), e.connType)
  }

  /** The rows of a group that the query may see. */
  function InGroup(l: Level, g: Group, p: Filter): Filter {
    (k: AggKey) => p(k) && GroupOf(l, k.edge) == g
  }

  datatype GroupRow = GroupRow(
    group: Group,
    clientNamespace: string,
    clientWorkload: string,
    serverNamespace: string,
    serverWorkload: string,
    sample: Sample)

  /** A row of the answer carries the merged sample of its group, which has calls. */
  ghost predicate Totals(r: GroupRow, rows: seq<Row>, l: Level, p: Filter)
    requires RowsWellFormed(rows)
  {
    r.sample == QueryTotal(rows, InGroup(l, r.group, p)) && r.sample.calls > 0
  }

  predicate Lists(out: seq<GroupRow>, g: Group) {
    exists i :: 0 <= i < |out| && out[i].group == g
  }

  /** What the grouped query returns: one row for every group that has calls. */
  ghost predicate AnswersQuery(out: seq<GroupRow>, rows: seq<Row>, l: Level, p: Filter)
    requires RowsWellFormed(rows)
  {
    && (forall i :: 0 <= i < |out| ==> Totals(out[i], rows, l, p))
    && (forall i, j :: 0 <= i < j < |out| ==> out[i].group != out[j].group)
    && (forall g: Group :: QueryTotal(rows, InGroup(l, g, p)).calls > 0 ==> Lists(out, g))
  }

  // ---- no level loses a call ----

  function CallsOf(out: seq<GroupRow>): nat {
    if out == [] then 0 else CallsOf(out[..|out| - 1]) + out[|out| - 1].sample.calls
  }

  function Covered(out: seq<GroupRow>, l: Level, p: Filter): Filter {
    (k: AggKey) => p(k) && Lists(out, GroupOf(l, k.edge))
  }

  lemma {:induction false} CallsSplit(rows: seq<Row>, p: Filter, q: Filter, either: Filter)
    requires RowsWellFormed(rows)
    requires forall k: AggKey :: !(p(k) && q(k)) && either(k) == (p(k) || q(k))
    ensures QueryTotal(rows, either).calls == QueryTotal(rows, p).calls + QueryTotal(rows, q).calls
  {
    if rows == [] {
    } else {
      CallsSplit(rows[..|rows| - 1], p, q, either);
    }
  }

  lemma {:induction false} CallsNone(rows: seq<Row>, p: Filter)
    requires RowsWellFormed(rows)
    requires forall k: AggKey :: !p(k)
    ensures QueryTotal(rows, p).calls == 0
  {
    if rows == [] {
    } else {
      CallsNone(rows[..|rows| - 1], p);
    }
  }

  lemma {:induction false} RowWithin(rows: seq<Row>, p: Filter, i: nat)
    requires RowsWellFormed(rows) && i < |rows| && p(rows[i].at)
    ensures rows[i].sample.calls <= QueryTotal(rows, p).calls
  {
    var front := rows[..|rows| - 1];
    if i < |front| {
      assert front[i] == rows[i];
      RowWithin(front, p, i);
    }
  }

  lemma {:induction false} CallsAgree(rows: seq<Row>, p: Filter, q: Filter)
    requires RowsWellFormed(rows)
    requires forall i :: 0 <= i < |rows| ==> p(rows[i].at) == q(rows[i].at) || rows[i].sample.calls == 0
    ensures QueryTotal(rows, p).calls == QueryTotal(rows, q).calls
  {
    if rows == [] {
    } else {
      var front := rows[..|rows| - 1];
      assert forall i :: 0 <= i < |front| ==> front[i] == rows[i];
      CallsAgree(front, p, q);
    }
  }

  lemma ListsSnoc(out: seq<GroupRow>, r: GroupRow, g: Group)
    ensures Lists(out + [r], g) <==> Lists(out, g) || g == r.group
  {
    if Lists(out, g) {
      var i :| 0 <= i < |out| && out[i].group == g;
      assert (out + [r])[i].group == g;
    }
    assert (out + [r])[|out|] == r;
    if Lists(out + [r], g) && g != r.group {
      var i :| 0 <= i < |out| + 1 && (out + [r])[i].group == g;
      assert out[i].group == g;
    }
  }

  lemma {:induction false} ListedCalls(out: seq<GroupRow>, rows: seq<Row>, l: Level, p: Filter)
    requires RowsWellFormed(rows)
    requires forall i :: 0 <= i < |out| ==> Totals(out[i], rows, l, p)
    requires forall i, j :: 0 <= i < j < |out| ==> out[i].group != out[j].group
    ensures CallsOf(out) == QueryTotal(rows, Covered(out, l, p)).calls
  {
    var covered := Covered(out, l, p);
    if out == [] {
      forall k: AggKey ensures !covered(k) {
        assert covered(k) == (p(k) && Lists(out, GroupOf(l, k.edge)));
      }
      CallsNone(rows, covered);
    } else {
      var front, last := out[..|out| - 1], out[|out| - 1];
      ListedCalls(front, rows, l, p);
      assert out == front + [last];
      assert !Lists(front, last.group);
      forall g: Group ensures Lists(out, g) <==> Lists(front, g) || g == last.group {
        ListsSnoc(front, last, g);
      }
      assert Totals(last, rows, l, p);
      var before, own := Covered(front, l, p), InGroup(l, last.group, p);
      forall k: AggKey ensures !(before(k) && own(k)) && covered(k) == (before(k) || own(k)) {
        assert before(k) == (p(k) && Lists(front, GroupOf(l, k.edge)));
        assert own(k) == (p(k) && GroupOf(l, k.edge) == last.group);
        assert covered(k) == (p(k) && Lists(out, GroupOf(l, k.edge)));
      }
      CallsSplit(rows, before, own, covered);
    }
  }

  /** Whatever the level, the groups of an answer add up to the calls the query could see: grouping
      neither drops a call nor counts one twice. */
  lemma LevelsLoseNothing(out: seq<GroupRow>, rows: seq<Row>, l: Level, p: Filter)
    requires RowsWellFormed(rows) && AnswersQuery(out, rows, l, p)
    ensures CallsOf(out) == QueryTotal(rows, p).calls
  {
    ListedCalls(out, rows, l, p);
    var covered := Covered(out, l, p);
    forall i | 0 <= i < |rows| ensures covered(rows[i].at) == p(rows[i].at) || rows[i].sample.calls == 0 {
      var g := GroupOf(l, rows[i].at.edge);
      if p(rows[i].at) && !Lists(out, g) {
        RowWithin(rows, InGroup(l, g, p), i);
      }
    }
    CallsAgree(rows, covered, p);
  }

  // ---- the graph ----

  datatype NodeType = ServiceNode | UserNode | DatabaseNode | MessagingNode | ExternalNode

  function SourceType(c: ConnType): NodeType {
    if c == ConnEntry then UserNode else ServiceNode
  }

  function TargetType(c: ConnType): NodeType {
    match c
    case ConnDatabase => DatabaseNode
    case ConnMessaging => MessagingNode
    case ConnExternal => ExternalNode
    case _ => ServiceNode
  }

  function Ratio(part: nat, total: nat): real {
    if total == 0 then 0.0 else part as real / total as real
  }

  datatype MapNode = MapNode(
    id: string,
    nodeType: NodeType,
    namespace: string,
    workload: string,
    calls: nat,
    errors: nat,
    errorRate: real)

  datatype MapEdge = MapEdge(
    group: Group,
    calls: nat,
    errors: nat,
    errorRate: real,
    avgNs: real,
    p95Ms: real,
    p99Ms: real,
    maxNs: nat)

  /** One end of a row, as the roll-up meets it. */
  datatype Mention = Mention(id: string, nodeType: NodeType, namespace: string, workload: string)

  function SourceMention(r: GroupRow): Mention {
    Mention(r.group.src, SourceType(r.group.connType), r.clientNamespace, r.clientWorkload)
  }

  function TargetMention(r: GroupRow): Mention {
    Mention(r.group.dst, TargetType(r.group.connType), r.serverNamespace, r.serverWorkload)
  }

  function Mentions(out: seq<GroupRow>): seq<Mention> {
    if out == [] then []
    else Mentions(out[..|out| - 1]) + [SourceMention(out[|out| - 1])] + [TargetMention(out[|out| - 1])]
  }

  /** The type a node gets: that of its first mention. */
  function FirstType(ms: seq<Mention>, id: string): Option<NodeType> {
    if ms == [] then None
    else
      var before, m := FirstType(ms[..|ms| - 1], id), ms[|ms| - 1];
      if before.Some? then before else if m.id == id then Some(m.nodeType) else None
  }

  /** The first namespace mentioned that is not empty. */
  function FirstNamespace(ms: seq<Mention>, id: string): string {
    if ms == [] then ""
    else
      var before, m := FirstNamespace(ms[..|ms| - 1], id), ms[|ms| - 1];
      if before != "" || m.id != id then before else m.namespace
  }

  function FirstWorkload(ms: seq<Mention>, id: string): string {
    if ms == [] then ""
    else
      var before, m := FirstWorkload(ms[..|ms| - 1], id), ms[|ms| - 1];
      if before != "" || m.id != id then before else m.workload
  }

  lemma {:induction false} NotMentioned(ms: seq<Mention>, id: string)
    ensures FirstType(ms, id).None? ==> FirstNamespace(ms, id) == "" && FirstWorkload(ms, id) == ""
  {
    if ms == [] {
    } else {
      NotMentioned(ms[..|ms| - 1], id);
    }
  }

  function CallsInto(out: seq<GroupRow>, id: string): nat {
    if out == [] then 0
    else CallsInto(out[..|out| - 1], id) + if out[|out| - 1].group.dst == id then out[|out| - 1].sample.calls else 0
  }

  function ErrorsInto(out: seq<GroupRow>, id: string): nat {
    if out == [] then 0
    else ErrorsInto(out[..|out| - 1], id) + if out[|out| - 1].group.dst == id then out[|out| - 1].sample.errors else 0
  }

  /** A node carries its identity from the mentions and its traffic from the edges that lead to it. */
  ghost predicate NodeIs(nodes: map<string, MapNode>, ms: seq<Mention>, calls: nat, errors: nat, id: string) {
    && (id in nodes <==> FirstType(ms, id).Some?)
    && (id !in nodes ==> calls == 0 && errors == 0)
    && (id in nodes ==>
          nodes[id] == MapNode(id, FirstType(ms, id).value, FirstNamespace(ms, id), FirstWorkload(ms, id),
                               calls, errors, Ratio(errors, calls)))
  }

  function EdgeOf(r: GroupRow): MapEdge
    requires WellFormed(r.sample)
  {
    var s := r.sample;
    MapEdge(r.group, s.calls, s.errors, Ratio(s.errors, s.calls), Ratio(s.durationSum, s.calls),
            Estimate(s.buckets, 0.95), Estimate(s.buckets, 0.99), s.durationMax)
  }

  ghost predicate SamplesWellFormed(out: seq<GroupRow>) {
    forall i :: 0 <= i < |out| ==> WellFormed(out[i].sample)
  }

  class Graph {
    var nodes: map<string, MapNode>
    var edges: seq<MapEdge>

    constructor ()
      ensures nodes == map[] && edges == []
    {
      nodes, edges := map[], [];
    }

    /** Adds the node, or fills what an earlier mention left empty. */
    method UpsertNode(m: Mention)
      modifies this`nodes
      ensures m.id in nodes && nodes.Keys == old(nodes).Keys + {m.id}
      ensures forall id :: id in old(nodes) && id != m.id ==> nodes[id] == old(nodes)[id]
      ensures m.id !in old(nodes) ==> nodes[m.id] == MapNode(m.id, m.nodeType, m.namespace, m.workload, 0, 0, 0.0)
      ensures m.id in old(nodes) ==>
                var n := old(nodes)[m.id];
                nodes[m.id] == n.(namespace := if n.namespace == "" then m.namespace else n.namespace,
                                  workload := if n.workload == "" then m.workload else n.workload)
    {
      if m.id in nodes {
        var n := nodes[m.id];
        if n.namespace == "" {
          n := n.(namespace := m.namespace);
        }
        if n.workload == "" {
          n := n.(workload := m.workload);
        }
        nodes := nodes[m.id := n];
        return;
      }
      nodes := nodes[m.id := MapNode(m.id, m.nodeType, m.namespace, m.workload, 0, 0, 0.0)];
    }

    /** The mention, as it shows in the meaning of the nodes. */
    method Meet(m: Mention, ghost ms: seq<Mention>, ghost calls: string -> nat, ghost errors: string -> nat)
      requires forall id: string :: NodeIs(nodes, ms, calls(id), errors(id), id)
      modifies this`nodes
      ensures forall id: string :: NodeIs(nodes, ms + [m], calls(id), errors(id), id)
      ensures m.id in nodes
    {
      UpsertNode(m);
      assert (ms + [m])[..|ms|] == ms;
      NotMentioned(ms, m.id);
      forall id: string ensures NodeIs(nodes, ms + [m], calls(id), errors(id), id) {
        assert NodeIs(old(nodes), ms, calls(id), errors(id), id);
      }
    }

    method AddEdge(r: GroupRow)
      requires WellFormed(r.sample)
      modifies this`edges
      ensures edges == old(edges) + [EdgeOf(r)]
    {
      var s := r.sample;
      var p95 := HistogramQuantile(s.buckets, 0.95);
      var p99 := HistogramQuantile(s.buckets, 0.99);
      edges := edges + [MapEdge(r.group, s.calls, s.errors, Ratio(s.errors, s.calls), Ratio(s.durationSum, s.calls),
                                p95, p99, s.durationMax)];
    }
  
    /** One row of the answer: both ends are nodes, and its traffic counts for the target. */
    method AddRow(r: GroupRow, ghost out: seq<GroupRow>)
      requires WellFormed(r.sample)
      requires Draws(nodes, out)
      modifies this`nodes
      ensures Draws(nodes, out + [r])
    {
      ghost var calls: string -> nat := (id: string) => CallsInto(out, id);
      ghost var errors: string -> nat := (id: string) => ErrorsInto(out, id);
      Meet(SourceMention(r), Mentions(out), calls, errors);
      Meet(TargetMention(r), Mentions(out) + [SourceMention(r)], calls, errors);
      ghost var met := nodes;
      MentionsSnoc(out, r);
      nodes := nodes[r.group.dst := Credited(nodes[r.group.dst], r.sample)];
      forall id: string
        ensures NodeIs(nodes, Mentions(out + [r]), CallsInto(out + [r], id), ErrorsInto(out + [r], id), id)
      {
        assert NodeIs(met, Mentions(out + [r]), calls(id), errors(id), id);
        CreditShows(met, Mentions(out + [r]), out, r, id);
      }
    }
  }

  /** A node after the traffic of one more edge. */
  function Credited(n: MapNode, s: Sample): MapNode {
    n.(calls := n.calls + s.calls, errors := n.errors + s.errors,
       errorRate := Ratio(n.errors + s.errors, n.calls + s.calls))
  }

  lemma MentionsSnoc(out: seq<GroupRow>, r: GroupRow)
    ensures Mentions(out + [r]) == Mentions(out) + [SourceMention(r)] + [TargetMention(r)]
  {
    assert (out + [r])[..|out|] == out;
  }

  lemma CreditShows(met: map<string, MapNode>, ms: seq<Mention>, out: seq<GroupRow>, r: GroupRow, id: string)
    requires r.group.dst in met
    requires NodeIs(met, ms, CallsInto(out, id), ErrorsInto(out, id), id)
    ensures NodeIs(met[r.group.dst := Credited(met[r.group.dst], r.sample)], ms,
                   CallsInto(out + [r], id), ErrorsInto(out + [r], id), id)
  {
    assert (out + [r])[..|out|] == out;
  }

  /** The nodes are those the rows of the answer mention. */
  ghost predicate Draws(nodes: map<string, MapNode>, out: seq<GroupRow>) {
    forall id: string :: NodeIs(nodes, Mentions(out), CallsInto(out, id), ErrorsInto(out, id), id)
  }

  function Edges(out: seq<GroupRow>): seq<MapEdge>
    requires SamplesWellFormed(out)
  {
    if out == [] then [] else Edges(out[..|out| - 1]) + [EdgeOf(out[|out| - 1])]
  }

  /** The graph drawn from the rows of an answer. */
  method DrawGraph(out: seq<GroupRow>) returns (graph: Graph)
    requires SamplesWellFormed(out)
    ensures Draws(graph.nodes, out) && graph.edges == Edges(out)
  {
    graph := new Graph();
    var n := 0;
    while n < |out|
      invariant n <= |out|
      invariant fresh(graph)
      invariant Draws(graph.nodes, out[..n]) && graph.edges == Edges(out[..n])
    {
      assert out[..n + 1] == out[..n] + [out[n]] && out[..n + 1][..n] == out[..n];
      graph.AddRow(out[n], out[..n]);
      graph.AddEdge(out[n]);
      n := n + 1;
    }
    assert out[..n] == out;
  }

  // ---- the graph accounts for every call ----

  function CallCounts(nodes: map<string, MapNode>): map<string, nat> {
    map id | id in nodes :: nodes[id].calls
  }

  lemma TargetsAreNodes(nodes: map<string, MapNode>, out: seq<GroupRow>, id: string)
    requires Draws(nodes, out)
    ensures id !in nodes ==> CallsInto(out, id) == 0
    ensures id in nodes ==> nodes[id].calls == CallsInto(out, id)
  {
    assert NodeIs(nodes, Mentions(out), CallsInto(out, id), ErrorsInto(out, id), id);
  }

  /** The traffic into a set of nodes that covers every target. */
  lemma {:induction false} IncomingAddsUp(out: seq<GroupRow>, counts: map<string, nat>)
    requires forall id :: id in counts ==> counts[id] == CallsInto(out, id)
    requires forall i :: 0 <= i < |out| ==> out[i].group.dst in counts
    ensures SumMap(counts) == CallsOf(out)
  {
    if out == [] {
      AllZero(counts);
    } else {
      var front, last := out[..|out| - 1], out[|out| - 1];
      var before := map id | id in counts :: CallsInto(front, id);
      assert forall i :: 0 <= i < |front| ==> front[i] == out[i];
      IncomingAddsUp(front, before);
      var dst := last.group.dst;
      assert counts == before[dst := before[dst] + last.sample.calls];
      SumMapUpdate(before, dst, before[dst] + last.sample.calls);
    }
  }

  lemma {:induction false} AllZero(counts: map<string, nat>)
    requires forall id :: id in counts ==> counts[id] == 0
    ensures SumMap(counts) == 0
    decreases |counts|
  {
    if counts != map[] {
      var k :| k in counts;
      SumMapRemove(counts, k);
      assert |counts - {k}| < |counts| by {
        assert (counts - {k}).Keys == counts.Keys - {k};
      }
      AllZero(counts - {k});
    }
  }

  lemma {:induction false} RowsAreMentioned(out: seq<GroupRow>, i: nat)
    requires i < |out|
    ensures FirstType(Mentions(out), out[i].group.dst).Some?
  {
    var front, last := out[..|out| - 1], out[|out| - 1];
    if i < |front| {
      RowsAreMentioned(front, i);
    }
    var ms := Mentions(front) + [SourceMention(last)];
    assert ms[..|ms| - 1] == Mentions(front);
    assert (ms + [TargetMention(last)])[..|ms|] == ms;
  }

  /** The nodes together receive the calls of all edges. */
  lemma NodesReceiveAllCalls(nodes: map<string, MapNode>, out: seq<GroupRow>)
    requires Draws(nodes, out)
    ensures SumMap(CallCounts(nodes)) == CallsOf(out)
  {
    var counts := CallCounts(nodes);
    forall id | id in counts ensures counts[id] == CallsInto(out, id) {
      TargetsAreNodes(nodes, out, id);
    }
    forall i | 0 <= i < |out| ensures out[i].group.dst in counts {
      RowsAreMentioned(out, i);
      var dst := out[i].group.dst;
      assert NodeIs(nodes, Mentions(out), CallsInto(out, dst), ErrorsInto(out, dst), dst);
    }
    IncomingAddsUp(out, counts);
  }

  /** In every reachable state, at every level and for every range and scope: the calls on the nodes of
      the map add up to exactly the raw calls stored in that range and scope. */
  lemma MapAccountsForStoredCalls(c: TopologySystem.Config, st: TopologySystem.State, l: Level, p: Filter,
                                  out: seq<GroupRow>, nodes: map<string, MapNode>)
    requires TopologySystem.ValidConfig(c) && TopologySystem.Reachable(c, st)
    requires RowsWellFormed(st.ledger.rows) && AnswersQuery(out, st.ledger.rows, l, p)
    requires Draws(nodes, out)
    ensures SumMap(CallCounts(nodes)) == |Select(st.ledger.storedLog, p)|
  {
    NodesReceiveAllCalls(nodes, out);
    LevelsLoseNothing(out, st.ledger.rows, l, p);
    TopologySafety.QueriesAgreeWithRawCalls(c, st, p);
    SampleCounts(Select(st.ledger.storedLog, p));
  }

  /** The percentile shown on an edge is rank-correct for the raw calls behind the edge, however they
      were batched, flushed and merged on the way. */
  lemma ShownPercentileIsRankCorrect(c: TopologySystem.Config, st: TopologySystem.State, l: Level, p: Filter,
                                     row: GroupRow, sorted: seq<nat>, q: real, r: nat)
    requires TopologySystem.ValidConfig(c) && TopologySystem.Reachable(c, st)
    requires RowsWellFormed(st.ledger.rows) && Totals(row, st.ledger.rows, l, p)
    requires Sorted(sorted)
    requires multiset(sorted) == multiset(Durations(Select(st.ledger.storedLog, InGroup(l, row.group, p))))
    requires IsRank(r, q, |sorted|)
    ensures var d, b, e := sorted[r - 1], BucketIndex(sorted[r - 1]), Estimate(row.sample.buckets, q);
            if b < |LATENCY_BOUNDS|
            then Distance(e * NS_PER_MS as real, d as real) <= (Upper(b) - Lower(b)) * NS_PER_MS as real
            else e == LAST_BOUND
  {
    var group := InGroup(l, row.group, p);
    TopologySafety.QueriesAgreeWithRawCalls(c, st, group);
    SampleHistogram(Select(st.ledger.storedLog, group), sorted);
    EstimateIsRankCorrect(sorted, q, r);
  }

  /** Every edge of the map has p95 at most p99, and its mean is at most its maximum. */
  lemma EdgeNumbersAreOrdered(r: GroupRow, es: seq<Event>)
    requires r.sample == Of(es)
    ensures EdgeOf(r).p95Ms <= EdgeOf(r).p99Ms
    ensures EdgeOf(r).avgNs <= EdgeOf(r).maxNs as real
    ensures 0.0 <= EdgeOf(r).errorRate <= 1.0
  {
    EstimateMonotone(r.sample.buckets, 0.95, 0.99);
    SampleBounds(es);
    RatioBounds(r.sample.durationSum, r.sample.calls, r.sample.durationMax);
    RatioBounds(r.sample.errors, r.sample.calls, 1);
  }

  lemma RatioBounds(part: nat, total: nat, most: nat)
    requires part <= total * most
    ensures 0.0 <= Ratio(part, total) <= most as real
  {
    if total > 0 {
      assert (total * most) as real == total as real * most as real;
      DivideBounds(part as real, total as real, most as real);
    }
  }

  lemma DivideBounds(x: real, t: real, m: real)
    requires t > 0.0 && 0.0 <= x <= t * m
    ensures 0.0 <= x / t <= m
  {
    Fraction(x, t);
    Fraction(t * m - x, t);
    assert (t * m - x) / t == m - x / t;
  }
}
