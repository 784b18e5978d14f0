/** What readers get out of the trace index. A search and the window lookup of the trace detail filter
    the rows before they combine them; here it is stated exactly when the answer is the whole trace,
    when a background merge shows in it, and which spans a reader misses. */
module TraceSearch {
  import opened Basics
  import opened TraceIndex

  /** The filters of a search; the lookup by id has no range and no filter but the reader's scope. */
  datatype TraceQuery = TraceQuery(
    range: Option<(int, int)>,
    scope: Option<set<string>>,
    service: string,
    minDurationNs: Option<nat>,
    onlyErrors: bool)

  /** An unrestricted reader has no scope; another one sees rows that mention one of its services. */
  predicate InScope(scope: Option<set<string>>, services: set<string>) {
    scope.None? || services * scope.value != {}
  }

  predicate InRange(range: Option<(int, int)>, start: int) {
    range.None? || range.value.0 <= start < range.value.1
  }

  predicate Passes(q: TraceQuery, d: Digest) {
    && InRange(q.range, d.start)
    && InScope(q.scope, d.services)
    && (q.service == "" || q.service in d.services)
    && (q.minDurationNs.None? || d.durationNs >= q.minDurationNs.value)
    && (q.onlyErrors ==> d.errors > 0)
  }

  function FilterOf(q: TraceQuery): RowFilter {
    (c: Columns) => Passes(q, c.digest)
  }

  /** What the query answers about a trace. */
  function Answer(rows: seq<IndexRow>, id: string, q: TraceQuery): Option<Columns> {
    Search(rows, id, FilterOf(q))
  }

  /** The lookup that the trace detail starts with. */
  function Lookup(scope: Option<set<string>>): TraceQuery {
    TraceQuery(None, scope, "", None, false)
  }

  // ---- when the answer is the whole trace ----

  lemma {:induction false} PassingCounts(rows: seq<IndexRow>, id: string, f: RowFilter)
    requires NoEmptyRow(rows)
    ensures SpansIn(Search(rows, id, f)) <= SpansIn(Search(rows, id, Everything()))
    ensures SpansIn(Search(rows, id, f)) == SpansIn(Search(rows, id, Everything())) <==> AllPass(rows, id, f)
  {
    if rows == [] {
    } else {
      var front, last := rows[..|rows| - 1], rows[|rows| - 1];
      assert rows == front + [last];
      PassingCounts(front, id, f);
      SearchSnoc(front, last, id, f);
      SearchSnoc(front, last, id, Everything());
      SpansInJoin(Search(front, id, f), Alone(last, id, f));
      SpansInJoin(Search(front, id, Everything()), Alone(last, id, Everything()));
      AllPassSnoc(front, last, id, f);
    }
  }

  lemma AllPassSnoc(rows: seq<IndexRow>, r: IndexRow, id: string, f: RowFilter)
    ensures AllPass(rows + [r], id, f) <==> AllPass(rows, id, f) && (r.traceId == id ==> f(r.columns))
  {
    assert forall i :: 0 <= i < |rows| ==> (rows + [r])[i] == rows[i];
    assert (rows + [r])[|rows|] == r;
  }

  lemma {:induction false} AllPassingIsEverything(rows: seq<IndexRow>, id: string, f: RowFilter)
    requires AllPass(rows, id, f)
    ensures Search(rows, id, f) == Search(rows, id, Everything())
  {
    if rows == [] {
    } else {
      var front, last := rows[..|rows| - 1], rows[|rows| - 1];
      assert rows == front + [last];
      AllPassSnoc(front, last, id, f);
      AllPassingIsEverything(front, id, f);
    }
  }

  /** In every reachable index the answer is the digest of the trace exactly when every row of the trace
      passes the filter of the query. */
  lemma AnswerIsWholeIff(st: State, id: string, q: TraceQuery)
    requires Reachable(st)
    ensures DigestIn(Answer(st.rows, id, q)) == DigestOf(st.inserted, id) <==> AllPass(st.rows, id, FilterOf(q))
  {
    ReachableInv(st, id);
    PassingCounts(st.rows, id, FilterOf(q));
    if AllPass(st.rows, id, FilterOf(q)) {
      AllPassingIsEverything(st.rows, id, FilterOf(q));
    }
  }

  // ---- what any answer can claim ----

  lemma {:induction false} AnswerNamesRow(rows: seq<IndexRow>, id: string, f: RowFilter, w: Label) returns (i: nat)
    requires Search(rows, id, f).Some?
    ensures i < |rows| && rows[i].traceId == id && f(rows[i].columns)
    ensures Shown(w, Search(rows, id, f).value) == Shown(w, rows[i].columns)
  {
    var front, last := rows[..|rows| - 1], rows[|rows| - 1];
    if last.traceId == id && f(last.columns) && Shown(w, last.columns) == Shown(w, Search(rows, id, f).value) {
      i := |rows| - 1;
    } else {
      i := AnswerNamesRow(front, id, f, w);
    }
  }

  lemma {:induction false} RootNotEmpty(rows: seq<IndexRow>, id: string, f: RowFilter, w: Label, i: nat)
    requires i < |rows| && rows[i].traceId == id && f(rows[i].columns) && Shown(w, rows[i].columns) != ""
    ensures Search(rows, id, f).Some? && Shown(w, Search(rows, id, f).value) != ""
  {
    var front := rows[..|rows| - 1];
    if i < |front| {
      assert front[i] == rows[i];
      RootNotEmpty(front, id, f, w, i);
    }
  }

  /** Whatever the filter, a search shows a trace under the service and name of one of its roots or
      under none; and when every row passes, under one of its roots if it has any. */
  lemma ShownRootIsReal(st: State, id: string, q: TraceQuery, w: Label)
    requires Reachable(st) && Answer(st.rows, id, q).Some?
    ensures var v := Shown(w, Answer(st.rows, id, q).value);
            && (v == "" || RootIn(st.inserted, id, w, v))
            && (AllPass(st.rows, id, FilterOf(q)) ==>
                  RootIn(st.inserted, id, w, v) || (v == "" && forall u: string :: !RootIn(st.inserted, id, w, u)))
  {
    ReachableInv(st, id);
    assert RootsProper(st.rows, st.inserted, id, w);
    var i := AnswerNamesRow(st.rows, id, FilterOf(q), w);
    if AllPass(st.rows, id, FilterOf(q)) && NamesRoot(st.rows, st.inserted, id, w) {
      var n :| 0 <= n < |st.rows| && st.rows[n].traceId == id && RootIn(st.inserted, id, w, Shown(w, st.rows[n].columns));
      if Shown(w, st.rows[n].columns) != "" {
        RootNotEmpty(st.rows, id, FilterOf(q), w, n);
      }
    }
  }

  // ---- searches that are safe however the spans were cut and merged ----

  /** Rows that pass still pass when they are merged. */
  lemma PassingMerges(q: TraceQuery, a: Digest, b: Digest)
    requires Passes(q, a) && Passes(q, b)
    ensures Passes(q, MergeDigest(a, b))
  {
    if q.scope.Some? {
      var v :| v in a.services * q.scope.value;
      assert v in (a.services + b.services) * q.scope.value;
    }
  }

  /** Each span of the trace, alone in a block, would leave a row that passes. */
  ghost predicate EachPasses(q: TraceQuery, spans: seq<TraceSpan>, id: string) {
    forall i: nat :: At(spans, id, i) ==> Passes(q, One(spans[i]).digest)
  }

  lemma {:induction false} SummaryPasses(q: TraceQuery, spans: seq<TraceSpan>, id: string)
    requires EachPasses(q, spans, id) && DigestOf(spans, id).Some?
    ensures Passes(q, DigestOf(spans, id).value)
  {
    var front, n := spans[..|spans| - 1], |spans| - 1;
    PrefixPasses(q, front, [spans[n]], id);
    assert spans == front + [spans[n]];
    if DigestOf(front, id).Some? {
      SummaryPasses(q, front, id);
    }
    if spans[n].traceId == id {
      assert At(spans, id, n);
      if DigestOf(front, id).Some? {
        PassingMerges(q, DigestOf(front, id).value, One(spans[n]).digest);
      }
    }
  }

  lemma PrefixPasses(q: TraceQuery, a: seq<TraceSpan>, b: seq<TraceSpan>, id: string)
    ensures EachPasses(q, a + b, id) <==> EachPasses(q, a, id) && EachPasses(q, b, id)
  {
    if EachPasses(q, a + b, id) {
      forall i: nat | At(a, id, i) ensures Passes(q, One(a[i]).digest) {
        assert At(a + b, id, i);
      }
      forall i: nat | At(b, id, i) ensures Passes(q, One(b[i]).digest) {
        assert At(a + b, id, |a| + i);
      }
    }
    if EachPasses(q, a, id) && EachPasses(q, b, id) {
      forall i: nat | At(a + b, id, i) ensures Passes(q, One((a + b)[i]).digest) {
        assert if i < |a| then At(a, id, i) else At(b, id, i - |a|);
      }
    }
  }

  lemma StepKeepsPassing(q: TraceQuery, st: State, a: Action, id: string)
    requires Enabled(st, a) && AllPass(st.rows, id, FilterOf(q)) && EachPasses(q, Step(st, a).inserted, id)
    ensures AllPass(Step(st, a).rows, id, FilterOf(q))
  {
    match a
    case InsertBlock(block, out) =>
      PrefixPasses(q, st.inserted, block, id);
      forall i | 0 <= i < |st.rows + out| && (st.rows + out)[i].traceId == id
        ensures Passes(q, (st.rows + out)[i].columns.digest)
      {
        if i >= |st.rows| {
          assert RowOf(out[i - |st.rows|], block);
          SummaryPasses(q, block, id);
        } else {
          assert FilterOf(q)(st.rows[i].columns);
        }
      }
    case MergeRows(i, j) =>
      forall n | 0 <= n < |Merged(st.rows, i, j)| && Merged(st.rows, i, j)[n].traceId == id
        ensures Passes(q, Merged(st.rows, i, j)[n].columns.digest)
      {
        MergedAt(st.rows, i, j, n);
        if n == i {
          assert FilterOf(q)(st.rows[i].columns) && FilterOf(q)(st.rows[j].columns);
          PassingMerges(q, st.rows[i].columns.digest, st.rows[j].columns.digest);
        } else {
          assert FilterOf(q)(st.rows[if n < j then n else n + 1].columns);
        }
      }
  }

  lemma {:induction false} RunKeepsPassing(q: TraceQuery, actions: seq<Action>, st: State, id: string)
    requires Run(EMPTY_INDEX, actions) == Some(st) && EachPasses(q, st.inserted, id)
    ensures AllPass(st.rows, id, FilterOf(q))
    decreases |actions|
  {
    if actions == [] {
    } else {
      var n := |actions| - 1;
      var mid := Run(EMPTY_INDEX, actions[..n]).value;
      PrefixPasses(q, mid.inserted, if actions[n].InsertBlock? then actions[n].block else [], id);
      assert mid.inserted + [] == mid.inserted;
      RunKeepsPassing(q, actions[..n], mid, id);
      StepKeepsPassing(q, mid, actions[n], id);
    }
  }

  function RowFor(s: TraceSpan): IndexRow {
    IndexRow(s.traceId, One(s))
  }

  lemma RowForIsIndexed(s: TraceSpan)
    ensures Indexes([RowFor(s)], [s])
  {
    var block := [s];
    assert block[..0] == [];
    assert Summary(block, s.traceId) == Some(One(s));
    forall w: Label ensures PicksRoot(RowFor(s), block, w) {
      if IsRoot(s) {
        assert RootAt(block, s.traceId, w, LabelOf(w, s), 0);
      }
    }
    assert RowOf(RowFor(s), block);
    assert [RowFor(s)][0].traceId == s.traceId && Listed([RowFor(s)], s.traceId);
  }

  lemma InsertAlone(before: State, s: TraceSpan)
    requires Reachable(before)
    ensures Reachable(State(before.rows + [RowFor(s)], before.inserted + [s]))
  {
    var actions :| Run(EMPTY_INDEX, actions) == Some(before);
    RowForIsIndexed(s);
    RunSnoc(actions, before, InsertBlock([s], [RowFor(s)]));
  }

  /** One row per span, in order. */
  function SingleRows(spans: seq<TraceSpan>): (rows: seq<IndexRow>)
    ensures |rows| == |spans| && forall i :: 0 <= i < |spans| ==> rows[i] == RowFor(spans[i])
  {
    if spans == [] then [] else SingleRows(spans[..|spans| - 1]) + [RowFor(spans[|spans| - 1])]
  }

  /** The index when every span came in a block of its own and nothing was merged yet. */
  lemma {:induction false} Singly(spans: seq<TraceSpan>)
    ensures Reachable(State(SingleRows(spans), spans))
  {
    if spans == [] {
      assert Run(EMPTY_INDEX, []) == Some(EMPTY_INDEX);
    } else {
      var front, last := spans[..|spans| - 1], spans[|spans| - 1];
      Singly(front);
      InsertAlone(State(SingleRows(front), front), last);
      assert spans == front + [last];
    }
  }

  /** A search is sure to see the whole trace, in whatever blocks the spans came and whichever rows were
      merged, exactly when every single span of the trace passes its filter. */
  lemma SureToBeWholeIff(spans: seq<TraceSpan>, id: string, q: TraceQuery)
    ensures (forall st :: Reachable(st) && st.inserted == spans ==>
               DigestIn(Answer(st.rows, id, q)) == DigestOf(spans, id))
            <==> EachPasses(q, spans, id)
  {
    if EachPasses(q, spans, id) {
      forall st | Reachable(st) && st.inserted == spans ensures DigestIn(Answer(st.rows, id, q)) == DigestOf(spans, id) {
        var actions :| Run(EMPTY_INDEX, actions) == Some(st);
        RunKeepsPassing(q, actions, st, id);
        AnswerIsWholeIff(st, id, q);
      }
    } else {
      Singly(spans);
      var st := State(SingleRows(spans), spans);
      var i: nat :| At(spans, id, i) && !Passes(q, One(spans[i]).digest);
      assert !FilterOf(q)(st.rows[i].columns);
      AnswerIsWholeIff(st, id, q);
    }
  }

  // ---- when a background merge shows ----

  /** In every reachable index: a merge leaves the answer about a trace unchanged exactly when it merges
      rows of another trace, or the filter treats the merged row as it treats both parts. */
  lemma MergeShowsUnless(st: State, i: nat, j: nat, id: string, q: TraceQuery)
    requires Reachable(st) && Enabled(st, MergeRows(i, j))
    ensures Answer(Merged(st.rows, i, j), id, q) == Answer(st.rows, id, q)
            <==> st.rows[i].traceId != id || MergesAlike(FilterOf(q), st.rows[i].columns, st.rows[j].columns)
  {
    ReachableInv(st, id);
    if st.rows[i].traceId == id {
      MergeInvisibleIff(st.rows, i, j, id, FilterOf(q));
    } else {
      MergeSparesOthers(st.rows, i, j, id, FilterOf(q));
    }
  }

  lemma ScopeMerges(scope: Option<set<string>>, a: set<string>, b: set<string>)
    ensures InScope(scope, a + b) <==> InScope(scope, a) || InScope(scope, b)
  {
    if scope.Some? {
      assert (a + b) * scope.value == a * scope.value + b * scope.value;
    }
  }

  /** The two columns the lookup reads. */
  function WindowOf(o: Option<Columns>): Option<(int, int)> {
    if o.None? then None else Some((o.value.digest.start, o.value.digest.end))
  }

  lemma MergeWidens(a: Option<Columns>, seen: Columns, unseen: Columns, rest: Option<Columns>)
    ensures var before := WindowOf(Join(Join(a, Some(seen)), rest));
            && before.Some?
            && WindowOf(Join(Join(a, Some(Merge(seen, unseen))), rest))
               == Some((Least(before.value.0, unseen.digest.start), Greatest(before.value.1, unseen.digest.end)))
  {
  }

  /** One row is in scope, the other is not and reaches beyond the window. */
  predicate Widens(scope: Option<set<string>>, seen: Digest, unseen: Digest, window: Option<(int, int)>) {
    && InScope(scope, seen.services) && !InScope(scope, unseen.services)
    && window.Some? && !(window.value.0 <= unseen.start && unseen.end <= window.value.1)
  }

  lemma AloneInLookup(r: IndexRow, scope: Option<set<string>>)
    ensures Alone(r, r.traceId, FilterOf(Lookup(scope))) == if InScope(scope, r.columns.digest.services) then Some(r.columns) else None
  {
  }

  /** A merge changes the window the lookup finds exactly when one of the two rows is in the reader's
      scope and the other is not and reaches beyond that window. It never does for an unrestricted one. */
  lemma LookupSeesMergeIff(st: State, i: nat, j: nat, scope: Option<set<string>>)
    requires Reachable(st) && Enabled(st, MergeRows(i, j))
    ensures var id, x, y := st.rows[i].traceId, st.rows[i].columns.digest, st.rows[j].columns.digest;
            var window := WindowOf(Answer(st.rows, id, Lookup(scope)));
            WindowOf(Answer(Merged(st.rows, i, j), id, Lookup(scope))) != window
            <==> Widens(scope, x, y, window) || Widens(scope, y, x, window)
  {
    var id, a, b := st.rows[i].traceId, st.rows[i], st.rows[j];
    ScopeMerges(scope, a.columns.digest.services, b.columns.digest.services);
    AloneInLookup(a, scope);
    AloneInLookup(b, scope);
    AloneInLookup(MergedRow(a, b), scope);
    var rest, first := MergeInParts(st.rows, i, j, id, FilterOf(Lookup(scope)));
    if InScope(scope, a.columns.digest.services) && !InScope(scope, b.columns.digest.services) {
      MergeWidens(first, a.columns, b.columns, rest);
    } else if InScope(scope, b.columns.digest.services) && !InScope(scope, a.columns.digest.services) {
      MergeCommutes(a.columns, b.columns);
      MergeWidens(first, b.columns, a.columns, rest);
    }
  }

  // ---- the spans the trace detail reads ----

  const MARGIN: int := 60_000_000_000

  predicate InWindow(window: Option<Columns>, from: int, to: int) {
    window.Some? && window.value.digest.start - MARGIN <= from && to <= window.value.digest.end + MARGIN
  }

  /** The spans the detail query reads: those of the trace around the indexed window. */
  function DetailSpans(spans: seq<TraceSpan>, id: string, window: Option<Columns>): seq<TraceSpan> {
    if spans == [] then []
    else
      var rest, s := DetailSpans(spans[..|spans| - 1], id, window), spans[|spans| - 1];
      if s.traceId == id && InWindow(window, s.timestamp, s.timestamp) then rest + [s] else rest
  }

  function SpansOf(spans: seq<TraceSpan>, id: string): seq<TraceSpan> {
    if spans == [] then []
    else
      var rest, s := SpansOf(spans[..|spans| - 1], id), spans[|spans| - 1];
      if s.traceId == id then rest + [s] else rest
  }

  ghost predicate AllInWindow(spans: seq<TraceSpan>, id: string, window: Option<Columns>) {
    forall i: nat :: At(spans, id, i) ==> InWindow(window, spans[i].timestamp, spans[i].timestamp)
  }

  lemma AllInWindowSnoc(spans: seq<TraceSpan>, s: TraceSpan, id: string, window: Option<Columns>)
    ensures AllInWindow(spans + [s], id, window)
            <==> AllInWindow(spans, id, window) && (s.traceId == id ==> InWindow(window, s.timestamp, s.timestamp))
  {
    if AllInWindow(spans + [s], id, window) {
      forall i: nat | At(spans, id, i) ensures InWindow(window, spans[i].timestamp, spans[i].timestamp) {
        assert At(spans + [s], id, i);
      }
      assert s.traceId == id ==> At(spans + [s], id, |spans|);
    }
    if AllInWindow(spans, id, window) && (s.traceId == id ==> InWindow(window, s.timestamp, s.timestamp)) {
      forall i: nat | At(spans + [s], id, i)
        ensures InWindow(window, (spans + [s])[i].timestamp, (spans + [s])[i].timestamp)
      {
        assert i < |spans| ==> At(spans, id, i);
      }
    }
  }

  lemma {:induction false} DetailIsPart(spans: seq<TraceSpan>, id: string, window: Option<Columns>)
    ensures |DetailSpans(spans, id, window)| <= |SpansOf(spans, id)|
    ensures |DetailSpans(spans, id, window)| == |SpansOf(spans, id)| <==> AllInWindow(spans, id, window)
    ensures AllInWindow(spans, id, window) ==> DetailSpans(spans, id, window) == SpansOf(spans, id)
  {
    if spans == [] {
    } else {
      var front, last := spans[..|spans| - 1], spans[|spans| - 1];
      assert spans == front + [last];
      DetailIsPart(front, id, window);
      AllInWindowSnoc(front, last, id, window);
    }
  }

  lemma {:induction false} RowsCovered(rows: seq<IndexRow>, id: string, i: nat)
    requires i < |rows| && rows[i].traceId == id
    ensures Search(rows, id, Everything()).Some?
    ensures var d := Search(rows, id, Everything()).value.digest;
            d.start <= rows[i].columns.digest.start && rows[i].columns.digest.end <= d.end
  {
    var front := rows[..|rows| - 1];
    if i < |front| {
      assert front[i] == rows[i];
      RowsCovered(front, id, i);
    }
  }

  lemma {:induction false} FirstRow(rows: seq<IndexRow>, id: string) returns (i: nat)
    requires Search(rows, id, Everything()).Some?
    ensures i < |rows| && rows[i].traceId == id
    ensures rows[i].columns.digest.start == Search(rows, id, Everything()).value.digest.start
  {
    var front, last := rows[..|rows| - 1], rows[|rows| - 1];
    if last.traceId == id && last.columns.digest.start == Search(rows, id, Everything()).value.digest.start {
      i := |rows| - 1;
    } else {
      i := FirstRow(front, id);
    }
  }

  lemma {:induction false} LastRow(rows: seq<IndexRow>, id: string) returns (i: nat)
    requires Search(rows, id, Everything()).Some?
    ensures i < |rows| && rows[i].traceId == id
    ensures rows[i].columns.digest.end == Search(rows, id, Everything()).value.digest.end
  {
    var front, last := rows[..|rows| - 1], rows[|rows| - 1];
    if last.traceId == id && last.columns.digest.end == Search(rows, id, Everything()).value.digest.end {
      i := |rows| - 1;
    } else {
      i := LastRow(front, id);
    }
  }

  /** Every row of the trace, in scope or not, lies around the window. */
  ghost predicate RowsInWindow(rows: seq<IndexRow>, id: string, window: Option<Columns>) {
    forall i :: 0 <= i < |rows| && rows[i].traceId == id ==>
      InWindow(window, rows[i].columns.digest.start, rows[i].columns.digest.end)
  }

  lemma RowsInWindowReads(st: State, id: string, window: Option<Columns>)
    requires Inv(st, id) && RowsInWindow(st.rows, id, window)
    ensures AllInWindow(st.inserted, id, window)
  {
    forall n: nat | At(st.inserted, id, n) ensures InWindow(window, st.inserted[n].timestamp, st.inserted[n].timestamp) {
      DigestCovers(st.inserted, id, n);
      var i := FirstRow(st.rows, id);
      var j := LastRow(st.rows, id);
    }
  }

  lemma SpansInWindowCover(st: State, id: string, window: Option<Columns>)
    requires Inv(st, id) && AllInWindow(st.inserted, id, window)
    ensures RowsInWindow(st.rows, id, window)
  {
    forall i | 0 <= i < |st.rows| && st.rows[i].traceId == id
      ensures InWindow(window, st.rows[i].columns.digest.start, st.rows[i].columns.digest.end)
    {
      RowsCovered(st.rows, id, i);
      var first := StartAttained(st.inserted, id);
      var last := EndAttained(st.inserted, id);
    }
  }

  /** In every reachable index: a reader gets every span of the trace exactly when each row of the trace,
      in its scope or not, lies within the margin around the window of the rows in its scope. */
  lemma DetailIsWholeIff(st: State, id: string, scope: Option<set<string>>)
    requires Reachable(st)
    ensures var window := Answer(st.rows, id, Lookup(scope));
            DetailSpans(st.inserted, id, window) == SpansOf(st.inserted, id) <==> RowsInWindow(st.rows, id, window)
  {
    var window := Answer(st.rows, id, Lookup(scope));
    ReachableInv(st, id);
    DetailIsPart(st.inserted, id, window);
    if RowsInWindow(st.rows, id, window) {
      RowsInWindowReads(st, id, window);
    }
    if AllInWindow(st.inserted, id, window) {
      SpansInWindowCover(st, id, window);
    }
  }

  /** Looking up the window first costs an unrestricted reader no span of the trace. */
  lemma WindowLosesNothing(st: State, id: string)
    requires Reachable(st)
    ensures DetailSpans(st.inserted, id, Answer(st.rows, id, Lookup(None))) == SpansOf(st.inserted, id)
  {
    var window := Answer(st.rows, id, Lookup(None));
    AllPassingIsEverything(st.rows, id, FilterOf(Lookup(None)));
    forall i | 0 <= i < |st.rows| && st.rows[i].traceId == id
      ensures InWindow(window, st.rows[i].columns.digest.start, st.rows[i].columns.digest.end)
    {
      RowsCovered(st.rows, id, i);
    }
    DetailIsWholeIff(st, id, None);
  }

  // ---- two runs that show it ----

  /** Two spans of a trace, each in a block of its own, then merged. */
  lemma TwoBlocks(a: TraceSpan, b: TraceSpan) returns (before: State, after: State)
    requires a.traceId == b.traceId
    ensures Reachable(before) && Enabled(before, MergeRows(0, 1)) && after == Step(before, MergeRows(0, 1)) && Reachable(after)
    ensures before.inserted == [a, b] == after.inserted
    ensures before.rows == [RowFor(a), RowFor(b)] && after.rows == [MergedRow(RowFor(a), RowFor(b))]
  {
    Singly([a, b]);
    before := State(SingleRows([a, b]), [a, b]);
    assert before.rows == [RowFor(a), RowFor(b)];
    var actions :| Run(EMPTY_INDEX, actions) == Some(before);
    RunSnoc(actions, before, MergeRows(0, 1));
    after := Step(before, MergeRows(0, 1));
    assert after.rows == [MergedRow(RowFor(a), RowFor(b))];
  }

  lemma AnswerOfOne(r: IndexRow, q: TraceQuery)
    ensures Answer([r], r.traceId, q) == if Passes(q, r.columns.digest) then Some(r.columns) else None
  {
    SearchSnoc([], r, r.traceId, FilterOf(q));
    assert [] + [r] == [r];
  }

  lemma AnswerOfTwo(r: IndexRow, t: IndexRow, q: TraceQuery)
    requires r.traceId == t.traceId
    ensures Answer([r, t], r.traceId, q)
            == Join(Answer([r], r.traceId, q), if Passes(q, t.columns.digest) then Some(t.columns) else None)
  {
    SearchSnoc([r], t, r.traceId, FilterOf(q));
    assert [r] + [t] == [r, t];
  }

  /** A search over [50, 200) shows a trace whose root starts at 100, and no longer shows it once the
      root's row was merged with that of a child stamped 0. */
  lemma MergeHidesTrace(id: string, parent: string, service: string, name: string) returns (before: State, after: State)
    requires parent != ""
    ensures Reachable(before) && Reachable(after) && before.inserted == after.inserted
    ensures Enabled(before, MergeRows(0, 1)) && after == Step(before, MergeRows(0, 1))
    ensures var q := TraceQuery(Some((50, 200)), None, "", None, false);
            && Answer(before.rows, id, q).Some?
            && Answer(before.rows, id, q).value.rootService == service
            && Answer(after.rows, id, q) == None
  {
    var child := TraceSpan(id, 0, parent, service, name, 7, false);
    var root := TraceSpan(id, 100, "", service, name, 7, false);
    var q := TraceQuery(Some((50, 200)), None, "", None, false);
    before, after := TwoBlocks(child, root);
    AnswerOfOne(RowFor(child), q);
    AnswerOfTwo(RowFor(child), RowFor(root), q);
    AnswerOfOne(MergedRow(RowFor(child), RowFor(root)), q);
  }

  /** A reader restricted to service "a" misses the span of "b" two minutes later, and gets it once the
      two rows were merged. */
  lemma ScopedReaderMisses(id: string, parent: string, name: string) returns (a: TraceSpan, b: TraceSpan, before: State, after: State)
    ensures a.service == "a" && b.service == "b" && a.traceId == b.traceId == id
    ensures Reachable(before) && Reachable(after) && before.inserted == [a, b] == after.inserted
    ensures Enabled(before, MergeRows(0, 1)) && after == Step(before, MergeRows(0, 1))
    ensures DetailSpans(before.inserted, id, Answer(before.rows, id, Lookup(Some({"a"})))) == [a]
    ensures DetailSpans(after.inserted, id, Answer(after.rows, id, Lookup(Some({"a"})))) == [a, b]
  {
    a := TraceSpan(id, 0, parent, "a", name, 7, false);
    b := TraceSpan(id, 2 * MARGIN, parent, "b", name, 7, false);
    var q := Lookup(Some({"a"}));
    before, after := TwoBlocks(a, b);
    assert "a" in {"a"} * {"a"} && {"b"} * {"a"} == {};
    assert "a" in ({"a"} + {"b"}) * {"a"};
    AnswerOfOne(RowFor(a), q);
    AnswerOfTwo(RowFor(a), RowFor(b), q);
    AnswerOfOne(MergedRow(RowFor(a), RowFor(b)), q);
    DetailOfTwo(a, b, id, Answer(before.rows, id, q));
    DetailOfTwo(a, b, id, Answer(after.rows, id, q));
  }

  lemma DetailSnoc(spans: seq<TraceSpan>, s: TraceSpan, id: string, window: Option<Columns>)
    ensures DetailSpans(spans + [s], id, window)
            == DetailSpans(spans, id, window) + if s.traceId == id && InWindow(window, s.timestamp, s.timestamp) then [s] else []
  {
    assert (spans + [s])[..|spans|] == spans;
  }

  lemma DetailOfTwo(a: TraceSpan, b: TraceSpan, id: string, window: Option<Columns>)
    requires a.traceId == b.traceId == id && InWindow(window, a.timestamp, a.timestamp)
    ensures DetailSpans([a, b], id, window) == if InWindow(window, b.timestamp, b.timestamp) then [a, b] else [a]
  {
    DetailSnoc([], a, id, window);
    DetailSnoc([a], b, id, window);
    assert [] + [a] == [a] && [a] + [b] == [a, b] && [a] + [] == [a];
  }
}
