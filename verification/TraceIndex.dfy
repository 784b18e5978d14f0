/** The trace index: every inserted block of spans leaves one row per trace, background merges
    combine rows by the columns' merge functions, and a query combines those of the remaining rows
    that pass its filter. Rows are filtered before they are combined, so what a query returns may
    depend on the blocks and the merges; this module says exactly when it does not. */
module TraceIndex {
  import opened Basics

  datatype TraceSpan = TraceSpan(
    traceId: string,
    timestamp: int,
    parentSpanId: string,
    service: string,
    name: string,
    durationNs: nat,
    isError: bool)

  /** The columns that do not depend on a choice: merged by min, max, max, sum, sum and union. */
  datatype Digest = Digest(start: int, end: int, durationNs: nat, spans: nat, errors: nat, services: set<string>)

  /** All columns; the two that name a root are merged by max. */
  datatype Columns = Columns(digest: Digest, rootService: string, rootName: string)

  datatype IndexRow = IndexRow(traceId: string, columns: Columns)

  // ---- the merge functions ----

  function Least(a: int, b: int): int {
    if b < a then b else a
  }

  function Greatest(a: int, b: int): int {
    if a < b then b else a
  }

  function MergeDigest(a: Digest, b: Digest): Digest {
    Digest(Least(a.start, b.start), Greatest(a.end, b.end), Max(a.durationNs, b.durationNs),
           a.spans + b.spans, a.errors + b.errors, a.services + b.services)
  }

  /** The order of the `max` on strings: by the first difference, a prefix before its extension. */
  predicate StringLess(a: string, b: string)
    decreases |a|
  {
    if b == "" then false
    else if a == "" then true
    else if a[0] != b[0] then a[0] < b[0]
    else StringLess(a[1..], b[1..])
  }

  function MaxString(a: string, b: string): string {
    if StringLess(a, b) then b else a
  }

  function Merge(a: Columns, b: Columns): Columns {
    Columns(MergeDigest(a.digest, b.digest), MaxString(a.rootService, b.rootService), MaxString(a.rootName, b.rootName))
  }

  lemma {:induction false} OneIsLess(a: string, b: string)
    ensures !(StringLess(a, b) && StringLess(b, a))
    ensures a != b ==> StringLess(a, b) || StringLess(b, a)
    decreases |a|
  {
    if a == "" || b == "" {
    } else if a[0] == b[0] {
      OneIsLess(a[1..], b[1..]);
      assert a == [a[0]] + a[1..] && b == [b[0]] + b[1..];
    }
  }

  lemma {:induction false} LessIsTransitive(a: string, b: string, c: string)
    requires StringLess(a, b) && StringLess(b, c)
    ensures StringLess(a, c)
    decreases |a|
  {
    if a == "" {
    } else if a[0] == b[0] == c[0] {
      LessIsTransitive(a[1..], b[1..], c[1..]);
    }
  }

  lemma MaxStringCommutes(a: string, b: string)
    ensures MaxString(a, b) == MaxString(b, a)
  {
    OneIsLess(a, b);
  }

  lemma MaxStringAssociates(a: string, b: string, c: string)
    ensures MaxString(MaxString(a, b), c) == MaxString(a, MaxString(b, c))
  {
    OneIsLess(a, b);
    OneIsLess(b, c);
    OneIsLess(a, c);
    if StringLess(a, b) && StringLess(b, c) {
      LessIsTransitive(a, b, c);
    }
    if StringLess(c, b) && StringLess(b, a) {
      LessIsTransitive(c, b, a);
    }
  }

  lemma MergeAssociates(a: Columns, b: Columns, c: Columns)
    ensures Merge(Merge(a, b), c) == Merge(a, Merge(b, c))
  {
    MaxStringAssociates(a.rootService, b.rootService, c.rootService);
    MaxStringAssociates(a.rootName, b.rootName, c.rootName);
    assert a.digest.services + b.digest.services + c.digest.services
        == a.digest.services + (b.digest.services + c.digest.services);
  }

  lemma MergeCommutes(a: Columns, b: Columns)
    ensures Merge(a, b) == Merge(b, a)
  {
    MaxStringCommutes(a.rootService, b.rootService);
    MaxStringCommutes(a.rootName, b.rootName);
    assert a.digest.services + b.digest.services == b.digest.services + a.digest.services;
  }

  /** No rows at all is the neutral element of the merge. */
  function Join(a: Option<Columns>, b: Option<Columns>): Option<Columns> {
    if a.None? then b else if b.None? then a else Some(Merge(a.value, b.value))
  }

  /** Rows merge in any grouping. */
  lemma JoinAssociates(a: Option<Columns>, b: Option<Columns>, c: Option<Columns>)
    ensures Join(Join(a, b), c) == Join(a, Join(b, c))
  {
    if a.Some? && b.Some? && c.Some? {
      MergeAssociates(a.value, b.value, c.value);
    }
  }

  /** Rows merge in any order. */
  lemma JoinCommutes(a: Option<Columns>, b: Option<Columns>)
    ensures Join(a, b) == Join(b, a)
  {
    if a.Some? && b.Some? {
      MergeCommutes(a.value, b.value);
    }
  }

  function DigestIn(o: Option<Columns>): Option<Digest> {
    if o.None? then None else Some(o.value.digest)
  }

  function SpansIn(o: Option<Columns>): nat {
    if o.None? then 0 else o.value.digest.spans
  }

  lemma DigestInJoin(a: Option<Columns>, a': Option<Columns>, b: Option<Columns>, b': Option<Columns>)
    requires DigestIn(a) == DigestIn(a') && DigestIn(b) == DigestIn(b')
    ensures DigestIn(Join(a, b)) == DigestIn(Join(a', b'))
  {
  }

  // ---- the truth: one summary per trace, straight from the spans ----

  predicate IsRoot(s: TraceSpan) {
    s.parentSpanId == ""
  }

  /** What a block of this one span leaves in the index. */
  function One(s: TraceSpan): Columns {
    Columns(Digest(s.timestamp, s.timestamp, if IsRoot(s) then s.durationNs else 0, 1,
                   if s.isError then 1 else 0, {s.service}),
            if IsRoot(s) then s.service else "", if IsRoot(s) then s.name else "")
  }

  function Summary(spans: seq<TraceSpan>, id: string): Option<Columns> {
    if spans == [] then None
    else
      var rest, s := Summary(spans[..|spans| - 1], id), spans[|spans| - 1];
      if s.traceId == id then Join(rest, Some(One(s))) else rest
  }

  /** The digest of a trace. */
  function DigestOf(spans: seq<TraceSpan>, id: string): Option<Digest> {
    DigestIn(Summary(spans, id))
  }

  lemma {:induction false} SummaryConcat(a: seq<TraceSpan>, b: seq<TraceSpan>, id: string)
    ensures Summary(a + b, id) == Join(Summary(a, id), Summary(b, id))
  {
    if b == [] {
      assert a + b == a;
    } else {
      var last := b[|b| - 1];
      assert (a + b)[..|a + b| - 1] == a + b[..|b| - 1];
      SummaryConcat(a, b[..|b| - 1], id);
      JoinAssociates(Summary(a, id), Summary(b[..|b| - 1], id), Some(One(last)));
    }
  }

  predicate At(spans: seq<TraceSpan>, id: string, i: nat) {
    i < |spans| && spans[i].traceId == id
  }

  ghost predicate Has(spans: seq<TraceSpan>, id: string) {
    exists i: nat :: At(spans, id, i)
  }

  function CountOf(spans: seq<TraceSpan>, id: string): nat {
    if spans == [] then 0 else CountOf(spans[..|spans| - 1], id) + if spans[|spans| - 1].traceId == id then 1 else 0
  }

  function ErrorsOf(spans: seq<TraceSpan>, id: string): nat {
    if spans == [] then 0
    else
      var s := spans[|spans| - 1];
      ErrorsOf(spans[..|spans| - 1], id) + if s.traceId == id && s.isError then 1 else 0
  }

  /** The window holds every span of the trace, the duration every root, the services every service. */
  ghost predicate Covers(d: Digest, spans: seq<TraceSpan>, id: string) {
    forall i: nat :: At(spans, id, i) ==>
      && d.start <= spans[i].timestamp <= d.end
      && spans[i].service in d.services
      && (IsRoot(spans[i]) ==> spans[i].durationNs <= d.durationNs)
  }

  /** And none of them claims more than some span of the trace shows. */
  ghost predicate Attained(d: Digest, spans: seq<TraceSpan>, id: string) {
    && (exists i: nat :: At(spans, id, i) && spans[i].timestamp == d.start)
    && (exists i: nat :: At(spans, id, i) && spans[i].timestamp == d.end)
    && (d.durationNs == 0 || exists i: nat :: At(spans, id, i) && IsRoot(spans[i]) && spans[i].durationNs == d.durationNs)
    && (forall v :: v in d.services ==> exists i: nat :: At(spans, id, i) && spans[i].service == v)
  }

  lemma {:induction false} NoSpansNoDigest(spans: seq<TraceSpan>, id: string)
    requires !Has(spans, id)
    ensures Summary(spans, id) == None
  {
    if spans == [] {
    } else {
      var front, n := spans[..|spans| - 1], |spans| - 1;
      assert !At(spans, id, n);
      forall i: nat ensures !At(front, id, i) {
        assert !At(spans, id, i);
      }
      NoSpansNoDigest(front, id);
    }
  }

  lemma {:induction false} DigestCovers(spans: seq<TraceSpan>, id: string, i: nat)
    requires At(spans, id, i)
    ensures DigestOf(spans, id).Some?
    ensures var d := DigestOf(spans, id).value;
            && d.start <= spans[i].timestamp <= d.end
            && spans[i].service in d.services
            && (IsRoot(spans[i]) ==> spans[i].durationNs <= d.durationNs)
  {
    var front := spans[..|spans| - 1];
    if i < |front| {
      assert front[i] == spans[i];
      DigestCovers(front, id, i);
    }
  }

  lemma {:induction false} StartAttained(spans: seq<TraceSpan>, id: string) returns (i: nat)
    requires DigestOf(spans, id).Some?
    ensures At(spans, id, i) && spans[i].timestamp == DigestOf(spans, id).value.start
  {
    var front, last := spans[..|spans| - 1], spans[|spans| - 1];
    if last.traceId == id && last.timestamp == DigestOf(spans, id).value.start {
      i := |spans| - 1;
    } else {
      i := StartAttained(front, id);
    }
  }

  lemma {:induction false} EndAttained(spans: seq<TraceSpan>, id: string) returns (i: nat)
    requires DigestOf(spans, id).Some?
    ensures At(spans, id, i) && spans[i].timestamp == DigestOf(spans, id).value.end
  {
    var front, last := spans[..|spans| - 1], spans[|spans| - 1];
    if last.traceId == id && last.timestamp == DigestOf(spans, id).value.end {
      i := |spans| - 1;
    } else {
      i := EndAttained(front, id);
    }
  }

  lemma {:induction false} DurationAttained(spans: seq<TraceSpan>, id: string) returns (i: nat)
    requires DigestOf(spans, id).Some? && DigestOf(spans, id).value.durationNs > 0
    ensures At(spans, id, i) && IsRoot(spans[i]) && spans[i].durationNs == DigestOf(spans, id).value.durationNs
  {
    var front, last := spans[..|spans| - 1], spans[|spans| - 1];
    if last.traceId == id && IsRoot(last) && last.durationNs == DigestOf(spans, id).value.durationNs {
      i := |spans| - 1;
    } else {
      i := DurationAttained(front, id);
    }
  }

  lemma {:induction false} ServiceAttained(spans: seq<TraceSpan>, id: string, v: string) returns (i: nat)
    requires DigestOf(spans, id).Some? && v in DigestOf(spans, id).value.services
    ensures At(spans, id, i) && spans[i].service == v
  {
    var front, last := spans[..|spans| - 1], spans[|spans| - 1];
    if last.traceId == id && last.service == v {
      i := |spans| - 1;
    } else {
      i := ServiceAttained(front, id, v);
    }
  }

  /** The digest in plain terms: it exists exactly for the traces that have spans, its window is the
      exact range of their timestamps, its duration the largest of a root (zero without roots) and its
      services are exactly theirs. */
  lemma DigestMeaning(spans: seq<TraceSpan>, id: string)
    ensures DigestOf(spans, id).Some? <==> Has(spans, id)
    ensures DigestOf(spans, id).Some? ==>
              Covers(DigestOf(spans, id).value, spans, id) && Attained(DigestOf(spans, id).value, spans, id)
  {
    if Has(spans, id) {
      var i: nat :| At(spans, id, i);
      DigestCovers(spans, id, i);
      DigestIsExact(spans, id);
    } else {
      NoSpansNoDigest(spans, id);
    }
  }

  lemma DigestIsExact(spans: seq<TraceSpan>, id: string)
    requires DigestOf(spans, id).Some?
    ensures Covers(DigestOf(spans, id).value, spans, id)
    ensures Attained(DigestOf(spans, id).value, spans, id)
  {
    var d := DigestOf(spans, id).value;
    forall i: nat | At(spans, id, i)
      ensures d.start <= spans[i].timestamp <= d.end && spans[i].service in d.services
      ensures IsRoot(spans[i]) ==> spans[i].durationNs <= d.durationNs
    {
      DigestCovers(spans, id, i);
    }
    var first := StartAttained(spans, id);
    var last := EndAttained(spans, id);
    if d.durationNs > 0 {
      var longest := DurationAttained(spans, id);
    }
    forall v | v in d.services ensures exists i: nat :: At(spans, id, i) && spans[i].service == v {
      var i := ServiceAttained(spans, id, v);
    }
  }

  lemma {:induction false} DigestCounts(spans: seq<TraceSpan>, id: string)
    ensures DigestOf(spans, id).None? ==> CountOf(spans, id) == 0 && ErrorsOf(spans, id) == 0
    ensures DigestOf(spans, id).Some? ==>
              var d := DigestOf(spans, id).value;
              d.spans == CountOf(spans, id) >= 1 && d.errors == ErrorsOf(spans, id) <= d.spans
  {
    if spans == [] {
    } else {
      DigestCounts(spans[..|spans| - 1], id);
    }
  }

  // ---- the stored rows ----

  /** The two columns that name a root. */
  datatype Label = ServiceLabel | NameLabel

  function LabelOf(w: Label, s: TraceSpan): string {
    if w == ServiceLabel then s.service else s.name
  }

  function Shown(w: Label, c: Columns): string {
    if w == ServiceLabel then c.rootService else c.rootName
  }

  predicate RootAt(spans: seq<TraceSpan>, id: string, w: Label, v: string, i: nat) {
    At(spans, id, i) && IsRoot(spans[i]) && LabelOf(w, spans[i]) == v
  }

  /** Some root of the trace carries the label. */
  ghost predicate RootIn(spans: seq<TraceSpan>, id: string, w: Label, v: string) {
    exists i: nat :: RootAt(spans, id, w, v, i)
  }

  /** One row of the view over a block: `anyIf` may pick any root of the trace in the block, for each of
      the two columns. */
  ghost predicate RowOf(r: IndexRow, block: seq<TraceSpan>) {
    && DigestOf(block, r.traceId) == Some(r.columns.digest)
    && forall w: Label :: PicksRoot(r, block, w)
  }

  ghost predicate PicksRoot(r: IndexRow, block: seq<TraceSpan>, w: Label) {
    || RootIn(block, r.traceId, w, Shown(w, r.columns))
    || (Shown(w, r.columns) == "" && forall v: string :: !RootIn(block, r.traceId, w, v))
  }

  predicate Listed(out: seq<IndexRow>, id: string) {
    exists i :: 0 <= i < |out| && out[i].traceId == id
  }

  ghost predicate Indexes(out: seq<IndexRow>, block: seq<TraceSpan>) {
    && (forall i :: 0 <= i < |out| ==> RowOf(out[i], block))
    && (forall i, j :: 0 <= i < j < |out| ==> out[i].traceId != out[j].traceId)
    && (forall i :: 0 <= i < |block| ==> Listed(out, block[i].traceId))
  }

  function MergedRow(a: IndexRow, b: IndexRow): IndexRow {
    IndexRow(a.traceId, Merge(a.columns, b.columns))
  }

  datatype State = State(rows: seq<IndexRow>, inserted: seq<TraceSpan>)

  datatype Action = InsertBlock(block: seq<TraceSpan>, out: seq<IndexRow>) | MergeRows(i: nat, j: nat)

  const EMPTY_INDEX: State := State([], [])

  ghost predicate Enabled(st: State, a: Action) {
    match a
    case InsertBlock(block, out) => Indexes(out, block)
    case MergeRows(i, j) => i < j < |st.rows| && st.rows[i].traceId == st.rows[j].traceId
  }

  function Merged(rows: seq<IndexRow>, i: nat, j: nat): seq<IndexRow>
    requires i < j < |rows|
  {
    rows[..i] + [MergedRow(rows[i], rows[j])] + rows[i + 1..j] + rows[j + 1..]
  }

  ghost function Step(st: State, a: Action): State
    requires Enabled(st, a)
  {
    match a
    case InsertBlock(block, out) => State(st.rows + out, st.inserted + block)
    case MergeRows(i, j) => State(Merged(st.rows, i, j), st.inserted)
  }

  ghost function Run(st: State, actions: seq<Action>): Option<State>
    decreases |actions|
  {
    if actions == [] then Some(st)
    else
      var n := |actions| - 1;
      var mid := Run(st, actions[..n]);
      if mid.Some? && Enabled(mid.value, actions[n]) then Some(Step(mid.value, actions[n])) else None
  }

  /** The index after some insertions and merges. */
  ghost predicate Reachable(st: State) {
    exists actions :: Run(EMPTY_INDEX, actions) == Some(st)
  }

  lemma RunSnoc(actions: seq<Action>, mid: State, a: Action)
    requires Run(EMPTY_INDEX, actions) == Some(mid) && Enabled(mid, a)
    ensures Run(EMPTY_INDEX, actions + [a]) == Some(Step(mid, a))
  {
    assert (actions + [a])[..|actions|] == actions;
  }

  // ---- queries ----

  type RowFilter = Columns -> bool

  /** What a query returns for a trace: the rows that pass the filter, combined. */
  function Search(rows: seq<IndexRow>, id: string, f: RowFilter): Option<Columns> {
    if rows == [] then None
    else
      var rest, r := Search(rows[..|rows| - 1], id, f), rows[|rows| - 1];
      if r.traceId == id && f(r.columns) then Join(rest, Some(r.columns)) else rest
  }

  function Everything(): RowFilter {
    (c: Columns) => true
  }

  ghost predicate AllPass(rows: seq<IndexRow>, id: string, f: RowFilter) {
    forall i :: 0 <= i < |rows| && rows[i].traceId == id ==> f(rows[i].columns)
  }

  function Alone(r: IndexRow, id: string, f: RowFilter): Option<Columns> {
    if r.traceId == id && f(r.columns) then Some(r.columns) else None
  }

  lemma SearchSnoc(rows: seq<IndexRow>, r: IndexRow, id: string, f: RowFilter)
    ensures Search(rows + [r], id, f) == Join(Search(rows, id, f), Alone(r, id, f))
  {
    assert (rows + [r])[..|rows|] == rows;
  }

  lemma {:induction false} SearchConcat(a: seq<IndexRow>, b: seq<IndexRow>, id: string, f: RowFilter)
    ensures Search(a + b, id, f) == Join(Search(a, id, f), Search(b, id, f))
  {
    if b == [] {
      assert a + b == a;
    } else {
      var front, last := b[..|b| - 1], b[|b| - 1];
      assert a + b == a + front + [last];
      SearchConcat(a, front, id, f);
      SearchSnoc(a + front, last, id, f);
      JoinAssociates(Search(a, id, f), Search(front, id, f), Alone(last, id, f));
      assert b == front + [last];
      SearchSnoc(front, last, id, f);
    }
  }

  lemma SearchAround(a: seq<IndexRow>, r: IndexRow, b: seq<IndexRow>, id: string, f: RowFilter)
    ensures Search(a + [r] + b, id, f) == Join(Join(Search(a, id, f), Alone(r, id, f)), Search(b, id, f))
  {
    SearchConcat(a + [r], b, id, f);
    SearchSnoc(a, r, id, f);
  }

  // ---- what a merge does to an answer ----

  lemma Pull(a: Option<Columns>, x: Option<Columns>, b: Option<Columns>, y: Option<Columns>, d: Option<Columns>)
    ensures Join(Join(a, x), Join(Join(b, y), d)) == Join(Join(a, Join(x, y)), Join(b, d))
  {
    JoinCommutes(b, y);
    JoinAssociates(y, b, d);
    JoinAssociates(a, x, Join(y, Join(b, d)));
    JoinAssociates(x, y, Join(b, d));
    JoinAssociates(a, Join(x, y), Join(b, d));
  }

  /** The answers before and after a merge, in the same five parts. */
  lemma MergeInParts(rows: seq<IndexRow>, i: nat, j: nat, id: string, f: RowFilter) returns (rest: Option<Columns>, a: Option<Columns>)
    requires i < j < |rows| && rows[i].traceId == rows[j].traceId
    ensures Search(rows, id, f) == Join(Join(a, Join(Alone(rows[i], id, f), Alone(rows[j], id, f))), rest)
    ensures Search(Merged(rows, i, j), id, f) == Join(Join(a, Alone(MergedRow(rows[i], rows[j]), id, f)), rest)
  {
    var p, q, s := rows[..i], rows[i + 1..j], rows[j + 1..];
    var x, y := rows[i], rows[j];
    assert rows == p + [x] + (q + [y] + s);
    assert Merged(rows, i, j) == p + [MergedRow(x, y)] + (q + s);
    SearchAround(p, x, q + [y] + s, id, f);
    SearchAround(q, y, s, id, f);
    SearchAround(p, MergedRow(x, y), q + s, id, f);
    SearchConcat(q, s, id, f);
    Pull(Search(p, id, f), Alone(x, id, f), Search(q, id, f), Alone(y, id, f), Search(s, id, f));
    a, rest := Search(p, id, f), Search(q + s, id, f);
  }

  lemma SpansInJoin(a: Option<Columns>, b: Option<Columns>)
    ensures SpansIn(Join(a, b)) == SpansIn(a) + SpansIn(b)
  {
  }

  /** The filter treats the merged row as it treats both of its parts. */
  predicate MergesAlike(f: RowFilter, x: Columns, y: Columns) {
    f(x) == f(Merge(x, y)) == f(y)
  }

  /** Exactly when a background merge is invisible to a query: the merged row passes its filter if and
      only if both parts do, and fails it if and only if both do. */
  lemma MergeInvisibleIff(rows: seq<IndexRow>, i: nat, j: nat, id: string, f: RowFilter)
    requires i < j < |rows| && rows[i].traceId == rows[j].traceId == id
    requires rows[i].columns.digest.spans >= 1 && rows[j].columns.digest.spans >= 1
    ensures Search(Merged(rows, i, j), id, f) == Search(rows, id, f)
            <==> MergesAlike(f, rows[i].columns, rows[j].columns)
    ensures DigestIn(Search(Merged(rows, i, j), id, f)) == DigestIn(Search(rows, id, f))
            <==> MergesAlike(f, rows[i].columns, rows[j].columns)
  {
    var rest, a := MergeInParts(rows, i, j, id, f);
    var x, y, m := Alone(rows[i], id, f), Alone(rows[j], id, f), Alone(MergedRow(rows[i], rows[j]), id, f);
    SpansInJoin(x, y);
    SpansInJoin(a, Join(x, y));
    SpansInJoin(Join(a, Join(x, y)), rest);
    SpansInJoin(a, m);
    SpansInJoin(Join(a, m), rest);
    assert MergesAlike(f, rows[i].columns, rows[j].columns) ==> m == Join(x, y);
  }

  /** A merge within one trace never shows in the answer for another. */
  lemma MergeSparesOthers(rows: seq<IndexRow>, i: nat, j: nat, id: string, f: RowFilter)
    requires i < j < |rows| && rows[i].traceId == rows[j].traceId != id
    ensures Search(Merged(rows, i, j), id, f) == Search(rows, id, f)
  {
    var rest, a := MergeInParts(rows, i, j, id, f);
  }

  // ---- what every reachable index satisfies ----

  /** Every row names a root of its trace or nothing, and one row names a root if there is any. */
  ghost predicate RootsProper(rows: seq<IndexRow>, spans: seq<TraceSpan>, id: string, w: Label) {
    && (forall i :: 0 <= i < |rows| && rows[i].traceId == id ==>
          Shown(w, rows[i].columns) == "" || RootIn(spans, id, w, Shown(w, rows[i].columns)))
    && ((exists v: string :: RootIn(spans, id, w, v)) ==> NamesRoot(rows, spans, id, w))
  }

  ghost predicate NamesRoot(rows: seq<IndexRow>, spans: seq<TraceSpan>, id: string, w: Label) {
    exists i :: 0 <= i < |rows| && rows[i].traceId == id && RootIn(spans, id, w, Shown(w, rows[i].columns))
  }

  ghost predicate NoEmptyRow(rows: seq<IndexRow>) {
    forall i :: 0 <= i < |rows| ==> rows[i].columns.digest.spans >= 1
  }

  ghost predicate Inv(st: State, id: string) {
    && NoEmptyRow(st.rows)
    && DigestIn(Search(st.rows, id, Everything())) == DigestOf(st.inserted, id)
    && forall w: Label :: RootsProper(st.rows, st.inserted, id, w)
  }

  lemma ListedSnoc(out: seq<IndexRow>, r: IndexRow, id: string)
    ensures Listed(out + [r], id) <==> Listed(out, id) || r.traceId == id
  {
    if Listed(out, id) {
      var i :| 0 <= i < |out| && out[i].traceId == id;
      assert (out + [r])[i].traceId == id;
    }
    assert (out + [r])[|out|] == r;
    if Listed(out + [r], id) {
      var i :| 0 <= i < |out| + 1 && (out + [r])[i].traceId == id;
      assert i < |out| ==> out[i].traceId == id;
    }
  }

  /** The rows of one block hold the digest of every trace they list. */
  lemma {:induction false} BlockDigest(out: seq<IndexRow>, block: seq<TraceSpan>, id: string)
    requires forall i :: 0 <= i < |out| ==> RowOf(out[i], block)
    requires forall i, j :: 0 <= i < j < |out| ==> out[i].traceId != out[j].traceId
    ensures DigestIn(Search(out, id, Everything())) == if Listed(out, id) then DigestOf(block, id) else None
  {
    if out == [] {
    } else {
      var front, last := out[..|out| - 1], out[|out| - 1];
      BlockDigest(front, block, id);
      assert RowOf(last, block);
      assert out == front + [last];
      ListedSnoc(front, last, id);
      SearchSnoc(front, last, id, Everything());
      assert !Listed(front, last.traceId);
    }
  }

  lemma InsertedDigest(out: seq<IndexRow>, block: seq<TraceSpan>, id: string)
    requires Indexes(out, block)
    ensures DigestIn(Search(out, id, Everything())) == DigestOf(block, id)
  {
    BlockDigest(out, block, id);
    if Has(block, id) {
      var i: nat :| At(block, id, i);
      assert Listed(out, block[i].traceId);
    } else {
      NoSpansNoDigest(block, id);
    }
  }

  lemma InsertKeepsDigest(st: State, block: seq<TraceSpan>, out: seq<IndexRow>, id: string)
    requires Indexes(out, block) && DigestIn(Search(st.rows, id, Everything())) == DigestOf(st.inserted, id)
    ensures DigestIn(Search(st.rows + out, id, Everything())) == DigestOf(st.inserted + block, id)
  {
    SearchConcat(st.rows, out, id, Everything());
    InsertedDigest(out, block, id);
    SummaryConcat(st.inserted, block, id);
    DigestInJoin(Search(st.rows, id, Everything()), Summary(st.inserted, id), Search(out, id, Everything()), Summary(block, id));
  }

  lemma InsertKeepsNoEmptyRow(rows: seq<IndexRow>, block: seq<TraceSpan>, out: seq<IndexRow>)
    requires Indexes(out, block) && NoEmptyRow(rows)
    ensures NoEmptyRow(rows + out)
  {
    forall i | 0 <= i < |rows + out| ensures (rows + out)[i].columns.digest.spans >= 1 {
      if i >= |rows| {
        assert RowOf(out[i - |rows|], block);
        DigestCounts(block, out[i - |rows|].traceId);
      }
    }
  }

  lemma RootInConcat(a: seq<TraceSpan>, b: seq<TraceSpan>, id: string, w: Label, v: string)
    ensures RootIn(a + b, id, w, v) <==> RootIn(a, id, w, v) || RootIn(b, id, w, v)
  {
    if RootIn(a, id, w, v) {
      var i: nat :| RootAt(a, id, w, v, i);
      assert RootAt(a + b, id, w, v, i);
    }
    if RootIn(b, id, w, v) {
      var i: nat :| RootAt(b, id, w, v, i);
      assert RootAt(a + b, id, w, v, |a| + i);
    }
    if RootIn(a + b, id, w, v) {
      var i: nat :| RootAt(a + b, id, w, v, i);
      assert if i < |a| then RootAt(a, id, w, v, i) else RootAt(b, id, w, v, i - |a|);
    }
  }

  lemma InsertKeepsRowRoots(rows: seq<IndexRow>, spans: seq<TraceSpan>, out: seq<IndexRow>, block: seq<TraceSpan>,
                            id: string, w: Label, i: nat)
    requires RootsProper(rows, spans, id, w) && Indexes(out, block) && i < |rows + out| && (rows + out)[i].traceId == id
    ensures var v := Shown(w, (rows + out)[i].columns);
            v == "" || RootIn(spans + block, id, w, v)
  {
    RootInConcat(spans, block, id, w, Shown(w, (rows + out)[i].columns));
    if i >= |rows| {
      assert RowOf(out[i - |rows|], block) && PicksRoot(out[i - |rows|], block, w);
    }
  }

  lemma InsertKeepsNaming(rows: seq<IndexRow>, spans: seq<TraceSpan>, out: seq<IndexRow>, block: seq<TraceSpan>,
                          id: string, w: Label, v: string)
    requires RootsProper(rows, spans, id, w) && Indexes(out, block) && RootIn(spans + block, id, w, v)
    ensures NamesRoot(rows + out, spans + block, id, w)
  {
    RootInConcat(spans, block, id, w, v);
    if RootIn(spans, id, w, v) {
      var i :| 0 <= i < |rows| && rows[i].traceId == id && RootIn(spans, id, w, Shown(w, rows[i].columns));
      RootInConcat(spans, block, id, w, Shown(w, rows[i].columns));
      assert (rows + out)[i] == rows[i];
    } else {
      var n: nat :| RootAt(block, id, w, v, n);
      assert Listed(out, block[n].traceId);
      var i :| 0 <= i < |out| && out[i].traceId == id;
      assert RowOf(out[i], block) && PicksRoot(out[i], block, w);
      RootInConcat(spans, block, id, w, Shown(w, out[i].columns));
      assert (rows + out)[|rows| + i] == out[i];
    }
  }

  lemma InsertKeepsRoots(rows: seq<IndexRow>, spans: seq<TraceSpan>, out: seq<IndexRow>, block: seq<TraceSpan>,
                         id: string, w: Label)
    requires RootsProper(rows, spans, id, w) && Indexes(out, block)
    ensures RootsProper(rows + out, spans + block, id, w)
  {
    forall i | 0 <= i < |rows + out| && (rows + out)[i].traceId == id
      ensures Shown(w, (rows + out)[i].columns) == "" || RootIn(spans + block, id, w, Shown(w, (rows + out)[i].columns))
    {
      InsertKeepsRowRoots(rows, spans, out, block, id, w, i);
    }
    if v: string :| RootIn(spans + block, id, w, v) {
      InsertKeepsNaming(rows, spans, out, block, id, w, v);
    }
  }

  /** Where a row of the merged list comes from. */
  lemma MergedAt(rows: seq<IndexRow>, i: nat, j: nat, n: nat)
    requires i < j < |rows| && n < |Merged(rows, i, j)|
    ensures |Merged(rows, i, j)| == |rows| - 1
    ensures Merged(rows, i, j)[n] == if n == i then MergedRow(rows[i], rows[j]) else rows[if n < j then n else n + 1]
  {
  }

  lemma MergeKeepsNaming(rows: seq<IndexRow>, spans: seq<TraceSpan>, id: string, w: Label, i: nat, j: nat)
    requires i < j < |rows| && rows[i].traceId == rows[j].traceId
    requires RootsProper(rows, spans, id, w) && NamesRoot(rows, spans, id, w)
    ensures NamesRoot(Merged(rows, i, j), spans, id, w)
  {
    var n :| 0 <= n < |rows| && rows[n].traceId == id && RootIn(spans, id, w, Shown(w, rows[n].columns));
    var at := if n == j then i else if n < j then n else n - 1;
    MergedAt(rows, i, j, at);
    assert Merged(rows, i, j)[at].traceId == id;
  }

  lemma MergeKeepsRoots(rows: seq<IndexRow>, spans: seq<TraceSpan>, id: string, w: Label, i: nat, j: nat)
    requires i < j < |rows| && rows[i].traceId == rows[j].traceId && RootsProper(rows, spans, id, w)
    ensures RootsProper(Merged(rows, i, j), spans, id, w)
  {
    var merged := Merged(rows, i, j);
    forall n | 0 <= n < |merged| && merged[n].traceId == id
      ensures Shown(w, merged[n].columns) == "" || RootIn(spans, id, w, Shown(w, merged[n].columns))
    {
      MergedAt(rows, i, j, n);
    }
    if NamesRoot(rows, spans, id, w) {
      MergeKeepsNaming(rows, spans, id, w, i, j);
    }
  }

  lemma MergeKeepsNoEmptyRow(rows: seq<IndexRow>, i: nat, j: nat)
    requires i < j < |rows| && NoEmptyRow(rows)
    ensures NoEmptyRow(Merged(rows, i, j))
  {
    forall n | 0 <= n < |Merged(rows, i, j)| ensures Merged(rows, i, j)[n].columns.digest.spans >= 1 {
      MergedAt(rows, i, j, n);
    }
  }

  /** An unfiltered query does not see merges. */
  lemma MergeIsInvisible(rows: seq<IndexRow>, i: nat, j: nat, id: string)
    requires i < j < |rows| && rows[i].traceId == rows[j].traceId && NoEmptyRow(rows)
    ensures Search(Merged(rows, i, j), id, Everything()) == Search(rows, id, Everything())
  {
    if rows[i].traceId == id {
      MergeInvisibleIff(rows, i, j, id, Everything());
    } else {
      MergeSparesOthers(rows, i, j, id, Everything());
    }
  }

  lemma StepKeepsInv(st: State, a: Action, id: string)
    requires Enabled(st, a) && Inv(st, id)
    ensures Inv(Step(st, a), id)
  {
    match a
    case InsertBlock(block, out) =>
      InsertKeepsNoEmptyRow(st.rows, block, out);
      InsertKeepsDigest(st, block, out, id);
      forall w: Label ensures RootsProper(st.rows + out, st.inserted + block, id, w) {
        InsertKeepsRoots(st.rows, st.inserted, out, block, id, w);
      }
    case MergeRows(i, j) =>
      MergeKeepsNoEmptyRow(st.rows, i, j);
      MergeIsInvisible(st.rows, i, j, id);
      forall w: Label ensures RootsProper(Merged(st.rows, i, j), st.inserted, id, w) {
        MergeKeepsRoots(st.rows, st.inserted, id, w, i, j);
      }
  }

  lemma {:induction false} RunKeepsInv(actions: seq<Action>, st: State, id: string)
    requires Run(EMPTY_INDEX, actions) == Some(st)
    ensures Inv(st, id)
    decreases |actions|
  {
    if actions == [] {
    } else {
      var n := |actions| - 1;
      var mid := Run(EMPTY_INDEX, actions[..n]).value;
      RunKeepsInv(actions[..n], mid, id);
      StepKeepsInv(mid, actions[n], id);
    }
  }

  lemma ReachableInv(st: State, id: string)
    requires Reachable(st)
    ensures Inv(st, id)
  {
    var actions :| Run(EMPTY_INDEX, actions) == Some(st);
    RunKeepsInv(actions, st, id);
  }
}
