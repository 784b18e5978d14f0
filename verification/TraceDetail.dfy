/** Where a trace's time went: the self time of every span, its split by category and
    by service, and the most expensive operations. Times are whole nanoseconds. */
module TraceDetail {
  import opened Basics

  datatype SpanRow = SpanRow(
    id: string,
    parent: string,
    name: string,
    kind: string,
    service: string,
    durationNs: nat,
    attributes: map<string, string>)

  // ---- self time ----

  /** The duration kept for an id: the last row that carries it. */
  function DurationOf(rows: seq<SpanRow>, id: string): nat {
    if rows == [] then 0
    else if rows[|rows| - 1].id == id then rows[|rows| - 1].durationNs
    else DurationOf(rows[..|rows| - 1], id)
  }

  /** The time spent in the children of an id. Spans without a parent are nobody's children. */
  function ChildSum(rows: seq<SpanRow>, id: string): nat {
    if rows == [] then 0
    else
      var last := rows[|rows| - 1];
      ChildSum(rows[..|rows| - 1], id) + if last.parent != "" && last.parent == id then last.durationNs else 0
  }

  function Minus(a: nat, b: nat): nat {
    if b < a then a - b else 0
  }

  /** The time spent in a span but not in its children, clamped at zero. */
  function SelfOf(rows: seq<SpanRow>, id: string): nat {
    Minus(DurationOf(rows, id), ChildSum(rows, id))
  }

  function SelfTimes(rows: seq<SpanRow>): seq<nat> {
    seq(|rows|, i requires 0 <= i < |rows| => SelfOf(rows, rows[i].id))
  }

  function Get(m: map<string, nat>, k: string): nat {
    if k in m then m[k] else 0
  }

  lemma RowsSnoc(rows: seq<SpanRow>, n: nat)
    requires n < |rows|
    ensures rows[..n + 1][..n] == rows[..n] && rows[..n + 1][n] == rows[n]
  {
  }

  method ComputeSelfTimes(rows: seq<SpanRow>) returns (self: seq<nat>)
    ensures self == SelfTimes(rows)
  {
    var durations: map<string, nat> := map[];
    var childSum: map<string, nat> := map[];
    var n := 0;
    while n < |rows|
      invariant n <= |rows|
      invariant forall id: string :: Get(durations, id) == DurationOf(rows[..n], id)
      invariant forall id: string :: Get(childSum, id) == ChildSum(rows[..n], id)
    {
      var row := rows[n];
      RowsSnoc(rows, n);
      durations := durations[row.id := row.durationNs];
      if row.parent != "" {
        childSum := childSum[row.parent := Get(childSum, row.parent) + row.durationNs];
      }
      n := n + 1;
    }
    assert rows[..n] == rows;
    self := [];
    while |self| < |rows|
      invariant |self| <= |rows|
      invariant forall i :: 0 <= i < |self| ==> self[i] == SelfOf(rows, rows[i].id)
    {
      var id := rows[|self|].id;
      var own := Get(durations, id);
      var children := Get(childSum, id);
      self := self + [if children < own then own - children else 0];
    }
  }

  // ---- where the total goes ----

  ghost predicate UniqueIds(rows: seq<SpanRow>) {
    forall i, j :: 0 <= i < j < |rows| ==> rows[i].id != rows[j].id
  }

  predicate Known(rows: seq<SpanRow>, id: string) {
    exists i :: 0 <= i < |rows| && rows[i].id == id
  }

  /** A root has no parent, or one that is not in the trace. */
  predicate IsRoot(rows: seq<SpanRow>, s: SpanRow) {
    s.parent == "" || !Known(rows, s.parent)
  }

  /** The summed duration of those of `some` that are roots of `rows`, and of those that are not. */
  function RootTime(rows: seq<SpanRow>, some: seq<SpanRow>): nat {
    if some == [] then 0
    else RootTime(rows, some[..|some| - 1]) + if IsRoot(rows, some[|some| - 1]) then some[|some| - 1].durationNs else 0
  }

  function NestedTime(rows: seq<SpanRow>, some: seq<SpanRow>): nat {
    if some == [] then 0
    else NestedTime(rows, some[..|some| - 1]) + if IsRoot(rows, some[|some| - 1]) then 0 else some[|some| - 1].durationNs
  }

  /** Sums over the rows of what they spend, what their children spend, and by how much the
      children of a row exceed it. */
  function Time(some: seq<SpanRow>): nat {
    if some == [] then 0 else Time(some[..|some| - 1]) + some[|some| - 1].durationNs
  }

  function ChildTime(rows: seq<SpanRow>, some: seq<SpanRow>): nat {
    if some == [] then 0 else ChildTime(rows, some[..|some| - 1]) + ChildSum(rows, some[|some| - 1].id)
  }

  function Overlap(rows: seq<SpanRow>, some: seq<SpanRow>): nat {
    if some == [] then 0
    else Overlap(rows, some[..|some| - 1])
         + Minus(ChildSum(rows, some[|some| - 1].id), some[|some| - 1].durationNs)
  }

  function SelfTime(rows: seq<SpanRow>, some: seq<SpanRow>): nat {
    if some == [] then 0
    else SelfTime(rows, some[..|some| - 1]) + SelfOf(rows, some[|some| - 1].id)
  }

  lemma {:induction false} OwnDuration(rows: seq<SpanRow>, i: nat)
    requires UniqueIds(rows) && i < |rows|
    ensures DurationOf(rows, rows[i].id) == rows[i].durationNs
  {
    if i < |rows| - 1 {
      OwnDuration(rows[..|rows| - 1], i);
    }
  }

  lemma {:induction false} RootsAndNested(rows: seq<SpanRow>, some: seq<SpanRow>)
    ensures RootTime(rows, some) + NestedTime(rows, some) == Time(some)
  {
    if some == [] {
    } else {
      RootsAndNested(rows, some[..|some| - 1]);
    }
  }

  /** Self time and child time of a row add up to its duration and its overlap. */
  lemma {:induction false} RowBalance(rows: seq<SpanRow>, n: nat)
    requires UniqueIds(rows) && n <= |rows|
    ensures SelfTime(rows, rows[..n]) + ChildTime(rows, rows[..n]) == Time(rows[..n]) + Overlap(rows, rows[..n])
  {
    if n == 0 {
    } else {
      RowBalance(rows, n - 1);
      RowsSnoc(rows, n - 1);
      OwnDuration(rows, n - 1);
    }
  }

  /** How much one more child adds to the child time of a set of parents. */
  function Share(some: seq<SpanRow>, parent: string, d: nat): nat {
    if some == [] then 0
    else Share(some[..|some| - 1], parent, d) + if parent != "" && parent == some[|some| - 1].id then d else 0
  }

  lemma {:induction false} ChildTimeSnoc(front: seq<SpanRow>, kid: SpanRow, some: seq<SpanRow>)
    ensures ChildTime(front + [kid], some) == ChildTime(front, some) + Share(some, kid.parent, kid.durationNs)
  {
    if some == [] {
    } else {
      ChildTimeSnoc(front, kid, some[..|some| - 1]);
      assert (front + [kid])[..|front|] == front;
    }
  }

  /** With unique ids a child is counted under one parent, and only if that parent is known. */
  lemma {:induction false} ShareOnce(some: seq<SpanRow>, parent: string, d: nat)
    requires UniqueIds(some)
    ensures Share(some, parent, d) == if parent != "" && Known(some, parent) then d else 0
  {
    if some == [] {
    } else {
      var front, last := some[..|some| - 1], some[|some| - 1];
      ShareOnce(front, parent, d);
      KnownSnoc(front, last, parent);
      assert some == front + [last];
      assert forall i :: 0 <= i < |front| ==> front[i] == some[i];
      assert !Known(front, last.id);
    }
  }

  lemma KnownSnoc(front: seq<SpanRow>, last: SpanRow, id: string)
    ensures Known(front + [last], id) == (Known(front, id) || last.id == id)
  {
    if Known(front, id) {
      var i :| 0 <= i < |front| && front[i].id == id;
      assert (front + [last])[i].id == id;
    } else if last.id == id {
      assert (front + [last])[|front|].id == id;
    }
  }

  lemma {:induction false} NoChildTime(some: seq<SpanRow>)
    ensures ChildTime([], some) == 0
  {
    if some == [] {
    } else {
      NoChildTime(some[..|some| - 1]);
    }
  }

  /** The child time of all spans is the duration of the spans that are not roots. */
  lemma {:induction false} ChildTimeIsNested(rows: seq<SpanRow>, kids: seq<SpanRow>)
    requires UniqueIds(rows)
    ensures ChildTime(kids, rows) == NestedTime(rows, kids)
  {
    if kids == [] {
      NoChildTime(rows);
    } else {
      var front, last := kids[..|kids| - 1], kids[|kids| - 1];
      assert kids == front + [last];
      ChildTimeIsNested(rows, front);
      ChildTimeSnoc(front, last, rows);
      ShareOnce(rows, last.parent, last.durationNs);
    }
  }

  /** Total self time is the duration of the roots plus what children exceed their parents by. */
  lemma SelfTimeAccounts(rows: seq<SpanRow>)
    requires UniqueIds(rows)
    ensures SelfTime(rows, rows) == RootTime(rows, rows) + Overlap(rows, rows)
  {
    assert rows[..|rows|] == rows;
    RowBalance(rows, |rows|);
    ChildTimeIsNested(rows, rows);
    RootsAndNested(rows, rows);
  }

  lemma {:induction false} NoOverlapIff(rows: seq<SpanRow>, some: seq<SpanRow>)
    ensures Overlap(rows, some) == 0
            <==> forall i :: 0 <= i < |some| ==> ChildSum(rows, some[i].id) <= some[i].durationNs
  {
    if some == [] {
    } else {
      var n := |some| - 1;
      NoOverlapIff(rows, some[..n]);
      assert forall i :: 0 <= i < n ==> some[..n][i] == some[i];
    }
  }

  /** The self times add up to at least the duration of the roots, and to exactly that when and only
      when no span's children add up to more than the span itself. */
  lemma SelfTimeCoversRoots(rows: seq<SpanRow>)
    requires UniqueIds(rows)
    ensures SumSeq(SelfTimes(rows)) >= RootTime(rows, rows)
    ensures SumSeq(SelfTimes(rows)) == RootTime(rows, rows)
            <==> forall i :: 0 <= i < |rows| ==> ChildSum(rows, rows[i].id) <= rows[i].durationNs
  {
    SelfTimeAccounts(rows);
    NoOverlapIff(rows, rows);
    SelfTimesSum(rows, |rows|);
    assert rows[..|rows|] == rows && SelfTimes(rows)[..|rows|] == SelfTimes(rows);
  }

  lemma {:induction false} SelfTimesSum(rows: seq<SpanRow>, n: nat)
    requires n <= |rows|
    ensures SumSeq(SelfTimes(rows)[..n]) == SelfTime(rows, rows[..n])
  {
    if n == 0 {
    } else {
      SelfTimesSum(rows, n - 1);
      RowsSnoc(rows, n - 1);
      assert SelfTimes(rows)[..n][..n - 1] == SelfTimes(rows)[..n - 1];
    }
  }

  // ---- grouping ----

  function Attribute(s: SpanRow, k: string): string {
    if k in s.attributes then s.attributes[k] else ""
  }

  /** The breakdown slice a span's self time belongs to. */
  function CategoryOf(s: SpanRow): string {
    if Attribute(s, "db.system") != "" || Attribute(s, "db.system.name") != "" then "database"
    else if Attribute(s, "messaging.system") != "" then "messaging"
    else if s.kind == "client" || s.kind == "producer" then "outbound"
    else "code"
  }

  function ServiceOf(s: SpanRow): string {
    s.service
  }

  function HotspotKey(s: SpanRow): string {
    s.service + "\0" + s.name
  }

  datatype Slice = Slice(ns: nat, count: nat)

  function Bump(m: map<string, Slice>, k: string, ns: nat): map<string, Slice> {
    if k in m then m[k := Slice(m[k].ns + ns, m[k].count + 1)] else m[k := Slice(ns, 1)]
  }

  function Tally(keys: seq<string>, self: seq<nat>): map<string, Slice>
    requires |keys| == |self|
  {
    if keys == [] then map[]
    else Bump(Tally(keys[..|keys| - 1], self[..|self| - 1]), keys[|keys| - 1], self[|self| - 1])
  }

  /** The self time of the spans under a key, and their number. */
  function GroupTime(keys: seq<string>, self: seq<nat>, k: string): nat
    requires |keys| == |self|
  {
    if keys == [] then 0
    else GroupTime(keys[..|keys| - 1], self[..|self| - 1], k) + if keys[|keys| - 1] == k then self[|self| - 1] else 0
  }

  function GroupCount(keys: seq<string>, k: string): nat {
    if keys == [] then 0
    else GroupCount(keys[..|keys| - 1], k) + if keys[|keys| - 1] == k then 1 else 0
  }

  function Ns(m: map<string, Slice>): map<string, nat> {
    map k | k in m :: m[k].ns
  }

  /** Each group holds the time and number of exactly its spans. */
  lemma {:induction false} TallyMeaning(keys: seq<string>, self: seq<nat>, k: string)
    requires |keys| == |self|
    ensures k in Tally(keys, self) <==> GroupCount(keys, k) > 0
    ensures k in Tally(keys, self) ==> Tally(keys, self)[k] == Slice(GroupTime(keys, self, k), GroupCount(keys, k))
    ensures k !in Tally(keys, self) ==> GroupTime(keys, self, k) == 0
  {
    if keys == [] {
    } else {
      TallyMeaning(keys[..|keys| - 1], self[..|self| - 1], k);
    }
  }

  /** The groups partition the total: nothing is counted twice and nothing is left out. */
  lemma {:induction false} TallyPartitions(keys: seq<string>, self: seq<nat>)
    requires |keys| == |self|
    ensures SumMap(Ns(Tally(keys, self))) == SumSeq(self)
  {
    if keys == [] {
    } else {
      var n := |keys| - 1;
      var before := Tally(keys[..n], self[..n]);
      var k := keys[n];
      TallyPartitions(keys[..n], self[..n]);
      var v := Bump(before, k, self[n])[k].ns;
      assert Ns(Bump(before, k, self[n])) == Ns(before)[k := v];
      SumMapUpdate(Ns(before), k, v);
    }
  }

  // ---- listing the groups ----

  datatype TimeSlice = TimeSlice(key: string, ns: nat, share: real, count: nat)

  ghost predicate Descending(out: seq<TimeSlice>) {
    forall i, j :: 0 <= i < j < |out| ==> out[i].ns >= out[j].ns
  }

  function ShareOf(ns: nat, total: nat): real {
    if total > 0 then ns as real / total as real else 0.0
  }

  /** The slice shows its group of the map. */
  predicate Shows(x: TimeSlice, m: map<string, Slice>, total: nat) {
    x.key in m && x == TimeSlice(x.key, m[x.key].ns, ShareOf(m[x.key].ns, total), m[x.key].count)
  }

  /** The list shows every group of the map exactly once, the largest first. */
  ghost predicate Presents(out: seq<TimeSlice>, m: map<string, Slice>, total: nat) {
    && Descending(out)
    && (forall i :: 0 <= i < |out| ==> Shows(out[i], m, total))
    && (forall i, j :: 0 <= i < j < |out| ==> out[i].key != out[j].key)
    && (forall k :: k in m ==> Listed(out, k))
  }

  predicate Listed(out: seq<TimeSlice>, k: string) {
    exists i :: 0 <= i < |out| && out[i].key == k
  }

  function Times(out: seq<TimeSlice>): seq<nat> {
    seq(|out|, i requires 0 <= i < |out| => out[i].ns)
  }

  lemma RestrictedInsert(m: map<string, Slice>, done: map<string, Slice>, k: string)
    requires k in m && k !in done && forall o :: o in done ==> o in m && done[o] == m[o]
    ensures forall o :: o in done[k := m[k]] ==> o in m && done[k := m[k]][o] == m[o]
  {
  }

  /** Puts a slice behind everything that is larger. */
  method InsertDescending(out: seq<TimeSlice>, x: TimeSlice) returns (res: seq<TimeSlice>, p: nat)
    requires Descending(out)
    ensures p <= |out| && res == out[..p] + [x] + out[p..] && Descending(res)
  {
    p := 0;
    while p < |out| && out[p].ns > x.ns
      invariant p <= |out| && forall i :: 0 <= i < p ==> out[i].ns > x.ns
    {
      p := p + 1;
    }
    res := out[..p] + [x] + out[p..];
  }

  lemma ListedInsert(out: seq<TimeSlice>, x: TimeSlice, p: nat, k: string)
    requires p <= |out|
    ensures Listed(out[..p] + [x] + out[p..], k) == (Listed(out, k) || x.key == k)
  {
    var res := out[..p] + [x] + out[p..];
    assert res[p] == x;
    if Listed(out, k) {
      var i :| 0 <= i < |out| && out[i].key == k;
      assert res[if i < p then i else i + 1] == out[i];
    }
  }

  lemma PresentsInsert(out: seq<TimeSlice>, done: map<string, Slice>, total: nat, k: string, s: Slice, p: nat)
    requires Presents(out, done, total) && k !in done && p <= |out|
    requires Descending(out[..p] + [TimeSlice(k, s.ns, ShareOf(s.ns, total), s.count)] + out[p..])
    ensures Presents(out[..p] + [TimeSlice(k, s.ns, ShareOf(s.ns, total), s.count)] + out[p..], done[k := s], total)
  {
    var x := TimeSlice(k, s.ns, ShareOf(s.ns, total), s.count);
    var res := out[..p] + [x] + out[p..];
    forall i | 0 <= i < |res| ensures Shows(res[i], done[k := s], total) {
      assert i != p ==> Shows(out[if i < p then i else i - 1], done, total);
    }
    forall o | o in done[k := s] ensures Listed(res, o) {
      ListedInsert(out, x, p, o);
    }
  }

  /** Lists the groups by descending time; groups of equal time come in whatever order the map is walked. */
  method Flatten(m: map<string, Slice>, total: nat) returns (out: seq<TimeSlice>)
    ensures Presents(out, m, total)
  {
    out := [];
    var left := m.Keys;
    ghost var done: map<string, Slice> := map[];
    while left != {}
      invariant left <= m.Keys && done.Keys == m.Keys - left
      invariant forall o :: o in done ==> o in m && done[o] == m[o]
      invariant Presents(out, done, total)
      decreases left
    {
      var k :| k in left;
      var p;
      ghost var before := out;
      out, p := InsertDescending(out, TimeSlice(k, m[k].ns, ShareOf(m[k].ns, total), m[k].count));
      PresentsInsert(before, done, total, k, m[k], p);
      RestrictedInsert(m, done, k);
      done := done[k := m[k]];
      left := left - {k};
    }
    assert done == m;
  }

  lemma PresentsFront(out: seq<TimeSlice>, m: map<string, Slice>, total: nat)
    requires Presents(out, m, total) && out != []
    ensures Presents(out[..|out| - 1], m - {out[|out| - 1].key}, total)
  {
    var n := |out| - 1;
    var front, rest := out[..n], m - {out[n].key};
    forall i | 0 <= i < n ensures Shows(front[i], rest, total) {
      assert Shows(out[i], m, total) && out[i].key != out[n].key;
    }
    forall o | o in rest ensures Listed(front, o) {
      assert Listed(out, o);
      var i :| 0 <= i < |out| && out[i].key == o;
      assert front[i].key == o;
    }
  }

  lemma NsRemove(m: map<string, Slice>, k: string)
    requires k in m
    ensures SumMap(Ns(m)) == Ns(m)[k] + SumMap(Ns(m - {k}))
  {
    assert Ns(m) - {k} == Ns(m - {k});
    SumMapRemove(Ns(m), k);
  }

  lemma PresentsNothing(m: map<string, Slice>, total: nat)
    requires Presents([], m, total)
    ensures Ns(m) == map[]
  {
    assert forall k :: k in m ==> Listed([], k);
  }

  lemma LastTime(out: seq<TimeSlice>, m: map<string, Slice>, total: nat)
    requires Presents(out, m, total) && out != []
    ensures var n := |out| - 1;
            && out[n].key in m
            && SumSeq(Times(out)) == SumSeq(Times(out[..n])) + Ns(m)[out[n].key]
  {
    var n := |out| - 1;
    assert Shows(out[n], m, total);
    assert Times(out)[..n] == Times(out[..n]);
  }

  /** What a list presents adds up to what the map holds. */
  lemma {:induction false} PresentedSum(out: seq<TimeSlice>, m: map<string, Slice>, total: nat)
    requires Presents(out, m, total)
    ensures SumSeq(Times(out)) == SumMap(Ns(m))
    decreases |out|
  {
    if out == [] {
      PresentsNothing(m, total);
    } else {
      var n := |out| - 1;
      PresentsFront(out, m, total);
      PresentedSum(out[..n], m - {out[n].key}, total);
      LastTime(out, m, total);
      NsRemove(m, out[n].key);
    }
  }

  function Keys(rows: seq<SpanRow>, key: SpanRow -> string): seq<string> {
    seq(|rows|, i requires 0 <= i < |rows| => key(rows[i]))
  }

  lemma TallyNext(keys: seq<string>, self: seq<nat>, n: nat)
    requires n < |keys| == |self|
    ensures Tally(keys[..n + 1], self[..n + 1]) == Bump(Tally(keys[..n], self[..n]), keys[n], self[n])
    ensures SumSeq(self[..n + 1]) == SumSeq(self[..n]) + self[n]
  {
    assert self[..n + 1][..n] == self[..n] && keys[..n + 1][..n] == keys[..n];
  }

  /** Splits the self time by category and by service. Both lists add up to the total self time. */
  method BuildBreakdown(rows: seq<SpanRow>, self: seq<nat>) returns (byCategory: seq<TimeSlice>, byService: seq<TimeSlice>)
    requires |rows| == |self|
    ensures Presents(byCategory, Tally(Keys(rows, CategoryOf), self), SumSeq(self))
    ensures Presents(byService, Tally(Keys(rows, ServiceOf), self), SumSeq(self))
    ensures SumSeq(Times(byCategory)) == SumSeq(self) == SumSeq(Times(byService))
  {
    ghost var categories := Keys(rows, CategoryOf);
    ghost var services := Keys(rows, ServiceOf);
    var cat: map<string, Slice> := map[];
    var svc: map<string, Slice> := map[];
    var total: nat := 0;
    var n := 0;
    while n < |rows|
      invariant n <= |rows| && total == SumSeq(self[..n])
      invariant cat == Tally(categories[..n], self[..n]) && svc == Tally(services[..n], self[..n])
    {
      TallyNext(categories, self, n);
      TallyNext(services, self, n);
      total := total + self[n];
      cat := Bump(cat, CategoryOf(rows[n]), self[n]);
      svc := Bump(svc, rows[n].service, self[n]);
      n := n + 1;
    }
    assert self[..n] == self && categories[..n] == categories && services[..n] == services;
    byCategory := Flatten(cat, total);
    byService := Flatten(svc, total);
    TallyPartitions(categories, self);
    TallyPartitions(services, self);
    PresentedSum(byCategory, cat, total);
    PresentedSum(byService, svc, total);
  }

  const HOTSPOTS: nat := 10

  /** The largest groups of a map, at most ten of them: every group that is not shown is no larger
      than each one that is. */
  ghost predicate TopOf(out: seq<TimeSlice>, m: map<string, Slice>, total: nat) {
    && |out| == (if |m| > HOTSPOTS then HOTSPOTS else |m|)
    && Descending(out)
    && (forall i :: 0 <= i < |out| ==> Shows(out[i], m, total))
    && (forall i, j :: 0 <= i < j < |out| ==> out[i].key != out[j].key)
    && (forall k, i :: k in m && !Listed(out, k) && 0 <= i < |out| ==> m[k].ns <= out[i].ns)
  }

  lemma {:induction false} PresentsSize(out: seq<TimeSlice>, m: map<string, Slice>, total: nat)
    requires Presents(out, m, total)
    ensures |out| == |m|
    decreases |out|
  {
    if out == [] {
      PresentsNothing(m, total);
      assert Ns(m).Keys == m.Keys;
    } else {
      var k := out[|out| - 1].key;
      PresentsFront(out, m, total);
      PresentsSize(out[..|out| - 1], m - {k}, total);
      assert Shows(out[|out| - 1], m, total);
      assert (m - {k}).Keys == m.Keys - {k};
    }
  }

  lemma ListedEarly(all: seq<TimeSlice>, n: nat, j: nat)
    requires j < |all| && n <= |all|
    ensures j < n ==> Listed(all[..n], all[j].key)
  {
    if j < n {
      assert all[..n][j].key == all[j].key;
    }
  }

  lemma CutIsTop(all: seq<TimeSlice>, n: nat, m: map<string, Slice>, total: nat)
    requires Presents(all, m, total) && n == if |all| > HOTSPOTS then HOTSPOTS else |all|
    ensures TopOf(all[..n], m, total)
  {
    PresentsSize(all, m, total);
    forall k, i | k in m && !Listed(all[..n], k) && 0 <= i < n ensures m[k].ns <= all[..n][i].ns {
      assert Listed(all, k);
      var j :| 0 <= j < |all| && all[j].key == k;
      ListedEarly(all, n, j);
      assert Shows(all[j], m, total);
    }
  }

  /** The ten most expensive operations of the trace. */
  method BuildHotspots(rows: seq<SpanRow>, self: seq<nat>) returns (out: seq<TimeSlice>)
    requires |rows| == |self|
    ensures TopOf(out, Tally(Keys(rows, HotspotKey), self), SumSeq(self))
  {
    ghost var keys := Keys(rows, HotspotKey);
    var byKey: map<string, Slice> := map[];
    var total: nat := 0;
    var n := 0;
    while n < |rows|
      invariant n <= |rows| && total == SumSeq(self[..n])
      invariant byKey == Tally(keys[..n], self[..n])
    {
      assert self[..n + 1][..n] == self[..n] && keys[..n + 1][..n] == keys[..n];
      total := total + self[n];
      byKey := Bump(byKey, HotspotKey(rows[n]), self[n]);
      n := n + 1;
    }
    assert self[..n] == self && keys[..n] == keys;
    out := Flatten(byKey, total);
    CutIsTop(out, if |out| > HOTSPOTS then HOTSPOTS else |out|, byKey, total);
    if |out| > HOTSPOTS {
      out := out[..HOTSPOTS];
    } else {
      assert out[..|out|] == out;
    }
  }

  // ---- shares ----

  function ShareSum(out: seq<TimeSlice>): real {
    if out == [] then 0.0 else ShareSum(out[..|out| - 1]) + out[|out| - 1].share
  }

  /** The shares of a complete list add up to one whenever any time was spent. */
  lemma {:induction false} SharesSum(out: seq<TimeSlice>, total: nat)
    requires total > 0 && forall i :: 0 <= i < |out| ==> out[i].share == ShareOf(out[i].ns, total)
    ensures ShareSum(out) == SumSeq(Times(out)) as real / total as real
  {
    if out == [] {
    } else {
      var n := |out| - 1;
      SharesSum(out[..n], total);
      assert Times(out)[..n] == Times(out[..n]);
      AddFractions(SumSeq(Times(out[..n])) as real, out[n].ns as real, total as real);
    }
  }

  lemma AddFractions(a: real, b: real, c: real)
    requires c > 0.0
    ensures a / c + b / c == (a + b) / c
  {
  }
}
