/** The waterfall view of a trace: a depth-first walk over parent references that shows
    every span reachable from a root exactly once, at the depth of its parent chain,
    whatever cycles the remaining references form. */
module Waterfall {
  import opened Basics

  datatype Bar = Bar(id: string, parent: string, start: int)

  datatype Row = Row(span: nat, depth: nat)

  /** What the walk asks of its input: distinct, non-empty span ids. Without it the recursion of
      the source need not end. */
  ghost predicate ProperIds(spans: seq<Bar>) {
    && (forall i :: 0 <= i < |spans| ==> spans[i].id != "")
    && (forall i, j :: 0 <= i < j < |spans| ==> spans[i].id != spans[j].id)
  }

  // ---- parent chains ----

  predicate Known(spans: seq<Bar>, id: string) {
    exists j :: 0 <= j < |spans| && spans[j].id == id
  }

  predicate IsRoot(spans: seq<Bar>, i: nat) {
    i < |spans| && (spans[i].parent == "" || !Known(spans, spans[i].parent))
  }

  predicate IsChild(spans: seq<Bar>, i: nat, j: nat) {
    i < |spans| && j < |spans| && spans[j].parent == spans[i].id
  }

  /** A path from a root downwards, each span the child of the one before it. */
  ghost predicate Chain(spans: seq<Bar>, path: seq<nat>) {
    && path != [] && IsRoot(spans, path[0])
    && (forall k :: 0 <= k < |path| ==> path[k] < |spans|)
    && (forall j, k :: 0 <= j && j + 1 == k < |path| ==> IsChild(spans, path[j], path[k]))
  }

  function Last(path: seq<nat>): nat
    requires path != []
  {
    path[|path| - 1]
  }

  lemma RootIsNoChild(spans: seq<Bar>, i: nat, j: nat)
    requires ProperIds(spans) && IsChild(spans, i, j)
    ensures !IsRoot(spans, j)
  {
    assert Known(spans, spans[j].parent);
  }

  lemma ParentIsUnique(spans: seq<Bar>, i: nat, i': nat, j: nat)
    requires ProperIds(spans) && IsChild(spans, i, j) && IsChild(spans, i', j)
    ensures i == i'
  {
  }

  /** A chain never comes back to a span it has passed. */
  lemma {:induction false} ChainDoesNotRepeat(spans: seq<Bar>, path: seq<nat>, a: nat, b: nat)
    requires ProperIds(spans) && Chain(spans, path) && a < b < |path|
    ensures path[a] != path[b]
    decreases a
  {
    RootIsNoChild(spans, path[b - 1], path[b]);
    if a > 0 && path[a] == path[b] {
      ParentIsUnique(spans, path[a - 1], path[b - 1], path[a]);
      ChainDoesNotRepeat(spans, path, a - 1, b - 1);
    }
  }

  /** So it is no longer than the trace: the walk cannot descend for ever. */
  lemma ChainFits(spans: seq<Bar>, path: seq<nat>)
    requires ProperIds(spans) && Chain(spans, path)
    ensures |path| <= |spans|
  {
    forall a, b | 0 <= a < b < |path| ensures path[a] != path[b] {
      ChainDoesNotRepeat(spans, path, a, b);
    }
    DistinctSeqFits(path, Indices(|spans|));
  }

  ghost function Indices(n: nat): (pool: set<nat>)
    ensures |pool| == n
    ensures forall k: nat :: k in pool <==> k < n
  {
    if n == 0 then {} else Indices(n - 1) + {n - 1}
  }

  /** A span has at most one chain. */
  lemma {:induction false} ChainIsUnique(spans: seq<Bar>, c: seq<nat>, d: seq<nat>)
    requires ProperIds(spans) && Chain(spans, c) && Chain(spans, d) && Last(c) == Last(d)
    ensures c == d
    decreases |c|
  {
    var m, n := |c| - 1, |d| - 1;
    if m > 0 {
      RootIsNoChild(spans, c[m - 1], c[m]);
    }
    if n > 0 {
      RootIsNoChild(spans, d[n - 1], d[n]);
    }
    if m > 0 && n > 0 {
      ParentIsUnique(spans, c[m - 1], d[n - 1], c[m]);
      ChainIsUnique(spans, c[..m], d[..n]);
      assert c == c[..m] + [c[m]] && d == d[..n] + [d[n]];
    }
  }

  lemma ChainsMeetOnce(spans: seq<Bar>, c: seq<nat>, d: seq<nat>)
    requires ProperIds(spans) && Chain(spans, c) && Chain(spans, d)
    ensures Last(c) == Last(d) ==> c == d
  {
    if Last(c) == Last(d) {
      ChainIsUnique(spans, c, d);
    }
  }

  // ---- children in start order ----

  ghost predicate NoDup(s: seq<nat>) {
    forall a, b :: 0 <= a < b < |s| ==> s[a] != s[b]
  }

  ghost predicate InRange(spans: seq<Bar>, s: seq<nat>) {
    forall a :: 0 <= a < |s| ==> s[a] < |spans|
  }

  function ChildrenOf(spans: seq<Bar>, parent: string, n: nat): (kids: seq<nat>)
    requires n <= |spans|
    ensures InRange(spans, kids)
  {
    if n == 0 then []
    else
      var kids := ChildrenOf(spans, parent, n - 1);
      if spans[n - 1].parent == parent then kids + [n - 1] else kids
  }

  lemma {:induction false} ChildrenAre(spans: seq<Bar>, parent: string, n: nat)
    requires n <= |spans|
    ensures forall k: nat :: k in ChildrenOf(spans, parent, n) <==> k < n && spans[k].parent == parent
    ensures NoDup(ChildrenOf(spans, parent, n))
  {
    if n == 0 {
    } else {
      ChildrenAre(spans, parent, n - 1);
    }
  }

  function RootsOf(spans: seq<Bar>, n: nat): (roots: seq<nat>)
    requires n <= |spans|
    ensures InRange(spans, roots)
  {
    if n == 0 then []
    else
      var roots := RootsOf(spans, n - 1);
      if IsRoot(spans, n - 1) then roots + [n - 1] else roots
  }

  lemma {:induction false} RootsAre(spans: seq<Bar>, n: nat)
    requires n <= |spans|
    ensures forall k: nat :: k in RootsOf(spans, n) <==> k < n && IsRoot(spans, k)
    ensures NoDup(RootsOf(spans, n))
  {
    if n == 0 {
    } else {
      RootsAre(spans, n - 1);
    }
  }

  ghost predicate ByStart(spans: seq<Bar>, s: seq<nat>)
    requires InRange(spans, s)
  {
    forall a, b :: 0 <= a < b < |s| ==> spans[s[a]].start <= spans[s[b]].start
  }

  /** Where a stable sort puts x behind an already sorted sequence. */
  function Position(spans: seq<Bar>, s: seq<nat>, x: nat): (p: nat)
    requires InRange(spans, s) && x < |spans|
    ensures p <= |s|
    ensures p > 0 ==> spans[s[p - 1]].start <= spans[x].start
    ensures forall k :: p <= k < |s| ==> spans[x].start < spans[s[k]].start
  {
    if s == [] || spans[s[|s| - 1]].start <= spans[x].start then |s|
    else Position(spans, s[..|s| - 1], x)
  }

  function Insert(s: seq<nat>, p: nat, x: nat): seq<nat>
    requires p <= |s|
  {
    s[..p] + [x] + s[p..]
  }

  lemma InsertKeepsElements(s: seq<nat>, p: nat, x: nat)
    requires p <= |s| && NoDup(s) && x !in s
    ensures forall k: nat :: k in Insert(s, p, x) <==> k in s || k == x
    ensures NoDup(Insert(s, p, x))
  {
    var t := Insert(s, p, x);
    assert t[p] == x;
    assert forall a :: 0 <= a < |s| ==> s[a] == t[if a < p then a else a + 1];
  }

  lemma InsertKeepsOrder(spans: seq<Bar>, s: seq<nat>, x: nat)
    requires InRange(spans, s) && x < |spans| && ByStart(spans, s)
    ensures var t := Insert(s, Position(spans, s, x), x);
            InRange(spans, t) && ByStart(spans, t)
  {
    var p := Position(spans, s, x);
    var t := Insert(s, p, x);
    assert InRange(spans, t);
    forall a, b | 0 <= a < b < |t| ensures spans[t[a]].start <= spans[t[b]].start {
      if a == p {
        assert t[b] == s[b - 1];
      } else if b == p {
        assert a <= p - 1 && t[a] == s[a];
      }
    }
  }

  /** The stable sort by start time. */
  function Sorted(spans: seq<Bar>, s: seq<nat>): (t: seq<nat>)
    requires InRange(spans, s)
    ensures InRange(spans, t)
  {
    if s == [] then []
    else
      var front, x := Sorted(spans, s[..|s| - 1]), s[|s| - 1];
      Insert(front, Position(spans, front, x), x)
  }

  lemma {:induction false} SortedKeeps(spans: seq<Bar>, s: seq<nat>)
    requires InRange(spans, s) && NoDup(s)
    ensures forall k: nat :: k in Sorted(spans, s) <==> k in s
    ensures NoDup(Sorted(spans, s)) && ByStart(spans, Sorted(spans, s))
  {
    if s == [] {
    } else {
      var front, x := s[..|s| - 1], s[|s| - 1];
      assert s == front + [x];
      SortedKeeps(spans, front);
      InsertKeepsElements(Sorted(spans, front), Position(spans, Sorted(spans, front), x), x);
      InsertKeepsOrder(spans, Sorted(spans, front), x);
    }
  }

  /** The children of a span in start order. */
  function KidsOf(spans: seq<Bar>, i: nat): seq<nat>
    requires i < |spans|
  {
    Sorted(spans, ChildrenOf(spans, spans[i].id, |spans|))
  }

  lemma KidsAre(spans: seq<Bar>, i: nat)
    requires i < |spans|
    ensures forall k: nat :: k in KidsOf(spans, i) <==> IsChild(spans, i, k)
    ensures NoDup(KidsOf(spans, i))
  {
    ChildrenAre(spans, spans[i].id, |spans|);
    SortedKeeps(spans, ChildrenOf(spans, spans[i].id, |spans|));
  }

  ghost predicate AllKids(spans: seq<Bar>, path: seq<nat>, kids: seq<nat>)
    requires path != []
  {
    forall k :: k in kids ==> IsChild(spans, Last(path), k)
  }

  // ---- the walk ----

  lemma Extend(spans: seq<Bar>, path: seq<nat>, k: nat)
    requires ProperIds(spans) && Chain(spans, path) && IsChild(spans, Last(path), k)
    ensures Chain(spans, path + [k]) && |path| < |spans|
  {
    ChainFits(spans, path + [k]);
  }

  /** The rows shown for a span and everything below it. */
  ghost function Walk(spans: seq<Bar>, path: seq<nat>): seq<Row>
    requires ProperIds(spans) && Chain(spans, path)
    decreases |spans| - |path|, |spans| + 1
  {
    KidsAre(spans, Last(path));
    [Row(Last(path), |path| - 1)] + WalkKids(spans, path, KidsOf(spans, Last(path)))
  }

  ghost function WalkKids(spans: seq<Bar>, path: seq<nat>, kids: seq<nat>): seq<Row>
    requires ProperIds(spans) && Chain(spans, path)
    requires AllKids(spans, path, kids)
    decreases |spans| - |path|, |spans|, |kids|
  {
    if kids == [] then []
    else
      var n := |kids| - 1;
      Extend(spans, path, kids[n]);
      WalkKids(spans, path, kids[..n]) + Walk(spans, path + [kids[n]])
  }

  lemma WalkKidsNext(spans: seq<Bar>, path: seq<nat>, kids: seq<nat>, n: nat)
    requires ProperIds(spans) && Chain(spans, path) && n < |kids|
    requires AllKids(spans, path, kids)
    ensures Chain(spans, path + [kids[n]])
    ensures WalkKids(spans, path, kids[..n + 1]) == WalkKids(spans, path, kids[..n]) + Walk(spans, path + [kids[n]])
  {
    Extend(spans, path, kids[n]);
    assert kids[..n + 1][..n] == kids[..n];
  }

  lemma NextKid(spans: seq<Bar>, path: seq<nat>, kids: seq<nat>, n: nat, start: seq<Row>, rows: seq<Row>)
    requires ProperIds(spans) && Chain(spans, path) && n < |kids|
    requires AllKids(spans, path, kids)
    requires rows == start + WalkKids(spans, path, kids[..n])
    ensures Chain(spans, path + [kids[n]]) && Last(path + [kids[n]]) == kids[n] && |path| < |spans|
    ensures rows + Walk(spans, path + [kids[n]]) == start + WalkKids(spans, path, kids[..n + 1])
  {
    Extend(spans, path, kids[n]);
    WalkKidsNext(spans, path, kids, n);
    Associates(start, WalkKids(spans, path, kids[..n]), Walk(spans, path + [kids[n]]));
  }

  lemma LastKid(spans: seq<Bar>, path: seq<nat>, kids: seq<nat>, before: seq<Row>, rows: seq<Row>)
    requires ProperIds(spans) && Chain(spans, path) && kids == KidsOf(spans, Last(path))
    requires AllKids(spans, path, kids)
    requires rows == before + [Row(Last(path), |path| - 1)] + WalkKids(spans, path, kids[..|kids|])
    ensures rows == before + Walk(spans, path)
  {
    assert kids[..|kids|] == kids;
    Associates(before, [Row(Last(path), |path| - 1)], WalkKids(spans, path, kids));
  }

  ghost predicate AllRoots(spans: seq<Bar>, roots: seq<nat>) {
    forall a :: 0 <= a < |roots| ==> IsRoot(spans, roots[a])
  }

  lemma SortedRoots(spans: seq<Bar>)
    ensures AllRoots(spans, Sorted(spans, RootsOf(spans, |spans|)))
  {
    var roots := Sorted(spans, RootsOf(spans, |spans|));
    RootsAre(spans, |spans|);
    SortedKeeps(spans, RootsOf(spans, |spans|));
    forall a | 0 <= a < |roots| ensures IsRoot(spans, roots[a]) {
      assert roots[a] in roots;
    }
  }

  lemma RootStarts(spans: seq<Bar>, roots: seq<nat>, n: nat)
    requires AllRoots(spans, roots) && n < |roots|
    ensures Chain(spans, [roots[n]]) && Last([roots[n]]) == roots[n]
  {
  }

  ghost function WalkRoots(spans: seq<Bar>, roots: seq<nat>): seq<Row>
    requires ProperIds(spans)
    requires AllRoots(spans, roots)
  {
    if roots == [] then []
    else WalkRoots(spans, roots[..|roots| - 1]) + Walk(spans, [roots[|roots| - 1]])
  }

  lemma WalkRootsNext(spans: seq<Bar>, roots: seq<nat>, n: nat)
    requires ProperIds(spans) && n < |roots|
    requires AllRoots(spans, roots)
    ensures WalkRoots(spans, roots[..n + 1]) == WalkRoots(spans, roots[..n]) + Walk(spans, [roots[n]])
  {
    assert roots[..n + 1][..n] == roots[..n];
  }

  ghost function Shown(spans: seq<Bar>): seq<Row>
    requires ProperIds(spans)
  {
    SortedRoots(spans);
    WalkRoots(spans, Sorted(spans, RootsOf(spans, |spans|)))
  }

  ghost predicate Justifies(spans: seq<Bar>, path: seq<nat>, c: seq<nat>, r: Row) {
    Chain(spans, c) && path <= c && r == Row(Last(c), |c| - 1)
  }

  /** Every row stands for a chain that extends the path it was reached by. */
  lemma {:induction false} WalkIsSound(spans: seq<Bar>, path: seq<nat>, r: Row) returns (c: seq<nat>)
    requires ProperIds(spans) && Chain(spans, path) && r in Walk(spans, path)
    ensures Justifies(spans, path, c, r)
    decreases |spans| - |path|, |spans| + 1
  {
    if r == Row(Last(path), |path| - 1) {
      c := path;
    } else {
      KidsAre(spans, Last(path));
      var k;
      k, c := WalkKidsIsSound(spans, path, KidsOf(spans, Last(path)), r);
    }
  }

  lemma {:induction false} WalkKidsIsSound(spans: seq<Bar>, path: seq<nat>, kids: seq<nat>, r: Row)
    returns (k: nat, c: seq<nat>)
    requires ProperIds(spans) && Chain(spans, path)
    requires AllKids(spans, path, kids)
    requires r in WalkKids(spans, path, kids)
    ensures k in kids && Justifies(spans, path + [k], c, r) && path <= c
    decreases |spans| - |path|, |spans|, |kids|
  {
    var n := |kids| - 1;
    Extend(spans, path, kids[n]);
    if r in WalkKids(spans, path, kids[..n]) {
      k, c := WalkKidsIsSound(spans, path, kids[..n], r);
    } else {
      k := kids[n];
      c := WalkIsSound(spans, path + [k], r);
    }
  }

  /** Every chain that extends the path is shown. */
  lemma {:induction false} WalkIsComplete(spans: seq<Bar>, path: seq<nat>, c: seq<nat>)
    requires ProperIds(spans) && Chain(spans, path) && Chain(spans, c) && path <= c
    ensures Row(Last(c), |c| - 1) in Walk(spans, path)
    decreases |spans| - |path|, |spans| + 1
  {
    if |c| == |path| {
      assert c == path;
    } else {
      assert IsChild(spans, c[|path| - 1], c[|path|]);
      KidsAre(spans, Last(path));
      WalkKidsIsComplete(spans, path, KidsOf(spans, Last(path)), c);
    }
  }

  lemma {:induction false} WalkKidsIsComplete(spans: seq<Bar>, path: seq<nat>, kids: seq<nat>, c: seq<nat>)
    requires ProperIds(spans) && Chain(spans, path) && Chain(spans, c) && path <= c && |path| < |c|
    requires AllKids(spans, path, kids)
    requires c[|path|] in kids
    ensures Row(Last(c), |c| - 1) in WalkKids(spans, path, kids)
    decreases |spans| - |path|, |spans|, |kids|
  {
    var n := |kids| - 1;
    Extend(spans, path, kids[n]);
    if c[|path|] == kids[n] {
      assert path + [kids[n]] <= c;
      WalkIsComplete(spans, path + [kids[n]], c);
    } else {
      assert kids == kids[..n] + [kids[n]];
      WalkKidsIsComplete(spans, path, kids[..n], c);
    }
  }

  ghost predicate Once(rows: seq<Row>) {
    forall a, b :: 0 <= a < b < |rows| ==> rows[a].span != rows[b].span
  }

  lemma OnceConcat(a: seq<Row>, b: seq<Row>)
    requires Once(a) && Once(b)
    requires forall r, q :: r in a && q in b ==> r.span != q.span
    ensures Once(a + b)
  {
    var all := a + b;
    forall i, j | 0 <= i < j < |all| ensures all[i].span != all[j].span {
      if i < |a| && j >= |a| {
        assert all[i] in a && all[j] in b;
      }
    }
  }

  /** No span is shown twice. */
  lemma {:induction false} WalkShowsOnce(spans: seq<Bar>, path: seq<nat>)
    requires ProperIds(spans) && Chain(spans, path)
    ensures Once(Walk(spans, path))
    decreases |spans| - |path|, |spans| + 1
  {
    var kids := KidsOf(spans, Last(path));
    var head := [Row(Last(path), |path| - 1)];
    KidsAre(spans, Last(path));
    WalkKidsShowOnce(spans, path, kids, |kids|);
    assert kids[..|kids|] == kids;
    forall r, q | r in head && q in WalkKids(spans, path, kids) ensures r.span != q.span {
      var k, c := WalkKidsIsSound(spans, path, kids, q);
      if r.span == q.span {
        ChainIsUnique(spans, path, c);
      }
    }
    OnceConcat(head, WalkKids(spans, path, kids));
  }

  lemma {:induction false} WalkKidsShowOnce(spans: seq<Bar>, path: seq<nat>, kids: seq<nat>, n: nat)
    requires ProperIds(spans) && Chain(spans, path) && NoDup(kids) && n <= |kids|
    requires AllKids(spans, path, kids)
    ensures Once(WalkKids(spans, path, kids[..n]))
    decreases |spans| - |path|, |spans|, n
  {
    if n == 0 {
    } else {
      WalkKidsNext(spans, path, kids, n - 1);
      Extend(spans, path, kids[n - 1]);
      WalkKidsShowOnce(spans, path, kids, n - 1);
      WalkShowsOnce(spans, path + [kids[n - 1]]);
      SiblingsShowOnce(spans, path, kids[..n - 1], kids[n - 1]);
    }
  }

  /** Rows below different children of a span show different spans. */
  lemma SiblingsDiffer(spans: seq<Bar>, path: seq<nat>, front: seq<nat>, last: nat, r: Row, q: Row)
    requires ProperIds(spans) && Chain(spans, path) && IsChild(spans, Last(path), last) && last !in front
    requires Chain(spans, path + [last])
    requires AllKids(spans, path, front)
    requires r in WalkKids(spans, path, front) && q in Walk(spans, path + [last])
    ensures r.span != q.span
  {
    var k, c := WalkKidsIsSound(spans, path, front, r);
    var d := WalkIsSound(spans, path + [last], q);
    assert c[|path|] == k && d[|path|] == last && k != last;
    ChainsMeetOnce(spans, c, d);
  }

  lemma SiblingsShowOnce(spans: seq<Bar>, path: seq<nat>, front: seq<nat>, last: nat)
    requires ProperIds(spans) && Chain(spans, path) && IsChild(spans, Last(path), last) && last !in front
    requires Chain(spans, path + [last])
    requires AllKids(spans, path, front)
    requires Once(WalkKids(spans, path, front)) && Once(Walk(spans, path + [last]))
    ensures Once(WalkKids(spans, path, front) + Walk(spans, path + [last]))
  {
    var earlier, later := WalkKids(spans, path, front), Walk(spans, path + [last]);
    forall r, q | r in earlier && q in later ensures r.span != q.span {
      SiblingsDiffer(spans, path, front, last, r, q);
    }
    OnceConcat(earlier, later);
  }

  // ---- all roots ----

  lemma RowOfSomeRoot(spans: seq<Bar>, roots: seq<nat>, r: Row)
    requires ProperIds(spans) && AllRoots(spans, roots) && r in WalkRoots(spans, roots)
    ensures var n := |roots| - 1;
            && roots != [] && AllRoots(spans, roots[..n])
            && Chain(spans, [roots[n]])
            && (r in WalkRoots(spans, roots[..n]) || r in Walk(spans, [roots[n]]))
  {
    RootStarts(spans, roots, |roots| - 1);
  }

  lemma {:induction false} RootsSound(spans: seq<Bar>, roots: seq<nat>, r: Row) returns (a: nat, c: seq<nat>)
    requires ProperIds(spans)
    requires AllRoots(spans, roots)
    requires r in WalkRoots(spans, roots)
    ensures a < |roots| && Justifies(spans, [roots[a]], c, r)
  {
    var n := |roots| - 1;
    RowOfSomeRoot(spans, roots, r);
    if r in WalkRoots(spans, roots[..n]) {
      a, c := RootsSound(spans, roots[..n], r);
    } else {
      a := n;
      c := WalkIsSound(spans, [roots[n]], r);
    }
  }

  lemma {:induction false} RootsComplete(spans: seq<Bar>, roots: seq<nat>, c: seq<nat>)
    requires ProperIds(spans) && Chain(spans, c) && c[0] in roots
    requires AllRoots(spans, roots)
    ensures Row(Last(c), |c| - 1) in WalkRoots(spans, roots)
  {
    var n := |roots| - 1;
    if c[0] == roots[n] {
      assert [roots[n]] <= c;
      WalkIsComplete(spans, [roots[n]], c);
    } else {
      assert roots == roots[..n] + [roots[n]];
      RootsComplete(spans, roots[..n], c);
    }
  }

  lemma {:induction false} RootsOnce(spans: seq<Bar>, roots: seq<nat>)
    requires ProperIds(spans) && NoDup(roots)
    requires AllRoots(spans, roots)
    ensures Once(WalkRoots(spans, roots))
  {
    if roots == [] {
    } else {
      var n := |roots| - 1;
      var front, last := roots[..n], roots[n];
      RootsOnce(spans, front);
      WalkShowsOnce(spans, [last]);
      forall r, q | r in WalkRoots(spans, front) && q in Walk(spans, [last]) ensures r.span != q.span {
        var a, c := RootsSound(spans, front, r);
        var d := WalkIsSound(spans, [last], q);
        assert c[0] == front[a] == roots[a] && d[0] == last == roots[n];
        ChainsMeetOnce(spans, c, d);
      }
      OnceConcat(WalkRoots(spans, front), Walk(spans, [last]));
    }
  }

  /** Exactness: the waterfall shows a span at a depth if and only if a chain of that many links
      leads from a root to it, and shows no span twice. */
  lemma WaterfallIsExact(spans: seq<Bar>)
    requires ProperIds(spans)
    ensures Once(Shown(spans))
    ensures forall r :: r in Shown(spans)
              <==> exists c :: Chain(spans, c) && r == Row(Last(c), |c| - 1)
  {
    var roots := Sorted(spans, RootsOf(spans, |spans|));
    SortedRoots(spans);
    RootsAre(spans, |spans|);
    SortedKeeps(spans, RootsOf(spans, |spans|));
    RootsOnce(spans, roots);
    forall r ensures r in Shown(spans) <==> exists c :: Chain(spans, c) && r == Row(Last(c), |c| - 1) {
      if r in Shown(spans) {
        var a, c := RootsSound(spans, roots, r);
        assert Chain(spans, c);
      }
      forall c | Chain(spans, c) && r == Row(Last(c), |c| - 1) ensures r in Shown(spans) {
        RootsComplete(spans, roots, c);
      }
    }
  }

  // ---- the view as the source builds it ----

  class View {
    var rows: seq<Row>

    /** Appends the rows of a span and of everything below it. */
    method WalkSpan(spans: seq<Bar>, byParent: map<string, seq<nat>>, i: nat, depth: nat, ghost path: seq<nat>)
      requires ProperIds(spans) && Chain(spans, path) && Last(path) == i && depth == |path| - 1
      requires Groups(byParent, spans, |spans|)
      modifies this
      ensures rows == old(rows) + Walk(spans, path)
      decreases |spans| - |path|
    {
      rows := rows + [Row(i, depth)];
      ghost var start := rows;
      FoundKids(spans, byParent, path);
      var kids := Sorted(spans, Found(byParent, spans[i].id));
      var n := 0;
      while n < |kids|
        invariant n <= |kids|
        invariant rows == start + WalkKids(spans, path, kids[..n])
      {
        NextKid(spans, path, kids, n, start, rows);
        WalkSpan(spans, byParent, kids[n], depth + 1, path + [kids[n]]);
        n := n + 1;
      }
      LastKid(spans, path, kids, old(rows), rows);
    }

    /** Builds the whole view. */
    method Render(spans: seq<Bar>)
      requires ProperIds(spans)
      modifies this
      ensures rows == Shown(spans)
    {
      rows := [];
      var byParent := GroupByParent(spans);
      var found := FindRoots(spans);
      var roots := Sorted(spans, found);
      SortedRoots(spans);
      var n := 0;
      while n < |roots|
        invariant n <= |roots|
        invariant rows == WalkRoots(spans, roots[..n])
      {
        RootStarts(spans, roots, n);
        WalkSpan(spans, byParent, roots[n], 0, [roots[n]]);
        WalkRootsNext(spans, roots, n);
        n := n + 1;
      }
      assert n == |roots| && roots[..n] == roots;
    }
  }

  function Found(byParent: map<string, seq<nat>>, p: string): seq<nat> {
    if p in byParent then byParent[p] else []
  }

  ghost predicate Groups(byParent: map<string, seq<nat>>, spans: seq<Bar>, n: nat)
    requires n <= |spans|
  {
    forall p: string :: Found(byParent, p) == ChildrenOf(spans, p, n)
  }

  lemma FoundKids(spans: seq<Bar>, byParent: map<string, seq<nat>>, path: seq<nat>)
    requires Chain(spans, path) && Groups(byParent, spans, |spans|)
    ensures var kids := Found(byParent, spans[Last(path)].id);
            InRange(spans, kids) && Sorted(spans, kids) == KidsOf(spans, Last(path))
    ensures AllKids(spans, path, KidsOf(spans, Last(path)))
  {
    KidsAre(spans, Last(path));
    assert Found(byParent, spans[Last(path)].id) == ChildrenOf(spans, spans[Last(path)].id, |spans|);
  }

  method GroupByParent(spans: seq<Bar>) returns (byParent: map<string, seq<nat>>)
    ensures Groups(byParent, spans, |spans|)
  {
    byParent := map[];
    var n := 0;
    while n < |spans|
      invariant n <= |spans| && Groups(byParent, spans, n)
    {
      var p := spans[n].parent;
      if p !in byParent {
        byParent := byParent[p := []];
      }
      byParent := byParent[p := byParent[p] + [n]];
      n := n + 1;
    }
  }

  method FindRoots(spans: seq<Bar>) returns (roots: seq<nat>)
    ensures roots == RootsOf(spans, |spans|)
  {
    var known: set<string> := {};
    var n := 0;
    while n < |spans|
      invariant n <= |spans|
      invariant forall id: string :: id in known <==> Known(spans[..n], id)
    {
      KnownSnoc(spans, n);
      known := known + {spans[n].id};
      n := n + 1;
    }
    assert spans[..n] == spans;
    roots := [];
    n := 0;
    while n < |spans|
      invariant n <= |spans| && roots == RootsOf(spans, n)
    {
      if spans[n].parent == "" || spans[n].parent !in known {
        roots := roots + [n];
      }
      n := n + 1;
    }
  }

  lemma KnownSnoc(spans: seq<Bar>, n: nat)
    requires n < |spans|
    ensures forall id: string :: Known(spans[..n + 1], id) == (Known(spans[..n], id) || spans[n].id == id)
  {
    forall id: string ensures Known(spans[..n + 1], id) == (Known(spans[..n], id) || spans[n].id == id) {
      if Known(spans[..n], id) {
        var j :| 0 <= j < n && spans[..n][j].id == id;
        assert spans[..n + 1][j].id == id;
      }
      assert spans[..n + 1][n] == spans[n];
      if Known(spans[..n + 1], id) {
        var j :| 0 <= j < n + 1 && spans[..n + 1][j].id == id;
        assert j < n ==> spans[..n][j].id == id;
      }
    }
  }
}
