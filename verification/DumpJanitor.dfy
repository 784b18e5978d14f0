/** The retention rules for dump files: what is past its age goes, and when the rest exceeds the
    quota the oldest go first. */
module DumpJanitor {
  import opened Basics

  datatype Dump = Dump(id: nat, createdAt: int, bytes: nat)

  datatype Retention = Retention(maxAge: int, maxBytes: int)

  const LIST_LIMIT: nat := 10_000

  function Bytes(ds: seq<Dump>): nat {
    if ds == [] then 0 else Bytes(ds[..|ds| - 1]) + ds[|ds| - 1].bytes
  }

  predicate Expired(d: Dump, cutoff: int) {
    d.createdAt < cutoff
  }

  function Unexpired(ds: seq<Dump>, cutoff: int): seq<Dump> {
    if ds == [] then []
    else
      var rest, d := Unexpired(ds[..|ds| - 1], cutoff), ds[|ds| - 1];
      if Expired(d, cutoff) then rest else rest + [d]
  }

  /** The quota pass: the last one goes while the rest is too large. */
  function Fitting(ds: seq<Dump>, maxBytes: int): seq<Dump> {
    if ds == [] || Bytes(ds) <= maxBytes then ds else Fitting(ds[..|ds| - 1], maxBytes)
  }

  function Kept(ds: seq<Dump>, r: Retention, now: int): seq<Dump> {
    Fitting(Unexpired(ds, now - r.maxAge), r.maxBytes)
  }

  // ---- what is kept ----

  /** Adding a dump never makes room. */
  lemma {:induction false} BytesGrow(ds: seq<Dump>, n: nat)
    requires n <= |ds|
    ensures Bytes(ds[..n]) <= Bytes(ds)
    decreases |ds|
  {
    if n < |ds| {
      BytesGrow(ds[..|ds| - 1], n);
      assert ds[..|ds| - 1][..n] == ds[..n];
    } else {
      assert ds[..n] == ds;
    }
  }

  /** The quota pass keeps a prefix of the list, that prefix fits unless nothing does, and every
      longer prefix is too large. */
  lemma {:induction false} KeepsLongestPrefix(ds: seq<Dump>, maxBytes: int)
    ensures var n := |Fitting(ds, maxBytes)|;
            && n <= |ds| && Fitting(ds, maxBytes) == ds[..n]
            && (Bytes(ds[..n]) <= maxBytes || n == 0)
            && (forall m :: n < m <= |ds| ==> Bytes(ds[..m]) > maxBytes)
  {
    if ds == [] || Bytes(ds) <= maxBytes {
      assert ds[..|ds|] == ds;
    } else {
      var front := ds[..|ds| - 1];
      KeepsLongestPrefix(front, maxBytes);
      var n := |Fitting(ds, maxBytes)|;
      forall m | n < m <= |ds| ensures Bytes(ds[..m]) > maxBytes {
        if m < |ds| {
          assert front[..m] == ds[..m];
        } else {
          assert ds[..m] == ds;
        }
      }
      assert front[..n] == ds[..n];
    }
  }

  predicate NewestFirst(ds: seq<Dump>) {
    forall i, j :: 0 <= i < j < |ds| ==> ds[i].createdAt >= ds[j].createdAt
  }

  /** The age pass keeps exactly the unexpired dumps. */
  lemma {:induction false} UnexpiredIsFilter(ds: seq<Dump>, cutoff: int, d: Dump)
    ensures d in Unexpired(ds, cutoff) <==> d in ds && !Expired(d, cutoff)
  {
    if ds == [] {
    } else {
      var front, last := ds[..|ds| - 1], ds[|ds| - 1];
      UnexpiredIsFilter(front, cutoff, d);
      assert ds == front + [last];
    }
  }

  /** The age pass leaves the order alone. */
  lemma {:induction false} UnexpiredKeepsOrder(ds: seq<Dump>, cutoff: int)
    requires NewestFirst(ds)
    ensures NewestFirst(Unexpired(ds, cutoff))
  {
    if ds == [] {
    } else {
      var front, last := ds[..|ds| - 1], ds[|ds| - 1];
      UnexpiredKeepsOrder(front, cutoff);
      forall i | 0 <= i < |Unexpired(front, cutoff)| ensures Unexpired(front, cutoff)[i].createdAt >= last.createdAt {
        var d := Unexpired(front, cutoff)[i];
        UnexpiredIsFilter(front, cutoff, d);
        var j :| 0 <= j < |front| && front[j] == d;
        assert ds[j] == d;
      }
    }
  }

  lemma KeptIsPrefix(ds: seq<Dump>, r: Retention, now: int) returns (n: nat)
    ensures n <= |Unexpired(ds, now - r.maxAge)| && Kept(ds, r, now) == Unexpired(ds, now - r.maxAge)[..n]
  {
    KeepsLongestPrefix(Unexpired(ds, now - r.maxAge), r.maxBytes);
    n := |Kept(ds, r, now)|;
  }

  /** Whatever is kept is one of the unexpired dumps. */
  lemma KeptIsUnexpired(ds: seq<Dump>, r: Retention, now: int, d: Dump)
    requires d in Kept(ds, r, now)
    ensures d in ds && !Expired(d, now - r.maxAge)
  {
    var n := KeptIsPrefix(ds, r, now);
    InPrefix(Unexpired(ds, now - r.maxAge), n, d);
    UnexpiredIsFilter(ds, now - r.maxAge, d);
  }

  lemma InPrefix(s: seq<Dump>, n: nat, d: Dump)
    requires n <= |s| && d in s[..n]
    ensures d in s
  {
  }

  /** Whatever is kept is at least as new as whatever was removed for the quota. */
  lemma KeptAreNewest(ds: seq<Dump>, r: Retention, now: int, kept: Dump, gone: Dump)
    requires NewestFirst(ds) && kept in Kept(ds, r, now)
    requires gone in ds && !Expired(gone, now - r.maxAge) && gone !in Kept(ds, r, now)
    ensures kept.createdAt >= gone.createdAt
  {
    UnexpiredKeepsOrder(ds, now - r.maxAge);
    UnexpiredIsFilter(ds, now - r.maxAge, gone);
    var n := KeptIsPrefix(ds, r, now);
    NewerPrefix(Unexpired(ds, now - r.maxAge), n, kept, gone);
  }

  lemma NewerPrefix(live: seq<Dump>, n: nat, kept: Dump, gone: Dump)
    requires NewestFirst(live) && n <= |live|
    requires kept in live[..n] && gone in live && gone !in live[..n]
    ensures kept.createdAt >= gone.createdAt
  {
    var i :| 0 <= i < n && live[i] == kept;
    var j :| 0 <= j < |live| && live[j] == gone;
    assert j < n ==> live[..n][j] == gone;
  }

  lemma {:induction false} BytesConcat(a: seq<Dump>, b: seq<Dump>)
    ensures Bytes(a + b) == Bytes(a) + Bytes(b)
  {
    if b == [] {
      assert a + b == a;
    } else {
      assert (a + b)[..|a + b| - 1] == a + b[..|b| - 1];
      BytesConcat(a, b[..|b| - 1]);
    }
  }

  lemma {:induction false} BytesIgnoreOrder(a: seq<Dump>, b: seq<Dump>)
    requires multiset(a) == multiset(b)
    ensures Bytes(a) == Bytes(b)
    decreases |b|
  {
    if b == [] {
      assert |multiset(a)| == 0;
    } else {
      var last := b[|b| - 1];
      var l, r := CutLast(a, b);
      BytesIgnoreOrder(l + r, b[..|b| - 1]);
      BytesConcat(l, r);
      BytesConcat(l + [last], r);
      BytesConcat(l, [last]);
      assert [last][..0] == [];
    }
  }

  lemma {:induction false} AllUnexpired(ds: seq<Dump>, cutoff: int)
    requires forall d :: d in ds ==> !Expired(d, cutoff)
    ensures Unexpired(ds, cutoff) == ds
  {
    if ds == [] {
    } else {
      AllUnexpired(ds[..|ds| - 1], cutoff);
    }
  }

  lemma SameUnexpired(kept: seq<Dump>, again: seq<Dump>, cutoff: int)
    requires multiset(again) == multiset(kept) && forall d :: d in kept ==> !Expired(d, cutoff)
    ensures Unexpired(again, cutoff) == again
  {
    forall d | d in again ensures !Expired(d, cutoff) {
      SameMember(again, kept, d);
    }
    AllUnexpired(again, cutoff);
  }

  lemma KeptAreUnexpired(ds: seq<Dump>, again: seq<Dump>, r: Retention, now: int)
    requires multiset(again) == multiset(Kept(ds, r, now))
    ensures Unexpired(again, now - r.maxAge) == again
  {
    var kept := Kept(ds, r, now);
    forall d | d in kept ensures !Expired(d, now - r.maxAge) {
      KeptIsUnexpired(ds, r, now, d);
    }
    SameUnexpired(kept, again, now - r.maxAge);
  }

  lemma KeepsAll(ds: seq<Dump>, r: Retention, now: int)
    requires Unexpired(ds, now - r.maxAge) == ds && (ds == [] || Bytes(ds) <= r.maxBytes)
    ensures Kept(ds, r, now) == ds
  {
  }

  lemma IdleOn(kept: seq<Dump>, again: seq<Dump>, r: Retention, now: int)
    requires multiset(again) == multiset(kept) && (kept == [] || Bytes(kept) <= r.maxBytes)
    requires Unexpired(again, now - r.maxAge) == again
    ensures Kept(again, r, now) == again
  {
    SameSize(again, kept);
    KeepsAll(again, r, now);
  }

  /** Another round at the same instant removes nothing, in whatever order the database returns
      dumps of the same age. */
  lemma AnotherRoundIsIdle(ds: seq<Dump>, again: seq<Dump>, r: Retention, now: int)
    requires multiset(again) == multiset(Kept(ds, r, now))
    ensures Kept(again, r, now) == again
  {
    KeptAreUnexpired(ds, again, r, now);
    KeptFits(ds, r, now);
    IdleOn(Kept(ds, r, now), again, r, now);
  }

  lemma SameMember(a: seq<Dump>, b: seq<Dump>, d: Dump)
    requires multiset(a) == multiset(b) && d in a
    ensures d in b
  {
    assert d in multiset(a);
  }

  lemma SameSize(a: seq<Dump>, b: seq<Dump>)
    requires multiset(a) == multiset(b)
    ensures Bytes(a) == Bytes(b) && |a| == |b|
  {
    BytesIgnoreOrder(a, b);
    assert |multiset(a)| == |a| && |multiset(b)| == |b|;
  }

  lemma KeptFits(ds: seq<Dump>, r: Retention, now: int)
    ensures Kept(ds, r, now) == [] || Bytes(Kept(ds, r, now)) <= r.maxBytes
  {
    KeepsLongestPrefix(Unexpired(ds, now - r.maxAge), r.maxBytes);
  }

  // ---- the janitor as the source holds it ----

  function Without(ds: seq<Dump>, id: nat): seq<Dump> {
    if ds == [] then []
    else
      var rest, d := Without(ds[..|ds| - 1], id), ds[|ds| - 1];
      if d.id == id then rest else rest + [d]
  }

  predicate DistinctIds(ds: seq<Dump>) {
    forall i, j :: 0 <= i < j < |ds| ==> ds[i].id != ds[j].id
  }

  lemma {:induction false} WithoutAbsent(ds: seq<Dump>, id: nat)
    requires forall d :: d in ds ==> d.id != id
    ensures Without(ds, id) == ds
  {
    if ds == [] {
    } else {
      WithoutAbsent(ds[..|ds| - 1], id);
    }
  }

  lemma {:induction false} WithoutConcat(a: seq<Dump>, b: seq<Dump>, id: nat)
    ensures Without(a + b, id) == Without(a, id) + Without(b, id)
  {
    if b == [] {
      assert a + b == a;
    } else {
      assert (a + b)[..|a + b| - 1] == a + b[..|b| - 1];
      WithoutConcat(a, b[..|b| - 1], id);
    }
  }

  /** Removing by id takes out the one dump in the middle. */
  lemma WithoutMiddle(a: seq<Dump>, d: Dump, b: seq<Dump>)
    requires forall x :: x in a || x in b ==> x.id != d.id
    ensures Without(a + [d] + b, d.id) == a + b
  {
    WithoutConcat(a + [d], b, d.id);
    WithoutConcat(a, [d], d.id);
    WithoutAbsent(a, d.id);
    WithoutAbsent(b, d.id);
    assert [d][..0] == [];
  }

  /** The kept indices point into the part of the list already walked. */
  ghost predicate Indexed(artifacts: seq<Dump>, kept: seq<int>, live: seq<Dump>, i: nat)
    requires i <= |artifacts|
  {
    && |kept| == |live|
    && forall k :: 0 <= k < |kept| ==> 0 <= kept[k] < i && artifacts[kept[k]] == live[k]
  }

  /** The places of the unexpired among the first i entries. */
  function LivePlaces(artifacts: seq<Dump>, i: nat, cutoff: int): seq<int>
    requires i <= |artifacts|
  {
    if i == 0 then []
    else if Expired(artifacts[i - 1], cutoff) then LivePlaces(artifacts, i - 1, cutoff)
    else LivePlaces(artifacts, i - 1, cutoff) + [i - 1]
  }

  /** The records after the age pass walked i entries. */
  function Left(artifacts: seq<Dump>, i: nat, cutoff: int): seq<Dump>
    requires i <= |artifacts|
  {
    if i == 0 then artifacts
    else if Expired(artifacts[i - 1], cutoff) then Without(Left(artifacts, i - 1, cutoff), artifacts[i - 1].id)
    else Left(artifacts, i - 1, cutoff)
  }

  /** The bytes of the unexpired among the first i entries. */
  function LiveBytes(artifacts: seq<Dump>, i: nat, cutoff: int): nat
    requires i <= |artifacts|
  {
    if i == 0 then 0
    else LiveBytes(artifacts, i - 1, cutoff) + if Expired(artifacts[i - 1], cutoff) then 0 else artifacts[i - 1].bytes
  }

  /** The unexpired among the first i entries. */
  function LiveDumps(artifacts: seq<Dump>, i: nat, cutoff: int): seq<Dump>
    requires i <= |artifacts|
  {
    if i == 0 then []
    else if Expired(artifacts[i - 1], cutoff) then LiveDumps(artifacts, i - 1, cutoff)
    else LiveDumps(artifacts, i - 1, cutoff) + [artifacts[i - 1]]
  }

  lemma {:induction false} LiveAreUnexpired(artifacts: seq<Dump>, i: nat, cutoff: int)
    requires i <= |artifacts|
    ensures LiveDumps(artifacts, i, cutoff) == Unexpired(artifacts[..i], cutoff)
  {
    if i == 0 {
    } else {
      LiveAreUnexpired(artifacts, i - 1, cutoff);
      assert artifacts[..i][..i - 1] == artifacts[..i - 1];
    }
  }

  lemma {:induction false} PlacesIndex(artifacts: seq<Dump>, i: nat, cutoff: int)
    requires i <= |artifacts|
    ensures Indexed(artifacts, LivePlaces(artifacts, i, cutoff), Unexpired(artifacts[..i], cutoff), i)
  {
    if i == 0 {
    } else {
      PlacesIndex(artifacts, i - 1, cutoff);
      UnexpiredSnoc(artifacts, i - 1, cutoff);
      IndexedOn(artifacts, i - 1, cutoff, LivePlaces(artifacts, i - 1, cutoff), Unexpired(artifacts[..i - 1], cutoff),
                LivePlaces(artifacts, i, cutoff), Unexpired(artifacts[..i], cutoff));
    }
  }

  lemma IndexedOn(artifacts: seq<Dump>, i: nat, cutoff: int, kept: seq<int>, live: seq<Dump>, kept': seq<int>, live': seq<Dump>)
    requires i < |artifacts| && Indexed(artifacts, kept, live, i)
    requires kept' == if Expired(artifacts[i], cutoff) then kept else kept + [i]
    requires live' == if Expired(artifacts[i], cutoff) then live else live + [artifacts[i]]
    ensures Indexed(artifacts, kept', live', i + 1)
  {
  }

  lemma UnexpiredSnoc(artifacts: seq<Dump>, i: nat, cutoff: int)
    requires i < |artifacts|
    ensures var live := Unexpired(artifacts[..i], cutoff);
            && Unexpired(artifacts[..i + 1], cutoff)
               == (if Expired(artifacts[i], cutoff) then live else live + [artifacts[i]])
            && Bytes(live + [artifacts[i]]) == Bytes(live) + artifacts[i].bytes
  {
    assert artifacts[..i + 1][..i] == artifacts[..i];
    var live := Unexpired(artifacts[..i], cutoff);
    assert (live + [artifacts[i]])[..|live|] == live;
  }

  lemma WithoutNext(artifacts: seq<Dump>, kept: seq<int>, live: seq<Dump>, i: nat)
    requires i < |artifacts| && DistinctIds(artifacts) && Indexed(artifacts, kept, live, i)
    ensures Without(live + artifacts[i..], artifacts[i].id) == live + artifacts[i + 1..]
  {
    var d, rest := artifacts[i], artifacts[i + 1..];
    assert live + artifacts[i..] == live + [d] + rest;
    forall x | x in live || x in rest ensures x.id != d.id {
      if x in live {
        var k :| 0 <= k < |live| && live[k] == x;
        assert artifacts[kept[k]] == x;
      } else {
        var k :| 0 <= k < |rest| && rest[k] == x;
        assert artifacts[i + 1 + k] == x;
      }
    }
    WithoutMiddle(live, d, rest);
  }

  lemma WalkOn(artifacts: seq<Dump>, i: nat, cutoff: int, kept: seq<int>, live: seq<Dump>, left: seq<Dump>)
    requires i < |artifacts| && DistinctIds(artifacts) && Indexed(artifacts, kept, live, i)
    requires left == live + artifacts[i..]
    ensures Expired(artifacts[i], cutoff) ==> Without(left, artifacts[i].id) == live + artifacts[i + 1..]
    ensures left == live + [artifacts[i]] + artifacts[i + 1..]
  {
    assert artifacts[i..] == [artifacts[i]] + artifacts[i + 1..];
    Associates(live, [artifacts[i]], artifacts[i + 1..]);
    if Expired(artifacts[i], cutoff) {
      WithoutNext(artifacts, kept, live, i);
    }
  }

  lemma LeftOn(artifacts: seq<Dump>, i: nat, cutoff: int, kept: seq<int>, live: seq<Dump>, next: seq<Dump>)
    requires i < |artifacts| && DistinctIds(artifacts) && Indexed(artifacts, kept, live, i)
    requires Left(artifacts, i, cutoff) == live + artifacts[i..]
    requires next == if Expired(artifacts[i], cutoff) then live else live + [artifacts[i]]
    ensures Left(artifacts, i + 1, cutoff) == next + artifacts[i + 1..]
  {
    WalkOn(artifacts, i, cutoff, kept, live, Left(artifacts, i, cutoff));
  }

  /** The age pass, entry by entry, leaves the unexpired of what it walked and all of the rest. */
  lemma {:induction false} WalkLeaves(artifacts: seq<Dump>, i: nat, cutoff: int)
    requires i <= |artifacts| && DistinctIds(artifacts)
    ensures Left(artifacts, i, cutoff) == Unexpired(artifacts[..i], cutoff) + artifacts[i..]
  {
    if i == 0 {
      assert artifacts[..0] == [] && [] + artifacts == artifacts;
    } else {
      WalkLeaves(artifacts, i - 1, cutoff);
      PlacesIndex(artifacts, i - 1, cutoff);
      UnexpiredSnoc(artifacts, i - 1, cutoff);
      LeftOn(artifacts, i - 1, cutoff, LivePlaces(artifacts, i - 1, cutoff), Unexpired(artifacts[..i - 1], cutoff),
             Unexpired(artifacts[..i], cutoff));
    }
  }

  lemma {:induction false} WalkAddsUp(artifacts: seq<Dump>, i: nat, cutoff: int)
    requires i <= |artifacts|
    ensures LiveBytes(artifacts, i, cutoff) == Bytes(LiveDumps(artifacts, i, cutoff))
  {
    if i == 0 {
    } else {
      WalkAddsUp(artifacts, i - 1, cutoff);
      var live := LiveDumps(artifacts, i - 1, cutoff);
      assert (live + [artifacts[i - 1]])[..|live|] == live;
    }
  }

  lemma WalkEnds(artifacts: seq<Dump>, cutoff: int)
    requires DistinctIds(artifacts)
    ensures var n := |artifacts|;
            && Left(artifacts, n, cutoff) == Unexpired(artifacts, cutoff)
            && LiveBytes(artifacts, n, cutoff) == Bytes(Unexpired(artifacts, cutoff))
            && Indexed(artifacts, LivePlaces(artifacts, n, cutoff), Unexpired(artifacts, cutoff), n)
  {
    LiveAreUnexpired(artifacts, |artifacts|, cutoff);
    PlacesIndex(artifacts, |artifacts|, cutoff);
    WalkLeaves(artifacts, |artifacts|, cutoff);
    WalkAddsUp(artifacts, |artifacts|, cutoff);
    assert artifacts[..|artifacts|] == artifacts;
    assert Left(artifacts, |artifacts|, cutoff) == Unexpired(artifacts, cutoff) + [];
  }

  lemma DropLast(live: seq<Dump>, i: nat, maxBytes: int)
    requires i < |live| && DistinctIds(live)
    ensures Without(live[..i + 1], live[i].id) == live[..i]
    ensures Bytes(live[..i + 1]) == Bytes(live[..i]) + live[i].bytes
    ensures Bytes(live[..i + 1]) > maxBytes ==> Fitting(live[..i + 1], maxBytes) == Fitting(live[..i], maxBytes)
  {
    assert live[..i + 1][..i] == live[..i];
    assert live[..i + 1] == live[..i] + [live[i]] + [];
    WithoutMiddle(live[..i], live[i], []);
  }

  class Janitor {
    const retention: Retention
    var records: seq<Dump>

    constructor (retention: Retention, records: seq<Dump>)
      ensures this.retention == retention && this.records == records
    {
      this.retention := retention;
      this.records := records;
    }

    method RemoveDump(id: nat)
      modifies this
      ensures records == Without(old(records), id)
    {
      var i, rest := 0, [];
      while i < |records|
        invariant i <= |records| && records == old(records)
        invariant rest == Without(records[..i], id)
      {
        assert records[..i + 1][..i] == records[..i];
        if records[i].id != id {
          rest := rest + [records[i]];
        }
        i := i + 1;
      }
      assert records[..i] == records;
      records := rest;
    }

    /** The age pass: it removes as it walks the list, and adds up what stays. */
    method ExpireDumps(artifacts: seq<Dump>, cutoff: int) returns (kept: seq<int>, total: nat, removed: nat)
      requires records == artifacts && DistinctIds(artifacts)
      modifies this
      ensures records == Unexpired(artifacts, cutoff)
      ensures Indexed(artifacts, kept, records, |artifacts|)
      ensures total == Bytes(records) && removed == |artifacts| - |records|
    {
      kept, total, removed := [], 0, 0;
      var i := 0;
      while i < |artifacts|
        invariant i <= |artifacts|
        invariant records == Left(artifacts, i, cutoff)
        invariant kept == LivePlaces(artifacts, i, cutoff)
        invariant total == LiveBytes(artifacts, i, cutoff) && removed == i - |kept|
      {
        if artifacts[i].createdAt < cutoff {
          RemoveDump(artifacts[i].id);
          removed := removed + 1;
        } else {
          total := total + artifacts[i].bytes;
          kept := kept + [i];
        }
        i := i + 1;
      }
      WalkEnds(artifacts, cutoff);
    }

    /** The quota pass: the oldest kept dumps go while the rest is too large. */
    method EnforceQuota(artifacts: seq<Dump>, kept: seq<int>, size: nat) returns (removed: nat)
      requires DistinctIds(records) && Indexed(artifacts, kept, records, |artifacts|) && size == Bytes(records)
      modifies this
      ensures records == Fitting(old(records), retention.maxBytes)
      ensures removed == |old(records)| - |records|
    {
      ghost var live := records;
      var i, total := |kept|, size;
      assert live[..i] == live;
      while i > 0 && total > retention.maxBytes
        invariant i <= |live| && records == live[..i] && total == Bytes(records)
        invariant Fitting(live, retention.maxBytes) == Fitting(live[..i], retention.maxBytes)
      {
        i := i - 1;
        DropLast(live, i, retention.maxBytes);
        RemoveDump(artifacts[kept[i]].id);
        total := total - artifacts[kept[i]].bytes;
      }
      removed := |kept| - i;
    }

    /** One cleanup round: the age pass, then the quota pass from the oldest. */
    method CleanDumps(now: int) returns (removedAge: nat, removedQuota: nat)
      requires DistinctIds(records) && |records| <= LIST_LIMIT
      modifies this
      ensures records == Kept(old(records), retention, now)
      ensures removedAge == |old(records)| - |Unexpired(old(records), now - retention.maxAge)|
      ensures removedQuota == |Unexpired(old(records), now - retention.maxAge)| - |records|
    {
      var artifacts := records;
      DistinctLive(artifacts, now - retention.maxAge);
      var kept, total;
      kept, total, removedAge := ExpireDumps(artifacts, now - retention.maxAge);
      removedQuota := EnforceQuota(artifacts, kept, total);
    }
  }

  lemma {:induction false} DistinctLive(ds: seq<Dump>, cutoff: int)
    requires DistinctIds(ds)
    ensures DistinctIds(Unexpired(ds, cutoff))
  {
    if ds == [] {
    } else {
      var front, last := ds[..|ds| - 1], ds[|ds| - 1];
      DistinctLive(front, cutoff);
      forall i | 0 <= i < |Unexpired(front, cutoff)| ensures Unexpired(front, cutoff)[i].id != last.id {
        var d := Unexpired(front, cutoff)[i];
        UnexpiredIsFilter(front, cutoff, d);
        var j :| 0 <= j < |front| && front[j] == d;
        assert ds[j] == d;
      }
    }
  }
}
