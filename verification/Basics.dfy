/** Small helpers shared by the models: optional values, sums over maps and
    sums over sequences. */
module Basics {

  datatype Option<+T> = None | Some(value: T)

  function Max(a: nat, b: nat): nat {
    if a < b then b else a
  }

  lemma Associates<T>(a: seq<T>, b: seq<T>, c: seq<T>)
    ensures a + b + c == a + (b + c)
  {
  }

  /** The sum of a finite sequence of numbers. */
  function SumSeq(s: seq<nat>): nat {
    if s == [] then 0 else SumSeq(s[..|s| - 1]) + s[|s| - 1]
  }

  lemma {:induction false} SumSeqConcat(a: seq<nat>, b: seq<nat>)
    ensures SumSeq(a + b) == SumSeq(a) + SumSeq(b)
  {
    if b == [] {
      assert a + b == a;
    } else {
      assert (a + b)[..|a + b| - 1] == a + b[..|b| - 1];
      SumSeqConcat(a, b[..|b| - 1]);
    }
  }

  lemma {:induction false} SumSeqUpdate(s: seq<nat>, i: nat, v: nat)
    requires i < |s|
    ensures SumSeq(s[i := v]) + s[i] == SumSeq(s) + v
  {
    var n := |s| - 1;
    if i < n {
      SumSeqUpdate(s[..n], i, v);
      assert s[i := v][..n] == s[..n][i := v];
    } else {
      assert s[i := v][..n] == s[..n];
    }
  }

  lemma {:induction false} SumSeqBound(s: seq<nat>, bound: nat)
    requires forall i :: 0 <= i < |s| ==> s[i] <= bound
    ensures SumSeq(s) <= |s| * bound
  {
    if s == [] {
    } else {
      SumSeqBound(s[..|s| - 1], bound);
    }
  }

  lemma {:induction false} SumSeqAtLeast(s: seq<nat>, i: nat)
    requires i < |s|
    ensures s[i] <= SumSeq(s)
  {
    if i < |s| - 1 {
      SumSeqAtLeast(s[..|s| - 1], i);
    }
  }

  /** The sum of the values of a finite map. */
  ghost function SumMap<K>(m: map<K, nat>): nat {
    if m == map[] then 0
    else
      var k :| k in m;
      m[k] + SumMap(m - {k})
  }

  lemma {:induction false} SumMapRemove<K>(m: map<K, nat>, k: K)
    requires k in m
    ensures SumMap(m) == m[k] + SumMap(m - {k})
    decreases |m|
  {
    var c :| c in m && SumMap(m) == m[c] + SumMap(m - {c});
    if c != k {
      SumMapRemove(m - {c}, k);
      SumMapRemove(m - {k}, c);
      assert m - {c} - {k} == m - {k} - {c};
    }
  }

  /** Writing one key changes the sum by exactly the change of that key. */
  lemma SumMapUpdate<K>(m: map<K, nat>, k: K, v: nat)
    ensures SumMap(m[k := v]) + (if k in m then m[k] else 0) == SumMap(m) + v
  {
    SumMapRemove(m[k := v], k);
    assert m[k := v] - {k} == m - {k};
    if k in m {
      SumMapRemove(m, k);
    } else {
      assert m - {k} == m;
    }
  }

  /** The last element of a permutation, cut out of the other arrangement. */
  lemma CutLast<T>(a: seq<T>, b: seq<T>) returns (l: seq<T>, r: seq<T>)
    requires multiset(a) == multiset(b) && b != []
    ensures a == l + [b[|b| - 1]] + r
    ensures multiset(l + r) == multiset(b[..|b| - 1])
  {
    var n := |b| - 1;
    assert b == b[..n] + [b[n]];
    assert b[n] in multiset(a);
    var i :| 0 <= i < |a| && a[i] == b[n];
    l, r := a[..i], a[i + 1..];
    assert a == l + [a[i]] + r;
    assert multiset(l + r) == multiset(a) - multiset{a[i]};
    assert multiset(b[..n]) == multiset(b) - multiset{b[n]};
  }

  /** A sequence without repetitions drawn from a finite set is no longer than it. */
  lemma {:induction false} DistinctSeqFits<T>(s: seq<T>, pool: set<T>)
    requires forall i, j :: 0 <= i < j < |s| ==> s[i] != s[j]
    requires forall i :: 0 <= i < |s| ==> s[i] in pool
    ensures |s| <= |pool|
  {
    if s == [] {
    } else {
      var last := s[|s| - 1];
      DistinctSeqFits(s[..|s| - 1], pool - {last});
    }
  }
}
