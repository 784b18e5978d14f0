/** Exactly when a client and a server pair up: fewer than two rotations of their
    stripe between the two arrivals, whichever comes first. */
module PairWindow {
  import opened Basics
  import opened PairTable
  import opened KeyProjection

  predicate ArrivesUnder(op: TableOp, key: string) {
    op.Arrival? && op.key == key
  }

  ghost predicate NoArrival(ops: seq<TableOp>, key: string) {
    forall i :: 0 <= i < |ops| ==> !ArrivesUnder(ops[i], key)
  }

  function Rotations(ops: seq<TableOp>): nat {
    if ops == [] then 0 else Rotations(ops[..|ops| - 1]) + if ops[|ops| - 1].Rotation? then 1 else 0
  }

  function Ticks(n: nat): seq<KeyOp> {
    if n == 0 then [] else Ticks(n - 1) + [Tick]
  }

  /** Between arrivals under a key, the key sees nothing but rotations. */
  lemma {:induction false} QuietProjection(ops: seq<TableOp>, key: string)
    requires NoArrival(ops, key)
    ensures Project(ops, key) == Ticks(Rotations(ops))
  {
    if ops == [] {
    } else {
      QuietProjection(ops[..|ops| - 1], key);
    }
  }

  function Aged(s: KeyState, n: nat): KeyState {
    if n == 0 then s
    else if n == 1 && s.Fresh? then Stale(s.p)
    else Absent
  }

  function EvictionsWhileAging(s: KeyState, n: nat): seq<KeyOut> {
    if s.Fresh? && n >= 2 then [EvictOut(s.p)]
    else if s.Stale? && n >= 1 then [EvictOut(s.p)]
    else []
  }

  lemma {:induction false} AgingState(s: KeyState, n: nat)
    ensures Final(s, Ticks(n)) == Aged(s, n)
  {
    if n == 0 {
    } else {
      AgingState(s, n - 1);
      OneMore(s, Ticks(n - 1), Tick);
    }
  }

  lemma {:induction false} AgingTrace(s: KeyState, n: nat)
    ensures Trace(s, Ticks(n)) == EvictionsWhileAging(s, n)
  {
    if n == 0 {
    } else {
      AgingTrace(s, n - 1);
      OlderTrace(s, Ticks(n - 1), n - 1);
      assert Ticks(n) == Ticks(n - 1) + [Tick];
    }
  }

  lemma OlderTrace(s: KeyState, ops: seq<KeyOp>, n: nat)
    requires ops == Ticks(n) && Trace(s, ops) == EvictionsWhileAging(s, n)
    ensures Trace(s, ops + [Tick]) == EvictionsWhileAging(s, n + 1)
  {
    AgingState(s, n);
    OneMore(s, ops, Tick);
    OlderByOne(s, n);
  }

  /** A waiting record survives one rotation and is evicted, once, by the second. */
  lemma Aging(s: KeyState, n: nat)
    ensures Final(s, Ticks(n)) == Aged(s, n)
    ensures Trace(s, Ticks(n)) == EvictionsWhileAging(s, n)
  {
    AgingState(s, n);
    AgingTrace(s, n);
  }

  lemma OneMore(s: KeyState, ops: seq<KeyOp>, op: KeyOp)
    ensures Final(s, ops + [op]) == Next(Final(s, ops), op)
    ensures Trace(s, ops + [op]) == Trace(s, ops) + Out(Final(s, ops), op)
  {
    assert (ops + [op])[..|ops|] == ops;
  }

  lemma OlderByOne(s: KeyState, n: nat)
    ensures EvictionsWhileAging(s, n) + Out(Aged(s, n), Tick) == EvictionsWhileAging(s, n + 1)
  {
    assert [] + Out(Aged(s, n), Tick) == Out(Aged(s, n), Tick);
    assert EvictionsWhileAging(s, n) + [] == EvictionsWhileAging(s, n);
  }

  /** A single arrival, then n rotations. */
  lemma OneHit(s: KeyState, p: Pending, n: nat)
    requires s == Absent
    ensures Final(s, [Hit(p)] + Ticks(n)) == Aged(Fresh(p), n)
    ensures Trace(s, [Hit(p)] + Ticks(n)) == EvictionsWhileAging(Fresh(p), n)
  {
    HitThenQuiet(s, p, n, Fresh(p), []);
    assert [] + EvictionsWhileAging(Fresh(p), n) == EvictionsWhileAging(Fresh(p), n);
  }

  /** The fate of a key under which exactly two records of opposite sides arrive, r rotations
      apart, followed by q rotations. */
  lemma TwoHits(x: Pending, y: Pending, r: nat, q: nat)
    requires x.side != y.side
    ensures var ops := [Hit(x)] + Ticks(r) + ([Hit(y)] + Ticks(q));
            && Trace(Absent, ops) == (if r < 2 then [PairUp(y, x)]
                                      else [EvictOut(x)] + EvictionsWhileAging(Fresh(y), q))
            && Final(Absent, ops) == (if r < 2 then Absent else Aged(Fresh(y), q))
  {
    var first, second := [Hit(x)] + Ticks(r), [Hit(y)] + Ticks(q);
    OneHit(Absent, x, r);
    FinalConcat(Absent, first, second);
    SecondHit(Aged(Fresh(x), r), x, y, r, q);
  }

  lemma SecondHit(mid: KeyState, x: Pending, y: Pending, r: nat, q: nat)
    requires x.side != y.side && mid == Aged(Fresh(x), r)
    ensures Trace(mid, [Hit(y)] + Ticks(q)) == if r < 2 then [PairUp(y, x)] else EvictionsWhileAging(Fresh(y), q)
    ensures Final(mid, [Hit(y)] + Ticks(q)) == if r < 2 then Absent else Aged(Fresh(y), q)
  {
    if r < 2 {
      HitThenQuiet(mid, y, q, Absent, [PairUp(y, x)]);
      assert [PairUp(y, x)] + [] == [PairUp(y, x)];
    } else {
      HitThenQuiet(mid, y, q, Fresh(y), []);
      assert [] + EvictionsWhileAging(Fresh(y), q) == EvictionsWhileAging(Fresh(y), q);
    }
  }

  lemma HitThenQuiet(s: KeyState, p: Pending, n: nat, next: KeyState, out: seq<KeyOut>)
    requires next == Next(s, Hit(p)) && out == Out(s, Hit(p))
    ensures Final(s, [Hit(p)] + Ticks(n)) == Aged(next, n)
    ensures Trace(s, [Hit(p)] + Ticks(n)) == out + EvictionsWhileAging(next, n)
  {
    FinalConcat(s, [Hit(p)], Ticks(n));
    SingleOp(s, Hit(p));
    Aging(next, n);
  }

  lemma {:induction false} QuietFromEmpty(n: nat)
    ensures Final(Absent, Ticks(n)) == Absent && Trace(Absent, Ticks(n)) == []
  {
    Aging(Absent, n);
  }

  /** Rotations before the first arrival do not show. */
  lemma AfterQuiet(n: nat, ops: seq<KeyOp>)
    ensures Final(Absent, Ticks(n) + ops) == Final(Absent, ops)
    ensures Trace(Absent, Ticks(n) + ops) == Trace(Absent, ops)
  {
    QuietFromEmpty(n);
    FinalConcat(Absent, Ticks(n), ops);
    assert [] + Trace(Absent, ops) == Trace(Absent, ops);
  }

  /** The exact pairing window. Two records of opposite sides arrive under a key, and nothing
      else does; whichever came first, they yield the one pair edge of that key when fewer than
      two rotations separate them. Otherwise the first is evicted exactly once, and the second
      exactly when two rotations follow it. */
  lemma PairingWindow(a: seq<TableOp>, x: Pending, b: seq<TableOp>, y: Pending, d: seq<TableOp>, cap: int, key: string)
    requires x.side != y.side
    requires NoArrival(a, key) && NoArrival(b, key) && NoArrival(d, key)
    requires NeverFull(EMPTY, a + [Arrival(key, x)] + b + [Arrival(key, y)] + d, cap)
    ensures var ops := a + [Arrival(key, x)] + b + [Arrival(key, y)] + d;
            var client, server := if x.side == ClientSide then x else y, if x.side == ClientSide then y else x;
            if Rotations(b) < 2
            then TraceFor(EMPTY, ops, cap, key) == [PairOut(client, server)]
                 && StateOf(ApplyAll(EMPTY, ops, cap), key) == Absent
            else TraceFor(EMPTY, ops, cap, key)
                 == [EvictOut(x)] + (if Rotations(d) >= 2 then [EvictOut(y)] else [])
                 && StateOf(ApplyAll(EMPTY, ops, cap), key)
                    == (match Rotations(d) case 0 => Fresh(y) case 1 => Stale(y) case _ => Absent)
  {
    var ops := a + [Arrival(key, x)] + b + [Arrival(key, y)] + d;
    RunProjects(EMPTY, ops, cap, key);
    var na, nb, nd := Rotations(a), Rotations(b), Rotations(d);
    TwoArrivalsProjection(a, x, b, y, d, key);
    TwoHits(x, y, nb, nd);
    AfterQuiet(na, [Hit(x)] + Ticks(nb) + ([Hit(y)] + Ticks(nd)));
  }

  lemma TwoArrivalsProjection(a: seq<TableOp>, x: Pending, b: seq<TableOp>, y: Pending, d: seq<TableOp>, key: string)
    requires NoArrival(a, key) && NoArrival(b, key) && NoArrival(d, key)
    ensures Project(a + [Arrival(key, x)] + b + [Arrival(key, y)] + d, key)
            == Ticks(Rotations(a)) + ([Hit(x)] + Ticks(Rotations(b)) + ([Hit(y)] + Ticks(Rotations(d))))
  {
    var first := a + [Arrival(key, x)] + b;
    var ta, tb, td := Ticks(Rotations(a)), Ticks(Rotations(b)), Ticks(Rotations(d));
    OneArrivalProjection(a, x, b, key);
    OneArrivalAfter(first, ta + ([Hit(x)] + tb), y, d, key);
    Associates(ta, [Hit(x)] + tb, [Hit(y)] + td);
  }

  lemma OneArrivalProjection(a: seq<TableOp>, x: Pending, b: seq<TableOp>, key: string)
    requires NoArrival(a, key) && NoArrival(b, key)
    ensures Project(a + [Arrival(key, x)] + b, key) == Ticks(Rotations(a)) + ([Hit(x)] + Ticks(Rotations(b)))
  {
    QuietProjection(a, key);
    OneArrivalAfter(a, Ticks(Rotations(a)), x, b, key);
  }

  lemma OneArrivalAfter(a: seq<TableOp>, pa: seq<KeyOp>, x: Pending, b: seq<TableOp>, key: string)
    requires Project(a, key) == pa && NoArrival(b, key)
    ensures Project(a + [Arrival(key, x)] + b, key) == pa + ([Hit(x)] + Ticks(Rotations(b)))
  {
    ProjectConcat(a + [Arrival(key, x)], b, key);
    ProjectConcat(a, [Arrival(key, x)], key);
    QuietProjection(b, key);
    SingleArrival(key, x);
    Associates(pa, [Hit(x)], Ticks(Rotations(b)));
  }

  lemma SingleArrival(key: string, p: Pending)
    ensures Project([Arrival(key, p)], key) == [Hit(p)]
  {
    assert [Arrival(key, p)][..0] == [];
  }

  /** A record whose other half never arrives waits through one rotation and is evicted, once,
      by the second. */
  lemma LonelyRecord(a: seq<TableOp>, x: Pending, b: seq<TableOp>, cap: int, key: string)
    requires NoArrival(a, key) && NoArrival(b, key)
    requires NeverFull(EMPTY, a + [Arrival(key, x)] + b, cap)
    ensures var ops := a + [Arrival(key, x)] + b;
            && TraceFor(EMPTY, ops, cap, key) == (if Rotations(b) >= 2 then [EvictOut(x)] else [])
            && StateOf(ApplyAll(EMPTY, ops, cap), key)
               == (match Rotations(b) case 0 => Fresh(x) case 1 => Stale(x) case _ => Absent)
  {
    var ops := a + [Arrival(key, x)] + b;
    RunProjects(EMPTY, ops, cap, key);
    OneArrivalProjection(a, x, b, key);
    OneHit(Absent, x, Rotations(b));
    AfterQuiet(Rotations(a), [Hit(x)] + Ticks(Rotations(b)));
  }
}
