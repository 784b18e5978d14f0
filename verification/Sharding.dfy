/** Lock striping is transparent: for any hash function and any stripe count, a run
    of the striped table that never finds a stripe full does to every key exactly
    what one unstriped two-generation table does, even though the stripes rotate one
    after the other while arrivals go on. */
module Sharding {
  import opened Basics
  import opened PairTable
  import opened KeyProjection
  import opened TopologySystem

  datatype StripedOp = ArriveAt(key: string, p: Pending) | RotateStripe(i: nat)

  predicate InRange(c: Config, op: StripedOp) {
    c.shards >= 1 && (op.RotateStripe? ==> op.i < c.shards)
  }

  /** The stripe an operation works on. */
  function StripeOf(c: Config, op: StripedOp): nat
    requires c.shards >= 1
  {
    match op
    case ArriveAt(key, _) => ShardOf(c, key)
    case RotateStripe(i) => i
  }

  function Local(op: StripedOp): TableOp {
    match op
    case ArriveAt(key, p) => Arrival(key, p)
    case RotateStripe(_) => Rotation
  }

  ghost predicate AllInRange(c: Config, ops: seq<StripedOp>) {
    c.shards >= 1 && forall n :: 0 <= n < |ops| ==> InRange(c, ops[n])
  }

  ghost function Stripes(c: Config, ops: seq<StripedOp>): (shards: seq<Gens>)
    requires ValidConfig(c) && AllInRange(c, ops)
    ensures |shards| == c.shards
  {
    if ops == [] then seq(c.shards, _ => EMPTY)
    else
      var before := Stripes(c, ops[..|ops| - 1]);
      var op := ops[|ops| - 1];
      ValidStripe(c, op);
      before[StripeOf(c, op) := Apply(before[StripeOf(c, op)], Local(op), c.cap)]
  }

  lemma ValidStripe(c: Config, op: StripedOp)
    requires ValidConfig(c) && InRange(c, op)
    ensures StripeOf(c, op) < c.shards
  {
    if op.ArriveAt? {
      ShardOfIsValid(c, op.key);
    }
  }

  /** What the striped table emits for a key, in order. */
  ghost function StripedTrace(c: Config, ops: seq<StripedOp>, key: string): seq<KeyOut>
    requires ValidConfig(c) && AllInRange(c, ops)
  {
    if ops == [] then []
    else
      var op := ops[|ops| - 1];
      ValidStripe(c, op);
      StripedTrace(c, ops[..|ops| - 1], key)
      + EmittedFor(Stripes(c, ops[..|ops| - 1])[StripeOf(c, op)], Local(op), c.cap, key)
  }

  /** The operations of one stripe, in its lock order. */
  function Restrict(c: Config, ops: seq<StripedOp>, i: nat): seq<TableOp>
    requires c.shards >= 1
  {
    if ops == [] then []
    else
      var op := ops[|ops| - 1];
      var before := Restrict(c, ops[..|ops| - 1], i);
      if StripeOf(c, op) == i then before + [Local(op)] else before
  }

  ghost predicate StripedNeverFull(c: Config, ops: seq<StripedOp>)
    requires c.shards >= 1
  {
    forall i :: 0 <= i < c.shards ==> NeverFull(EMPTY, Restrict(c, ops, i), c.cap)
  }

  /** Each stripe evolves by its own operations alone. */
  lemma {:induction false} StripeIsLocal(c: Config, ops: seq<StripedOp>, i: nat)
    requires ValidConfig(c) && AllInRange(c, ops) && i < c.shards
    ensures Stripes(c, ops)[i] == ApplyAll(EMPTY, Restrict(c, ops, i), c.cap)
  {
    if ops == [] {
    } else {
      var op := ops[|ops| - 1];
      StripeIsLocal(c, ops[..|ops| - 1], i);
      ValidStripe(c, op);
      Snoc(EMPTY, Restrict(c, ops[..|ops| - 1], i), Local(op), c.cap, "");
    }
  }

  ghost predicate AtHome(c: Config, g: Gens, i: nat)
    requires c.shards >= 1
  {
    forall k :: k in g.cur || k in g.prev ==> ShardOf(c, k) == i
  }

  lemma {:induction false} StripesStayHome(c: Config, ops: seq<StripedOp>, i: nat)
    requires ValidConfig(c) && AllInRange(c, ops) && i < c.shards
    ensures AtHome(c, Stripes(c, ops)[i], i)
  {
    if ops == [] {
    } else {
      StripesStayHome(c, ops[..|ops| - 1], i);
      ValidStripe(c, ops[|ops| - 1]);
    }
  }

  /** A key hears only from its own stripe. */
  lemma {:induction false} TraceIsLocal(c: Config, ops: seq<StripedOp>, key: string)
    requires ValidConfig(c) && AllInRange(c, ops)
    ensures StripedTrace(c, ops, key) == TraceFor(EMPTY, Restrict(c, ops, ShardOf(c, key)), c.cap, key)
  {
    if ops == [] {
    } else {
      var front, op, home := ops[..|ops| - 1], ops[|ops| - 1], ShardOf(c, key);
      TraceIsLocal(c, front, key);
      ValidStripe(c, op);
      if StripeOf(c, op) == home {
        StripeIsLocal(c, front, home);
        Snoc(EMPTY, Restrict(c, front, home), Local(op), c.cap, key);
      } else {
        StripesStayHome(c, front, StripeOf(c, op));
        assert key !in Stripes(c, front)[StripeOf(c, op)].prev;
        assert op.ArriveAt? ==> op.key != key;
      }
    }
  }

  // ---- the equivalent unstriped run ----

  function RotationsOf(ops: seq<StripedOp>, i: nat): nat {
    if ops == [] then 0
    else RotationsOf(ops[..|ops| - 1], i) + if ops[|ops| - 1] == RotateStripe(i) then 1 else 0
  }

  /** The arrivals that found their own stripe rotated exactly e times. */
  function Level(c: Config, ops: seq<StripedOp>, e: nat): seq<TableOp>
    requires c.shards >= 1
  {
    if ops == [] then []
    else
      var front, op := ops[..|ops| - 1], ops[|ops| - 1];
      var before := Level(c, front, e);
      if op.ArriveAt? && RotationsOf(front, ShardOf(c, op.key)) == e then before + [Local(op)] else before
  }

  /** One table, rotated as a whole: the levels in order with a rotation between them. */
  function Unstriped(c: Config, ops: seq<StripedOp>, rounds: nat): seq<TableOp>
    requires c.shards >= 1
  {
    if rounds == 0 then Level(c, ops, 0)
    else Unstriped(c, ops, rounds - 1) + [Rotation] + Level(c, ops, rounds)
  }

  /** The unstriped run seen from one key. */
  function Seen(c: Config, ops: seq<StripedOp>, rounds: nat, key: string): seq<KeyOp>
    requires c.shards >= 1
  {
    if rounds == 0 then Project(Level(c, ops, 0), key)
    else Seen(c, ops, rounds - 1, key) + [Tick] + Project(Level(c, ops, rounds), key)
  }

  lemma {:induction false} UnstripedIsSeen(c: Config, ops: seq<StripedOp>, rounds: nat, key: string)
    requires c.shards >= 1
    ensures Project(Unstriped(c, ops, rounds), key) == Seen(c, ops, rounds, key)
  {
    if rounds == 0 {
    } else {
      UnstripedIsSeen(c, ops, rounds - 1, key);
      ProjectConcat(Unstriped(c, ops, rounds - 1) + [Rotation], Level(c, ops, rounds), key);
      Snoc(EMPTY, Unstriped(c, ops, rounds - 1), Rotation, 0, key);
    }
  }

  /** No arrival under a key lies beyond the rotations its stripe has made. */
  lemma {:induction false} NothingBeyond(c: Config, ops: seq<StripedOp>, e: nat, key: string)
    requires c.shards >= 1 && e > RotationsOf(ops, ShardOf(c, key))
    ensures Project(Level(c, ops, e), key) == []
  {
    if ops == [] {
    } else {
      var front, op := ops[..|ops| - 1], ops[|ops| - 1];
      NothingBeyond(c, front, e, key);
      LevelSnoc(c, front, op, e, key);
    }
  }

  /** How one more operation shows at a level. */
  lemma LevelSnoc(c: Config, front: seq<StripedOp>, op: StripedOp, e: nat, key: string)
    requires c.shards >= 1
    ensures Project(Level(c, front + [op], e), key)
            == if op.ArriveAt? && op.key == key && RotationsOf(front, ShardOf(c, key)) == e
               then Project(Level(c, front, e), key) + [Hit(op.p)]
               else Project(Level(c, front, e), key)
  {
    assert (front + [op])[..|front|] == front;
    Snoc(EMPTY, Level(c, front, e), Local(op), 0, key);
  }

  lemma {:induction false} SeenUnchanged(c: Config, front: seq<StripedOp>, op: StripedOp, rounds: nat, key: string)
    requires c.shards >= 1
    requires op.ArriveAt? && op.key == key ==> rounds < RotationsOf(front, ShardOf(c, key))
    ensures Seen(c, front + [op], rounds, key) == Seen(c, front, rounds, key)
  {
    assert Project(Level(c, front + [op], rounds), key) == Project(Level(c, front, rounds), key) by {
      LevelSnoc(c, front, op, rounds, key);
    }
    if rounds == 0 {
    } else {
      assert Seen(c, front + [op], rounds - 1, key) == Seen(c, front, rounds - 1, key) by {
        SeenUnchanged(c, front, op, rounds - 1, key);
      }
    }
  }

  /** The stripe of a key and the unstriped table show the key the same operations. */
  lemma {:induction false} SameView(c: Config, ops: seq<StripedOp>, key: string)
    requires c.shards >= 1
    ensures Seen(c, ops, RotationsOf(ops, ShardOf(c, key)), key) == Project(Restrict(c, ops, ShardOf(c, key)), key)
  {
    if ops == [] {
      assert Level(c, ops, 0) == [];
    } else {
      var front, op := ops[..|ops| - 1], ops[|ops| - 1];
      SameView(c, front, key);
      assert ops == front + [op];
      SeenSnoc(c, front, op, key);
      RestrictSnoc(c, front, op, key);
    }
  }

  lemma SeenSnoc(c: Config, front: seq<StripedOp>, op: StripedOp, key: string)
    requires c.shards >= 1
    ensures var home := ShardOf(c, key);
            Seen(c, front + [op], RotationsOf(front + [op], home), key)
            == if StripeOf(c, op) == home && AsKeyOp(Local(op), key) != []
               then Seen(c, front, RotationsOf(front, home), key) + AsKeyOp(Local(op), key)
               else Seen(c, front, RotationsOf(front, home), key)
  {
    var home := ShardOf(c, key);
    assert (front + [op])[..|front|] == front;
    if op == RotateStripe(home) {
      SeenRotation(c, front, key);
    } else if op.ArriveAt? && op.key == key {
      SeenHit(c, front, op, key);
    } else {
      SeenUnchanged(c, front, op, RotationsOf(front, home), key);
    }
  }

  lemma SeenRotation(c: Config, front: seq<StripedOp>, key: string)
    requires c.shards >= 1
    ensures var r := RotationsOf(front, ShardOf(c, key));
            Seen(c, front + [RotateStripe(ShardOf(c, key))], r + 1, key) == Seen(c, front, r, key) + [Tick]
  {
    var op := RotateStripe(ShardOf(c, key));
    var r := RotationsOf(front, ShardOf(c, key));
    SeenUnchanged(c, front, op, r, key);
    LevelSnoc(c, front, op, r + 1, key);
    NothingBeyond(c, front, r + 1, key);
    SeenRound(c, front + [op], r + 1, key);
    AppendNothing(Seen(c, front, r, key) + [Tick]);
  }

  lemma SeenRound(c: Config, ops: seq<StripedOp>, rounds: nat, key: string)
    requires c.shards >= 1 && rounds > 0
    ensures Seen(c, ops, rounds, key) == Seen(c, ops, rounds - 1, key) + [Tick] + Project(Level(c, ops, rounds), key)
  {
  }

  lemma AppendNothing(s: seq<KeyOp>)
    ensures s + [] == s
  {
  }

  lemma SeenHit(c: Config, front: seq<StripedOp>, op: StripedOp, key: string)
    requires c.shards >= 1 && op.ArriveAt? && op.key == key
    ensures var r := RotationsOf(front, ShardOf(c, key));
            Seen(c, front + [op], r, key) == Seen(c, front, r, key) + [Hit(op.p)]
  {
    var r := RotationsOf(front, ShardOf(c, key));
    SeenHitAt(c, front, op, r, key);
  }

  lemma SeenHitAt(c: Config, front: seq<StripedOp>, op: StripedOp, r: nat, key: string)
    requires c.shards >= 1 && op.ArriveAt? && op.key == key && r == RotationsOf(front, ShardOf(c, key))
    ensures Seen(c, front + [op], r, key) == Seen(c, front, r, key) + [Hit(op.p)]
  {
    var level := Project(Level(c, front, r), key);
    var level' := Project(Level(c, front + [op], r), key);
    assert level' == level + [Hit(op.p)] by {
      LevelSnoc(c, front, op, r, key);
    }
    if r > 0 {
      var before := Seen(c, front, r - 1, key);
      assert Seen(c, front + [op], r - 1, key) == before by {
        SeenUnchanged(c, front, op, r - 1, key);
      }
      Associates(before + [Tick], level, [Hit(op.p)]);
    }
  }

  lemma RestrictSnoc(c: Config, front: seq<StripedOp>, op: StripedOp, key: string)
    requires c.shards >= 1
    ensures Project(Restrict(c, front + [op], ShardOf(c, key)), key)
            == if StripeOf(c, op) == ShardOf(c, key) && AsKeyOp(Local(op), key) != []
               then Project(Restrict(c, front, ShardOf(c, key)), key) + AsKeyOp(Local(op), key)
               else Project(Restrict(c, front, ShardOf(c, key)), key)
  {
    assert (front + [op])[..|front|] == front;
    Snoc(EMPTY, Restrict(c, front, ShardOf(c, key)), Local(op), 0, key);
  }

  // ---- the theorem ----

  lemma {:induction false} HeldAtMost(ops: seq<TableOp>, cap: int)
    ensures |ApplyAll(EMPTY, ops, cap).cur| <= |ops|
  {
    if ops == [] {
    } else {
      var front, op := ops[..|ops| - 1], ops[|ops| - 1];
      HeldAtMost(front, cap);
      if op.Arrival? {
        Resize(ApplyAll(EMPTY, front, cap), op.key, op.p);
      }
    }
  }

  /** A table with room for every arrival is never full. */
  lemma {:induction false} AmpleIsNeverFull(ops: seq<TableOp>, cap: int)
    requires cap > |ops|
    ensures NeverFull(EMPTY, ops, cap)
  {
    if ops == [] {
    } else {
      var front, op := ops[..|ops| - 1], ops[|ops| - 1];
      AmpleIsNeverFull(front, cap);
      HeldAtMost(front, cap);
      if op.Arrival? {
        Resize(ApplyAll(EMPTY, front, cap), op.key, op.p);
      }
    }
  }

  /** The unstriped run that the first `rounds` rotation rounds amount to. */
  ghost predicate Reproduces(c: Config, ops: seq<StripedOp>, rounds: nat, key: string)
    requires ValidConfig(c) && AllInRange(c, ops)
  {
    var one := Unstriped(c, ops, rounds);
    && ShardOf(c, key) < c.shards
    && StateOf(Stripes(c, ops)[ShardOf(c, key)], key) == StateOf(ApplyAll(EMPTY, one, |one| + 1), key)
    && StripedTrace(c, ops, key) == TraceFor(EMPTY, one, |one| + 1, key)
  }

  /** For every key, the striped table ends with the same record in the same generation, and has
      emitted the same pairings and evictions in the same order, as one unstriped table that is
      large enough. */
  lemma StripingIsTransparent(c: Config, ops: seq<StripedOp>, key: string)
    requires ValidConfig(c) && AllInRange(c, ops) && StripedNeverFull(c, ops)
    ensures Reproduces(c, ops, RotationsOf(ops, ShardOf(c, key)), key)
  {
    ShardOfIsValid(c, key);
    var own, one := OwnOf(c, ops, key), OneFor(c, ops, key);
    SameProjection(c, ops, key);
    AmpleTableAgrees(own, c.cap, one, key);
    StripedState(c, ops, key, own, one);
    StripedOutput(c, ops, key, own, one);
  }

  /** The equivalent unstriped run of a key. */
  function OneFor(c: Config, ops: seq<StripedOp>, key: string): seq<TableOp>
    requires c.shards >= 1
  {
    Unstriped(c, ops, RotationsOf(ops, ShardOf(c, key)))
  }

  function OwnOf(c: Config, ops: seq<StripedOp>, key: string): seq<TableOp>
    requires c.shards >= 1
  {
    Restrict(c, ops, ShardOf(c, key))
  }

  lemma SameProjection(c: Config, ops: seq<StripedOp>, key: string)
    requires c.shards >= 1
    ensures Project(OneFor(c, ops, key), key) == Project(OwnOf(c, ops, key), key)
  {
    SameView(c, ops, key);
    UnstripedIsSeen(c, ops, RotationsOf(ops, ShardOf(c, key)), key);
  }

  lemma StripedState(c: Config, ops: seq<StripedOp>, key: string, own: seq<TableOp>, one: seq<TableOp>)
    requires ValidConfig(c) && AllInRange(c, ops) && ShardOf(c, key) < c.shards
    requires own == OwnOf(c, ops, key) && SameFate(own, c.cap, one, |one| + 1, key)
    ensures StateOf(Stripes(c, ops)[ShardOf(c, key)], key) == StateOf(ApplyAll(EMPTY, one, |one| + 1), key)
  {
    StripeIsLocal(c, ops, ShardOf(c, key));
  }

  lemma StripedOutput(c: Config, ops: seq<StripedOp>, key: string, own: seq<TableOp>, one: seq<TableOp>)
    requires ValidConfig(c) && AllInRange(c, ops) && ShardOf(c, key) < c.shards
    requires own == OwnOf(c, ops, key) && SameFate(own, c.cap, one, |one| + 1, key)
    ensures StripedTrace(c, ops, key) == TraceFor(EMPTY, one, |one| + 1, key)
  {
    TraceIsLocal(c, ops, key);
  }

  ghost predicate SameFate(a: seq<TableOp>, capA: int, b: seq<TableOp>, capB: int, key: string) {
    && StateOf(ApplyAll(EMPTY, a, capA), key) == StateOf(ApplyAll(EMPTY, b, capB), key)
    && TraceFor(EMPTY, a, capA, key) == TraceFor(EMPTY, b, capB, key)
  }

  lemma AmpleTableAgrees(own: seq<TableOp>, cap: int, one: seq<TableOp>, key: string)
    requires NeverFull(EMPTY, own, cap) && Project(one, key) == Project(own, key)
    ensures SameFate(own, cap, one, |one| + 1, key)
  {
    AmpleIsNeverFull(one, |one| + 1);
    SameViewSameFate(own, cap, one, |one| + 1, key);
  }

  /** Between rotation rounds every stripe has rotated equally often, and one and the same
      unstriped run accounts for all keys at once. */
  lemma OneTableServesAllKeys(c: Config, ops: seq<StripedOp>, rounds: nat)
    requires ValidConfig(c) && AllInRange(c, ops) && StripedNeverFull(c, ops)
    requires forall i :: 0 <= i < c.shards ==> RotationsOf(ops, i) == rounds
    ensures forall key: string :: Reproduces(c, ops, rounds, key)
  {
    forall key: string ensures Reproduces(c, ops, rounds, key) {
      ShardOfIsValid(c, key);
      StripingIsTransparent(c, ops, key);
    }
  }
}
