/** The pairing table seen from one key. As long as no stripe is full, what happens
    to a key depends only on the arrivals under it and the rotations of its stripe. */
module KeyProjection {
  import opened Basics
  import opened PairTable

  /** Where the record of a key stands. */
  datatype KeyState = Absent | Fresh(p: Pending) | Stale(p: Pending)

  datatype KeyOp = Hit(p: Pending) | Tick

  datatype KeyOut = PairOut(client: Pending, server: Pending) | EvictOut(p: Pending) | DisplaceOut(p: Pending)

  function Waiting(s: KeyState): Option<Pending> {
    match s
    case Absent => None
    case Fresh(p) => Some(p)
    case Stale(p) => Some(p)
  }

  function PairUp(a: Pending, b: Pending): KeyOut {
    if a.side == ClientSide then PairOut(a, b) else PairOut(b, a)
  }

  function Next(s: KeyState, op: KeyOp): KeyState {
    match op
    case Hit(p) => if Waiting(s).Some? && Waiting(s).value.side != p.side then Absent else Fresh(p)
    case Tick => if s.Fresh? then Stale(s.p) else Absent
  }

  function Out(s: KeyState, op: KeyOp): seq<KeyOut> {
    match op
    case Hit(p) =>
      if Waiting(s).None? then []
      else if Waiting(s).value.side != p.side then [PairUp(p, Waiting(s).value)]
      else [DisplaceOut(Waiting(s).value)]
    case Tick => if s.Stale? then [EvictOut(s.p)] else []
  }

  function Final(s: KeyState, ops: seq<KeyOp>): KeyState {
    if ops == [] then s else Next(Final(s, ops[..|ops| - 1]), ops[|ops| - 1])
  }

  /** Everything the table emits for the key, in order. */
  function Trace(s: KeyState, ops: seq<KeyOp>): seq<KeyOut> {
    if ops == [] then []
    else Trace(s, ops[..|ops| - 1]) + Out(Final(s, ops[..|ops| - 1]), ops[|ops| - 1])
  }

  lemma {:induction false} FinalConcat(s: KeyState, a: seq<KeyOp>, b: seq<KeyOp>)
    ensures Final(s, a + b) == Final(Final(s, a), b)
    ensures Trace(s, a + b) == Trace(s, a) + Trace(Final(s, a), b)
  {
    if b == [] {
      assert a + b == a;
    } else {
      var front, last := b[..|b| - 1], b[|b| - 1];
      assert (a + b)[..|a + b| - 1] == a + front && (a + b)[|a + b| - 1] == last;
      FinalConcat(s, a, front);
      Associates(Trace(s, a), Trace(Final(s, a), front), Out(Final(s, a + front), last));
    }
  }

  // ---- the stripe ----

  datatype TableOp = Arrival(key: string, p: Pending) | Rotation

  function StateOf(g: Gens, key: string): KeyState {
    if key in g.cur then Fresh(g.cur[key])
    else if key in g.prev then Stale(g.prev[key])
    else Absent
  }

  function Apply(g: Gens, op: TableOp, cap: int): Gens {
    match op
    case Arrival(key, p) => After(g, key, p, cap)
    case Rotation => Rotated(g)
  }

  /** What one operation of the stripe emits for a key. */
  function EmittedFor(g: Gens, op: TableOp, cap: int, key: string): seq<KeyOut> {
    match op
    case Arrival(k, p) =>
      if k != key then []
      else if Judge(g, k, p, cap).Matched? then [PairUp(p, Judge(g, k, p, cap).other)]
      else if Displaces(g, k, p) then [DisplaceOut(Find(g, k).value)]
      else []
    case Rotation => if key in g.prev then [EvictOut(g.prev[key])] else []
  }

  predicate HasRoom(g: Gens, op: TableOp, cap: int) {
    op.Arrival? ==> !Judge(g, op.key, op.p, cap).Full?
  }

  function AsKeyOp(op: TableOp, key: string): seq<KeyOp> {
    match op
    case Arrival(k, p) => if k == key then [Hit(p)] else []
    case Rotation => [Tick]
  }

  function ApplyAll(g: Gens, ops: seq<TableOp>, cap: int): Gens {
    if ops == [] then g else Apply(ApplyAll(g, ops[..|ops| - 1], cap), ops[|ops| - 1], cap)
  }

  function TraceFor(g: Gens, ops: seq<TableOp>, cap: int, key: string): seq<KeyOut> {
    if ops == [] then []
    else TraceFor(g, ops[..|ops| - 1], cap, key)
         + EmittedFor(ApplyAll(g, ops[..|ops| - 1], cap), ops[|ops| - 1], cap, key)
  }

  function Project(ops: seq<TableOp>, key: string): seq<KeyOp> {
    if ops == [] then [] else Project(ops[..|ops| - 1], key) + AsKeyOp(ops[|ops| - 1], key)
  }

  /** No arrival of the run finds its stripe full. */
  predicate NeverFull(g: Gens, ops: seq<TableOp>, cap: int) {
    ops == []
    || (NeverFull(g, ops[..|ops| - 1], cap) && HasRoom(ApplyAll(g, ops[..|ops| - 1], cap), ops[|ops| - 1], cap))
  }

  /** One operation moves every key exactly as the key's own automaton does. */
  lemma StepProjects(g: Gens, op: TableOp, cap: int, key: string)
    requires g.cur.Keys !! g.prev.Keys && HasRoom(g, op, cap)
    ensures Apply(g, op, cap).cur.Keys !! Apply(g, op, cap).prev.Keys
    ensures StateOf(Apply(g, op, cap), key) == Final(StateOf(g, key), AsKeyOp(op, key))
    ensures EmittedFor(g, op, cap, key) == Trace(StateOf(g, key), AsKeyOp(op, key))
  {
    var s := StateOf(g, key);
    match op
    case Arrival(k, p) =>
      ApartStays(g, k, p, cap);
      if k == key {
        ArrivalProjects(g, key, p, cap);
        ArrivalEmits(g, key, p, cap);
        SingleOp(s, Hit(p));
      } else {
        OthersUndisturbed(g, k, p, cap, key);
        assert AsKeyOp(op, key) == [];
      }
    case Rotation =>
      SingleOp(s, Tick);
  }

  lemma ApartStays(g: Gens, k: string, p: Pending, cap: int)
    requires g.cur.Keys !! g.prev.Keys
    ensures After(g, k, p, cap).cur.Keys !! After(g, k, p, cap).prev.Keys
  {
  }

  lemma ArrivalProjects(g: Gens, key: string, p: Pending, cap: int)
    requires g.cur.Keys !! g.prev.Keys && !Judge(g, key, p, cap).Full?
    ensures StateOf(After(g, key, p, cap), key) == Next(StateOf(g, key), Hit(p))
  {
    assert key !in Remaining(g, key).cur && key !in Remaining(g, key).prev;
  }

  lemma ArrivalEmits(g: Gens, key: string, p: Pending, cap: int)
    requires !Judge(g, key, p, cap).Full?
    ensures EmittedFor(g, Arrival(key, p), cap, key) == Out(StateOf(g, key), Hit(p))
  {
    assert Find(g, key) == Waiting(StateOf(g, key));
  }

  lemma OthersUndisturbed(g: Gens, k: string, p: Pending, cap: int, key: string)
    requires k != key
    ensures StateOf(After(g, k, p, cap), key) == StateOf(g, key)
  {
  }

  lemma SingleOp(s: KeyState, op: KeyOp)
    ensures Final(s, [op]) == Next(s, op) && Trace(s, [op]) == Out(s, op)
  {
    assert [op][..0] == [];
  }

  /** A whole run of the stripe, seen from one key, is the run of the key's automaton. */
  lemma {:induction false} RunProjects(g: Gens, ops: seq<TableOp>, cap: int, key: string)
    requires g.cur.Keys !! g.prev.Keys && NeverFull(g, ops, cap)
    ensures ApplyAll(g, ops, cap).cur.Keys !! ApplyAll(g, ops, cap).prev.Keys
    ensures StateOf(ApplyAll(g, ops, cap), key) == Final(StateOf(g, key), Project(ops, key))
    ensures TraceFor(g, ops, cap, key) == Trace(StateOf(g, key), Project(ops, key))
  {
    if ops == [] {
    } else {
      var n := |ops| - 1;
      RunProjects(g, ops[..n], cap, key);
      StepProjects(ApplyAll(g, ops[..n], cap), ops[n], cap, key);
      FinalConcat(StateOf(g, key), Project(ops[..n], key), AsKeyOp(ops[n], key));
    }
  }

  /** Two runs that show a key the same operations treat it alike. */
  lemma SameViewSameFate(a: seq<TableOp>, capA: int, b: seq<TableOp>, capB: int, key: string)
    requires NeverFull(EMPTY, a, capA) && NeverFull(EMPTY, b, capB)
    requires Project(a, key) == Project(b, key)
    ensures StateOf(ApplyAll(EMPTY, a, capA), key) == StateOf(ApplyAll(EMPTY, b, capB), key)
    ensures TraceFor(EMPTY, a, capA, key) == TraceFor(EMPTY, b, capB, key)
  {
    RunProjects(EMPTY, a, capA, key);
    RunProjects(EMPTY, b, capB, key);
  }

  lemma Snoc(g: Gens, ops: seq<TableOp>, op: TableOp, cap: int, key: string)
    ensures ApplyAll(g, ops + [op], cap) == Apply(ApplyAll(g, ops, cap), op, cap)
    ensures TraceFor(g, ops + [op], cap, key)
            == TraceFor(g, ops, cap, key) + EmittedFor(ApplyAll(g, ops, cap), op, cap, key)
    ensures Project(ops + [op], key) == Project(ops, key) + AsKeyOp(op, key)
    ensures AsKeyOp(op, key) == [] ==> Project(ops + [op], key) == Project(ops, key)
  {
    assert (ops + [op])[..|ops|] == ops;
  }

  lemma {:induction false} ProjectConcat(a: seq<TableOp>, b: seq<TableOp>, key: string)
    ensures Project(a + b, key) == Project(a, key) + Project(b, key)
  {
    if b == [] {
      assert a + b == a;
    } else {
      assert (a + b)[..|a + b| - 1] == a + b[..|b| - 1];
      ProjectConcat(a, b[..|b| - 1], key);
    }
  }
}
