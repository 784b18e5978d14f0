/** One lock stripe of the pairing table: two generations of pending spans, the
    lock section every arrival runs, and the rotation. */
module PairTable {
  import opened Basics
  import opened Spans

  datatype Side = ClientSide | ServerSide

  /** A span waiting for its other half. */
  datatype Pending = Pending(
    side: Side,
    node: Node,
    durationNs: nat,
    isError: bool,
    connType: ConnType,
    peer: string)

  datatype Gens = Gens(cur: map<string, Pending>, prev: map<string, Pending>)

  const EMPTY: Gens := Gens(map[], map[])

  /** How a lock section ends: the span waits, meets its other half, or finds no room. */
  datatype Verdict = Stored | Matched(other: Pending) | Full

  // ---- the lock section as a function of the stripe ----

  /** The record `take` finds: the current generation is searched first. */
  function Find(g: Gens, key: string): Option<Pending> {
    if key in g.cur then Some(g.cur[key])
    else if key in g.prev then Some(g.prev[key])
    else None
  }

  /** The stripe after `take` removed whatever it found. */
  function Remaining(g: Gens, key: string): Gens {
    if key in g.cur then g.(cur := g.cur - {key})
    else if key in g.prev then g.(prev := g.prev - {key})
    else g
  }

  /** A record of the opposite side waits under the key. */
  predicate Meets(g: Gens, key: string, p: Pending) {
    Find(g, key).Some? && Find(g, key).value.side != p.side
  }

  /** A record of the same side waits under the key: `take` discards it silently. */
  predicate Displaces(g: Gens, key: string, p: Pending) {
    Find(g, key).Some? && Find(g, key).value.side == p.side
  }

  function Judge(g: Gens, key: string, p: Pending, cap: int): Verdict {
    if Meets(g, key, p) then Matched(Find(g, key).value)
    else if |Remaining(g, key).cur| >= cap then Full
    else Stored
  }

  function After(g: Gens, key: string, p: Pending, cap: int): Gens {
    var rest := Remaining(g, key);
    if Judge(g, key, p, cap).Stored? then rest.(cur := rest.cur[key := p]) else rest
  }

  function Rotated(g: Gens): Gens {
    Gens(map[], g.cur)
  }

  function Held(g: Gens): nat {
    |g.cur| + |g.prev|
  }

  // ---- what every section keeps ----

  /** How many records one generation may hold. */
  function Limit(cap: int): nat {
    if cap < 0 then 0 else cap
  }

  lemma RemoveSize(m: map<string, Pending>, k: string)
    requires k in m
    ensures |m - {k}| == |m| - 1
  {
    assert (m - {k}).Keys == m.Keys - {k};
  }

  lemma InsertSize(m: map<string, Pending>, k: string, p: Pending)
    requires k !in m
    ensures |m[k := p]| == |m| + 1
  {
    assert m[k := p].Keys == m.Keys + {k};
  }

  /** The generations share no key, hold only keys of this stripe, and respect the cap. */
  ghost predicate Sound(g: Gens, home: string -> bool, cap: int) {
    && g.cur.Keys !! g.prev.Keys
    && (forall k :: k in g.cur || k in g.prev ==> home(k))
    && |g.cur| <= Limit(cap)
    && |g.prev| <= Limit(cap)
  }

  lemma Resize(g: Gens, key: string, p: Pending)
    ensures Held(Remaining(g, key)) == Held(g) - (if Find(g, key).Some? then 1 else 0)
    ensures |Remaining(g, key).cur| <= |g.cur| && |Remaining(g, key).prev| <= |g.prev|
    ensures |Remaining(g, key).cur[key := p]| == |Remaining(g, key).cur| + 1
  {
    if key in g.cur {
      RemoveSize(g.cur, key);
    } else if key in g.prev {
      RemoveSize(g.prev, key);
    }
    InsertSize(Remaining(g, key).cur, key, p);
  }

  /** An arrival keeps the stripe sound, whatever it finds. */
  lemma AfterIsSound(g: Gens, key: string, p: Pending, home: string -> bool, cap: int)
    requires Sound(g, home, cap) && home(key)
    ensures Sound(After(g, key, p, cap), home, cap)
  {
    Resize(g, key, p);
  }

  lemma RotatedIsSound(g: Gens, home: string -> bool, cap: int)
    requires Sound(g, home, cap)
    ensures Sound(Rotated(g), home, cap)
  {
  }

  /** No record appears or vanishes: each arrival's effect on the number held. */
  lemma ArrivalAccount(g: Gens, key: string, p: Pending, cap: int)
    ensures Held(After(g, key, p, cap)) + (if Judge(g, key, p, cap).Matched? then 2 else 0)
            + (if Judge(g, key, p, cap).Full? then 1 else 0)
            + (if Displaces(g, key, p) then 1 else 0)
            == Held(g) + 1
  {
    Resize(g, key, p);
  }

  // ---- the stripe as the source holds it ----

  class Shard {
    var cur: map<string, Pending>
    var prev: map<string, Pending>

    ghost function State(): Gens
      reads this
    {
      Gens(cur, prev)
    }

    constructor ()
      ensures State() == EMPTY
    {
      cur, prev := map[], map[];
    }

    /** Looks the key up, first among the younger records, and takes out what it hits. */
    method Take(key: string) returns (p: Option<Pending>)
      modifies this
      ensures p == Find(old(State()), key)
      ensures State() == Remaining(old(State()), key)
    {
      if key in cur {
        p := Some(cur[key]);
        cur := cur - {key};
        return;
      }
      if key in prev {
        p := Some(prev[key]);
        prev := prev - {key};
        return;
      }
      p := None;
    }

    /** Advances the generations and hands back the discarded one. */
    method Rotate() returns (dropped: map<string, Pending>)
      modifies this
      ensures dropped == old(prev)
      ensures State() == Rotated(old(State()))
    {
      dropped := prev;
      prev := cur;
      cur := map[];
    }
  }
}
