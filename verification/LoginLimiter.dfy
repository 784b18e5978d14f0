/** The login attempt limiter: a counter per key that restarts when its window has passed, and
    a sweep that drops expired counters once there are many. The sweep cannot be observed. */
module LoginLimiter {
  import opened Basics

  type Time = int

  const SWEEP_FROM: nat := 1000

  datatype Limits = Limits(max: int, window: int)

  datatype Attempts = Attempts(count: int, reset: Time)

  type Table = map<string, Attempts>

  datatype Call = Allow(key: string, now: Time) | Clear(key: string)

  // ---- one key ----

  /** The attempt starts a new window. */
  predicate Opens(w: Option<Attempts>, now: Time) {
    w.None? || now > w.value.reset
  }

  function Attempt(l: Limits, w: Option<Attempts>, now: Time): Attempts {
    if Opens(w, now) then Attempts(1, now + l.window) else w.value.(count := w.value.count + 1)
  }

  function Permits(l: Limits, w: Option<Attempts>, now: Time): bool {
    Opens(w, now) || w.value.count + 1 <= l.max
  }

  function KeyNext(l: Limits, w: Option<Attempts>, c: Call): Option<Attempts> {
    match c
    case Allow(_, now) => Some(Attempt(l, w, now))
    case Clear(_) => None
  }

  // ---- the table, with and without the sweep ----

  function Lookup(m: Table, key: string): Option<Attempts> {
    if key in m then Some(m[key]) else None
  }

  function Unexpired(m: Table, now: Time): Table {
    map k | k in m && !(now > m[k].reset) :: m[k]
  }

  function Swept(m: Table, now: Time): Table {
    if |m| < SWEEP_FROM then m else Unexpired(m, now)
  }

  /** A table that is never swept. */
  function Plain(l: Limits, m: Table, c: Call): Table {
    match c
    case Allow(key, now) => m[key := Attempt(l, Lookup(m, key), now)]
    case Clear(key) => m - {key}
  }

  /** The table of the source: it sweeps whenever a window opens. */
  function Real(l: Limits, m: Table, c: Call): Table {
    if c.Allow? && Opens(Lookup(m, c.key), c.now) then Swept(Plain(l, m, c), c.now) else Plain(l, m, c)
  }

  function AfterPlain(l: Limits, calls: seq<Call>): Table {
    if calls == [] then map[] else Plain(l, AfterPlain(l, calls[..|calls| - 1]), calls[|calls| - 1])
  }

  function AfterReal(l: Limits, calls: seq<Call>): Table {
    if calls == [] then map[] else Real(l, AfterReal(l, calls[..|calls| - 1]), calls[|calls| - 1])
  }

  /** The clock never runs backwards. */
  predicate Ordered(calls: seq<Call>) {
    forall i, j :: 0 <= i < j < |calls| && calls[i].Allow? && calls[j].Allow? ==> calls[i].now <= calls[j].now
  }

  predicate NotBefore(calls: seq<Call>, now: Time) {
    forall i :: 0 <= i < |calls| && calls[i].Allow? ==> calls[i].now <= now
  }

  /** The swept table lacks nothing but counters that had expired by some attempt made so far. */
  ghost predicate LacksExpired(m: Table, n: Table, now: Time) {
    && (forall k :: k in m ==> k in n && m[k] == n[k])
    && (forall k :: k in n && k !in m ==> now > n[k].reset)
  }

  lemma RealLacksExpired(l: Limits, m: Table, n: Table, c: Call, now: Time)
    requires LacksExpired(m, n, now) && (c.Allow? ==> c.now == now)
    ensures LacksExpired(Real(l, m, c), Plain(l, n, c), now)
  {
  }

  lemma {:induction false} SweptTable(l: Limits, calls: seq<Call>, now: Time)
    requires Ordered(calls) && NotBefore(calls, now)
    ensures LacksExpired(AfterReal(l, calls), AfterPlain(l, calls), now)
  {
    if calls == [] {
    } else {
      var front, c := calls[..|calls| - 1], calls[|calls| - 1];
      var at := if c.Allow? then c.now else now;
      SweptTable(l, front, at);
      RealLacksExpired(l, AfterReal(l, front), AfterPlain(l, front), c, at);
    }
  }

  /** With a clock that never runs backwards, the limiter answers as one that never sweeps. */
  lemma SweepIsUnobservable(l: Limits, calls: seq<Call>, key: string, now: Time)
    requires Ordered(calls + [Allow(key, now)])
    ensures Permits(l, Lookup(AfterReal(l, calls), key), now) == Permits(l, Lookup(AfterPlain(l, calls), key), now)
  {
    var all := calls + [Allow(key, now)];
    assert forall i :: 0 <= i < |calls| ==> calls[i] == all[i];
    assert all[|calls|] == Allow(key, now);
    SweptTable(l, calls, now);
  }

  // ---- one key among many ----

  function Project(calls: seq<Call>, key: string): seq<Call> {
    if calls == [] then []
    else
      var rest, c := Project(calls[..|calls| - 1], key), calls[|calls| - 1];
      if c.key == key then rest + [c] else rest
  }

  function KeyAfter(l: Limits, calls: seq<Call>): Option<Attempts> {
    if calls == [] then None else KeyNext(l, KeyAfter(l, calls[..|calls| - 1]), calls[|calls| - 1])
  }

  lemma {:induction false} PlainIsLocal(l: Limits, calls: seq<Call>, key: string)
    ensures Lookup(AfterPlain(l, calls), key) == KeyAfter(l, Project(calls, key))
  {
    if calls == [] {
    } else {
      PlainIsLocal(l, calls[..|calls| - 1], key);
    }
  }

  /** The answer for a key depends on that key's calls alone, however many other keys there are and
      whatever sweeps they cause. */
  lemma AnswersAreLocal(l: Limits, calls: seq<Call>, key: string, now: Time)
    requires Ordered(calls + [Allow(key, now)])
    ensures Permits(l, Lookup(AfterReal(l, calls), key), now) == Permits(l, KeyAfter(l, Project(calls, key)), now)
  {
    SweepIsUnobservable(l, calls, key, now);
    PlainIsLocal(l, calls, key);
  }

  // ---- how much gets through ----

  /** The attempts that may still pass in a window. */
  function Quota(l: Limits): nat {
    if l.max < 1 then 1 else l.max
  }

  /** A stretch of attempts under one key in which only the first opens a window. */
  ghost predicate OneWindow(l: Limits, w: Option<Attempts>, times: seq<Time>) {
    && times != []
    && Opens(w, times[0])
    && forall i :: 0 < i < |times| ==> times[i] <= times[0] + l.window
  }

  function AfterTimes(l: Limits, w: Option<Attempts>, times: seq<Time>): Option<Attempts> {
    if times == [] then w else Some(Attempt(l, AfterTimes(l, w, times[..|times| - 1]), times[|times| - 1]))
  }

  lemma {:induction false} CountInWindow(l: Limits, w: Option<Attempts>, times: seq<Time>)
    requires OneWindow(l, w, times)
    ensures AfterTimes(l, w, times) == Some(Attempts(|times|, times[0] + l.window))
  {
    var n := |times| - 1;
    if n == 0 {
      assert AfterTimes(l, w, times[..0]) == w;
    } else {
      CountInWindow(l, w, times[..n]);
    }
  }

  /** Within a window exactly the first `max` attempts pass, and at least the one that opened it. */
  lemma WindowPassesQuota(l: Limits, w: Option<Attempts>, times: seq<Time>, i: nat)
    requires OneWindow(l, w, times) && i < |times|
    ensures Permits(l, AfterTimes(l, w, times[..i]), times[i]) <==> i < Quota(l)
  {
    if i == 0 {
      assert AfterTimes(l, w, times[..0]) == w;
    } else {
      CountInWindow(l, w, times[..i]);
    }
  }

  /** How many of the attempts pass. */
  function Passed(l: Limits, w: Option<Attempts>, times: seq<Time>): nat
    decreases |times|
  {
    if times == [] then 0
    else (if Permits(l, w, times[0]) then 1 else 0) + Passed(l, Some(Attempt(l, w, times[0])), times[1..])
  }

  predicate InSpan(times: seq<Time>, from: Time, to: Time) {
    forall i :: 0 <= i < |times| ==> from <= times[i] <= to
  }

  function Remaining(l: Limits, w: Option<Attempts>): nat {
    if w.None? || l.max <= w.value.count then 0 else l.max - w.value.count
  }

  lemma {:induction false} PassedInOpenWindow(l: Limits, w: Attempts, times: seq<Time>, from: Time, to: Time)
    requires InSpan(times, from, to) && to <= w.reset
    ensures Passed(l, Some(w), times) <= Remaining(l, Some(w))
    decreases |times|
  {
    if times == [] {
    } else {
      PassedInOpenWindow(l, Attempt(l, Some(w), times[0]), times[1..], from, to);
    }
  }

  /** Without a successful login, no span of time as long as a window lets more than two quotas
      of attempts under one key pass, wherever its windows happen to fall. */
  lemma {:induction false} RateIsBounded(l: Limits, w: Option<Attempts>, times: seq<Time>, from: Time)
    requires InSpan(times, from, from + l.window)
    requires w.Some? ==> w.value.count >= 1
    ensures Passed(l, w, times) <= Remaining(l, w) + Quota(l)
    ensures Passed(l, w, times) <= 2 * Quota(l)
    decreases |times|
  {
    if times == [] {
    } else {
      var next := Attempt(l, w, times[0]);
      if Opens(w, times[0]) {
        PassedInOpenWindow(l, next, times[1..], from, from + l.window);
      } else {
        RateIsBounded(l, Some(next), times[1..], from);
      }
    }
  }

  // ---- the same in a run of the whole limiter ----

  predicate NeverCleared(calls: seq<Call>, key: string) {
    forall i :: 0 <= i < |calls| ==> calls[i] != Clear(key)
  }

  /** When the attempts under a key were made. */
  function TimesOf(calls: seq<Call>, key: string): seq<Time> {
    if calls == [] then []
    else
      var rest, c := TimesOf(calls[..|calls| - 1], key), calls[|calls| - 1];
      if c.Allow? && c.key == key then rest + [c.now] else rest
  }

  lemma TimesOfSnoc(calls: seq<Call>, c: Call, key: string)
    ensures TimesOf(calls + [c], key) == TimesOf(calls, key) + if c.Allow? && c.key == key then [c.now] else []
  {
    assert (calls + [c])[..|calls|] == calls;
  }

  lemma ProjectSnoc(calls: seq<Call>, c: Call, key: string)
    ensures Project(calls + [c], key) == Project(calls, key) + if c.key == key then [c] else []
  {
    assert (calls + [c])[..|calls|] == calls;
  }

  lemma AttemptSnoc(l: Limits, w: Option<Attempts>, times: seq<Time>, now: Time)
    ensures AfterTimes(l, w, times + [now]) == Some(Attempt(l, AfterTimes(l, w, times), now))
  {
    assert (times + [now])[..|times|] == times;
  }

  lemma KeyAfterSnoc(l: Limits, calls: seq<Call>, c: Call)
    ensures KeyAfter(l, calls + [c]) == KeyNext(l, KeyAfter(l, calls), c)
  {
    assert (calls + [c])[..|calls|] == calls;
  }

  /** Calls for other keys do not show between the attempts under a key. */
  lemma {:induction false} StretchIsTimes(l: Limits, base: seq<Call>, more: seq<Call>, key: string)
    requires NeverCleared(more, key)
    ensures KeyAfter(l, Project(base + more, key)) == AfterTimes(l, KeyAfter(l, Project(base, key)), TimesOf(more, key))
  {
    if more == [] {
      assert base + more == base;
    } else {
      var front, c := more[..|more| - 1], more[|more| - 1];
      assert more == front + [c] && base + more == base + front + [c];
      StretchIsTimes(l, base, front, key);
      ProjectSnoc(base + front, c, key);
      TimesOfSnoc(front, c, key);
      if c.key == key {
        KeyAfterSnoc(l, Project(base + front, key), c);
        AttemptSnoc(l, KeyAfter(l, Project(base, key)), TimesOf(front, key), c.now);
      }
    }
  }

  lemma {:induction false} TimesOfPrefix(calls: seq<Call>, key: string, n: nat)
    requires n < |calls| && calls[n].Allow? && calls[n].key == key
    ensures var i := |TimesOf(calls[..n], key)|;
            i < |TimesOf(calls, key)| && TimesOf(calls, key)[..i] == TimesOf(calls[..n], key)
            && TimesOf(calls, key)[i] == calls[n].now
  {
    var front, last := calls[..|calls| - 1], calls[|calls| - 1];
    assert calls == front + [last];
    TimesOfSnoc(front, last, key);
    if n < |front| {
      TimesOfPrefix(front, key, n);
      assert front[..n] == calls[..n];
    }
  }

  /** A stretch of a run in which the key is not cleared and only its first attempt finds no window open. */
  ghost predicate WindowOf(l: Limits, base: seq<Call>, more: seq<Call>, key: string) {
    NeverCleared(more, key) && OneWindow(l, Lookup(AfterReal(l, base), key), TimesOf(more, key))
  }

  lemma OrderedPrefix(calls: seq<Call>, n: nat)
    requires Ordered(calls) && n < |calls| && calls[n].Allow?
    ensures Ordered(calls[..n] + [calls[n]])
  {
    assert calls[..n] + [calls[n]] == calls[..n + 1];
  }

  lemma {:induction false} FirstAttempt(calls: seq<Call>, key: string) returns (n: nat)
    requires TimesOf(calls, key) != []
    ensures n < |calls| && calls[n] == Allow(key, TimesOf(calls, key)[0])
  {
    var front, last := calls[..|calls| - 1], calls[|calls| - 1];
    if TimesOf(front, key) != [] {
      n := FirstAttempt(front, key);
    } else {
      n := |calls| - 1;
    }
  }

  /** The swept table and the key's own history agree on whether a window opens. */
  lemma OpeningIsLocal(l: Limits, base: seq<Call>, more: seq<Call>, key: string)
    requires Ordered(base + more) && TimesOf(more, key) != []
    ensures Opens(Lookup(AfterReal(l, base), key), TimesOf(more, key)[0])
            <==> Opens(KeyAfter(l, Project(base, key)), TimesOf(more, key)[0])
  {
    var n := FirstAttempt(more, key);
    assert (base + more)[|base| + n] == more[n];
    assert forall i :: 0 <= i < |base| ==> (base + more)[i] == base[i];
    SweptTable(l, base, more[n].now);
    PlainIsLocal(l, base, key);
  }

  /** In any run, with any other keys in between and whatever they sweep: of the attempts under a key that
      fall into one window exactly the first `max` pass, and at least the one that opened it. */
  lemma RunPassesQuota(l: Limits, base: seq<Call>, more: seq<Call>, key: string, n: nat)
    requires Ordered(base + more) && WindowOf(l, base, more, key)
    requires n < |more| && more[n].Allow? && more[n].key == key
    ensures Permits(l, Lookup(AfterReal(l, base + more[..n]), key), more[n].now)
            <==> |TimesOf(more[..n], key)| < Quota(l)
  {
    var w := KeyAfter(l, Project(base, key));
    OpeningIsLocal(l, base, more, key);
    assert (base + more)[..|base| + n] == base + more[..n];
    OrderedPrefix(base + more, |base| + n);
    AnswersAreLocal(l, base + more[..n], key, more[n].now);
    StretchIsTimes(l, base, more[..n], key);
    TimesOfPrefix(more, key, n);
    WindowPassesQuota(l, w, TimesOf(more, key), |TimesOf(more[..n], key)|);
  }

  /** How many attempts under the key the limiter let through in a stretch of a run. */
  function PassedIn(l: Limits, base: seq<Call>, more: seq<Call>, key: string): nat {
    if more == [] then 0
    else
      var front, c := more[..|more| - 1], more[|more| - 1];
      var before := PassedIn(l, base, front, key);
      if c.Allow? && c.key == key && Permits(l, Lookup(AfterReal(l, base + front), key), c.now) then before + 1 else before
  }

  lemma {:induction false} PassedSnoc(l: Limits, w: Option<Attempts>, times: seq<Time>, now: Time)
    ensures Passed(l, w, times + [now]) == Passed(l, w, times) + if Permits(l, AfterTimes(l, w, times), now) then 1 else 0
    decreases |times|
  {
    if times == [] {
      assert [] + [now] == [now] && [now][1..] == [];
    } else {
      var next := Some(Attempt(l, w, times[0]));
      assert (times + [now])[1..] == times[1..] + [now];
      PassedSnoc(l, next, times[1..], now);
      AttemptsFromSecond(l, w, times);
    }
  }

  lemma {:induction false} AttemptsFromSecond(l: Limits, w: Option<Attempts>, times: seq<Time>)
    requires times != []
    ensures AfterTimes(l, w, times) == AfterTimes(l, Some(Attempt(l, w, times[0])), times[1..])
  {
    var n := |times| - 1;
    if n == 0 {
      assert times[..0] == [] && times[1..] == [];
    } else {
      AttemptsFromSecond(l, w, times[..n]);
      assert times[..n][1..] == times[1..][..n - 1];
    }
  }

  lemma {:induction false} PassedInIsPassed(l: Limits, base: seq<Call>, more: seq<Call>, key: string)
    requires Ordered(base + more) && NeverCleared(more, key)
    ensures PassedIn(l, base, more, key) == Passed(l, KeyAfter(l, Project(base, key)), TimesOf(more, key))
  {
    if more == [] {
    } else {
      var n := |more| - 1;
      var front, c := more[..n], more[n];
      assert more == front + [c] && (base + more)[..|base| + n] == base + front;
      PassedInIsPassed(l, base, front, key);
      TimesOfSnoc(front, c, key);
      if c.Allow? && c.key == key {
        OrderedPrefix(base + more, |base| + n);
        AnswersAreLocal(l, base + front, key, c.now);
        StretchIsTimes(l, base, front, key);
        PassedSnoc(l, KeyAfter(l, Project(base, key)), TimesOf(front, key), c.now);
      }
    }
  }

  lemma {:induction false} CountsFromOne(l: Limits, calls: seq<Call>)
    ensures KeyAfter(l, calls).Some? ==> KeyAfter(l, calls).value.count >= 1
  {
    if calls == [] {
    } else {
      CountsFromOne(l, calls[..|calls| - 1]);
    }
  }

  lemma {:induction false} TimesInSpan(calls: seq<Call>, key: string, from: Time, to: Time)
    requires forall i :: 0 <= i < |calls| && calls[i].Allow? && calls[i].key == key ==> from <= calls[i].now <= to
    ensures InSpan(TimesOf(calls, key), from, to)
  {
    if calls == [] {
    } else {
      TimesInSpan(calls[..|calls| - 1], key, from, to);
    }
  }

  /** In any run: a stretch that is no longer than a window and holds no successful login under the key
      lets at most two quotas of attempts under it pass. */
  lemma RunBoundsRate(l: Limits, base: seq<Call>, more: seq<Call>, key: string, from: Time)
    requires Ordered(base + more) && NeverCleared(more, key)
    requires forall i :: 0 <= i < |more| && more[i].Allow? && more[i].key == key ==> from <= more[i].now <= from + l.window
    ensures PassedIn(l, base, more, key) <= 2 * Quota(l)
  {
    PassedInIsPassed(l, base, more, key);
    CountsFromOne(l, Project(base, key));
    TimesInSpan(more, key, from, from + l.window);
    RateIsBounded(l, KeyAfter(l, Project(base, key)), TimesOf(more, key), from);
  }

  // ---- the limiter as the source holds it ----

  class Limiter {
    const limits: Limits
    var attempts: Table

    constructor (max: int, window: int)
      ensures limits == Limits(max, window) && attempts == map[]
    {
      limits := Limits(max, window);
      attempts := map[];
    }

    /** Whether the attempt may go on; it counts either way. */
    method TryLogin(key: string, now: Time) returns (permitted: bool)
      modifies this
      ensures permitted == Permits(limits, Lookup(old(attempts), key), now)
      ensures attempts == Real(limits, old(attempts), Allow(key, now))
    {
      if key !in attempts || now > attempts[key].reset {
        attempts := attempts[key := Attempts(1, now + limits.window)];
        Sweep(now);
        return true;
      }
      attempts := attempts[key := attempts[key].(count := attempts[key].count + 1)];
      permitted := attempts[key].count <= limits.max;
    }

    method Reset(key: string)
      modifies this
      ensures attempts == Real(limits, old(attempts), Clear(key))
    {
      attempts := attempts - {key};
    }

    /** Drops the expired counters, once there are enough of them to matter. */
    method Sweep(now: Time)
      modifies this
      ensures attempts == Swept(old(attempts), now)
    {
      if |attempts| < SWEEP_FROM {
        return;
      }
      ghost var all := attempts;
      var todo := attempts.Keys;
      while todo != {}
        invariant todo <= attempts.Keys <= all.Keys
        invariant forall k :: k in attempts ==> attempts[k] == all[k]
        invariant forall k :: k in all && k !in todo ==> (k in attempts <==> !(now > all[k].reset))
      {
        var k :| k in todo;
        if now > attempts[k].reset {
          attempts := attempts - {k};
        }
        todo := todo - {k};
      }
      assert attempts == Unexpired(all, now);
    }
  }
}
