/** The ingest pipeline: a bounded queue of chunks that refuses rather than blocks, and
    workers that collect batches and offer each batch to every processor in turn. */
module IngestPipeline {
  import opened Basics
  import opened Spans

  // ---- settings ----

  datatype Config = Config(queueSize: int, workers: int, batchSize: int)

  const DEFAULTS: Config := Config(200_000, 4, 5_000)
  const LEAST_CHUNKS: nat := 64

  /** Integer division of the source: towards zero. */
  function Quotient(a: int, b: int): int
    requires b > 0
  {
    if a >= 0 then a / b else -(-a / b)
  }

  /** Settings without a queue size are replaced as a whole. */
  function Effective(cfg: Config): Config {
    if cfg.queueSize <= 0 then DEFAULTS else cfg
  }

  /** A quarter of the batch size, at least one span. */
  function Quarter(cfg: Config): (q: int)
    ensures q == 1 || 4 * q <= Effective(cfg).batchSize
    ensures Effective(cfg).batchSize < 4 * (q + 1) && q >= 1
  {
    var q := Quotient(Effective(cfg).batchSize, 4);
    if q > 1 then q else 1
  }

  /** The capacity of the channel, in chunks. */
  function ChunkCap(cfg: Config): nat {
    var n := Quotient(Effective(cfg).queueSize, Quarter(cfg));
    if n < LEAST_CHUNKS then LEAST_CHUNKS else n
  }

  lemma QuotientBounds(a: int, b: int)
    requires a >= 0 && b > 0
    ensures Quotient(a, b) * b <= a < (Quotient(a, b) + 1) * b
  {
  }

  /** The channel has as many places as chunks of a quarter batch fit into `QueueSize`, and never fewer
      than 64: it is the larger of the two. */
  lemma ChunkCapIsLargest(cfg: Config, n: nat)
    ensures n <= ChunkCap(cfg) <==> n <= LEAST_CHUNKS || n * Quarter(cfg) <= Effective(cfg).queueSize
  {
    var size, q := Effective(cfg).queueSize, Quarter(cfg);
    QuotientBounds(size, q);
    if n <= Quotient(size, q) {
      ScaleBound(n, Quotient(size, q), q);
    } else {
      ScaleBound(Quotient(size, q) + 1, n, q);
    }
  }

  datatype Params = Params(cap: nat, batchSize: int, workers: nat, processors: nat)

  function ParamsOf(cfg: Config, processors: nat): Params {
    var c := Effective(cfg);
    Params(ChunkCap(cfg), c.batchSize, if c.workers < 0 then 0 else c.workers, processors)
  }

  // ---- the state ----

  type Chunk = seq<Span>

  /** A worker waits for an event with its partial batch, has taken a chunk it did not book yet,
      is offering its batch to the processors, or has returned. */
  datatype Worker =
    | Waiting(batch: seq<Span>)
    | Booking(batch: seq<Span>, chunk: Chunk)
    | Offering(batch: seq<Span>, next: nat, leaving: bool)
    | Gone

  datatype Stats = Stats(enqueued: nat, dropped: nat, processed: nat, failed: nat, queueDepth: int)

  datatype State = State(
    queue: seq<Chunk>,
    closed: bool,
    cancelled: bool,
    workers: seq<Worker>,
    stats: Stats,
    announcing: seq<nat>,      // chunks sent, counters not yet bumped
    accepted: seq<Span>,       // every span sent so far
    offered: seq<seq<Span>>,   // per processor, every span handed to it
    done: seq<Span>)           // spans whose batch went to all processors

  function Init(p: Params): State {
    State([], false, false, seq(p.workers, _ => Waiting([])), Stats(0, 0, 0, 0, 0), [], [],
          seq(p.processors, _ => []), [])
  }

  // ---- the steps ----

  datatype Action =
    | Send(chunk: Chunk)
    | Refuse(chunk: Chunk)
    | Announce
    | Close
    | Cancel
    | Receive(w: nat)
    | Book(w: nat)
    | Tick(w: nat)
    | SeeClosed(w: nat)
    | SeeCancelled(w: nat)
    | Offer(w: nat, ok: bool)
    | Finish(w: nat)

  predicate IsWaiting(st: State, w: nat) {
    w < |st.workers| && st.workers[w].Waiting?
  }

  /** A send on a closed channel is not a step: the source panics there. */
  predicate Enabled(p: Params, st: State, a: Action) {
    match a
    case Send(chunk) => chunk != [] && !st.closed && |st.queue| < p.cap
    case Refuse(chunk) => chunk != [] && !st.closed && |st.queue| >= p.cap
    case Announce => st.announcing != []
    case Close => !st.closed
    case Cancel => true
    case Receive(w) => IsWaiting(st, w) && st.queue != []
    case Book(w) => w < |st.workers| && st.workers[w].Booking?
    case Tick(w) => IsWaiting(st, w)
    case SeeClosed(w) => IsWaiting(st, w) && st.closed && st.queue == []
    case SeeCancelled(w) => IsWaiting(st, w) && st.cancelled
    case Offer(w, _) => w < |st.workers| && st.workers[w].Offering? && st.workers[w].next < |st.offered|
    case Finish(w) => w < |st.workers| && st.workers[w].Offering? && st.workers[w].next == |st.offered|
  }

  /** `flush`: an empty batch is not dispatched. */
  function Flush(batch: seq<Span>, leaving: bool): Worker {
    if batch != [] then Offering(batch, 0, leaving)
    else if leaving then Gone
    else Waiting([])
  }

  function Booked(p: Params, batch: seq<Span>, chunk: Chunk): Worker {
    if |batch + chunk| >= p.batchSize then Flush(batch + chunk, false) else Waiting(batch + chunk)
  }

  function WithWorker(st: State, w: nat, v: Worker): State
    requires w < |st.workers|
  {
    st.(workers := st.workers[w := v])
  }

  function Step(p: Params, st: State, a: Action): State
    requires Enabled(p, st, a)
  {
    var n := st.stats;
    match a
    case Send(chunk) =>
      st.(queue := st.queue + [chunk], announcing := st.announcing + [|chunk|], accepted := st.accepted + chunk)
    case Refuse(chunk) => st.(stats := n.(dropped := n.dropped + |chunk|))
    case Announce =>
      var last := |st.announcing| - 1;
      st.(announcing := st.announcing[..last],
          stats := n.(enqueued := n.enqueued + st.announcing[last], queueDepth := n.queueDepth + st.announcing[last]))
    case Close => st.(closed := true)
    case Cancel => st.(cancelled := true)
    case Receive(w) =>
      WithWorker(st, w, Booking(st.workers[w].batch, st.queue[0])).(queue := st.queue[1..])
    case Book(w) =>
      var v := st.workers[w];
      WithWorker(st, w, Booked(p, v.batch, v.chunk)).(stats := n.(queueDepth := n.queueDepth - |v.chunk|))
    case Tick(w) => WithWorker(st, w, Flush(st.workers[w].batch, false))
    case SeeClosed(w) => WithWorker(st, w, Flush(st.workers[w].batch, true))
    case SeeCancelled(w) => WithWorker(st, w, Flush(st.workers[w].batch, true))
    case Offer(w, ok) =>
      var v := st.workers[w];
      WithWorker(st, w, v.(next := v.next + 1)).(
        offered := st.offered[v.next := st.offered[v.next] + v.batch],
        stats := if ok then n else n.(failed := n.failed + |v.batch|))
    case Finish(w) =>
      var v := st.workers[w];
      WithWorker(st, w, if v.leaving then Gone else Waiting([])).(
        done := st.done + v.batch,
        stats := n.(processed := n.processed + |v.batch|))
  }

  // ---- runs ----

  function Run(p: Params, st: State, actions: seq<Action>): Option<State>
    decreases |actions|
  {
    if actions == [] then Some(st)
    else
      var n := |actions| - 1;
      var mid := Run(p, st, actions[..n]);
      if mid.Some? && Enabled(p, mid.value, actions[n]) then Some(Step(p, mid.value, actions[n])) else None
  }

  predicate IsRun(p: Params, st: State, actions: seq<Action>, st': State) {
    Run(p, st, actions) == Some(st')
  }

  lemma RunSnoc(p: Params, st: State, actions: seq<Action>, mid: State, a: Action)
    requires IsRun(p, st, actions, mid) && Enabled(p, mid, a)
    ensures IsRun(p, st, actions + [a], Step(p, mid, a))
  {
    assert (actions + [a])[..|actions|] == actions;
  }

  // ---- counting ----

  function Times(spans: seq<Span>, s: Span): nat {
    multiset(spans)[s]
  }

  lemma TimesConcat(a: seq<Span>, b: seq<Span>, s: Span)
    ensures Times(a + b, s) == Times(a, s) + Times(b, s)
  {
  }

  function Queued(queue: seq<Chunk>): seq<Span> {
    if queue == [] then [] else Queued(queue[..|queue| - 1]) + queue[|queue| - 1]
  }

  lemma QueuedSnoc(queue: seq<Chunk>, chunk: Chunk)
    ensures Queued(queue + [chunk]) == Queued(queue) + chunk
  {
    assert (queue + [chunk])[..|queue|] == queue;
  }

  lemma {:induction false} QueuedHead(queue: seq<Chunk>)
    requires queue != []
    ensures Queued(queue) == queue[0] + Queued(queue[1..])
  {
    var n := |queue| - 1;
    if n > 0 {
      QueuedHead(queue[..n]);
      assert queue[..n][1..] == queue[1..][..n - 1];
      Associates(queue[0], Queued(queue[1..n]), queue[n]);
    } else {
      assert queue[1..] == [];
      assert queue[..0] == [];
    }
  }

  /** The spans a worker holds. */
  function Content(v: Worker): seq<Span> {
    match v
    case Waiting(batch) => batch
    case Booking(batch, chunk) => batch + chunk
    case Offering(batch, _, _) => batch
    case Gone => []
  }

  /** The spans a worker holds that processor i has already been offered. */
  function Shown(v: Worker, i: nat): seq<Span> {
    if v.Offering? && v.next > i then v.batch else []
  }

  /** The spans a worker took out of the queue and did not book yet. */
  function Unbooked(v: Worker): seq<Span> {
    if v.Booking? then v.chunk else []
  }

  function Over(workers: seq<Worker>, f: Worker -> nat): nat {
    SumSeq(seq(|workers|, i requires 0 <= i < |workers| => f(workers[i])))
  }

  lemma OverUpdate(workers: seq<Worker>, f: Worker -> nat, w: nat, v: Worker)
    requires w < |workers|
    ensures Over(workers[w := v], f) + f(workers[w]) == Over(workers, f) + f(v)
  {
    var values := seq(|workers|, i requires 0 <= i < |workers| => f(workers[i]));
    assert seq(|workers|, i requires 0 <= i < |workers| => f(workers[w := v][i])) == values[w := f(v)];
    SumSeqUpdate(values, w, f(v));
  }

  function HoldsTimes(s: Span): Worker -> nat {
    (v: Worker) => Times(Content(v), s)
  }

  function ShowsTimes(i: nat, s: Span): Worker -> nat {
    (v: Worker) => Times(Shown(v, i), s)
  }

  function HoldsCount(): Worker -> nat {
    (v: Worker) => |Content(v)|
  }

  function UnbookedCount(): Worker -> nat {
    (v: Worker) => |Unbooked(v)|
  }

  // ---- what every state satisfies ----

  /** Each accepted span is in the queue, with a worker, or done: exactly as often as it was sent. */
  predicate SpanKept(st: State, s: Span) {
    Times(st.accepted, s) == Times(Queued(st.queue), s) + Over(st.workers, HoldsTimes(s)) + Times(st.done, s)
  }

  /** Processor i was offered the done spans and those of the batches that passed it, once each. */
  predicate OfferedOnce(st: State, i: nat, s: Span)
    requires i < |st.offered|
  {
    Times(st.offered[i], s) == Times(st.done, s) + Over(st.workers, ShowsTimes(i, s))
  }

  /** The counters, up to the updates between a channel operation and its counter. */
  predicate CountersAgree(st: State) {
    && st.stats.enqueued + SumSeq(st.announcing) == |st.accepted|
    && |st.accepted| == |Queued(st.queue)| + Over(st.workers, HoldsCount()) + |st.done|
    && st.stats.queueDepth == |Queued(st.queue)| + Over(st.workers, UnbookedCount()) - SumSeq(st.announcing)
    && st.stats.processed == |st.done|
  }

  /** A worker leaves only an empty closed queue behind, unless the context was cancelled. */
  predicate LeavesNothing(st: State) {
    !st.cancelled ==>
      forall w :: 0 <= w < |st.workers| && (st.workers[w] == Gone || (st.workers[w].Offering? && st.workers[w].leaving)) ==>
        st.closed && st.queue == []
  }

  predicate Shaped(p: Params, st: State) {
    && |st.queue| <= p.cap
    && |st.workers| == p.workers
    && |st.offered| == p.processors
    && forall w :: 0 <= w < |st.workers| && st.workers[w].Offering? ==> st.workers[w].next <= |st.offered|
  }

  ghost predicate Inv(p: Params, st: State) {
    && Shaped(p, st)
    && LeavesNothing(st)
    && CountersAgree(st)
    && (forall s :: SpanKept(st, s))
    && (forall i: nat, s :: i < |st.offered| ==> OfferedOnce(st, i, s))
  }

  lemma {:induction false} OverNothing(n: nat, f: Worker -> nat)
    requires f(Waiting([])) == 0
    ensures Over(seq(n, _ => Waiting([])), f) == 0
  {
    var idle := seq(n, _ => Waiting([]));
    SumSeqBound(seq(n, i requires 0 <= i < n => f(idle[i])), 0);
    assert seq(|idle|, i requires 0 <= i < |idle| => f(idle[i])) == seq(n, i requires 0 <= i < n => f(idle[i]));
  }

  lemma InitInv(p: Params)
    ensures Inv(p, Init(p))
  {
    OverNothing(p.workers, HoldsCount());
    OverNothing(p.workers, UnbookedCount());
    forall s ensures SpanKept(Init(p), s) {
      OverNothing(p.workers, HoldsTimes(s));
    }
    forall i: nat, s | i < p.processors ensures OfferedOnce(Init(p), i, s) {
      OverNothing(p.workers, ShowsTimes(i, s));
    }
  }

  /** The worker a step is about, and what becomes of it. */
  function Moved(p: Params, st: State, a: Action): Option<(nat, Worker)>
    requires Enabled(p, st, a)
  {
    match a
    case Receive(w) => Some((w, Booking(st.workers[w].batch, st.queue[0])))
    case Book(w) => Some((w, Booked(p, st.workers[w].batch, st.workers[w].chunk)))
    case Tick(w) => Some((w, Flush(st.workers[w].batch, false)))
    case SeeClosed(w) => Some((w, Flush(st.workers[w].batch, true)))
    case SeeCancelled(w) => Some((w, Flush(st.workers[w].batch, true)))
    case Offer(w, _) => Some((w, st.workers[w].(next := st.workers[w].next + 1)))
    case Finish(w) => Some((w, if st.workers[w].leaving then Gone else Waiting([])))
    case _ => None
  }

  lemma StepMoves(p: Params, st: State, a: Action, f: Worker -> nat)
    requires Enabled(p, st, a)
    ensures Moved(p, st, a).None? ==> Step(p, st, a).workers == st.workers
    ensures Moved(p, st, a).Some? ==>
              var (w, v) := Moved(p, st, a).value;
              w < |st.workers| && Over(Step(p, st, a).workers, f) + f(st.workers[w]) == Over(st.workers, f) + f(v)
  {
    if Moved(p, st, a).Some? {
      var (w, v) := Moved(p, st, a).value;
      OverUpdate(st.workers, f, w, v);
    }
  }

  /** What the worker a step is about holds before and after. */
  lemma MovedContent(p: Params, st: State, a: Action)
    requires Enabled(p, st, a) && Moved(p, st, a).Some?
    ensures var (w, v) := Moved(p, st, a).value;
            && w < |st.workers|
            && (a.Receive? ==> Content(v) == Content(st.workers[w]) + st.queue[0])
            && (a.Finish? ==> Content(v) == [])
            && (!a.Receive? && !a.Finish? ==> Content(v) == Content(st.workers[w]))
            && (a.Receive? ==> Unbooked(v) == st.queue[0] && Unbooked(st.workers[w]) == [])
            && (a.Book? ==> Unbooked(v) == [] && Unbooked(st.workers[w]) == st.workers[w].chunk)
            && (!a.Receive? && !a.Book? ==> Unbooked(v) == [] == Unbooked(st.workers[w]))
  {
  }

  lemma QueueStepKeepsSpan(p: Params, st: State, a: Action, s: Span)
    requires Enabled(p, st, a) && SpanKept(st, s) && Moved(p, st, a).None?
    ensures SpanKept(Step(p, st, a), s)
  {
    StepMoves(p, st, a, HoldsTimes(s));
    if a.Send? {
      QueuedSnoc(st.queue, a.chunk);
      TimesConcat(st.accepted, a.chunk, s);
      TimesConcat(Queued(st.queue), a.chunk, s);
    }
  }

  lemma WorkerStepKeepsSpan(p: Params, st: State, a: Action, s: Span)
    requires Enabled(p, st, a) && SpanKept(st, s) && Moved(p, st, a).Some?
    ensures SpanKept(Step(p, st, a), s)
  {
    StepMoves(p, st, a, HoldsTimes(s));
    MovedContent(p, st, a);
    var (w, v) := Moved(p, st, a).value;
    if a.Receive? {
      QueuedHead(st.queue);
      TimesConcat(Content(st.workers[w]), st.queue[0], s);
      TimesConcat(st.queue[0], Queued(st.queue[1..]), s);
    } else if a.Finish? {
      TimesConcat(st.done, Content(st.workers[w]), s);
    }
  }

  lemma StepKeepsSpan(p: Params, st: State, a: Action, s: Span)
    requires Enabled(p, st, a) && SpanKept(st, s)
    ensures SpanKept(Step(p, st, a), s)
  {
    if Moved(p, st, a).None? {
      QueueStepKeepsSpan(p, st, a, s);
    } else {
      WorkerStepKeepsSpan(p, st, a, s);
    }
  }

  lemma MovedShown(p: Params, st: State, a: Action, i: nat)
    requires Enabled(p, st, a) && Shaped(p, st) && i < |st.offered| && Moved(p, st, a).Some?
    ensures var (w, v) := Moved(p, st, a).value;
            && w < |st.workers|
            && Shown(v, i) == (if a.Finish? then []
                               else if a.Offer? && st.workers[w].next == i then st.workers[w].batch
                               else Shown(st.workers[w], i))
            && (a.Offer? && st.workers[w].next == i ==> Shown(st.workers[w], i) == [])
            && (a.Finish? ==> Shown(st.workers[w], i) == st.workers[w].batch)
  {
  }

  lemma StepKeepsOffered(p: Params, st: State, a: Action, i: nat, s: Span)
    requires Enabled(p, st, a) && Shaped(p, st) && i < |st.offered| && OfferedOnce(st, i, s)
    ensures |Step(p, st, a).offered| == |st.offered| && OfferedOnce(Step(p, st, a), i, s)
  {
    StepMoves(p, st, a, ShowsTimes(i, s));
    if Moved(p, st, a).Some? {
      MovedShown(p, st, a, i);
      var v := st.workers[Moved(p, st, a).value.0];
      if a.Offer? && v.next == i {
        TimesConcat(st.offered[i], v.batch, s);
      } else if a.Finish? {
        TimesConcat(st.done, v.batch, s);
      }
    }
  }

  lemma QueueStepKeepsCounters(p: Params, st: State, a: Action)
    requires Enabled(p, st, a) && CountersAgree(st) && Moved(p, st, a).None?
    ensures CountersAgree(Step(p, st, a))
  {
    StepMoves(p, st, a, HoldsCount());
    StepMoves(p, st, a, UnbookedCount());
    if a.Send? {
      QueuedSnoc(st.queue, a.chunk);
      SumSeqConcat(st.announcing, [|a.chunk|]);
      assert [|a.chunk|][..0] == [];
    }
  }

  lemma WorkerStepKeepsCounters(p: Params, st: State, a: Action)
    requires Enabled(p, st, a) && CountersAgree(st) && Moved(p, st, a).Some?
    ensures CountersAgree(Step(p, st, a))
  {
    StepMoves(p, st, a, HoldsCount());
    StepMoves(p, st, a, UnbookedCount());
    MovedContent(p, st, a);
    if a.Receive? {
      QueuedHead(st.queue);
    }
  }

  lemma StepKeepsCounters(p: Params, st: State, a: Action)
    requires Enabled(p, st, a) && CountersAgree(st)
    ensures CountersAgree(Step(p, st, a))
  {
    if Moved(p, st, a).None? {
      QueueStepKeepsCounters(p, st, a);
    } else {
      WorkerStepKeepsCounters(p, st, a);
    }
  }

  lemma StepKeepsShape(p: Params, st: State, a: Action)
    requires Enabled(p, st, a) && Shaped(p, st)
    ensures Shaped(p, Step(p, st, a))
  {
  }

  lemma StepLeavesNothing(p: Params, st: State, a: Action)
    requires Enabled(p, st, a) && Shaped(p, st) && LeavesNothing(st)
    ensures LeavesNothing(Step(p, st, a))
  {
  }

  lemma StepKeepsInv(p: Params, st: State, a: Action)
    requires Enabled(p, st, a) && Inv(p, st)
    ensures Inv(p, Step(p, st, a))
  {
    StepKeepsShape(p, st, a);
    StepLeavesNothing(p, st, a);
    StepKeepsCounters(p, st, a);
    forall s ensures SpanKept(Step(p, st, a), s) {
      StepKeepsSpan(p, st, a, s);
    }
    forall i: nat, s | i < |Step(p, st, a).offered| ensures OfferedOnce(Step(p, st, a), i, s) {
      StepKeepsOffered(p, st, a, i, s);
    }
  }

  // ---- reachable states ----

  ghost predicate Reachable(p: Params, st: State) {
    exists actions :: IsRun(p, Init(p), actions, st)
  }

  lemma {:induction false} RunKeepsInv(p: Params, st: State, actions: seq<Action>, st': State)
    requires Inv(p, st) && IsRun(p, st, actions, st')
    ensures Inv(p, st')
    decreases |actions|
  {
    if actions == [] {
    } else {
      var n := |actions| - 1;
      var mid := Run(p, st, actions[..n]).value;
      RunKeepsInv(p, st, actions[..n], mid);
      StepKeepsInv(p, mid, actions[n]);
    }
  }

  lemma ReachableInv(p: Params, st: State)
    requires Reachable(p, st)
    ensures Inv(p, st)
  {
    InitInv(p);
    var actions :| IsRun(p, Init(p), actions, st);
    RunKeepsInv(p, Init(p), actions, st);
  }

  /** In every reachable state each accepted span is in the queue, in a batch, or dispatched, and the
      counters say so: Enqueued = waiting + batched + Processed, up to updates under way. */
  lemma SpansAreConserved(p: Params, st: State)
    requires Reachable(p, st)
    ensures forall s :: SpanKept(st, s)
    ensures CountersAgree(st)
    ensures st.announcing == [] ==>
              st.stats.enqueued == |Queued(st.queue)| + Over(st.workers, HoldsCount()) + st.stats.processed
  {
    ReachableInv(p, st);
  }

  lemma {:induction false} SumSeqMonotone(a: seq<nat>, b: seq<nat>)
    requires |a| == |b| && forall i :: 0 <= i < |a| ==> a[i] <= b[i]
    ensures SumSeq(a) <= SumSeq(b)
  {
    if a == [] {
    } else {
      SumSeqMonotone(a[..|a| - 1], b[..|b| - 1]);
    }
  }

  lemma OverMonotone(workers: seq<Worker>, f: Worker -> nat, g: Worker -> nat)
    requires forall w :: 0 <= w < |workers| ==> f(workers[w]) <= g(workers[w])
    ensures Over(workers, f) <= Over(workers, g)
  {
    SumSeqMonotone(seq(|workers|, i requires 0 <= i < |workers| => f(workers[i])),
                   seq(|workers|, i requires 0 <= i < |workers| => g(workers[i])));
  }

  /** No processor ever sees a span more often than it was accepted, whatever the others answer. */
  lemma NeverOfferedTwice(p: Params, st: State, i: nat, s: Span)
    requires Reachable(p, st) && i < p.processors
    ensures |st.offered| == p.processors
    ensures Times(st.done, s) <= Times(st.offered[i], s) <= Times(st.accepted, s)
  {
    ReachableInv(p, st);
    assert SpanKept(st, s) && OfferedOnce(st, i, s);
    OverMonotone(st.workers, ShowsTimes(i, s), HoldsTimes(s));
  }

  /** The spans a run sent, in order. */
  function SentIn(actions: seq<Action>): seq<Span> {
    if actions == [] then []
    else
      var rest, a := SentIn(actions[..|actions| - 1]), actions[|actions| - 1];
      if a.Send? then rest + a.chunk else rest
  }

  /** The number of spans a run refused. */
  function RefusedIn(actions: seq<Action>): nat {
    if actions == [] then 0
    else
      var rest, a := RefusedIn(actions[..|actions| - 1]), actions[|actions| - 1];
      if a.Refuse? then rest + |a.chunk| else rest
  }

  lemma {:induction false} RunHistory(p: Params, actions: seq<Action>, st: State)
    requires IsRun(p, Init(p), actions, st)
    ensures st.accepted == SentIn(actions) && st.stats.dropped == RefusedIn(actions)
    decreases |actions|
  {
    if actions == [] {
    } else {
      var mid := LastStep(p, Init(p), actions, st);
      RunHistory(p, actions[..|actions| - 1], mid);
    }
  }

  /** Every span handed to `Accept` is counted once: as enqueued when it was sent, as dropped when it
      was refused, up to counter updates under way. */
  lemma EverySpanIsCounted(p: Params, actions: seq<Action>, st: State)
    requires IsRun(p, Init(p), actions, st)
    ensures st.stats.enqueued + SumSeq(st.announcing) + st.stats.dropped == |SentIn(actions)| + RefusedIn(actions)
    ensures st.stats.processed <= |SentIn(actions)|
  {
    assert Reachable(p, st);
    ReachableInv(p, st);
    RunHistory(p, actions, st);
  }

  // ---- stopping ----

  /** `Stop` has returned: the queue is closed and every worker is gone. */
  predicate Stopped(st: State) {
    st.closed && forall w :: 0 <= w < |st.workers| ==> st.workers[w] == Gone
  }

  lemma OverGone(workers: seq<Worker>, f: Worker -> nat)
    requires (forall w :: 0 <= w < |workers| ==> workers[w] == Gone) && f(Gone) == 0
    ensures Over(workers, f) == 0
  {
    SumSeqBound(seq(|workers|, i requires 0 <= i < |workers| => f(workers[i])), 0);
  }

  /** When `Stop` returns, what every processor was offered is what was accepted, except the chunks
      still in the channel. */
  lemma StoppedAccount(p: Params, st: State, i: nat)
    requires Reachable(p, st) && Stopped(st) && i < p.processors
    ensures |st.offered| == p.processors
    ensures multiset(st.accepted) == multiset(st.offered[i]) + multiset(Queued(st.queue))
    ensures st.stats.processed + |Queued(st.queue)| == |st.accepted|
  {
    ReachableInv(p, st);
    OverGone(st.workers, HoldsCount());
    forall s ensures Times(st.accepted, s) == Times(st.offered[i], s) + Times(Queued(st.queue), s) {
      assert SpanKept(st, s) && OfferedOnce(st, i, s);
      OverGone(st.workers, HoldsTimes(s));
      OverGone(st.workers, ShowsTimes(i, s));
    }
    TimesDecide(st.accepted, st.offered[i], Queued(st.queue));
  }

  lemma TimesDecide(all: seq<Span>, a: seq<Span>, b: seq<Span>)
    requires forall s :: Times(all, s) == Times(a, s) + Times(b, s)
    ensures multiset(all) == multiset(a) + multiset(b)
  {
    forall s ensures multiset(all)[s] == (multiset(a) + multiset(b))[s] {
      assert Times(all, s) == Times(a, s) + Times(b, s);
    }
  }

  /** A stop without cancellation drains: every accepted span was offered exactly once to every
      processor, even when earlier processors failed. */
  lemma StopDrains(p: Params, st: State, i: nat)
    requires Reachable(p, st) && Stopped(st) && !st.cancelled && p.workers > 0 && i < p.processors
    ensures |st.offered| == p.processors && multiset(st.offered[i]) == multiset(st.accepted)
    ensures st.queue == [] && st.stats.processed == |st.accepted|
    ensures st.announcing == [] ==> st.stats.enqueued == st.stats.processed && st.stats.queueDepth == 0
  {
    ReachableInv(p, st);
    assert st.workers[0] == Gone;
    assert st.queue == [] && Queued(st.queue) == [];
    StoppedAccount(p, st, i);
    OverGone(st.workers, UnbookedCount());
  }

  /** Everything accepted has reached every processor. */
  predicate Drained(st: State) {
    forall i :: 0 <= i < |st.offered| ==> multiset(st.offered[i]) == multiset(st.accepted)
  }

  lemma OneStep(p: Params, st: State, a: Action)
    requires Enabled(p, st, a)
    ensures IsRun(p, st, [a], Step(p, st, a))
  {
    RunSnoc(p, st, [], st, a);
    assert [] + [a] == [a];
  }

  /** One span was sent, the context was cancelled or not, and the first k workers have left. */
  function Stranding(p: Params, s: Span, cancel: bool, k: nat): State {
    Init(p).(queue := [[s]], announcing := [1], accepted := [s], cancelled := cancel,
             workers := seq(p.workers, i => if i < k then Gone else Waiting([])))
  }

  lemma SendOne(p: Params, s: Span)
    requires p.cap > 0
    ensures Reachable(p, Stranding(p, s, false, 0))
  {
    var st := Stranding(p, s, false, 0);
    OneStep(p, Init(p), Send([s]));
    assert [] + [[s]] == [[s]] && [] + [|[s]|] == [1] && [] + [s] == [s];
    assert st.workers == Init(p).workers;
    assert Step(p, Init(p), Send([s])) == st;
  }

  lemma ReachableSnoc(p: Params, st: State, a: Action)
    requires Reachable(p, st) && Enabled(p, st, a)
    ensures Reachable(p, Step(p, st, a))
  {
    var actions :| IsRun(p, Init(p), actions, st);
    RunSnoc(p, Init(p), actions, st, a);
  }

  /** After a cancellation the workers leave one by one, although a chunk waits. */
  lemma {:induction false} WorkersLeave(p: Params, s: Span, k: nat)
    requires p.cap > 0 && k <= p.workers
    ensures Reachable(p, Stranding(p, s, true, k))
  {
    if k == 0 {
      SendOne(p, s);
      ReachableSnoc(p, Stranding(p, s, false, 0), Cancel);
    } else {
      WorkersLeave(p, s, k - 1);
      var before, after := Stranding(p, s, true, k - 1), Stranding(p, s, true, k);
      ReachableSnoc(p, before, SeeCancelled(k - 1));
      assert before.workers[k - 1 := Gone] == after.workers;
    }
  }

  /** A stop after a cancellation, or without any worker, may leave a chunk in the channel. */
  lemma CancellationStrands(p: Params, s: Span, cancel: bool) returns (st: State)
    requires p.cap > 0 && p.processors > 0 && (cancel || p.workers == 0)
    ensures Reachable(p, st) && Stopped(st) && st.cancelled == cancel && !Drained(st)
  {
    var before := Stranding(p, s, cancel, p.workers);
    if cancel {
      WorkersLeave(p, s, p.workers);
    } else {
      SendOne(p, s);
    }
    ReachableSnoc(p, before, Close);
    st := Step(p, before, Close);
    assert st.offered[0] == [] && st.accepted == [s];
    assert s in multiset(st.accepted);
  }

  /** A stop is sure to drain exactly when there is a worker and the context was not cancelled, or when
      there is no processor to serve. The capacity is positive in every configuration. */
  lemma StopDrainsIff(p: Params, cancel: bool, s: Span)
    requires p.cap > 0
    ensures (forall st :: Reachable(p, st) && Stopped(st) && st.cancelled == cancel ==> Drained(st))
            <==> p.processors == 0 || (p.workers > 0 && !cancel)
  {
    if p.processors == 0 || (p.workers > 0 && !cancel) {
      forall st | Reachable(p, st) && Stopped(st) && st.cancelled == cancel ensures Drained(st) {
        ReachableInv(p, st);
        forall i | 0 <= i < |st.offered| ensures multiset(st.offered[i]) == multiset(st.accepted) {
          StopDrains(p, st, i);
        }
      }
    } else {
      var st := CancellationStrands(p, s, cancel);
    }
  }

  // ---- how much the queue holds ----

  predicate SmallSends(actions: seq<Action>, m: nat) {
    forall n :: 0 <= n < |actions| && actions[n].Send? ==> |actions[n].chunk| <= m
  }

  predicate SmallChunks(queue: seq<Chunk>, m: nat) {
    forall j :: 0 <= j < |queue| ==> |queue[j]| <= m
  }

  lemma {:induction false} QueuedBound(queue: seq<Chunk>, m: nat)
    requires SmallChunks(queue, m)
    ensures |Queued(queue)| <= |queue| * m
  {
    if queue == [] {
    } else {
      var n := |queue| - 1;
      QueuedBound(queue[..n], m);
      assert |queue[n]| <= m;
      OneScaled(n, m);
    }
  }

  lemma StepKeepsSmall(p: Params, st: State, a: Action, m: nat)
    requires Enabled(p, st, a) && (a.Send? ==> |a.chunk| <= m)
    requires SmallChunks(st.queue, m) && |st.queue| <= p.cap
    ensures SmallChunks(Step(p, st, a).queue, m) && |Step(p, st, a).queue| <= p.cap
  {
  }

  lemma {:induction false} RunKeepsSmall(p: Params, actions: seq<Action>, st: State, m: nat)
    requires IsRun(p, Init(p), actions, st) && SmallSends(actions, m)
    ensures SmallChunks(st.queue, m) && |st.queue| <= p.cap
    decreases |actions|
  {
    if actions == [] {
    } else {
      var n := |actions| - 1;
      var mid := LastStep(p, Init(p), actions, st);
      RunKeepsSmall(p, actions[..n], mid, m);
      StepKeepsSmall(p, mid, actions[n], m);
    }
  }

  /** A burst of equal chunks that no worker takes. */
  lemma {:induction false} Burst(p: Params, chunk: Chunk, n: nat) returns (actions: seq<Action>, st: State)
    requires chunk != [] && n <= p.cap
    ensures IsRun(p, Init(p), actions, st) && SmallSends(actions, |chunk|)
    ensures |st.queue| == n && !st.closed && |Queued(st.queue)| == n * |chunk|
  {
    if n == 0 {
      actions, st := [], Init(p);
    } else {
      var before, mid := Burst(p, chunk, n - 1);
      RunSnoc(p, Init(p), before, mid, Send(chunk));
      QueuedSnoc(mid.queue, chunk);
      OneScaled(n - 1, |chunk|);
      actions, st := before + [Send(chunk)], Step(p, mid, Send(chunk));
    }
  }

  /** The number of spans waiting in the queue, in any run whose chunks have at most m spans. */
  ghost predicate WaitingAtMost(p: Params, m: nat, limit: nat) {
    forall actions, st :: IsRun(p, Init(p), actions, st) && SmallSends(actions, m) ==> |Queued(st.queue)| <= limit
  }

  /** The tight bound on the waiting spans is the chunk capacity times the chunk size. */
  lemma WaitingBound(p: Params, m: nat, limit: nat, s: Span)
    ensures WaitingAtMost(p, m, limit) <==> p.cap * m <= limit
  {
    if p.cap * m <= limit {
      forall actions, st | IsRun(p, Init(p), actions, st) && SmallSends(actions, m) ensures |Queued(st.queue)| <= limit {
        RunKeepsSmall(p, actions, st, m);
        QueuedBound(st.queue, m);
        ScaleBound(|st.queue|, p.cap, m);
      }
    } else {
      var chunk := seq(m, _ => s);
      if m > 0 {
        var actions, st := Burst(p, chunk, p.cap);
        assert IsRun(p, Init(p), actions, st) && |Queued(st.queue)| == p.cap * m;
      }
    }
  }

  lemma OneScaled(n: nat, m: nat)
    ensures (n + 1) * m == n * m + m
  {
  }

  lemma ScaleBound(a: nat, b: nat, m: nat)
    requires a <= b
    ensures a * m <= b * m
  {
  }

  /** `QueueSize` caps the waiting spans exactly when the chunks are small enough for the capacity
      derived from it. */
  lemma QueueSizeCaps(cfg: Config, processors: nat, m: nat, s: Span)
    ensures WaitingAtMost(ParamsOf(cfg, processors), m, Effective(cfg).queueSize)
            <==> ChunkCap(cfg) * m <= Effective(cfg).queueSize
  {
    WaitingBound(ParamsOf(cfg, processors), m, Effective(cfg).queueSize, s);
  }

  /** With the default settings, chunks as large as a batch overrun `QueueSize` fourfold. */
  lemma DefaultsOverrun(s: Span)
    ensures ChunkCap(DEFAULTS) == 160
    ensures WaitingAtMost(ParamsOf(DEFAULTS, 2), 1_250, 200_000)
    ensures !WaitingAtMost(ParamsOf(DEFAULTS, 2), 5_000, 799_999)
  {
    WaitingBound(ParamsOf(DEFAULTS, 2), 1_250, 200_000, s);
    WaitingBound(ParamsOf(DEFAULTS, 2), 5_000, 799_999, s);
  }

  // ---- the pipeline as the source holds it ----

  /** The offers of one batch to every processor, with their answers. */
  function Offers(w: nat, answers: seq<bool>): seq<Action> {
    if answers == [] then [] else Offers(w, answers[..|answers| - 1]) + [Offer(w, answers[|answers| - 1])]
  }

  function DispatchOf(w: nat, batch: seq<Span>, answers: seq<bool>): seq<Action> {
    if batch == [] then [] else Offers(w, answers) + [Finish(w)]
  }

  datatype Wake = OnQueue | OnTicker | OnDone

  /** The steps of one turn of a worker's loop. */
  function TurnOf(p: Params, st: State, w: nat, wake: Wake, answers: seq<bool>): seq<Action>
    requires IsWaiting(st, w)
  {
    var batch := st.workers[w].batch;
    match wake
    case OnTicker => [Tick(w)] + DispatchOf(w, batch, answers)
    case OnDone => [SeeCancelled(w)] + DispatchOf(w, batch, answers)
    case OnQueue =>
      if st.queue == [] then [SeeClosed(w)] + DispatchOf(w, batch, answers)
      else if |batch + st.queue[0]| >= p.batchSize
      then [Receive(w)] + [Book(w)] + DispatchOf(w, batch + st.queue[0], answers)
      else [Receive(w)] + [Book(w)]
  }

  lemma LastStep(p: Params, st: State, actions: seq<Action>, st': State) returns (mid: State)
    requires IsRun(p, st, actions, st') && actions != []
    ensures var n := |actions| - 1;
            IsRun(p, st, actions[..n], mid) && Enabled(p, mid, actions[n]) && Step(p, mid, actions[n]) == st'
  {
    mid := Run(p, st, actions[..|actions| - 1]).value;
  }

  lemma {:induction false} RunConcat(p: Params, st: State, first: seq<Action>, mid: State, second: seq<Action>, st': State)
    requires IsRun(p, st, first, mid) && IsRun(p, mid, second, st')
    ensures IsRun(p, st, first + second, st')
    decreases |second|
  {
    if second == [] {
      assert first + second == first;
    } else {
      var n := |second| - 1;
      var before := LastStep(p, mid, second, st');
      RunConcat(p, st, first, mid, second[..n], before);
      RunSnoc(p, st, first + second[..n], before, second[n]);
      assert first + second == first + second[..n] + [second[n]];
    }
  }

  lemma OfferStep(p: Params, st: State, w: nat, answers: seq<bool>, i: nat, mid: State, st': State)
    requires i < |answers| && IsRun(p, st, Offers(w, answers[..i]), mid) && Enabled(p, mid, Offer(w, answers[i]))
    requires Step(p, mid, Offer(w, answers[i])) == st'
    ensures IsRun(p, st, Offers(w, answers[..i + 1]), st')
  {
    RunSnoc(p, st, Offers(w, answers[..i]), mid, Offer(w, answers[i]));
    assert answers[..i + 1][..i] == answers[..i];
  }

  class Pipeline {
    const params: Params
    var queue: seq<Chunk>
    var closed: bool
    var enqueued: nat
    var dropped: nat
    var processed: nat
    var failed: nat
    var queueDepth: int

    // what the run knows besides the fields: the workers, the context, and the spans by their fate
    ghost var cancelled: bool
    ghost var workers: seq<Worker>
    ghost var accepted: seq<Span>
    ghost var offered: seq<seq<Span>>
    ghost var done: seq<Span>

    ghost function View(): State
      reads this
    {
      State(queue, closed, cancelled, workers, Stats(enqueued, dropped, processed, failed, queueDepth), [],
            accepted, offered, done)
    }

    constructor (cfg: Config, processors: nat)
      ensures params == ParamsOf(cfg, processors) && View() == Init(params)
    {
      params := ParamsOf(cfg, processors);
      queue, closed := [], false;
      enqueued, dropped, processed, failed, queueDepth := 0, 0, 0, 0, 0;
      cancelled, workers, accepted := false, seq(ParamsOf(cfg, processors).workers, _ => Waiting([])), [];
      offered, done := seq(processors, _ => []), [];
    }

    /** Queues a chunk or refuses it as a whole; it never waits. */
    method Accept(spans: Chunk) returns (refused: nat, ghost trace: seq<Action>)
      requires spans != [] ==> !closed
      modifies this
      ensures trace == (if spans == [] then []
                        else if old(|queue|) < params.cap then [Send(spans)] + [Announce]
                        else [Refuse(spans)])
      ensures IsRun(params, old(View()), trace, View())
      ensures refused == if spans == [] || old(|queue|) < params.cap then 0 else |spans|
    {
      trace := [];
      ghost var before := View();
      if |spans| == 0 {
        return 0, trace;
      }
      if |queue| < params.cap {
        queue := queue + [spans];
        accepted := accepted + spans;
        enqueued, queueDepth := enqueued + |spans|, queueDepth + |spans|;
        trace := [Send(spans)] + [Announce];
        OneStep(params, before, Send(spans));
        RunSnoc(params, before, [Send(spans)], Step(params, before, Send(spans)), Announce);
        assert ([] + [|spans|])[..0] == [];
        refused := 0;
      } else {
        dropped := dropped + |spans|;
        trace := [Refuse(spans)];
        OneStep(params, before, Refuse(spans));
        refused := |spans|;
      }
    }

    /** What `Stop` does before it waits for the workers. */
    method CloseQueue()
      requires !closed
      modifies this
      ensures IsRun(params, old(View()), [Close], View())
    {
      OneStep(params, View(), Close);
      closed := true;
    }

    /** Hands the batch to one processor and counts its failure. */
    method OfferTo(ghost w: nat, batch: seq<Span>, ghost i: nat, ok: bool)
      requires w < |workers| && workers[w].Offering? && workers[w].batch == batch && workers[w].next == i < |offered|
      modifies this`failed, this`workers, this`offered
      ensures View() == Step(params, old(View()), Offer(w, ok))
    {
      offered := offered[i := offered[i] + batch];
      workers := workers[w := workers[w].(next := i + 1)];
      if !ok {
        failed := failed + |batch|;
      }
    }

    /** Offers the batch to every processor; a failing one is counted and does not stop the others. */
    method Dispatch(ghost w: nat, batch: seq<Span>, answers: seq<bool>)
      requires w < |workers| && workers[w].Offering? && workers[w].batch == batch && workers[w].next == 0
      requires |answers| == |offered|
      modifies this`processed, this`failed, this`workers, this`offered, this`done
      ensures IsRun(params, old(View()), Offers(w, answers) + [Finish(w)], View())
    {
      ghost var before := View();
      var i := 0;
      while i < |answers|
        invariant i <= |answers| == |offered|
        invariant w < |workers| && workers[w] == Offering(batch, i, before.workers[w].leaving)
        invariant IsRun(params, before, Offers(w, answers[..i]), View())
      {
        ghost var mid := View();
        OfferTo(w, batch, i, answers[i]);
        OfferStep(params, before, w, answers, i, mid, View());
        i := i + 1;
      }
      assert answers[..i] == answers;
      ghost var last := View();
      Complete(w, batch);
      RunSnoc(params, before, Offers(w, answers), last, Finish(w));
    }

    method Complete(ghost w: nat, batch: seq<Span>)
      requires w < |workers| && workers[w].Offering? && workers[w].batch == batch && workers[w].next == |offered|
      modifies this`processed, this`workers, this`done
      ensures View() == Step(params, old(View()), Finish(w))
    {
      processed := processed + |batch|;
      done := done + batch;
      workers := workers[w := if workers[w].leaving then Gone else Waiting([])];
    }

    /** Dispatches the batch of a worker unless it is empty. */
    method FlushBatch(ghost w: nat, batch: seq<Span>, answers: seq<bool>, ghost leaving: bool, ghost before: State,
                      ghost trace: seq<Action>)
      requires w < |workers| && workers[w] == Flush(batch, leaving) && |answers| == |offered|
      requires IsRun(params, before, trace, View())
      modifies this`processed, this`failed, this`workers, this`offered, this`done
      ensures IsRun(params, before, trace + DispatchOf(w, batch, answers), View())
    {
      if |batch| == 0 {
        assert trace + [] == trace;
        return;
      }
      ghost var mid := View();
      Dispatch(w, batch, answers);
      RunConcat(params, before, trace, mid, DispatchOf(w, batch, answers), View());
    }

    /** One turn of a worker's loop: the event it woke up for, and the flush that follows. */
    method Turn(ghost w: nat, batch: seq<Span>, wake: Wake, answers: seq<bool>)
      returns (rest: seq<Span>, leave: bool, ghost trace: seq<Action>)
      requires IsWaiting(View(), w) && workers[w].batch == batch && |answers| == |offered|
      requires wake == OnQueue ==> queue != [] || closed
      requires wake == OnDone ==> cancelled
      modifies this
      ensures trace == TurnOf(params, old(View()), w, wake, answers)
      ensures IsRun(params, old(View()), trace, View())
      ensures leave <==> wake == OnDone || (wake == OnQueue && old(queue) == [])
      ensures rest == if wake == OnQueue && old(queue) != [] && |batch + old(queue)[0]| < params.batchSize
                      then batch + old(queue)[0] else []
    {
      ghost var before := View();
      rest, leave := [], false;
      trace := TurnOf(params, before, w, wake, answers);
      match wake
      case OnTicker =>
        OneStep(params, before, Tick(w));
        workers := workers[w := Flush(batch, false)];
        FlushBatch(w, batch, answers, false, before, [Tick(w)]);
      case OnDone =>
        OneStep(params, before, SeeCancelled(w));
        workers := workers[w := Flush(batch, true)];
        FlushBatch(w, batch, answers, true, before, [SeeCancelled(w)]);
        leave := true;
      case OnQueue =>
        if queue == [] {
          OneStep(params, before, SeeClosed(w));
          workers := workers[w := Flush(batch, true)];
          FlushBatch(w, batch, answers, true, before, [SeeClosed(w)]);
          leave := true;
        } else {
          rest := Collect(w, batch, answers);
        }
    }

    /** Takes a chunk from the queue into the batch, and dispatches the batch when it is large enough. */
    method Collect(ghost w: nat, batch: seq<Span>, answers: seq<bool>) returns (rest: seq<Span>)
      requires IsWaiting(View(), w) && workers[w].batch == batch && |answers| == |offered| && queue != []
      modifies this
      ensures IsRun(params, old(View()), TurnOf(params, old(View()), w, OnQueue, answers), View())
      ensures rest == if |batch + old(queue)[0]| < params.batchSize then batch + old(queue)[0] else []
    {
      ghost var before := View();
      var chunk := queue[0];
      OneStep(params, before, Receive(w));
      queue := queue[1..];
      workers := workers[w := Booking(batch, chunk)];
      ghost var mid := View();
      RunSnoc(params, before, [Receive(w)], mid, Book(w));
      queueDepth := queueDepth - |chunk|;
      rest := batch + chunk;
      workers := workers[w := Booked(params, batch, chunk)];
      if |rest| >= params.batchSize {
        FlushBatch(w, rest, answers, false, before, [Receive(w)] + [Book(w)]);
        rest := [];
      }
    }
  }
}
