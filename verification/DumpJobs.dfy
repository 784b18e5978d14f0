/** Dump jobs under concurrent capture, stop and delete requests: each database statement, each
    section under the in-flight lock and each look at the context is one atomic step, and the
    application's replies are arbitrary. */
module DumpJobs {
  import opened Basics

  type Id = nat

  datatype Status = Pending | Ready | Failed | Cancelled

  datatype Artifact = Artifact(status: Status, filename: string, bytes: nat, error: string)

  /** A context is ended by whichever comes first: its cancel function or its deadline. */
  datatype Ctx = Live | Canceled | Expired

  /** Where the goroutine of a job stands. */
  datatype Phase =
    | Starting
    | Fetching
    | Copied(filename: string, bytes: nat)
    | Failing(message: string)
    | WritingCancel
    | WritingFail(message: string)
    | Leaving
    | Over

  datatype Job = Job(phase: Phase, ctx: Ctx)

  datatype State = State(
    records: map<Id, Artifact>,
    next: Id,                          // ids are never reused
    jobs: map<Id, Job>,
    inflight: set<Id>,
    asking: multiset<Id>,              // stop requests waiting for the application's reply
    stopping: multiset<Id>,            // stop requests about to call a cancel function
    copied: map<Id, (string, nat)>,    // what each job copied to disk
    unreached: set<Id>,                // jobs for which a stop request found the application unreachable
    late: set<Id>,                     // jobs that wrote their completion under an ended context
    lost: set<Id>)                     // jobs whose last write did not take effect

  const FRESH: Artifact := Artifact(Pending, "", 0, "")
  const MESSAGE_LIMIT: nat := 500

  function Truncate(s: string): string {
    if |s| <= MESSAGE_LIMIT then s else s[..MESSAGE_LIMIT]
  }

  function Init(): State {
    State(map[], 0, map[], {}, multiset{}, multiset{}, map[], {}, {}, {})
  }

  datatype Action =
    | Create
    | Register(id: Id)
    | Expire(id: Id)
    | FetchFails(id: Id, message: string)
    | FetchSucceeds(id: Id, filename: string, bytes: nat)
    | Complete(id: Id, applied: bool)
    | ReadCtx(id: Id)
    | WriteCancel(id: Id, applied: bool)
    | WriteFail(id: Id, applied: bool)
    | Unregister(id: Id)
    | AskStop(id: Id)
    | Reached(id: Id)
    | Unreached(id: Id)
    | CallCancel(id: Id)
    | Delete(id: Id)

  predicate InPhase(st: State, id: Id, p: Phase) {
    id in st.jobs && st.jobs[id].phase == p
  }

  predicate IsLive(st: State, id: Id) {
    id in st.jobs && st.jobs[id].ctx == Live
  }

  /** The completion is written under the job's own context and cannot take effect once that ended;
      the other two writes are detached from it. A healthy database applies every write it can. */
  predicate Enabled(healthy: bool, st: State, a: Action) {
    match a
    case Create => true
    case Register(id) => InPhase(st, id, Starting)
    case Expire(id) => IsLive(st, id)
    case FetchFails(id, _) => InPhase(st, id, Fetching)
    case FetchSucceeds(id, _, _) => InPhase(st, id, Fetching)
    case Complete(id, applied) =>
      && id in st.jobs && st.jobs[id].phase.Copied?
      && (applied ==> IsLive(st, id))
      && (healthy && IsLive(st, id) ==> applied)
    case ReadCtx(id) => id in st.jobs && st.jobs[id].phase.Failing?
    case WriteCancel(id, applied) => InPhase(st, id, WritingCancel) && (healthy ==> applied)
    case WriteFail(id, applied) => id in st.jobs && st.jobs[id].phase.WritingFail? && (healthy ==> applied)
    case Unregister(id) => InPhase(st, id, Leaving)
    case AskStop(id) => id in st.records && st.records[id].status == Pending
    case Reached(id) => id in st.asking
    case Unreached(id) => id in st.asking
    case CallCancel(id) => id in st.stopping
    case Delete(id) => id in st.records
  }

  function WithPhase(st: State, id: Id, p: Phase): State
    requires id in st.jobs
  {
    st.(jobs := st.jobs[id := st.jobs[id].(phase := p)])
  }

  /** A completion finds no row once the record was deleted. */
  function Completed(records: map<Id, Artifact>, id: Id, filename: string, bytes: nat): map<Id, Artifact> {
    if id in records then records[id := records[id].(status := Ready, filename := filename, bytes := bytes)] else records
  }

  function FailedWith(records: map<Id, Artifact>, id: Id, message: string): map<Id, Artifact> {
    if id in records then records[id := records[id].(status := Failed, error := Truncate(message))] else records
  }

  function StoppedByUser(records: map<Id, Artifact>, id: Id): map<Id, Artifact> {
    if id in records && records[id].status == Pending
    then records[id := records[id].(status := Cancelled, error := "")] else records
  }

  function Lost(st: State, id: Id, applied: bool): set<Id> {
    if applied then st.lost else st.lost + {id}
  }

  function Step(healthy: bool, st: State, a: Action): State
    requires Enabled(healthy, st, a)
  {
    match a
    case Create =>
      st.(records := st.records[st.next := FRESH], next := st.next + 1, jobs := st.jobs[st.next := Job(Starting, Live)])
    case Register(id) => WithPhase(st, id, Fetching).(inflight := st.inflight + {id})
    case Expire(id) => st.(jobs := st.jobs[id := st.jobs[id].(ctx := Expired)])
    case FetchFails(id, message) => WithPhase(st, id, Failing(message))
    case FetchSucceeds(id, filename, bytes) =>
      WithPhase(st, id, Copied(filename, bytes)).(copied := st.copied[id := (filename, bytes)])
    case Complete(id, applied) =>
      var p := st.jobs[id].phase;
      WithPhase(st, id, Leaving).(
        records := if applied then Completed(st.records, id, p.filename, p.bytes) else st.records,
        late := if IsLive(st, id) then st.late else st.late + {id},
        lost := Lost(st, id, applied))
    case ReadCtx(id) =>
      WithPhase(st, id, if st.jobs[id].ctx == Canceled then WritingCancel else WritingFail(st.jobs[id].phase.message))
    case WriteCancel(id, applied) =>
      WithPhase(st, id, Leaving).(
        records := if applied then StoppedByUser(st.records, id) else st.records,
        lost := Lost(st, id, applied))
    case WriteFail(id, applied) =>
      WithPhase(st, id, Leaving).(
        records := if applied then FailedWith(st.records, id, st.jobs[id].phase.message) else st.records,
        lost := Lost(st, id, applied))
    case Unregister(id) => WithPhase(st, id, Over).(inflight := st.inflight - {id})
    case AskStop(id) => st.(asking := st.asking + multiset{id})
    case Reached(id) => st.(asking := st.asking - multiset{id})
    case Unreached(id) =>
      st.(asking := st.asking - multiset{id},
          unreached := st.unreached + {id},
          stopping := if id in st.inflight then st.stopping + multiset{id} else st.stopping)
    case CallCancel(id) =>
      st.(stopping := st.stopping - multiset{id},
          jobs := if IsLive(st, id) then st.jobs[id := st.jobs[id].(ctx := Canceled)] else st.jobs)
    case Delete(id) => st.(records := st.records - {id})
  }

  // ---- one job at a time ----

  /** Everything the state says about one id. */
  datatype View = View(
    record: Option<Artifact>,
    job: Option<Job>,
    inflight: bool,
    asking: nat,
    stopping: nat,
    copied: Option<(string, nat)>,
    unreached: bool,
    late: bool,
    lost: bool)

  const BLANK: View := View(None, None, false, 0, 0, None, false, false, false)

  function Of(st: State, id: Id): View {
    View(if id in st.records then Some(st.records[id]) else None,
         if id in st.jobs then Some(st.jobs[id]) else None,
         id in st.inflight, st.asking[id], st.stopping[id],
         if id in st.copied then Some(st.copied[id]) else None,
         id in st.unreached, id in st.late, id in st.lost)
  }

  function Subject(st: State, a: Action): Id {
    if a.Create? then st.next else a.id
  }

  predicate ViewInPhase(v: View, p: Phase) {
    v.job.Some? && v.job.value.phase == p
  }

  predicate ViewIsLive(v: View) {
    v.job.Some? && v.job.value.ctx == Live
  }

  predicate LocallyEnabled(healthy: bool, v: View, a: Action) {
    match a
    case Create => v == BLANK
    case Register(_) => ViewInPhase(v, Starting)
    case Expire(_) => ViewIsLive(v)
    case FetchFails(_, _) => ViewInPhase(v, Fetching)
    case FetchSucceeds(_, _, _) => ViewInPhase(v, Fetching)
    case Complete(_, applied) =>
      && v.job.Some? && v.job.value.phase.Copied?
      && (applied ==> ViewIsLive(v))
      && (healthy && ViewIsLive(v) ==> applied)
    case ReadCtx(_) => v.job.Some? && v.job.value.phase.Failing?
    case WriteCancel(_, applied) => ViewInPhase(v, WritingCancel) && (healthy ==> applied)
    case WriteFail(_, applied) => v.job.Some? && v.job.value.phase.WritingFail? && (healthy ==> applied)
    case Unregister(_) => ViewInPhase(v, Leaving)
    case AskStop(_) => v.record.Some? && v.record.value.status == Pending
    case Reached(_) => v.asking > 0
    case Unreached(_) => v.asking > 0
    case CallCancel(_) => v.stopping > 0
    case Delete(_) => v.record.Some?
  }

  function Moving(v: View, p: Phase): View
    requires v.job.Some?
  {
    v.(job := Some(v.job.value.(phase := p)))
  }

  function LocalStep(healthy: bool, v: View, a: Action): View
    requires LocallyEnabled(healthy, v, a)
  {
    match a
    case Create => v.(record := Some(FRESH), job := Some(Job(Starting, Live)))
    case Register(_) => Moving(v, Fetching).(inflight := true)
    case Expire(_) => v.(job := Some(v.job.value.(ctx := Expired)))
    case FetchFails(_, message) => Moving(v, Failing(message))
    case FetchSucceeds(_, filename, bytes) => Moving(v, Copied(filename, bytes)).(copied := Some((filename, bytes)))
    case Complete(_, applied) =>
      var p := v.job.value.phase;
      Moving(v, Leaving).(
        record := if applied && v.record.Some?
                  then Some(v.record.value.(status := Ready, filename := p.filename, bytes := p.bytes)) else v.record,
        late := v.late || !ViewIsLive(v),
        lost := v.lost || !applied)
    case ReadCtx(_) =>
      Moving(v, if v.job.value.ctx == Canceled then WritingCancel else WritingFail(v.job.value.phase.message))
    case WriteCancel(_, applied) =>
      Moving(v, Leaving).(
        record := if applied && v.record.Some? && v.record.value.status == Pending
                  then Some(v.record.value.(status := Cancelled, error := "")) else v.record,
        lost := v.lost || !applied)
    case WriteFail(_, applied) =>
      Moving(v, Leaving).(
        record := if applied && v.record.Some?
                  then Some(v.record.value.(status := Failed, error := Truncate(v.job.value.phase.message))) else v.record,
        lost := v.lost || !applied)
    case Unregister(_) => Moving(v, Over).(inflight := false)
    case AskStop(_) => v.(asking := v.asking + 1)
    case Reached(_) => v.(asking := v.asking - 1)
    case Unreached(_) =>
      v.(asking := v.asking - 1, unreached := true, stopping := if v.inflight then v.stopping + 1 else v.stopping)
    case CallCancel(_) =>
      v.(stopping := v.stopping - 1, job := if ViewIsLive(v) then Some(v.job.value.(ctx := Canceled)) else v.job)
    case Delete(_) => v.(record := None)
  }

  /** The steps of the job's goroutine; the others belong to requests and to the deadline. */
  predicate ByJob(a: Action) {
    a.Register? || a.FetchFails? || a.FetchSucceeds? || a.ReadCtx? || a.Unregister?
  }

  predicate IsWrite(a: Action) {
    a.Complete? || a.WriteCancel? || a.WriteFail?
  }

  lemma EnabledIsLocal(healthy: bool, st: State, a: Action)
    requires Enabled(healthy, st, a) && (a.Create? ==> Of(st, st.next) == BLANK)
    ensures LocallyEnabled(healthy, Of(st, Subject(st, a)), a)
  {
  }

  lemma OthersUnchanged(healthy: bool, st: State, a: Action, id: Id)
    requires Enabled(healthy, st, a) && Subject(st, a) != id
    ensures Of(Step(healthy, st, a), id) == Of(st, id)
  {
  }

  lemma JobStepIsLocal(healthy: bool, st: State, a: Action)
    requires Enabled(healthy, st, a) && ByJob(a) && LocallyEnabled(healthy, Of(st, Subject(st, a)), a)
    ensures var id := Subject(st, a); Of(Step(healthy, st, a), id) == LocalStep(healthy, Of(st, id), a)
  {
  }

  lemma WriteIsLocal(healthy: bool, st: State, a: Action)
    requires Enabled(healthy, st, a) && IsWrite(a) && LocallyEnabled(healthy, Of(st, Subject(st, a)), a)
    ensures var id := Subject(st, a); Of(Step(healthy, st, a), id) == LocalStep(healthy, Of(st, id), a)
  {
  }

  lemma RequestIsLocal(healthy: bool, st: State, a: Action)
    requires Enabled(healthy, st, a) && !ByJob(a) && !IsWrite(a) && LocallyEnabled(healthy, Of(st, Subject(st, a)), a)
    ensures var id := Subject(st, a); Of(Step(healthy, st, a), id) == LocalStep(healthy, Of(st, id), a)
  {
  }

  /** Jobs do not disturb each other: a step changes what the state says about its own id, and only
      depends on that. */
  lemma StepIsLocal(healthy: bool, st: State, a: Action, id: Id)
    requires Enabled(healthy, st, a) && (a.Create? ==> Of(st, st.next) == BLANK)
    ensures LocallyEnabled(healthy, Of(st, Subject(st, a)), a)
    ensures Of(Step(healthy, st, a), id)
            == if Subject(st, a) == id then LocalStep(healthy, Of(st, id), a) else Of(st, id)
  {
    EnabledIsLocal(healthy, st, a);
    if Subject(st, a) != id {
      OthersUnchanged(healthy, st, a, id);
    } else if ByJob(a) {
      JobStepIsLocal(healthy, st, a);
    } else if IsWrite(a) {
      WriteIsLocal(healthy, st, a);
    } else {
      RequestIsLocal(healthy, st, a);
    }
  }

  // ---- what every state satisfies ----

  /** The job made its one write to the record. */
  predicate HasWritten(p: Phase) {
    p == Leaving || p == Over
  }

  /** A record leaves `pending` by the one write of its job, and stays there exactly when that write
      was lost. */
  predicate RecordProper(v: View)
    requires v.record.Some? && v.job.Some?
  {
    var r := v.record.value;
    && (r.status == Pending <==> !HasWritten(v.job.value.phase) || v.lost)
    && (r.status == Pending ==> r == FRESH)
    && (r.status == Cancelled ==> v.unreached)
    && (r.status == Ready ==> v.copied == Some((r.filename, r.bytes)))
  }

  predicate JobProper(healthy: bool, v: View)
    requires v.job.Some?
  {
    var j := v.job.value;
    && (v.inflight <==> j.phase != Starting && j.phase != Over)
    && (j.ctx == Canceled ==> v.unreached)
    && (j.phase == WritingCancel ==> j.ctx == Canceled)
    && (j.phase.Copied? ==> v.copied == Some((j.phase.filename, j.phase.bytes)))
    && (!HasWritten(j.phase) ==> !v.lost && !v.late)
    && (v.late ==> v.lost && j.ctx != Live && v.copied.Some?)
    && (healthy ==> v.lost ==> v.late)
  }

  predicate Proper(healthy: bool, v: View) {
    && (v.job.None? ==> v == BLANK)
    && (v.job.Some? ==> JobProper(healthy, v))
    && (v.record.Some? && v.job.Some? ==> RecordProper(v))
    && (v.stopping > 0 ==> v.unreached)
  }

  ghost predicate Inv(healthy: bool, st: State) {
    forall id: Id :: Proper(healthy, Of(st, id)) && (id >= st.next <==> Of(st, id) == BLANK)
  }

  lemma WriteKeepsProper(healthy: bool, v: View, a: Action)
    requires Proper(healthy, v) && LocallyEnabled(healthy, v, a) && IsWrite(a)
    ensures Proper(healthy, LocalStep(healthy, v, a)) && LocalStep(healthy, v, a).job.Some?
  {
  }

  lemma LocalStepKeepsProper(healthy: bool, v: View, a: Action)
    requires Proper(healthy, v) && LocallyEnabled(healthy, v, a)
    ensures Proper(healthy, LocalStep(healthy, v, a)) && LocalStep(healthy, v, a).job.Some?
  {
    if IsWrite(a) {
      WriteKeepsProper(healthy, v, a);
    }
  }

  lemma StepKeepsInv(healthy: bool, st: State, a: Action)
    requires Inv(healthy, st) && Enabled(healthy, st, a)
    ensures Inv(healthy, Step(healthy, st, a))
  {
    var st' := Step(healthy, st, a);
    var subject := Subject(st, a);
    assert Of(st, st.next) == BLANK;
    forall id: Id ensures Proper(healthy, Of(st', id)) && (id >= st'.next <==> Of(st', id) == BLANK) {
      StepIsLocal(healthy, st, a, id);
      if id == subject {
        LocalStepKeepsProper(healthy, Of(st, id), a);
      }
    }
  }

  // ---- runs ----

  function Run(healthy: bool, st: State, actions: seq<Action>): Option<State>
    decreases |actions|
  {
    if actions == [] then Some(st)
    else
      var n := |actions| - 1;
      var mid := Run(healthy, st, actions[..n]);
      if mid.Some? && Enabled(healthy, mid.value, actions[n]) then Some(Step(healthy, mid.value, actions[n])) else None
  }

  predicate IsRun(healthy: bool, st: State, actions: seq<Action>, st': State) {
    Run(healthy, st, actions) == Some(st')
  }

  lemma RunSnoc(healthy: bool, st: State, actions: seq<Action>, mid: State, a: Action)
    requires IsRun(healthy, st, actions, mid) && Enabled(healthy, mid, a)
    ensures IsRun(healthy, st, actions + [a], Step(healthy, mid, a))
  {
    assert (actions + [a])[..|actions|] == actions;
  }

  lemma LastStep(healthy: bool, st: State, actions: seq<Action>, st': State) returns (mid: State)
    requires IsRun(healthy, st, actions, st') && actions != []
    ensures var n := |actions| - 1;
            && IsRun(healthy, st, actions[..n], mid)
            && Enabled(healthy, mid, actions[n]) && Step(healthy, mid, actions[n]) == st'
  {
    mid := Run(healthy, st, actions[..|actions| - 1]).value;
  }

  lemma InitInv(healthy: bool)
    ensures Inv(healthy, Init())
  {
    forall id: Id ensures Of(Init(), id) == BLANK {
    }
  }

  lemma {:induction false} RunKeepsInv(healthy: bool, st: State, actions: seq<Action>, st': State)
    requires Inv(healthy, st) && IsRun(healthy, st, actions, st')
    ensures Inv(healthy, st')
    decreases |actions|
  {
    if actions == [] {
    } else {
      var n := |actions| - 1;
      var mid := LastStep(healthy, st, actions, st');
      RunKeepsInv(healthy, st, actions[..n], mid);
      StepKeepsInv(healthy, mid, actions[n]);
    }
  }

  ghost predicate Reachable(healthy: bool, st: State) {
    exists actions :: IsRun(healthy, Init(), actions, st)
  }

  lemma ReachableInv(healthy: bool, st: State)
    requires Reachable(healthy, st)
    ensures Inv(healthy, st)
  {
    InitInv(healthy);
    var actions :| IsRun(healthy, Init(), actions, st);
    RunKeepsInv(healthy, Init(), actions, st);
  }

  // ---- a record settles once and for all ----

  /** What a record may become: an untouched one settles or goes, a settled one only goes, and one
      that is gone stays gone. */
  predicate MayBecome(v: View, w: View) {
    && (v.record.None? ==> w.record.None?)
    && (v.record.Some? && v.record.value.status != Pending && w.record.Some? ==> w.record == v.record)
  }

  lemma LocalStepSettles(healthy: bool, v: View, a: Action)
    requires Proper(healthy, v) && LocallyEnabled(healthy, v, a) && v.job.Some?
    ensures MayBecome(v, LocalStep(healthy, v, a)) && LocalStep(healthy, v, a).job.Some?
  {
  }

  lemma StepSettles(healthy: bool, st: State, a: Action, id: Id)
    requires Inv(healthy, st) && Enabled(healthy, st, a) && id < st.next
    ensures MayBecome(Of(st, id), Of(Step(healthy, st, a), id)) && st.next <= Step(healthy, st, a).next
  {
    assert Proper(healthy, Of(st, id)) && Of(st, st.next) == BLANK && Of(st, id) != BLANK;
    StepIsLocal(healthy, st, a, id);
    if Subject(st, a) == id {
      LocalStepSettles(healthy, Of(st, id), a);
    }
  }

  /** Whatever capture, stop and delete requests do later: a record leaves `pending` at most once, a
      settled record never changes again, and a deleted one never reappears. */
  lemma {:induction false} RecordsSettleOnce(healthy: bool, st: State, actions: seq<Action>, st': State, id: Id)
    requires Reachable(healthy, st) && IsRun(healthy, st, actions, st') && id < st.next
    ensures id !in st.records ==> id !in st'.records
    ensures id in st.records && st.records[id].status != Pending && id in st'.records ==> st'.records[id] == st.records[id]
    ensures st.next <= st'.next
    decreases |actions|
  {
    if actions == [] {
    } else {
      var n := |actions| - 1;
      var mid := LastStep(healthy, st, actions, st');
      RecordsSettleOnce(healthy, st, actions[..n], mid, id);
      ReachableInv(healthy, st);
      RunKeepsInv(healthy, st, actions[..n], mid);
      StepSettles(healthy, mid, actions[n], id);
      assert MayBecome(Of(mid, id), Of(st', id));
    }
  }

  // ---- why a record is what it is ----

  predicate Performed(actions: seq<Action>, a: Action) {
    exists n :: 0 <= n < |actions| && actions[n] == a
  }

  lemma PerformedSnoc(actions: seq<Action>, last: Action, a: Action)
    ensures Performed(actions + [last], a) <==> Performed(actions, a) || last == a
  {
    if Performed(actions, a) {
      var n :| 0 <= n < |actions| && actions[n] == a;
      assert (actions + [last])[n] == a;
    }
    assert (actions + [last])[|actions|] == last;
    if Performed(actions + [last], a) && last != a {
      var n :| 0 <= n < |actions| + 1 && (actions + [last])[n] == a;
      assert actions[n] == a;
    }
  }

  /** The context of the job ended somewhere in the run. */
  predicate CutOff(actions: seq<Action>, id: Id) {
    Performed(actions, CallCancel(id)) || Performed(actions, Expire(id))
  }

  /** The completion of the job was refused after its context had ended. */
  predicate CompletedLate(actions: seq<Action>, id: Id) {
    exists n :: 0 <= n < |actions| && actions[n] == Complete(id, false) && CutOff(actions[..n], id)
  }

  lemma CompletedLateSnoc(actions: seq<Action>, last: Action, id: Id)
    ensures CompletedLate(actions + [last], id)
            <==> CompletedLate(actions, id) || (last == Complete(id, false) && CutOff(actions, id))
  {
    var all := actions + [last];
    assert all[..|actions|] == actions && all[|actions|] == last;
    assert forall n :: 0 <= n < |actions| ==> all[..n] == actions[..n] && all[n] == actions[n];
    if CompletedLate(actions, id) {
      var n :| 0 <= n < |actions| && actions[n] == Complete(id, false) && CutOff(actions[..n], id);
      assert all[n] == Complete(id, false) && CutOff(all[..n], id);
    }
  }

  predicate Ended(v: View) {
    v.job.Some? && v.job.value.ctx != Live
  }

  lemma LocalStepMarks(healthy: bool, v: View, a: Action)
    requires Proper(healthy, v) && LocallyEnabled(healthy, v, a)
    ensures LocalStep(healthy, v, a).unreached <==> v.unreached || a.Unreached?
    ensures Ended(LocalStep(healthy, v, a)) <==> Ended(v) || a.CallCancel? || a.Expire?
    ensures LocalStep(healthy, v, a).late <==> v.late || (a.Complete? && !a.applied && Ended(v))
  {
  }

  lemma StepMarks(healthy: bool, st: State, a: Action, id: Id)
    requires Inv(healthy, st) && Enabled(healthy, st, a)
    ensures var st' := Step(healthy, st, a);
            && (id in st'.unreached <==> id in st.unreached || a == Unreached(id))
            && (Ended(Of(st', id)) <==> Ended(Of(st, id)) || a == CallCancel(id) || a == Expire(id))
            && (id in st'.late <==> id in st.late || (a == Complete(id, false) && Ended(Of(st, id))))
  {
    assert Of(st, st.next) == BLANK && Proper(healthy, Of(st, id));
    StepIsLocal(healthy, st, a, id);
    if Subject(st, a) == id {
      LocalStepMarks(healthy, Of(st, id), a);
    }
  }

  /** The marks of the state are facts about the run: which jobs a stop request could not reach, whose
      context ended, whose completion came too late, and what was copied. */
  lemma {:induction false} MarksAreHistory(healthy: bool, actions: seq<Action>, st: State, id: Id)
    requires IsRun(healthy, Init(), actions, st)
    ensures id in st.unreached <==> Performed(actions, Unreached(id))
    ensures Ended(Of(st, id)) <==> CutOff(actions, id)
    ensures id in st.late <==> CompletedLate(actions, id)
    decreases |actions|
  {
    if actions == [] {
    } else {
      var n := |actions| - 1;
      var mid := LastStep(healthy, Init(), actions, st);
      MarksAreHistory(healthy, actions[..n], mid, id);
      InitInv(healthy);
      RunKeepsInv(healthy, Init(), actions[..n], mid);
      StepMarks(healthy, mid, actions[n], id);
      assert actions == actions[..n] + [actions[n]];
      PerformedSnoc(actions[..n], actions[n], Unreached(id));
      PerformedSnoc(actions[..n], actions[n], CallCancel(id));
      PerformedSnoc(actions[..n], actions[n], Expire(id));
      CompletedLateSnoc(actions[..n], actions[n], id);
    }
  }

  lemma {:induction false} CopiesAreHistory(healthy: bool, actions: seq<Action>, st: State, id: Id)
    requires IsRun(healthy, Init(), actions, st) && id in st.copied
    ensures Performed(actions, FetchSucceeds(id, st.copied[id].0, st.copied[id].1))
    decreases |actions|
  {
    var n := |actions| - 1;
    var mid := LastStep(healthy, Init(), actions, st);
    assert actions == actions[..n] + [actions[n]];
    PerformedSnoc(actions[..n], actions[n], FetchSucceeds(id, st.copied[id].0, st.copied[id].1));
    if actions[n] != FetchSucceeds(id, st.copied[id].0, st.copied[id].1) {
      CopiesAreHistory(healthy, actions[..n], mid, id);
    }
  }

  /** A record is cancelled only if some stop request found the application unreachable, and ready
      only with the name and the byte count of the file its job copied. */
  lemma StatusIsJustified(healthy: bool, actions: seq<Action>, st: State, id: Id)
    requires IsRun(healthy, Init(), actions, st) && id in st.records
    ensures st.records[id].status == Cancelled ==> Performed(actions, Unreached(id))
    ensures st.records[id].status == Ready ==>
              Performed(actions, FetchSucceeds(id, st.records[id].filename, st.records[id].bytes))
  {
    assert Reachable(healthy, st);
    ReachableInv(healthy, st);
    assert Proper(healthy, Of(st, id));
    MarksAreHistory(healthy, actions, st, id);
    if st.records[id].status == Ready {
      CopiesAreHistory(healthy, actions, st, id);
    }
  }

  // ---- records that stay pending ----

  /** With a healthy database, the record of a finished job is still pending exactly when, in its run, the
      completion was refused after the job's context had been cancelled or had expired. */
  lemma PendingForGood(actions: seq<Action>, st: State, id: Id)
    requires IsRun(true, Init(), actions, st) && id in st.records && InPhase(st, id, Over)
    ensures st.records[id].status == Pending <==> CompletedLate(actions, id)
    ensures CompletedLate(actions, id) ==>
              id in st.copied && Performed(actions, FetchSucceeds(id, st.copied[id].0, st.copied[id].1))
  {
    assert Reachable(true, st);
    ReachableInv(true, st);
    assert Proper(true, Of(st, id));
    MarksAreHistory(true, actions, st, id);
    if id in st.copied {
      CopiesAreHistory(true, actions, st, id);
    }
  }

  lemma LocalOverStays(healthy: bool, v: View, a: Action)
    requires LocallyEnabled(healthy, v, a) && ViewInPhase(v, Over)
    ensures ViewInPhase(LocalStep(healthy, v, a), Over)
    ensures LocalStep(healthy, v, a).record.Some? ==> LocalStep(healthy, v, a).record == v.record
  {
  }

  /** Nothing but a deletion touches the record of a finished job. */
  lemma {:induction false} FinishedIsFinal(healthy: bool, st: State, actions: seq<Action>, st': State, id: Id)
    requires Reachable(healthy, st) && IsRun(healthy, st, actions, st') && InPhase(st, id, Over)
    ensures InPhase(st', id, Over)
    ensures id in st'.records ==> id in st.records && st'.records[id] == st.records[id]
    decreases |actions|
  {
    if actions == [] {
    } else {
      var n := |actions| - 1;
      var mid := LastStep(healthy, st, actions, st');
      FinishedIsFinal(healthy, st, actions[..n], mid, id);
      ReachableInv(healthy, st);
      RunKeepsInv(healthy, st, actions[..n], mid);
      assert Of(mid, mid.next) == BLANK;
      StepIsLocal(healthy, mid, actions[n], id);
      if Subject(mid, actions[n]) == id {
        LocalOverStays(healthy, Of(mid, id), actions[n]);
      }
      assert ViewInPhase(Of(st', id), Over);
    }
  }

  /** A stop request that interrupts the wait between the copy and the completion: the user is told
      the job was cancelled, the file is on disk, and the record stays pending whatever follows. */
  function LateStop(filename: string, bytes: nat): seq<Action> {
    [Create, Register(0), FetchSucceeds(0, filename, bytes), AskStop(0), Unreached(0), CallCancel(0), Complete(0, false),
     Unregister(0)]
  }

  lemma NextOf(all: seq<Action>, n: nat, st: State) returns (st': State)
    requires n < |all| && IsRun(true, Init(), all[..n], st) && Enabled(true, st, all[n])
    ensures st' == Step(true, st, all[n]) && IsRun(true, Init(), all[..n + 1], st')
  {
    RunSnoc(true, Init(), all[..n], st, all[n]);
    assert all[..n] + [all[n]] == all[..n + 1];
    st' := Step(true, st, all[n]);
  }

  lemma LateStopAsked(filename: string, bytes: nat) returns (st: State)
    ensures IsRun(true, Init(), LateStop(filename, bytes)[..4], st)
    ensures st.records == map[0 := FRESH] && st.jobs == map[0 := Job(Copied(filename, bytes), Live)]
    ensures st.inflight == {0} && 0 in st.asking
  {
    var all := LateStop(filename, bytes);
    st := LateStopFetching(filename, bytes);
    st := NextOf(all, 2, st);
    st := NextOf(all, 3, st);
  }

  lemma LateStopFetching(filename: string, bytes: nat) returns (st: State)
    ensures IsRun(true, Init(), LateStop(filename, bytes)[..2], st)
    ensures st.records == map[0 := FRESH] && st.jobs == map[0 := Job(Fetching, Live)] && st.inflight == {0}
  {
    var all := LateStop(filename, bytes);
    assert all[..0] == [];
    st := NextOf(all, 0, Init());
    assert st.jobs == map[0 := Job(Starting, Live)];
    st := NextOf(all, 1, st);
  }

  lemma LateStopUnreached(filename: string, bytes: nat) returns (st: State)
    ensures IsRun(true, Init(), LateStop(filename, bytes)[..5], st)
    ensures st.records == map[0 := FRESH] && st.jobs == map[0 := Job(Copied(filename, bytes), Live)] && 0 in st.stopping
  {
    st := LateStopAsked(filename, bytes);
    st := NextOf(LateStop(filename, bytes), 4, st);
  }

  lemma LateStopCalled(filename: string, bytes: nat) returns (st: State)
    ensures IsRun(true, Init(), LateStop(filename, bytes)[..6], st)
    ensures st.records == map[0 := FRESH] && st.jobs == map[0 := Job(Copied(filename, bytes), Canceled)]
  {
    st := LateStopUnreached(filename, bytes);
    st := NextOf(LateStop(filename, bytes), 5, st);
  }

  lemma LateStopIsRun(filename: string, bytes: nat) returns (st: State)
    ensures IsRun(true, Init(), LateStop(filename, bytes), st)
    ensures 0 in st.records && st.records[0] == FRESH && InPhase(st, 0, Over)
  {
    var all := LateStop(filename, bytes);
    st := LateStopCalled(filename, bytes);
    st := NextOf(all, 6, st);
    assert InPhase(st, 0, Leaving);
    st := NextOf(all, 7, st);
    assert all[..8] == all;
  }

  lemma LateStopNeverSettles(filename: string, bytes: nat, more: seq<Action>, st: State, st': State)
    requires IsRun(true, Init(), LateStop(filename, bytes), st) && IsRun(true, st, more, st')
    ensures 0 in st'.records ==> st'.records[0].status == Pending
    ensures InPhase(st', 0, Over)
  {
    var there := LateStopIsRun(filename, bytes);
    assert Reachable(true, st);
    FinishedIsFinal(true, st, more, st', 0);
  }

  // ---- a stop that comes in time ----

  /** The job's wait was interrupted before it decided how to end. */
  predicate Interrupted(v: View) {
    && v.job.Some? && v.job.value.ctx == Canceled
    && v.job.value.phase != Starting && !v.job.value.phase.WritingFail?
    && (v.record.Some? ==> v.record.value.status == Pending || v.record.value.status == Cancelled)
  }

  lemma LocalStaysInterrupted(healthy: bool, v: View, a: Action)
    requires LocallyEnabled(healthy, v, a) && Interrupted(v)
    ensures Interrupted(LocalStep(healthy, v, a))
  {
  }

  /** A job interrupted before it decided how to end never ends as failed or ready. With a healthy
      database its record, once the job is over, is cancelled unless the file had arrived already. */
  lemma {:induction false} InterruptedNeverFails(healthy: bool, st: State, actions: seq<Action>, st': State, id: Id)
    requires Reachable(healthy, st) && IsRun(healthy, st, actions, st') && Interrupted(Of(st, id))
    ensures Interrupted(Of(st', id))
    ensures healthy && id in st'.records && InPhase(st', id, Over) ==>
              st'.records[id].status == if id in st'.late then Pending else Cancelled
    decreases |actions|
  {
    ReachableInv(healthy, st);
    RunKeepsInv(healthy, st, actions, st');
    if actions == [] {
    } else {
      var n := |actions| - 1;
      var mid := LastStep(healthy, st, actions, st');
      InterruptedNeverFails(healthy, st, actions[..n], mid, id);
      RunKeepsInv(healthy, st, actions[..n], mid);
      assert Of(mid, mid.next) == BLANK;
      StepIsLocal(healthy, mid, actions[n], id);
      if Subject(mid, actions[n]) == id {
        LocalStaysInterrupted(healthy, Of(mid, id), actions[n]);
      }
    }
    assert Proper(healthy, Of(st', id));
  }

  // ---- the handlers as the source holds them ----

  /** What looking up the instance to dump gave. */
  datatype AgentLookup = AgentFound | AgentMissing | AgentUnverified | NoSecretKey | LookupFailed

  datatype CaptureReply = Accepted(id: Id) | Refused(code: nat)

  /** How the conversation with the application ended. */
  datatype Fetched = Arrived(filename: string, bytes: nat) | Broken(message: string)

  datatype AgentReply = Answered(stopped: bool) | NoAnswer

  datatype StopStart = Asking | NotFound | NotRunning

  datatype StopAnswer = StopAnswer(cancelled: bool, agentStopped: bool)

  function EndOf(st: State, id: Id, got: Fetched, dbUp: bool): seq<Action> {
    match got
    case Arrived(filename, bytes) =>
      [FetchSucceeds(id, filename, bytes)] + [Complete(id, dbUp && IsLive(st, id))] + [Unregister(id)]
    case Broken(message) =>
      [FetchFails(id, message)] + [ReadCtx(id)]
      + [if id in st.jobs && st.jobs[id].ctx == Canceled then WriteCancel(id, dbUp) else WriteFail(id, dbUp)]
      + [Unregister(id)]
  }

  function StopEndOf(st: State, id: Id, reply: AgentReply): seq<Action> {
    match reply
    case Answered(_) => [Reached(id)]
    case NoAnswer => if id in st.inflight then [Unreached(id)] + [CallCancel(id)] else [Unreached(id)]
  }

  lemma OneStep(healthy: bool, st: State, a: Action)
    requires Enabled(healthy, st, a)
    ensures IsRun(healthy, st, [a], Step(healthy, st, a))
  {
    RunSnoc(healthy, st, [], st, a);
    assert [] + [a] == [a];
  }

  class DumpServer {
    ghost const healthy: bool
    var records: map<Id, Artifact>
    var next: Id
    var jobs: map<Id, Job>
    var inflight: set<Id>
    ghost var asking: multiset<Id>
    ghost var stopping: multiset<Id>
    ghost var copied: map<Id, (string, nat)>
    ghost var unreached: set<Id>
    ghost var late: set<Id>
    ghost var lost: set<Id>

    ghost function View(): State
      reads this
    {
      State(records, next, jobs, inflight, asking, stopping, copied, unreached, late, lost)
    }

    constructor (ghost healthy: bool)
      ensures this.healthy == healthy && View() == Init()
    {
      this.healthy := healthy;
      records, next, jobs, inflight := map[], 0, map[], {};
      asking, stopping, copied, unreached, late, lost := multiset{}, multiset{}, map[], {}, {}, {};
    }

    /** Opens a record and starts its job, or says why not. */
    method HandleCapture(kind: string, agent: AgentLookup, allowed: bool, dbUp: bool) returns (reply: CaptureReply)
      modifies this
      ensures reply.Accepted? <==> (kind == "cpu" || kind == "memory") && agent == AgentFound && allowed && dbUp
      ensures reply.Accepted? ==> reply.id == old(next) && View() == Step(healthy, old(View()), Create)
      ensures reply.Refused? ==> View() == old(View())
      ensures reply == Refused(403) <==> (kind == "cpu" || kind == "memory") && agent == AgentFound && !allowed
    {
      if kind != "cpu" && kind != "memory" {
        return Refused(400);
      }
      match agent
      case AgentMissing => return Refused(404);
      case AgentUnverified => return Refused(412);
      case NoSecretKey => return Refused(412);
      case LookupFailed => return Refused(500);
      case AgentFound =>
      if !allowed {
        return Refused(403);
      }
      if !dbUp {
        return Refused(500);
      }
      reply := Accepted(next);
      records, jobs, next := records[next := FRESH], jobs[next := Job(Starting, Live)], next + 1;
    }

    /** The job's goroutine registers its cancel function and starts to wait. */
    method BeginFetch(id: Id)
      requires InPhase(View(), id, Starting)
      modifies this
      ensures View() == Step(healthy, old(View()), Register(id))
    {
      inflight := inflight + {id};
      jobs := jobs[id := jobs[id].(phase := Fetching)];
    }

    /** The job's goroutine after its wait: it writes the outcome once and removes its entry. */
    method EndFetch(id: Id, got: Fetched, dbUp: bool)
      requires InPhase(View(), id, Fetching)
      requires healthy ==> dbUp
      modifies this
      ensures IsRun(healthy, old(View()), EndOf(old(View()), id, got, dbUp), View())
    {
      match got
      case Arrived(filename, bytes) => FinishArrived(id, filename, bytes, dbUp);
      case Broken(message) => FinishBroken(id, message, dbUp);
    }

    method FinishArrived(id: Id, filename: string, bytes: nat, dbUp: bool)
      requires InPhase(View(), id, Fetching)
      requires healthy ==> dbUp
      modifies this
      ensures IsRun(healthy, old(View()), EndOf(old(View()), id, Arrived(filename, bytes), dbUp), View())
    {
      ghost var before := View();
      Land(id, filename, bytes);
      ghost var one := View();
      OneStep(healthy, before, FetchSucceeds(id, filename, bytes));
      var applied := WriteCompletion(id, filename, bytes, dbUp);
      ghost var two := View();
      RunSnoc(healthy, before, [FetchSucceeds(id, filename, bytes)], one, Complete(id, applied));
      RemoveEntry(id);
      RunSnoc(healthy, before, [FetchSucceeds(id, filename, bytes)] + [Complete(id, applied)], two, Unregister(id));
    }

    /** The file has arrived on disk. */
    method Land(id: Id, filename: string, bytes: nat)
      requires InPhase(View(), id, Fetching)
      modifies this`jobs, this`copied
      ensures View() == Step(healthy, old(View()), FetchSucceeds(id, filename, bytes))
      ensures InPhase(View(), id, Copied(filename, bytes)) && jobs[id].ctx == old(jobs)[id].ctx
    {
      copied := copied[id := (filename, bytes)];
      jobs := jobs[id := jobs[id].(phase := Copied(filename, bytes))];
    }

    /** The completion runs under the job's own context: it takes effect only while that lives. */
    method WriteCompletion(id: Id, filename: string, bytes: nat, dbUp: bool) returns (applied: bool)
      requires InPhase(View(), id, Copied(filename, bytes))
      requires healthy ==> dbUp
      modifies this`records, this`jobs, this`late, this`lost
      ensures applied == (dbUp && old(jobs)[id].ctx == Live)
      ensures View() == Step(healthy, old(View()), Complete(id, applied))
      ensures InPhase(View(), id, Leaving)
    {
      applied := dbUp && jobs[id].ctx == Live;
      if applied {
        records := Completed(records, id, filename, bytes);
      } else {
        lost := lost + {id};
      }
      if jobs[id].ctx != Live {
        late := late + {id};
      }
      jobs := jobs[id := jobs[id].(phase := Leaving)];
    }

    /** A job that broke off: stopped by the user if its context was cancelled, failed otherwise. */
    method FinishBroken(id: Id, message: string, dbUp: bool)
      requires InPhase(View(), id, Fetching)
      requires healthy ==> dbUp
      modifies this
      ensures IsRun(healthy, old(View()), EndOf(old(View()), id, Broken(message), dbUp), View())
    {
      ghost var before := View();
      Decide(id, message);
      ghost var two := View();
      ghost var write := WriteOutcome(id, message, dbUp);
      ghost var three := View();
      RunSnoc(healthy, before, [FetchFails(id, message)] + [ReadCtx(id)], two, write);
      RemoveEntry(id);
      RunSnoc(healthy, before, [FetchFails(id, message)] + [ReadCtx(id)] + [write], three, Unregister(id));
    }

    /** Looks at the context to tell a stopped job from a failed one. */
    method Decide(id: Id, message: string)
      requires InPhase(View(), id, Fetching)
      modifies this`jobs
      ensures IsRun(healthy, old(View()), [FetchFails(id, message)] + [ReadCtx(id)], View())
      ensures InPhase(View(), id, if old(jobs)[id].ctx == Canceled then WritingCancel else WritingFail(message))
    {
      ghost var before := View();
      OneStep(healthy, before, FetchFails(id, message));
      ghost var one := Step(healthy, before, FetchFails(id, message));
      jobs := jobs[id := jobs[id].(phase := if jobs[id].ctx == Canceled then WritingCancel else WritingFail(message))];
      assert View() == Step(healthy, one, ReadCtx(id));
      RunSnoc(healthy, before, [FetchFails(id, message)], one, ReadCtx(id));
    }

    /** The one write of a broken job, detached from its context. */
    method WriteOutcome(id: Id, message: string, dbUp: bool) returns (ghost write: Action)
      requires InPhase(View(), id, WritingCancel) || InPhase(View(), id, WritingFail(message))
      requires healthy ==> dbUp
      modifies this`records, this`jobs, this`lost
      ensures write == if old(jobs)[id].phase == WritingCancel then WriteCancel(id, dbUp) else WriteFail(id, dbUp)
      ensures View() == Step(healthy, old(View()), write)
      ensures InPhase(View(), id, Leaving)
    {
      write := if jobs[id].phase == WritingCancel then WriteCancel(id, dbUp) else WriteFail(id, dbUp);
      if dbUp {
        records := if jobs[id].phase == WritingCancel then StoppedByUser(records, id) else FailedWith(records, id, message);
      } else {
        lost := lost + {id};
      }
      jobs := jobs[id := jobs[id].(phase := Leaving)];
    }

    method RemoveEntry(id: Id)
      requires InPhase(View(), id, Leaving)
      modifies this`inflight, this`jobs
      ensures View() == Step(healthy, old(View()), Unregister(id))
    {
      inflight := inflight - {id};
      jobs := jobs[id := jobs[id].(phase := Over)];
    }

    /** A stop request looks at the record and, if it is still pending, goes on to ask the application. */
    method BeginStop(id: Id) returns (start: StopStart)
      modifies this
      ensures start == NotFound <==> id !in old(records)
      ensures start == NotRunning <==> id in old(records) && old(records)[id].status != Pending
      ensures View() == if start == Asking then Step(healthy, old(View()), AskStop(id)) else old(View())
    {
      if id !in records {
        return NotFound;
      }
      if records[id].status != Pending {
        return NotRunning;
      }
      asking := asking + multiset{id};
      start := Asking;
    }

    /** The stop request after the application replied: only an unreachable one makes the server give
        up its own wait. */
    method EndStop(id: Id, reply: AgentReply) returns (answer: StopAnswer)
      requires id in asking
      modifies this
      ensures IsRun(healthy, old(View()), StopEndOf(old(View()), id, reply), View())
      ensures answer.agentStopped <==> reply == Answered(true)
      ensures answer.cancelled <==> reply == Answered(true) || (reply == NoAnswer && id in old(inflight))
      ensures reply == NoAnswer && id in old(inflight) && id in old(jobs) ==> id in jobs && jobs[id].ctx != Live
    {
      var local := false;
      if reply == NoAnswer {
        local := GiveUp(id);
      } else {
        OneStep(healthy, View(), Reached(id));
        asking := asking - multiset{id};
      }
      var agentStopped := reply.Answered? && reply.stopped;
      answer := StopAnswer(agentStopped || local, agentStopped);
    }

    method GiveUp(id: Id) returns (local: bool)
      requires id in asking
      modifies this
      ensures IsRun(healthy, old(View()), StopEndOf(old(View()), id, NoAnswer), View())
      ensures local <==> id in old(inflight)
      ensures id in old(inflight) && id in old(jobs) ==> id in jobs && jobs[id].ctx != Live
    {
      ghost var before := View();
      OneStep(healthy, before, Unreached(id));
      local := LookUp(id);
      if local {
        ghost var mid := View();
        Interrupt(id);
        RunSnoc(healthy, before, [Unreached(id)], mid, CallCancel(id));
      }
    }

    /** Looks for the job's cancel function. */
    method LookUp(id: Id) returns (running: bool)
      requires id in asking
      modifies this`asking, this`unreached, this`stopping
      ensures View() == Step(healthy, old(View()), Unreached(id))
      ensures running <==> id in inflight
      ensures running ==> id in stopping
    {
      asking, unreached := asking - multiset{id}, unreached + {id};
      running := id in inflight;
      if running {
        stopping := stopping + multiset{id};
      }
    }

    /** Calls the job's cancel function: a context that already ended keeps its reason. */
    method Interrupt(id: Id)
      requires id in stopping
      modifies this`jobs, this`stopping
      ensures View() == Step(healthy, old(View()), CallCancel(id))
      ensures id in old(jobs) ==> id in jobs && jobs[id].ctx != Live
    {
      stopping := stopping - multiset{id};
      if id in jobs && jobs[id].ctx == Live {
        jobs := jobs[id := jobs[id].(ctx := Canceled)];
      }
    }

    /** Deletes the record; a second deletion finds nothing. */
    method HandleDelete(id: Id) returns (found: bool)
      modifies this
      ensures found <==> id in old(records)
      ensures View() == if found then Step(healthy, old(View()), Delete(id)) else old(View())
    {
      found := id in records;
      if found {
        records := records - {id};
      }
    }
  }
}
