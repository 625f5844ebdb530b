/**
 What comes out of whole calls of `add`, of the callback and of the operations, in terms of the entries of the
 registry (packages/cli/src/active-executions.ts).
 */
module ExecutionAnswers {
  import opened Wrappers
  import opened ConcurrencyQueues
  import opened ConcurrencyControl
  import opened ExecutionRegistry
  import opened ExecutionSweep
  import opened ExecutionModel

  // ----- `add` -----

  /** In queue mode a new execution is stored as soon as its row exists, without a throttle. */
  lemma NewInQueueMode(s: State, t: Ticket, mode: Mode, id: string, now: nat)
    requires WellFormed(s.registry) && !s.regular && t !in s.adds && id != "" && id !in s.registry.active
    ensures var s1 := Apply(s, BeginNew(t, mode));
            && Enabled(s1, Created(t, id, now))
            && var s2 := Apply(s1, Created(t, id, now));
               && Entry(s2.registry, id) == Some(Execution(id, mode, now, Running, None, None, Pending))
               && s2.registry.active[id] in s2.registry.owed
               && s2.control == s.control && s2.adds == s.adds
  {
    assert s.adds[t := Creating(mode)] - {t} == s.adds;
  }

  /** In regular mode it first asks for a slot, under the mode it was begun with. */
  lemma NewInRegularMode(s: State, t: Ticket, mode: Mode, id: string, now: nat)
    requires WellFormed(s.registry) && s.regular && t !in s.adds && id != ""
    ensures var s1 := Apply(s, BeginNew(t, mode));
            && Enabled(s1, Created(t, id, now))
            && var s2, (c, proceeds) := Apply(s1, Created(t, id, now)), Throttle(s.control, mode, Waiter(id, t));
               && s2.registry == s.registry && s2.control == c
               && s2.adds == s.adds[t := if proceeds then Admitted(id, mode) else Throttled(id, mode)]
  {
  }

  /** A resume asks for a slot at once. */
  lemma ResumeAsksForSlot(s: State, t: Ticket, mode: Mode, id: string)
    requires WellFormed(s.registry) && t !in s.adds
    ensures var s1, (c, proceeds) := Apply(s, BeginResume(t, id, mode)), Throttle(s.control, mode, Waiter(id, t));
            && s1.registry == s.registry && s1.control == c
            && s1.adds == s.adds[t := if proceeds then Admitted(id, mode) else Throttled(id, mode)]
  {
  }

  /** A call past the throttle stores its execution once the last write has succeeded. */
  lemma StoredOnceWritten(s: State, t: Ticket, mode: Mode, id: string, now: nat)
    requires WellFormed(s.registry) && t in s.adds && s.adds[t] == Admitted(id, mode)
    ensures Enabled(s, Written(t, now))
    ensures var s1, before := Apply(s, Written(t, now)), Entry(s.registry, id);
            var status := if id == "" then New else Running;
            && Entry(s1.registry, id)
               == Some(if before.Some?
                       then Execution(id, mode, before.value.startedAt, status, before.value.response, None, Pending)
                       else Execution(id, mode, now, status, None, None, Pending))
            && s1.registry.active[id] in s1.registry.owed && s1.registry.active[id] == |s.registry.objs|
            && s1.control == s.control && s1.adds == s.adds - {t}
  {
  }

  /** A new execution that no limit holds up: from the first step to its entry, under one mode. */
  lemma NewWithoutLimit(s: State, t: Ticket, mode: Mode, id: string, created: nat, now: nat)
    requires WellFormed(s.registry) && s.regular && t !in s.adds && id != "" && id !in s.registry.active
    requires !s.control.enabled || mode in UNLIMITED_MODES
    ensures var es := [BeginNew(t, mode), Created(t, id, created), Written(t, now)];
            && IsRun(s, es)
            && Entry(After(s, es).registry, id) == Some(Execution(id, mode, now, Running, None, None, Pending))
            && After(s, es).control == s.control && After(s, es).adds == s.adds
  {
    UnlimitedCallsPass(s.control, mode, Waiter(id, t), id);
    NewInRegularMode(s, t, mode, id, created);
    var s1 := Apply(s, BeginNew(t, mode));
    var s2 := Apply(s1, Created(t, id, created));
    StoredOnceWritten(s2, t, mode, id, now);
    var s3 := Apply(s2, Written(t, now));
    assert s.adds[t := Admitted(id, mode)] - {t} == s.adds;
    var tail := [Written(t, now)];
    assert tail[1..] == [] && IsRun(s3, []);
    assert IsRun(s2, tail) && After(s2, tail) == s3;
    var rest := [Created(t, id, created)] + tail;
    assert rest[1..] == tail && IsRun(s1, rest) && After(s1, rest) == s3;
    var es := [BeginNew(t, mode), Created(t, id, created), Written(t, now)];
    assert es[1..] == rest;
  }

  /** Failures leave the registry and the limits alone; only a failed last write leaves something behind. */
  lemma FailuresStoreNothing(s: State, t: Ticket, mode: Mode, id: string, now: nat)
    requires WellFormed(s.registry) && t in s.adds
    ensures s.adds[t] == Creating(mode) ==>
              && Apply(s, CreateFailed(t)) == s.(adds := s.adds - {t})
              && Apply(s, Created(t, "", now)) == s.(adds := s.adds - {t})
    ensures s.adds[t] == Admitted(id, mode) ==>
              Apply(s, WriteFailed(t)) == s.(adds := s.adds[t := Abandoned(mode)])
  {
  }

  // ----- Who waits for a slot -----

  /** The modes that a limit is there for, and the queue that limit is about. */
  predicate MayWait(c: Control, mode: Mode) {
    && c.enabled
    && (((mode == Webhook || mode == Trigger) && ProductionQueue in c.queues)
        || (mode == Evaluation && EvaluationQueue in c.queues))
  }

  lemma WaitsStep(s: State, e: Event, t: Ticket)
    requires WellFormed(s.registry) && Enabled(s, e)
    requires t in Apply(s, e).adds && Apply(s, e).adds[t].Throttled?
    ensures (t in s.adds && s.adds[t] == Apply(s, e).adds[t]) || MayWait(s.control, Apply(s, e).adds[t].mode)
  {
    match e
    case BeginNew(_, _) =>
    case Created(u, id, _) =>
      if !MayWait(s.control, s.adds[u].mode) {
        UnlimitedCallsPass(s.control, s.adds[u].mode, Waiter(id, u), id);
      }
    case CreateFailed(_) =>
    case BeginResume(u, id, mode) =>
      if !MayWait(s.control, mode) {
        UnlimitedCallsPass(s.control, mode, Waiter(id, u), id);
      }
    case Written(_, _) =>
    case WriteFailed(_) =>
    case Callback(_) =>
    case Call(_) =>
    case Sweep(_, _) =>
      var (_, woken) := RemoveAllQueued(if s.regular then Disable(s.control) else s.control);
      WokenCallsGoOn(s.adds, woken, t);
    case CancelQueued(_, _) =>
  }

  /** Exactly the throttled calls whose tickets are woken go on, each as itself; all others stay as they are. */
  lemma {:induction false} WokenCallsGoOn(adds: map<Ticket, AddCall>, woken: seq<Waiter>, t: Ticket)
    ensures t in AdmitAll(adds, woken) <==> t in adds
    ensures t in adds ==>
              AdmitAll(adds, woken)[t]
              == if adds[t].Throttled? && (exists w <- woken :: w.ticket == t)
                 then Admitted(adds[t].id, adds[t].mode) else adds[t]
    decreases |woken|
  {
    if woken != [] {
      WokenCallsGoOn(Admit(adds, Some(woken[0])), woken[1..], t);
      assert (exists w <- woken :: w.ticket == t) <==> woken[0].ticket == t || exists w <- woken[1..] :: w.ticket == t;
    }
  }

  /** The limits that are in force are those of the start, or none any more. */
  lemma LimitsComeFromTheStart(s: State, e: Event)
    requires WellFormed(s.registry) && Enabled(s, e)
    ensures Apply(s, e).control.enabled ==> s.control.enabled
    ensures Apply(s, e).control.queues.Keys == s.control.queues.Keys
  {
  }

  ghost predicate NobodyWaitsBut(s: State, c: Control) {
    && (s.control.enabled ==> c.enabled)
    && s.control.queues.Keys == c.queues.Keys
    && (forall t <- s.adds :: s.adds[t].Throttled? ==> MayWait(c, s.adds[t].mode))
  }

  lemma {:induction false} WaitsRun(s: State, es: seq<Event>, c: Control)
    requires WellFormed(s.registry) && IsRun(s, es) && NobodyWaitsBut(s, c)
    ensures NobodyWaitsBut(After(s, es), c)
    decreases |es|
  {
    if es != [] {
      var s' := Apply(s, es[0]);
      LimitsComeFromTheStart(s, es[0]);
      forall t <- s'.adds | s'.adds[t].Throttled? ensures MayWait(c, s'.adds[t].mode) {
        WaitsStep(s, es[0], t);
      }
      WaitsRun(s', es[1..], c);
    }
  }

  /**
   Nobody waits without a limit: a throttled call is a webhook, a trigger or an evaluation, the process was started
   with the limits enabled, and with one for that kind.
   */
  lemma NobodyWaitsWithoutLimit(s0: State, es: seq<Event>, t: Ticket)
    requires IsInitial(s0) && IsRun(s0, es) && t in After(s0, es).adds && After(s0, es).adds[t].Throttled?
    ensures MayWait(s0.control, After(s0, es).adds[t].mode)
  {
    WaitsRun(s0, es, s0.control);
  }

  // ----- The callback -----

  /** A waiting execution stays, without its workflow, for a resumed one brings a new one. Any other is removed. */
  lemma CallbackAnswers(g: Registry, r: Ref)
    requires WellFormed(g) && r < |g.objs|
    ensures g.objs[r].status == Waiting ==>
              && Finish(g, r).objs[r] == g.objs[r].(workflow := None)
              && Finish(g, r).active == g.active
    ensures g.objs[r].status != Waiting ==>
              && Finish(g, r).objs == g.objs
              && Finish(g, r).active == g.active - {g.objs[r].id}
    ensures Finish(g, r).owed == g.owed - {r} && |Finish(g, r).objs| == |g.objs|
    ensures forall q :: 0 <= q < |g.objs| && q != r ==> Finish(g, r).objs[q] == g.objs[q]
  {
  }

  // ----- The fields of an entry -----

  /** What a change does to the status and the workflow of an entry that is there before and after it. */
  lemma StatusAndWorkflowStep(g: Registry, c: Change, id: string)
    requires WellFormed(g) && Applies(g, c) && id in g.active && id in Alter(g, c).active
    ensures Entry(Alter(g, c), id).value.status == StatusAfter(c, id, Entry(g, id).value.status)
    ensures Entry(Alter(g, c), id).value.workflow == WorkflowAfter(g, c, id, Entry(g, id).value.workflow)
  {
    match c
    case Unchanged =>
    case Inserted(_, _, _) =>
    case Finished(_) =>
    case Performed(op) => StatusAndWorkflowPerform(g, op, id);
    case Cleared(all, order) => SweepPostcondition(g, all, order, id);
  }

  lemma StatusAndWorkflowPerform(g: Registry, op: Operation, id: string)
    requires WellFormed(g) && id in g.active && id in Perform(g, op).active
    ensures Entry(Perform(g, op), id).value.status == StatusAfter(Performed(op), id, Entry(g, id).value.status)
    ensures Entry(Perform(g, op), id).value.workflow
            == WorkflowAfter(g, Performed(op), id, Entry(g, id).value.workflow)
  {
    if op.id in g.active && op.id != id {
      assert g.active[op.id] != g.active[id];
    }
  }

  /** The status is the last one set, or that of the last resume. */
  function StatusAfter(c: Change, id: string, before: Status): Status {
    match c
    case Inserted(i, _, _) => if i != id then before else if id == "" then New else Running
    case Performed(SetStatus(i, status)) => if i == id then status else before
    case _ => before
  }

  /** The workflow is the last one attached since the last resume, until the callback of the waiting execution. */
  function WorkflowAfter(g: Registry, c: Change, id: string, before: Option<WorkflowId>): Option<WorkflowId> {
    match c
    case Inserted(i, _, _) => if i == id then None else before
    case Performed(AttachWorkflow(i, w)) => if i == id then Some(w) else before
    case Finished(r) => if id in g.active && g.active[id] == r then None else before
    case _ => before
  }

  ghost function LastStatus(s: State, es: seq<Event>, id: string, before: Status): Status
    requires WellFormed(s.registry) && IsRun(s, es)
    decreases |es|
  {
    if es == [] then before
    else LastStatus(Apply(s, es[0]), es[1..], id, StatusAfter(ChangeOf(s, es[0]), id, before))
  }

  ghost function LastWorkflow(s: State, es: seq<Event>, id: string, before: Option<WorkflowId>): Option<WorkflowId>
    requires WellFormed(s.registry) && IsRun(s, es)
    decreases |es|
  {
    if es == [] then before
    else LastWorkflow(Apply(s, es[0]), es[1..], id, WorkflowAfter(s.registry, ChangeOf(s, es[0]), id, before))
  }

  ghost predicate StaysPresent(s: State, es: seq<Event>, id: string)
    requires WellFormed(s.registry) && IsRun(s, es)
    decreases |es|
  {
    id in s.registry.active && (es != [] ==> StaysPresent(Apply(s, es[0]), es[1..], id))
  }

  /** While an id stays present, its status is the last one set and its workflow the last one attached. */
  lemma {:induction false} FieldsAreTheLastWritten(s: State, es: seq<Event>, id: string)
    requires WellFormed(s.registry) && IsRun(s, es) && StaysPresent(s, es, id)
    ensures var before, after := Entry(s.registry, id), Entry(After(s, es).registry, id);
            && after.Some?
            && after.value.status == LastStatus(s, es, id, before.value.status)
            && after.value.workflow == LastWorkflow(s, es, id, before.value.workflow)
    decreases |es|
  {
    if es != [] {
      StatusAndWorkflowStep(s.registry, ChangeOf(s, es[0]), id);
      FieldsAreTheLastWritten(Apply(s, es[0]), es[1..], id);
    }
  }

  /** The status that is read after it was set is that one, and the other fields are as they were. */
  lemma SetStatusIsRead(g: Registry, id: string, status: Status)
    requires WellFormed(g) && id in g.active
    ensures Entry(Perform(g, SetStatus(id, status)), id) == Some(Entry(g, id).value.(status := status))
  {
  }

  /** Attaching replaces one field; finalizing and stopping settle what is pending, or let go of what is waiting. */
  lemma OperationAnswers(g: Registry, id: string, w: WorkflowId, p: PromiseId, run: Option<RunData>)
    requires WellFormed(g) && id in g.active
    ensures var e := Entry(g, id).value;
            && Entry(Perform(g, AttachWorkflow(id, w)), id) == Some(e.(workflow := Some(w)))
            && Entry(Perform(g, AttachResponse(id, p)), id) == Some(e.(response := Some(p)))
            && Entry(Perform(g, Finalize(id, run)), id)
               == Some(if e.outcome == Pending then e.(outcome := Resolved(run)) else e)
            && Entry(Perform(g, Stop(id)), id)
               == if e.status == Waiting then None
                  else Some(if e.outcome == Pending then e.(outcome := Rejected(ExecutionCancelled(id))) else e)
  {
  }

  /**
   What shutdown makes of one execution: with a response promise, or all of them in regular mode with `cancelAll`, it
   is stopped; a waiting or new one is let go of; any other stays as it is. Only regular mode has limits to disable.
   */
  lemma SweepAnswers(s: State, cancelAll: bool, order: seq<string>, id: string)
    requires WellFormed(s.registry) && Enabled(s, Sweep(cancelAll, order)) && id in s.registry.active
    ensures var e, s' := Entry(s.registry, id).value, Apply(s, Sweep(cancelAll, order));
            var stopped := e.response != None || (s.regular && cancelAll);
            Entry(s'.registry, id)
            == if e.status == Waiting || (e.status == New && !stopped) then None
               else if stopped && e.outcome == Pending then Some(e.(outcome := Rejected(ExecutionCancelled(id))))
               else Some(e)
    ensures var s' := Apply(s, Sweep(cancelAll, order));
            (s.regular || !s.control.enabled) ==> s'.control == s.control.(enabled := false) && s'.adds == s.adds
  {
    SweepPostcondition(s.registry, s.regular && cancelAll, order, id);
  }
}
