/**
 The registry as the program keeps it: objects that are updated in place and shared by reference
 (packages/cli/src/active-executions.ts). Every method is proved to do to these objects what the corresponding
 event of the transition system does to its state.
 */
module ActiveExecutionsService {
  import opened Wrappers
  import opened ConcurrencyQueues
  import opened ConcurrencyControl
  import opened ExecutionRegistry
  import opened ExecutionModel
  import opened ExecutionLifecycle
  import opened ExecutionSweep

  type ResponseData = nat

  class PostExecutePromise {
    var outcome: Outcome<Option<RunData>>
    ghost const owner: Ref // the execution object it was created for

    constructor (ghost owner: Ref)
      ensures outcome == Pending && this.owner == owner
    {
      outcome := Pending;
      this.owner := owner;
    }

    method Resolve(run: Option<RunData>)
      modifies this
      ensures outcome == old(outcome).Settle(Resolved(run))
    {
      if outcome == Pending {
        outcome := Resolved(run);
      }
    }

    method Reject(error: Rejection)
      modifies this
      ensures outcome == old(outcome).Settle(Rejected(error))
    {
      if outcome == Pending {
        outcome := Rejected(error);
      }
    }
  }

  class ResponsePromise {
    const promiseId: PromiseId
    var outcome: Outcome<ResponseData>

    constructor (promiseId: PromiseId)
      ensures this.promiseId == promiseId && outcome == Pending
    {
      this.promiseId := promiseId;
      outcome := Pending;
    }

    method Resolve(response: ResponseData)
      modifies this
      ensures outcome == old(outcome).Settle(Resolved(response))
    {
      if outcome == Pending {
        outcome := Resolved(response);
      }
    }

    method Reject(error: Rejection)
      modifies this
      ensures outcome == old(outcome).Settle(Rejected(error))
    {
      if outcome == Pending {
        outcome := Rejected(error);
      }
    }
  }

  class WorkflowExecution {
    const workflowId: WorkflowId
    var isCanceled: bool

    constructor (workflowId: WorkflowId)
      ensures this.workflowId == workflowId && !isCanceled
    {
      this.workflowId := workflowId;
      isCanceled := false;
    }

    method Cancel()
      modifies this
      ensures isCanceled
    {
      isCanceled := true;
    }
  }

  /** What the caller of `add` passes in besides the mode, as far as it comes out again. */
  datatype ExecutionData = ExecutionData(retryOf: Option<string>, workflowId: string)

  class ExecutingWorkflowData {
    const executionId: string // the id under which it was stored
    const executionData: ExecutionData
    const mode: Mode
    const startedAt: nat
    const postExecutePromise: PostExecutePromise
    var status: Status
    var responsePromise: ResponsePromise?
    var workflowExecution: WorkflowExecution?
    ghost const ref: Ref

    constructor (executionId: string, executionData: ExecutionData, mode: Mode, startedAt: nat, status: Status,
                 responsePromise: ResponsePromise?, postExecutePromise: PostExecutePromise, ghost ref: Ref)
      ensures this.postExecutePromise == postExecutePromise && this.ref == ref
      ensures this.responsePromise == responsePromise && this.executionId == executionId
      ensures this.executionData == executionData
      ensures View()
              == Execution(executionId, mode, startedAt, status, IdOf(responsePromise), None,
                           postExecutePromise.outcome)
    {
      this.executionId := executionId;
      this.executionData := executionData;
      this.mode := mode;
      this.startedAt := startedAt;
      this.status := status;
      this.responsePromise := responsePromise;
      this.workflowExecution := null;
      this.postExecutePromise := postExecutePromise;
      this.ref := ref;
    }

    method RejectResponse(error: Rejection)
      modifies if responsePromise == null then {} else {responsePromise}
      ensures responsePromise != null ==>
                responsePromise.outcome == old(responsePromise.outcome).Settle(Rejected(error))
    {
      if responsePromise != null {
        responsePromise.Reject(error);
      }
    }

    /** Unless it was waiting, the workflow of a stopped execution is cancelled. */
    predicate IsStopped()
      reads this, workflowExecution
    {
      status != Waiting && workflowExecution != null ==> workflowExecution.isCanceled
    }

    static function IdOf(p: ResponsePromise?): Option<PromiseId> {
      if p == null then None else Some(p.promiseId)
    }

    function View(): Execution
      reads this, postExecutePromise
    {
      Execution(
        executionId,
        mode,
        startedAt,
        status,
        IdOf(responsePromise),
        if workflowExecution == null then None else Some(workflowExecution.workflowId),
        postExecutePromise.outcome)
    }
  }

  datatype Attachments = Attachments(
    promises: set<PostExecutePromise>, responses: set<ResponsePromise>, workflows: set<WorkflowExecution>)

  /** Everything that stopping an execution may settle or cancel is accounted for. */
  ghost predicate IsCovered(e: ExecutingWorkflowData, a: Attachments)
    reads e
  {
    && e.postExecutePromise in a.promises
    && (e.responsePromise != null ==> e.responsePromise in a.responses)
    && (e.workflowExecution != null ==> e.workflowExecution in a.workflows)
  }

  /** An object is, in the terms of the transition system, the `i`-th one and in state `x`. */
  ghost predicate Represents(e: ExecutingWorkflowData, x: Execution, i: Ref)
    reads e, e.postExecutePromise
  {
    e.ref == i == e.postExecutePromise.owner && x == e.View()
  }

  datatype NotFound = ExecutionNotFound(executionId: string)

  datatype Summary = Summary(
    id: string, retryOf: Option<string>, startedAt: nat, mode: Mode, workflowId: string, status: Status)

  /** `Object.keys`: every key once, in an order the language leaves to the engine here. */
  method ObjectKeys<V>(m: map<string, V>) returns (keys: seq<string>)
    ensures Distinct(keys) && forall k :: k in keys <==> k in m
  {
    keys := [];
    var rest := m.Keys;
    while rest != {}
      invariant Distinct(keys)
      invariant forall k :: k in m <==> k in keys || k in rest
      invariant forall k <- keys :: k !in rest
      decreases rest
    {
      var k :| k in rest;
      keys, rest := keys + [k], rest - {k};
    }
  }

  function Lookups<V>(m: map<string, V>, keys: seq<string>): (values: seq<V>)
    requires forall k <- keys :: k in m
    ensures |values| == |keys| && forall j :: 0 <= j < |keys| ==> values[j] == m[keys[j]]
  {
    seq(|keys|, j requires 0 <= j < |keys| => m[keys[j]])
  }

  class ActiveExecutions {
    var activeExecutions: map<string, ExecutingWorkflowData>
    const concurrencyControl: ConcurrencyControlService
    const regular: bool
    var adds: map<Ticket, AddCall> // the suspended calls, which the JavaScript runtime keeps

    ghost var created: seq<ExecutingWorkflowData> // every object ever stored
    ghost var registry: Registry                  // what the fields above and the objects amount to
    ghost var attached: Attachments               // the promises and workflows that belong to these objects

    ghost predicate Valid()
      reads this, created, set e | e in created :: e.postExecutePromise
    {
      && concurrencyControl.Valid()
      && WellFormed(registry)
      && |registry.objs| == |created|
      && (forall i :: 0 <= i < |created| ==>
            created[i] in created && Represents(created[i], registry.objs[i], i) && IsCovered(created[i], attached))
      && registry.active.Keys == activeExecutions.Keys
      && (forall id <- activeExecutions :: activeExecutions[id] == created[registry.active[id]])
    }

    ghost function View(): State
      reads this, concurrencyControl, concurrencyControl.queues.Values
    {
      State(regular, concurrencyControl.View(), registry, adds)
    }

    constructor (concurrencyControl: ConcurrencyControlService, regular: bool)
      requires concurrencyControl.Valid()
      ensures Valid() && this.concurrencyControl == concurrencyControl
      ensures View() == State(regular, concurrencyControl.View(), Registry(map[], [], {}), map[])
    {
      this.concurrencyControl := concurrencyControl;
      this.regular := regular;
      activeExecutions := map[];
      adds := map[];
      created := [];
      registry := Registry(map[], [], {});
      attached := Attachments({}, {}, {});
    }

    // ----- `add`, one method per stretch between two awaits -----

    /** The call up to its first await. `ticket` names the suspended call. */
    method BeginAdd(mode: Mode, executionId: Option<string>, ticket: Ticket)
      requires Valid() && ticket !in adds
      modifies this`adds, concurrencyControl.queues.Values
      ensures Valid()
      ensures View() == Apply(old(View()), if executionId.None? then BeginNew(ticket, mode)
                                                                else BeginResume(ticket, executionId.value, mode))
    {
      if executionId.None? {
        adds := adds[ticket := Creating(mode)];
      } else {
        ThrottleAdd(ticket, executionId.value, mode);
      }
    }

    method ThrottleAdd(ticket: Ticket, executionId: string, mode: Mode)
      requires Valid()
      modifies this`adds, concurrencyControl.queues.Values
      ensures Valid()
      ensures Slots(concurrencyControl.View(), adds)
              == BeginThrottle(old(Slots(concurrencyControl.View(), adds)), ticket, executionId, mode)
    {
      var proceeds := concurrencyControl.ThrottleCall(mode, executionId, ticket);
      adds := adds[ticket := if proceeds then Admitted(executionId, mode) else Throttled(executionId, mode)];
    }

    /** The database returned the id of a new execution. `executionData` is what the suspended call was made with. */
    method OnCreated(ticket: Ticket, executionId: string, now: nat, executionData: ExecutionData)
      requires Valid() && ticket in adds && adds[ticket].Creating?
      modifies this, concurrencyControl.queues.Values
      ensures Valid() && View() == Apply(old(View()), Created(ticket, executionId, now))
      ensures executionId != "" && !regular ==>
                Has(executionId) && fresh(activeExecutions[executionId])
                && activeExecutions[executionId].executionData == executionData
    {
      var mode := adds[ticket].mode;
      if executionId == "" {
        adds := adds - {ticket};
      } else if regular {
        ThrottleAdd(ticket, executionId, mode);
      } else {
        StoreExecution(ticket, executionId, mode, now, executionData);
      }
    }

    method OnCreateFailed(ticket: Ticket)
      requires Valid() && ticket in adds && adds[ticket].Creating?
      modifies this`adds
      ensures Valid() && View() == Apply(old(View()), CreateFailed(ticket))
    {
      adds := adds - {ticket};
    }

    /** The last write to the database succeeded. */
    method OnWritten(ticket: Ticket, now: nat, executionData: ExecutionData)
      requires Valid() && ticket in adds && adds[ticket].Admitted?
      modifies this
      ensures Valid() && View() == Apply(old(View()), Written(ticket, now))
      ensures var id := old(adds)[ticket].id;
              Has(id) && fresh(activeExecutions[id]) && activeExecutions[id].executionData == executionData
    {
      StoreExecution(ticket, adds[ticket].id, adds[ticket].mode, now, executionData);
    }

    method OnWriteFailed(ticket: Ticket)
      requires Valid() && ticket in adds && adds[ticket].Admitted?
      modifies this`adds
      ensures Valid() && View() == Apply(old(View()), WriteFailed(ticket))
    {
      adds := adds[ticket := Abandoned(adds[ticket].mode)];
    }

    method StoreExecution(ticket: Ticket, executionId: string, mode: Mode, now: nat, executionData: ExecutionData)
      requires Valid()
      modifies this
      ensures Valid() && adds == old(adds) - {ticket}
      ensures registry == Insert(old(registry), executionId, mode, now)
      ensures Has(executionId) && fresh(activeExecutions[executionId])
      ensures activeExecutions[executionId].executionData == executionData
      ensures activeExecutions[executionId].responsePromise
              == if old(Has(executionId)) then old(activeExecutions[executionId].responsePromise) else null
    {
      var startedAt, response := now, null;
      if executionId in activeExecutions {
        startedAt := activeExecutions[executionId].startedAt;
        response := activeExecutions[executionId].responsePromise;
      }
      var promise := new PostExecutePromise(|created|);
      var execution := new ExecutingWorkflowData(
        executionId, executionData, mode, startedAt, StatusOnInsert(executionId), response, promise, |created|);
      adds := adds - {ticket};
      KeepExecution(execution);
    }

    /** Puts a new object under its id, which also owes its settle callback from now on. */
    method KeepExecution(execution: ExecutingWorkflowData)
      requires Valid() && Represents(execution, execution.View(), |created|)
      requires IsCovered(execution, attached.(promises := attached.promises + {execution.postExecutePromise}))
      modifies this`activeExecutions, this`created, this`registry, this`attached
      ensures Valid()
      ensures registry == Registry(old(registry).active[execution.executionId := |old(registry).objs|],
                                   old(registry).objs + [execution.View()],
                                   old(registry).owed + {|old(registry).objs|})
      ensures activeExecutions == old(activeExecutions)[execution.executionId := execution]
    {
      activeExecutions := activeExecutions[execution.executionId := execution];
      created := created + [execution];
      attached := attached.(promises := attached.promises + {execution.postExecutePromise});
      registry := Registry(registry.active[execution.executionId := |registry.objs|],
                           registry.objs + [execution.View()],
                           registry.owed + {|registry.objs|});
    }

    /**
     The reaction to the settlement of an execution's promise; the catch handler comes first. A waiting execution lets
     go of its workflow, for a resumed one brings its own.
     */
    method RunSettleCallback(execution: ExecutingWorkflowData) returns (rethrown: Option<Rejection>)
      requires Valid() && execution in created && Enabled(View(), Callback(execution.ref))
      modifies this, execution, concurrencyControl.queues.Values
      ensures Valid() && View() == Apply(old(View()), Callback(execution.ref))
      ensures old(execution.status) == Waiting ==>
                execution.workflowExecution == null && activeExecutions == old(activeExecutions)
      ensures old(execution.status) != Waiting ==>
                activeExecutions == old(activeExecutions) - {execution.executionId}
                && execution.workflowExecution == old(execution.workflowExecution)
      ensures rethrown.Some? <==> old(execution.postExecutePromise.outcome) == Rejected(OtherError)
      ensures rethrown.Some? ==> rethrown.value == OtherError
      ensures Consistent(old(registry)) ==> rethrown.None?
    {
      rethrown := CatchRejection(execution);
      assert Represents(execution, registry.objs[execution.ref], execution.ref);
      ReleaseAndFinish(execution);
    }

    method ReleaseAndFinish(execution: ExecutingWorkflowData)
      requires Valid() && execution in created
      modifies this, execution, concurrencyControl.queues.Values
      ensures Valid() && registry == Finish(old(registry), execution.ref)
      ensures Slots(concurrencyControl.View(), adds)
              == ReleaseSlot(old(Slots(concurrencyControl.View(), adds)), execution.mode)
      ensures old(execution.status) == Waiting ==>
                execution.workflowExecution == null && activeExecutions == old(activeExecutions)
      ensures old(execution.status) != Waiting ==>
                activeExecutions == old(activeExecutions) - {execution.executionId}
                && execution.workflowExecution == old(execution.workflowExecution)
    {
      ReleaseAndResume(execution.mode);
      FinishExecution(execution);
    }

    /** The catch handler lets cancellations pass and rethrows everything else. */
    method CatchRejection(execution: ExecutingWorkflowData) returns (rethrown: Option<Rejection>)
      requires Valid() && execution in created
      ensures rethrown.Some? <==> execution.postExecutePromise.outcome == Rejected(OtherError)
      ensures rethrown.Some? ==> rethrown.value == OtherError
      ensures Consistent(registry) ==> rethrown.None?
    {
      var outcome := execution.postExecutePromise.outcome;
      rethrown := None;
      if outcome.Rejected? && !outcome.error.ExecutionCancelled? {
        rethrown := Some(outcome.error);
      }
    }

    method ReleaseAndResume(mode: Mode)
      requires Valid()
      modifies this`adds, concurrencyControl.queues.Values
      ensures Valid()
      ensures Slots(concurrencyControl.View(), adds) == ReleaseSlot(old(Slots(concurrencyControl.View(), adds)), mode)
    {
      var woken := concurrencyControl.ReleaseCall(mode);
      adds := Admit(adds, woken);
    }

    method FinishExecution(execution: ExecutingWorkflowData)
      requires Valid() && execution in created
      modifies this`activeExecutions, this`registry, execution
      ensures Valid() && registry == Finish(old(registry), execution.ref)
      ensures old(execution.status) == Waiting ==>
                execution.workflowExecution == null && activeExecutions == old(activeExecutions)
      ensures old(execution.status) != Waiting ==>
                activeExecutions == old(activeExecutions) - {execution.executionId}
                && execution.workflowExecution == old(execution.workflowExecution)
    {
      registry := Finish(registry, execution.ref);
      if execution.status == Waiting {
        execution.workflowExecution := null;
      } else {
        activeExecutions := activeExecutions - {execution.executionId};
      }
    }

    /** A queued execution is stopped through the concurrency service. */
    method CancelQueuedExecution(mode: Mode, executionId: string)
      requires Valid()
      modifies this`adds, concurrencyControl.queues.Values
      ensures Valid() && View() == Apply(old(View()), CancelQueued(mode, executionId))
    {
      RemoveAndResume(mode, executionId);
    }

    method RemoveAndResume(mode: Mode, executionId: string)
      requires Valid()
      modifies this`adds, concurrencyControl.queues.Values
      ensures Valid()
      ensures Slots(concurrencyControl.View(), adds)
              == CancelWaiter(old(Slots(concurrencyControl.View(), adds)), mode, executionId)
    {
      var woken := concurrencyControl.RemoveCall(mode, executionId);
      adds := Admit(adds, woken);
    }

    // ----- Operations on one id -----

    predicate Has(executionId: string)
      reads this
    {
      executionId in activeExecutions
    }

    /** The very object that the registry has as the entry of the id, in the state it has it. */
    method GetExecutionOrFail(executionId: string) returns (r: Result<ExecutingWorkflowData, NotFound>)
      requires Valid()
      ensures r.Failure? <==> Entry(registry, executionId).None?
      ensures r.Failure? ==> r.error == ExecutionNotFound(executionId)
      ensures r.Success? ==> r.value == created[registry.active[executionId]]
                             && Represents(r.value, Entry(registry, executionId).value, registry.active[executionId])
    {
      r := if executionId in activeExecutions then Success(activeExecutions[executionId])
                                              else Failure(ExecutionNotFound(executionId));
    }

    method GetStatus(executionId: string) returns (r: Result<Status, NotFound>)
      requires Valid()
      ensures r == match Entry(registry, executionId)
                   case None => Failure(ExecutionNotFound(executionId))
                   case Some(e) => Success(e.status)
    {
      var execution := GetExecutionOrFail(executionId);
      match execution
      case Failure(e) => r := Failure(e);
      case Success(e) =>
        r := Success(e.status);
    }

    /** The promise that a waiter on this id is given: that of the object which is the entry now. */
    method GetPostExecutePromise(executionId: string) returns (r: Result<PostExecutePromise, NotFound>)
      requires Valid()
      ensures r.Success? <==> Has(executionId)
      ensures r.Success? ==> r.value.owner == registry.active[executionId]
                             && r.value.outcome == Entry(registry, executionId).value.outcome
    {
      var execution := GetExecutionOrFail(executionId);
      match execution
      case Failure(e) => r := Failure(e);
      case Success(e) =>
        r := Success(e.postExecutePromise);
    }

    method SetExecutionStatus(executionId: string, status: Status) returns (r: Result<(), NotFound>)
      requires Valid()
      modifies this`registry, if Has(executionId) then {activeExecutions[executionId]} else {}
      ensures Valid() && registry == Perform(old(registry), SetStatus(executionId, status))
      ensures r == if Has(executionId) then Success(()) else Failure(ExecutionNotFound(executionId))
    {
      if executionId !in activeExecutions {
        return Failure(ExecutionNotFound(executionId));
      }
      activeExecutions[executionId].status := status;
      Record(SetStatus(executionId, status));
      r := Success(());
    }

    method AttachWorkflowExecution(executionId: string, w: WorkflowExecution) returns (r: Result<(), NotFound>)
      requires Valid()
      modifies this`registry, this`attached, if Has(executionId) then {activeExecutions[executionId]} else {}
      ensures Valid() && registry == Perform(old(registry), AttachWorkflow(executionId, w.workflowId))
      ensures r == if Has(executionId) then Success(()) else Failure(ExecutionNotFound(executionId))
      ensures Has(executionId) ==> activeExecutions[executionId].workflowExecution == w
    {
      if executionId !in activeExecutions {
        return Failure(ExecutionNotFound(executionId));
      }
      activeExecutions[executionId].workflowExecution := w;
      attached := attached.(workflows := attached.workflows + {w});
      Record(AttachWorkflow(executionId, w.workflowId));
      r := Success(());
    }

    method AttachResponsePromise(executionId: string, p: ResponsePromise) returns (r: Result<(), NotFound>)
      requires Valid()
      modifies this`registry, this`attached, if Has(executionId) then {activeExecutions[executionId]} else {}
      ensures Valid() && registry == Perform(old(registry), AttachResponse(executionId, p.promiseId))
      ensures r == if Has(executionId) then Success(()) else Failure(ExecutionNotFound(executionId))
      ensures Has(executionId) ==> activeExecutions[executionId].responsePromise == p
    {
      if executionId !in activeExecutions {
        return Failure(ExecutionNotFound(executionId));
      }
      activeExecutions[executionId].responsePromise := p;
      attached := attached.(responses := attached.responses + {p});
      Record(AttachResponse(executionId, p.promiseId));
      r := Success(());
    }

    method FinalizeExecution(executionId: string, run: Option<RunData>)
      requires Valid()
      modifies this`registry, PromiseOf(executionId)
      ensures Valid() && registry == Perform(old(registry), Finalize(executionId, run))
    {
      if executionId in activeExecutions {
        activeExecutions[executionId].postExecutePromise.Resolve(run);
        Record(Finalize(executionId, run));
      }
    }

    ghost function ResponseOf(executionId: string): set<ResponsePromise>
      reads this, activeExecutions.Values
    {
      if Has(executionId) && activeExecutions[executionId].responsePromise != null
      then {activeExecutions[executionId].responsePromise} else {}
    }

    /** Sends a response; unknown ids and executions without a response promise are ignored. */
    method ResolveResponsePromise(executionId: string, response: ResponseData)
      requires Valid()
      modifies ResponseOf(executionId)
      ensures Valid()
      ensures forall p <- ResponseOf(executionId) :: p.outcome == old(p.outcome).Settle(Resolved(response))
    {
      if executionId in activeExecutions && activeExecutions[executionId].responsePromise != null {
        activeExecutions[executionId].responsePromise.Resolve(response);
      }
    }

    /** Resolves the response promise of an execution that is not waiting, with an empty response. */
    method ResolveExecutionResponsePromise(executionId: string, empty: ResponseData)
      requires Valid()
      modifies ResponseOf(executionId)
      ensures Valid()
      ensures forall p <- ResponseOf(executionId) ::
                p.outcome == if activeExecutions[executionId].status == Waiting then old(p.outcome)
                             else old(p.outcome).Settle(Resolved(empty))
    {
      if executionId !in activeExecutions {
        return;
      }
      var execution := activeExecutions[executionId];
      if execution.status != Waiting && execution.responsePromise != null {
        execution.responsePromise.Resolve(empty);
      }
    }

    ghost function PromiseOf(executionId: string): set<PostExecutePromise>
      reads this
    {
      if Has(executionId) then {activeExecutions[executionId].postExecutePromise} else {}
    }

    /** What stopping may cancel: the workflow of a waiting execution is left alone. */
    ghost function WorkflowOf(executionId: string): set<WorkflowExecution>
      reads this, activeExecutions.Values
    {
      if Has(executionId) && activeExecutions[executionId].status != Waiting
         && activeExecutions[executionId].workflowExecution != null
      then {activeExecutions[executionId].workflowExecution} else {}
    }

    /** Of these promises some pending ones are rejected as cancelled, and nothing else happens to them. */
    twostate predicate OnlyRejects(promises: set<ResponsePromise>)
      reads promises
    {
      forall p <- promises ::
        p.outcome == old(p.outcome)
        || (old(p.outcome).Pending? && p.outcome.Rejected? && p.outcome.error.ExecutionCancelled?)
    }

    /** Nobody waits for the response of the execution. */
    ghost predicate IsAnswered(e: ExecutingWorkflowData)
      reads e, e.responsePromise
    {
      e.responsePromise != null ==> !e.responsePromise.outcome.Pending?
    }

    twostate predicate StayAnswered(executions: seq<ExecutingWorkflowData>)
      reads executions, set e | e in executions :: e.responsePromise
    {
      forall e <- executions :: old(IsAnswered(e)) ==> IsAnswered(e)
    }

    /**
     Also rejects the response promise, and cancels the workflow of an execution that is not waiting. What it may
     touch says the rest: no other promise, and no workflow of a waiting execution.
     */
    method StopExecution(executionId: string)
      requires Valid()
      modifies this`activeExecutions, this`registry
      modifies PromiseOf(executionId), ResponseOf(executionId), WorkflowOf(executionId)
      ensures Valid() && registry == Perform(old(registry), Stop(executionId))
      ensures old(Has(executionId)) ==>
                var e := old(activeExecutions[executionId]);
                && e.IsStopped()
                && (e.responsePromise != null ==>
                      var before := old(activeExecutions[executionId].responsePromise.outcome);
                      e.responsePromise.outcome == before.Settle(Rejected(ExecutionCancelled(executionId))))
    {
      if executionId in activeExecutions {
        var error := ExecutionCancelled(executionId);
        RejectWaitingCaller(executionId, error);
        LetGoOrCancel(executionId, error);
      }
    }

    method RejectWaitingCaller(executionId: string, error: Rejection)
      requires Valid() && Has(executionId)
      modifies ResponseOf(executionId)
      ensures Valid()
      ensures var e := activeExecutions[executionId];
              e.responsePromise != null ==>
                e.responsePromise.outcome == old(e.responsePromise.outcome).Settle(Rejected(error))
    {
      activeExecutions[executionId].RejectResponse(error);
    }

    method LetGoOrCancel(executionId: string, error: Rejection)
      requires Valid() && Has(executionId) && error == ExecutionCancelled(executionId)
      modifies this`activeExecutions, this`registry, PromiseOf(executionId), WorkflowOf(executionId)
      ensures Valid() && registry == Perform(old(registry), Stop(executionId))
      ensures old(activeExecutions[executionId]).IsStopped()
    {
      if activeExecutions[executionId].status == Waiting {
        LetGo(executionId);
      } else {
        CancelExecution(executionId, error);
      }
    }

    method LetGo(executionId: string)
      requires Valid() && Has(executionId) && activeExecutions[executionId].status == Waiting
      modifies this`activeExecutions, this`registry
      ensures Valid() && registry == Perform(old(registry), Stop(executionId))
    {
      ghost var execution := activeExecutions[executionId];
      assert Represents(execution, Entry(registry, executionId).value, registry.active[executionId]);
      DropExecution(executionId);
    }

    method CancelExecution(executionId: string, error: Rejection)
      requires Valid() && Has(executionId) && error == ExecutionCancelled(executionId)
      requires activeExecutions[executionId].status != Waiting
      modifies this`registry, PromiseOf(executionId), WorkflowOf(executionId)
      ensures Valid() && registry == Perform(old(registry), Stop(executionId))
      ensures activeExecutions[executionId].IsStopped()
    {
      var execution := activeExecutions[executionId];
      if execution.workflowExecution != null {
        execution.workflowExecution.Cancel();
      }
      execution.postExecutePromise.Reject(error);
      Record(Stop(executionId));
    }

    method DropExecution(executionId: string)
      requires Valid() && Has(executionId)
      modifies this`activeExecutions, this`registry
      ensures Valid() && registry == Put(old(registry), executionId, None)
      ensures activeExecutions == old(activeExecutions) - {executionId}
    {
      activeExecutions := activeExecutions - {executionId};
      registry := Put(registry, executionId, None);
    }

    /** Notes an operation that has just been carried out on the object of its id. */
    ghost method Record(op: Operation)
      requires concurrencyControl.Valid() && WellFormed(registry) && |registry.objs| == |created|
      requires registry.active.Keys == activeExecutions.Keys && Has(op.id)
      requires forall id <- activeExecutions :: activeExecutions[id] == created[registry.active[id]]
      requires forall i :: 0 <= i < |created| && i != registry.active[op.id] ==>
                 created[i] in created && Represents(created[i], registry.objs[i], i) && IsCovered(created[i], attached)
      requires var i := registry.active[op.id];
               && created[i] in created && IsCovered(created[i], attached)
               && Operate(op, registry.objs[i]).Some?
               && Represents(created[i], Operate(op, registry.objs[i]).value, i)
      modifies this`registry
      ensures Valid() && registry == Perform(old(registry), op)
    {
      registry := Perform(registry, op);
    }

    // ----- All executions at once -----

    /** One summary per execution, each as the registry has it. */
    method GetActiveExecutions() returns (summaries: seq<Summary>)
      requires Valid()
      ensures |summaries| == |activeExecutions|
      ensures forall i :: 0 <= i < |summaries| ==> IsSummary(summaries[i])
      ensures forall i, j :: 0 <= i < j < |summaries| ==> summaries[i].id != summaries[j].id
    {
      var keys := ObjectKeys(activeExecutions);
      DistinctCount(keys, activeExecutions.Keys);
      summaries := [];
      for i := 0 to |keys|
        invariant |summaries| == i
        invariant forall j :: 0 <= j < i ==> summaries[j].id == keys[j] && IsSummary(summaries[j])
      {
        assert keys[i] in keys;
        var summary := Summarize(keys[i]);
        summaries := summaries + [summary];
      }
    }

    /** Everything in a summary is as the registry, or the call that stored the execution, has it. */
    ghost predicate IsSummary(s: Summary)
      requires WellFormed(registry)
      reads this
    {
      && Has(s.id) && Entry(registry, s.id).Some?
      && var e, data := Entry(registry, s.id).value, activeExecutions[s.id].executionData;
         && s.startedAt == e.startedAt && s.mode == e.mode && s.status == e.status
         && s.retryOf == data.retryOf && s.workflowId == data.workflowId
    }

    method Summarize(executionId: string) returns (s: Summary)
      requires Valid() && Has(executionId)
      ensures s.id == executionId && IsSummary(s)
    {
      var data := activeExecutions[executionId];
      s := Summary(executionId, data.executionData.retryOf, data.startedAt, data.mode, data.executionData.workflowId,
                   data.status);
    }

    /** The sweep's treatment of one execution. */
    method SweepExecution(executionId: string, all: bool) returns (cancelled: bool)
      requires Valid() && Has(executionId)
      modifies this`activeExecutions, this`registry, attached.promises, attached.responses, attached.workflows
      ensures Valid() && registry == SweptOne(old(registry), all, executionId)
      ensures cancelled == IsCancelled(all, Entry(old(registry), executionId).value)
      ensures OnlyRejects(attached.responses)
      ensures IsAnswered(old(activeExecutions[executionId]))
    {
      var execution := activeExecutions[executionId];
      assert Represents(execution, Entry(registry, executionId).value, registry.active[executionId]);
      cancelled := execution.responsePromise != null || all;
      if cancelled {
        StopInSweep(executionId);
      } else {
        KeepOrDrop(executionId, all);
      }
    }

    method StopInSweep(executionId: string)
      requires Valid() && Has(executionId)
      modifies this`activeExecutions, this`registry, attached.promises, attached.responses, attached.workflows
      ensures Valid() && registry == Perform(old(registry), Stop(executionId))
      ensures OnlyRejects(attached.responses)
      ensures IsAnswered(old(activeExecutions[executionId]))
    {
      ghost var p := activeExecutions[executionId].responsePromise;
      assert IsCovered(activeExecutions[executionId], attached);
      StopCovered(executionId, p);
    }

    /** Stopping touches one response promise. */
    method StopCovered(executionId: string, ghost p: ResponsePromise?)
      requires Valid() && Has(executionId)
      requires IsCovered(activeExecutions[executionId], attached) && p == activeExecutions[executionId].responsePromise
      modifies this`activeExecutions, this`registry, attached.promises, p, attached.workflows
      ensures Valid() && registry == Perform(old(registry), Stop(executionId))
      ensures p != null ==> p.outcome == old(p.outcome).Settle(Rejected(ExecutionCancelled(executionId)))
      ensures old(activeExecutions[executionId]).responsePromise == p
    {
      assert IsCovered(activeExecutions[executionId], attached);
      StopExecution(executionId);
    }

    method KeepOrDrop(executionId: string, all: bool)
      requires Valid() && Has(executionId) && !IsCancelled(all, Entry(registry, executionId).value)
      modifies this`activeExecutions, this`registry
      ensures Valid() && registry == SweptOne(old(registry), all, executionId)
    {
      var execution := activeExecutions[executionId];
      assert Represents(execution, Entry(registry, executionId).value, registry.active[executionId]);
      if execution.status == Waiting || execution.status == New {
        DropExecution(executionId);
      }
    }

    /**
     The part of `shutdown` before it waits. The ids are listed once, before the loop changes the registry. Afterwards
     no response promise of any execution is pending: those that were have been rejected as cancelled.
     */
    method SweepForShutdown(cancelAll: bool) returns (executionIds: seq<string>, toCancel: seq<string>)
      requires Valid()
      modifies this`activeExecutions, this`registry, this`adds, concurrencyControl, concurrencyControl.queues.Values
      modifies attached.promises, attached.responses, attached.workflows
      ensures Valid() && IsKeyOrder(old(registry), executionIds)
      ensures View() == Apply(old(View()), Sweep(cancelAll, executionIds))
      ensures registry == SweepEach(old(registry), regular && cancelAll, executionIds)
      ensures Slots(concurrencyControl.View(), adds)
              == CloseQueues(old(Slots(concurrencyControl.View(), adds)), regular)
      ensures toCancel == ToCancel(old(registry), regular && cancelAll, executionIds)
      ensures OnlyRejects(attached.responses)
      ensures forall id <- old(activeExecutions) :: IsAnswered(old(activeExecutions)[id])
    {
      if regular {
        concurrencyControl.DisableCall();
      }
      executionIds, toCancel := SweepAndEmpty(regular && cancelAll);
    }

    method SweepAndEmpty(all: bool) returns (executionIds: seq<string>, toCancel: seq<string>)
      requires Valid()
      modifies this`activeExecutions, this`registry, this`adds, concurrencyControl.queues.Values
      modifies attached.promises, attached.responses, attached.workflows
      ensures Valid() && IsKeyOrder(old(registry), executionIds)
      ensures registry == SweepEach(old(registry), all, executionIds)
      ensures toCancel == ToCancel(old(registry), all, executionIds)
      ensures var (control, woken) := RemoveAllQueued(old(concurrencyControl.View()));
              concurrencyControl.View() == control && adds == AdmitAll(old(adds), woken)
      ensures OnlyRejects(attached.responses)
      ensures forall id <- old(activeExecutions) :: IsAnswered(old(activeExecutions)[id])
    {
      executionIds, toCancel := SweepAll(all);
      EmptyQueuesAfter(old(activeExecutions));
    }

    method EmptyQueues()
      requires Valid()
      modifies this`adds, concurrencyControl.queues.Values
      ensures Valid()
      ensures var (control, woken) := RemoveAllQueued(old(concurrencyControl.View()));
              concurrencyControl.View() == control && adds == AdmitAll(old(adds), woken)
    {
      var woken := concurrencyControl.RemoveAllCall();
      adds := AdmitAll(adds, woken);
    }

    /** Emptying the queues touches no execution. */
    method EmptyQueuesAfter(ghost swept: map<string, ExecutingWorkflowData>)
      requires Valid() && forall id <- swept :: IsAnswered(swept[id])
      modifies this`adds, concurrencyControl.queues.Values
      ensures Valid() && forall id <- swept :: IsAnswered(swept[id])
      ensures var (control, woken) := RemoveAllQueued(old(concurrencyControl.View()));
              concurrencyControl.View() == control && adds == AdmitAll(old(adds), woken)
    {
      EmptyQueues();
    }

    method SweepAll(all: bool) returns (executionIds: seq<string>, toCancel: seq<string>)
      requires Valid()
      modifies this`activeExecutions, this`registry, attached.promises, attached.responses, attached.workflows
      ensures Valid() && IsKeyOrder(old(registry), executionIds)
      ensures concurrencyControl.View() == old(concurrencyControl.View())
      ensures registry == SweepEach(old(registry), all, executionIds)
      ensures toCancel == ToCancel(old(registry), all, executionIds)
      ensures OnlyRejects(attached.responses)
      ensures forall id <- executionIds :: IsAnswered(old(activeExecutions)[id])
    {
      executionIds := ObjectKeys(activeExecutions);
      toCancel := SweepEntries(executionIds, all);
    }

    method SweepEntries(executionIds: seq<string>, all: bool) returns (toCancel: seq<string>)
      requires Valid() && IsSnapshot(registry, executionIds)
      modifies this`activeExecutions, this`registry, attached.promises, attached.responses, attached.workflows
      ensures Valid() && registry == SweepEach(old(registry), all, executionIds)
      ensures toCancel == ToCancel(old(registry), all, executionIds)
      ensures OnlyRejects(attached.responses)
      ensures forall id <- executionIds :: IsAnswered(old(activeExecutions)[id])
    {
      ghost var entries := Lookups(activeExecutions, executionIds);
      NothingSwept(executionIds);
      SweepStarts(registry, all, executionIds);
      toCancel := SweepLoop(executionIds, all, entries);
      SweepEnds(registry, old(registry), all, executionIds, toCancel);
      forall id <- executionIds ensures IsAnswered(old(activeExecutions)[id]) {
        var j :| 0 <= j < |executionIds| && executionIds[j] == id;
        assert entries[j] == old(activeExecutions)[id];
      }
    }

    lemma NothingSwept(executionIds: seq<string>)
      requires Valid() && forall id <- executionIds :: id in activeExecutions
      ensures IsHalfway(executionIds, Lookups(activeExecutions, executionIds), 0)
    {
    }

    /** Sweeping one execution undoes nothing that has been done to the others, */
    method SweepUndoingNothing(executionId: string, all: bool) returns (cancelled: bool)
      requires Valid() && Has(executionId)
      modifies this`activeExecutions, this`registry, attached.promises, attached.responses, attached.workflows
      ensures Valid() && registry == SweptOne(old(registry), all, executionId)
      ensures cancelled == IsCancelled(all, Entry(old(registry), executionId).value)
      ensures OnlyRejects(attached.responses)
      ensures IsAnswered(old(activeExecutions[executionId]))
      ensures StayAnswered(created)
    {
      cancelled := SweepExecution(executionId, all);
      forall e <- created | old(IsAnswered(e)) ensures IsAnswered(e) {
        assert IsCovered(e, attached);
      }
    }

    /** and leaves the others in their places. */
    method SweepOne(executionId: string, all: bool) returns (cancelled: bool)
      requires Valid() && Has(executionId)
      modifies this`activeExecutions, this`registry, attached.promises, attached.responses, attached.workflows
      ensures Valid() && registry == SweptOne(old(registry), all, executionId)
      ensures cancelled == IsCancelled(all, Entry(old(registry), executionId).value)
      ensures OnlyRejects(attached.responses)
      ensures IsAnswered(old(activeExecutions[executionId]))
      ensures StayAnswered(created)
      ensures forall id <- old(activeExecutions) | id != executionId ::
                Has(id) && activeExecutions[id] == old(activeExecutions)[id]
    {
      cancelled := SweepUndoingNothing(executionId, all);
      SweptOneKeepsOthers(old(registry), all, executionId);
    }

    /** Nobody waits for the swept objects, and those still to be swept are the entries of their ids. */
    ghost predicate IsHalfway(executionIds: seq<string>, entries: seq<ExecutingWorkflowData>, i: nat)
      reads this, entries, set e | e in entries :: e.responsePromise
    {
      && |entries| == |executionIds|
      && (forall j :: 0 <= j < |entries| ==> entries[j] in created)
      && (forall j :: 0 <= j < i && j < |entries| ==> entries[j] in entries && IsAnswered(entries[j]))
      && (forall j :: i <= j < |entries| ==> Has(executionIds[j]) && activeExecutions[executionIds[j]] == entries[j])
    }

    /** One turn of the loop of the sweep of `g0`. */
    method SweepNext(executionIds: seq<string>, i: nat, all: bool, toCancel: seq<string>,
                     ghost g0: Registry, ghost entries: seq<ExecutingWorkflowData>)
      returns (more: seq<string>)
      requires Valid() && WellFormed(g0) && IsSnapshot(g0, executionIds) && i < |executionIds|
      requires IsSweeping(registry, g0, all, executionIds, i, toCancel)
      requires IsHalfway(executionIds, entries, i)
      modifies this`activeExecutions, this`registry, attached.promises, attached.responses, attached.workflows
      ensures Valid() && IsSweeping(registry, g0, all, executionIds, i + 1, more)
      ensures OnlyRejects(attached.responses)
      ensures IsHalfway(executionIds, entries, i + 1)
    {
      SweepTurn(registry, g0, all, executionIds, i, toCancel);
      var cancelled := SweepOne(executionIds[i], all);
      more := if cancelled then toCancel + [executionIds[i]] else toCancel;
    }

    method SweepLoop(executionIds: seq<string>, all: bool, ghost entries: seq<ExecutingWorkflowData>)
      returns (toCancel: seq<string>)
      requires Valid() && IsSnapshot(registry, executionIds) && IsSweeping(registry, registry, all, executionIds, 0, [])
      requires IsHalfway(executionIds, entries, 0)
      modifies this`activeExecutions, this`registry, attached.promises, attached.responses, attached.workflows
      ensures Valid() && IsSweeping(registry, old(registry), all, executionIds, |executionIds|, toCancel)
      ensures OnlyRejects(attached.responses)
      ensures IsHalfway(executionIds, entries, |executionIds|)
    {
      toCancel := [];
      ghost var g0 := registry;
      for i := 0 to |executionIds|
        invariant Valid() && IsSweeping(registry, g0, all, executionIds, i, toCancel)
        invariant IsHalfway(executionIds, entries, i)
        invariant OnlyRejects(attached.responses)
      {
        toCancel := SweepNext(executionIds, i, all, toCancel, g0, entries);
      }
    }
  }

  lemma {:induction false} DistinctCount(ks: seq<string>, keys: set<string>)
    requires Distinct(ks) && forall k :: k in ks <==> k in keys
    ensures |ks| == |keys|
  {
    if ks == [] {
      assert keys == {};
    } else {
      assert ks == [ks[0]] + ks[1..];
      assert ks[0] !in ks[1..];
      DistinctCount(ks[1..], keys - {ks[0]});
    }
  }
}
