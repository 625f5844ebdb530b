/** The executions a process holds, and the synchronous operations on them (packages/cli/src/active-executions.ts). */
module ExecutionRegistry {
  import opened Wrappers
  import opened ConcurrencyControl

  datatype Status = Canceled | Crashed | Errored | New | Running | Succeeded | Unknown | Waiting

  type Ref = nat        // an execution object, by order of creation
  type PromiseId = nat  // a response promise
  type WorkflowId = nat // a running workflow instance
  type RunData = nat    // the data of a finished run

  datatype Rejection = ExecutionCancelled(executionId: string) | OtherError

  /** A deferred promise settles at most once (section 27.2.1.3 of ECMA-262). */
  datatype Outcome<+T> = Pending | Resolved(value: T) | Rejected(error: Rejection) {
    function Settle(o: Outcome<T>): Outcome<T> {
      if Pending? then o else this
    }
  }

  /** An execution object. `id` is the key that the settle callback of the object closes over. */
  datatype Execution = Execution(
    id: string,
    mode: Mode,
    startedAt: nat,
    status: Status,
    response: Option<PromiseId>,
    workflow: Option<WorkflowId>,
    outcome: Outcome<Option<RunData>>)

  datatype Registry = Registry(
    active: map<string, Ref>,
    objs: seq<Execution>, // every object ever created; `active` says which ones are still held
    owed: set<Ref>)       // the objects whose settle callback has not run

  predicate WellFormed(g: Registry) {
    && (forall id <- g.active :: g.active[id] < |g.objs| && g.objs[g.active[id]].id == id)
    && (forall r <- g.owed :: r < |g.objs|)
  }

  /** Whether this object is the one held under its id. */
  predicate IsEntry(g: Registry, r: Ref) {
    r < |g.objs| && g.objs[r].id in g.active && g.active[g.objs[r].id] == r
  }

  function Entry(g: Registry, id: string): Option<Execution>
    requires WellFormed(g)
  {
    if id in g.active then Some(g.objs[g.active[id]]) else None
  }

  /** Replaces the object held under an id, or lets go of it. */
  function Put(g: Registry, id: string, e: Option<Execution>): (g': Registry)
    requires WellFormed(g) && id in g.active && (e.Some? ==> e.value.id == id)
    ensures WellFormed(g')
  {
    if e.Some? then g.(objs := g.objs[g.active[id] := e.value]) else g.(active := g.active - {id})
  }

  // ----- `add` -----

  /** The empty id is falsy, so a resume under it keeps the initial status. */
  function StatusOnInsert(id: string): Status {
    if id == "" then New else Running
  }

  /** From the lookup of a resumed execution to the end of `add`. */
  function Insert(g: Registry, id: string, mode: Mode, now: nat): (g': Registry)
    requires WellFormed(g)
    ensures WellFormed(g')
  {
    var resumed := Entry(g, id);
    var startedAt := if resumed.Some? then resumed.value.startedAt else now;
    var response := if resumed.Some? then resumed.value.response else None;
    var e := Execution(id, mode, startedAt, StatusOnInsert(id), response, None, Pending);
    Registry(g.active[id := |g.objs|], g.objs + [e], g.owed + {|g.objs|})
  }

  /** The settle callback of an object. It closes over the object, but deletes by id. */
  function Finish(g: Registry, r: Ref): (g': Registry)
    requires WellFormed(g) && r < |g.objs|
    ensures WellFormed(g')
  {
    var e := g.objs[r];
    if e.status.Waiting?
    then Registry(g.active, g.objs[r := e.(workflow := None)], g.owed - {r})
    else Registry(g.active - {e.id}, g.objs, g.owed - {r})
  }

  // ----- Operations on one id -----

  datatype Operation =
    | AttachWorkflow(id: string, workflow: WorkflowId)
    | AttachResponse(id: string, response: PromiseId)
    | Stop(id: string)
    | Finalize(id: string, run: Option<RunData>)
    | SetStatus(id: string, status: Status)

  /** An object keeps its identity, and its outcome once it is settled; what rejects it is its own cancellation. */
  predicate Evolves(e: Execution, e': Execution) {
    && e'.id == e.id && e'.mode == e.mode && e'.startedAt == e.startedAt
    && (!e.outcome.Pending? ==> e'.outcome == e.outcome)
    && (e.outcome.Pending? && e'.outcome.Rejected? ==> e'.outcome.error == ExecutionCancelled(e.id))
  }

  /** The object after the operation, or nothing if it is let go of. */
  function Operate(op: Operation, e: Execution): (e': Option<Execution>)
    ensures e'.Some? ==> Evolves(e, e'.value)
  {
    match op
    case AttachWorkflow(_, w) => Some(e.(workflow := Some(w)))
    case AttachResponse(_, p) => Some(e.(response := Some(p)))
    case Stop(_) =>
      if e.status.Waiting? then None
      else Some(e.(outcome := e.outcome.Settle(Rejected(ExecutionCancelled(e.id)))))
    case Finalize(_, run) => Some(e.(outcome := e.outcome.Settle(Resolved(run))))
    case SetStatus(_, status) => Some(e.(status := status))
  }

  /** On an unknown id, stopping and finalizing do nothing and the others throw: the registry does not change. */
  function Perform(g: Registry, op: Operation): (g': Registry)
    requires WellFormed(g)
    ensures WellFormed(g')
  {
    if op.id in g.active then Put(g, op.id, Operate(op, g.objs[g.active[op.id]])) else g
  }

  // ----- The sweep of `shutdown` -----

  /** Whether the sweep stops an execution. `all` is regular mode with `cancelAll`. */
  predicate IsCancelled(all: bool, e: Execution) {
    e.response.Some? || all
  }

  function SweepObject(all: bool, e: Execution): (e': Option<Execution>)
    ensures e'.Some? ==> Evolves(e, e'.value)
  {
    if IsCancelled(all, e) then Operate(Stop(e.id), e)
    else if e.status.Waiting? || e.status.New? then None
    else Some(e)
  }

  predicate Distinct(ids: seq<string>) {
    forall i, j :: 0 <= i < j < |ids| ==> ids[i] != ids[j]
  }

  /** Some ids of the registry, each once. */
  predicate IsSnapshot(g: Registry, order: seq<string>) {
    Distinct(order) && forall id <- order :: id in g.active
  }

  /** All of them, as `Object.keys` lists them, in whatever order. */
  predicate IsKeyOrder(g: Registry, order: seq<string>) {
    IsSnapshot(g, order) && forall id <- g.active :: id in order
  }

  function SweptOne(g: Registry, all: bool, id: string): (g': Registry)
    requires WellFormed(g) && id in g.active
    ensures WellFormed(g')
  {
    Put(g, id, SweepObject(all, g.objs[g.active[id]]))
  }

  /** One id after the other. No id is swept twice, so each is still there when its turn comes. */
  function SweepEach(g: Registry, all: bool, order: seq<string>): (g': Registry)
    requires WellFormed(g) && IsSnapshot(g, order)
    ensures WellFormed(g')
    decreases |order|
  {
    if order == [] then g else
      assert forall id <- order[1..] :: id != order[0];
      SweepEach(SweptOne(g, all, order[0]), all, order[1..])
  }

  /** The ids that the sweep reports as cancelled, read off the registry as it was before the sweep. */
  function ToCancel(g: Registry, all: bool, order: seq<string>): seq<string>
    requires WellFormed(g) && forall id <- order :: id in g.active
  {
    if order == [] then []
    else (if IsCancelled(all, g.objs[g.active[order[0]]]) then [order[0]] else []) + ToCancel(g, all, order[1..])
  }
}
