/**
 The registry of executions, its suspended `add` calls and the concurrency limits as one transition system
 (packages/cli/src/active-executions.ts).

 One event is one stretch of JavaScript between two suspension points, so a run, a sequence of events, is an
 arbitrary interleaving of everything the registry's callers and its suspended calls may do.
 */
module ExecutionModel {
  import opened Wrappers
  import opened ConcurrencyQueues
  import opened ConcurrencyControl
  import opened ExecutionRegistry

  /** A call of `add` that is suspended at an await, or that failed at the last one. */
  datatype AddCall =
    | Creating(mode: Mode)              // creating the database row of a new execution
    | Throttled(id: string, mode: Mode) // waiting for a slot
    | Admitted(id: string, mode: Mode)  // past the throttle, writing to the database
    | Abandoned(mode: Mode)             // the write after the throttle failed

  datatype State = State(
    regular: bool, // executions.mode is "regular"
    control: Control,
    registry: Registry,
    adds: map<Ticket, AddCall>)

  datatype Event =
    | BeginNew(t: Ticket, mode: Mode)
    | Created(t: Ticket, id: string, now: nat)
    | CreateFailed(t: Ticket)
    | BeginResume(t: Ticket, id: string, mode: Mode)
    | Written(t: Ticket, now: nat)
    | WriteFailed(t: Ticket)
    | Callback(r: Ref)
    | Call(op: Operation)
    | Sweep(cancelAll: bool, order: seq<string>)
    | CancelQueued(mode: Mode, id: string)

  predicate Enabled(s: State, e: Event) {
    match e
    case BeginNew(t, _) => t !in s.adds
    case BeginResume(t, _, _) => t !in s.adds
    case Created(t, _, _) => t in s.adds && s.adds[t].Creating?
    case CreateFailed(t) => t in s.adds && s.adds[t].Creating?
    case Written(t, _) => t in s.adds && s.adds[t].Admitted?
    case WriteFailed(t) => t in s.adds && s.adds[t].Admitted?
    case Callback(r) => r in s.registry.owed && r < |s.registry.objs| && !s.registry.objs[r].outcome.Pending?
    case Call(_) => true
    case Sweep(_, order) => IsKeyOrder(s.registry, order)
    case CancelQueued(_, _) => true
  }

  // ----- The registry's side of an event -----

  datatype Change =
    | Unchanged
    | Inserted(id: string, mode: Mode, now: nat)
    | Finished(r: Ref)
    | Performed(op: Operation)
    | Cleared(all: bool, order: seq<string>)

  function ChangeOf(s: State, e: Event): Change
    requires Enabled(s, e)
  {
    match e
    case Created(t, id, now) =>
      // In queue mode a new execution is not throttled. An empty id fails the assertion after its creation.
      if id != "" && !s.regular then Inserted(id, s.adds[t].mode, now) else Unchanged
    case Written(t, now) => Inserted(s.adds[t].id, s.adds[t].mode, now)
    case Callback(r) => Finished(r)
    case Call(op) => Performed(op)
    case Sweep(cancelAll, order) => Cleared(s.regular && cancelAll, order)
    case _ => Unchanged
  }

  predicate Applies(g: Registry, c: Change) {
    match c
    case Finished(r) => r in g.owed && r < |g.objs| && !g.objs[r].outcome.Pending?
    case Cleared(_, order) => IsKeyOrder(g, order)
    case _ => true
  }

  function Alter(g: Registry, c: Change): (g': Registry)
    requires WellFormed(g) && Applies(g, c)
    ensures WellFormed(g')
  {
    match c
    case Unchanged => g
    case Inserted(id, mode, now) => Insert(g, id, mode, now)
    case Finished(r) => Finish(g, r)
    case Performed(op) => Perform(g, op)
    case Cleared(all, order) => SweepEach(g, all, order)
  }

  // ----- The concurrency side of an event -----

  datatype Slots = Slots(control: Control, adds: map<Ticket, AddCall>)

  function BeginThrottle(x: Slots, t: Ticket, id: string, mode: Mode): Slots {
    var (control, proceeds) := Throttle(x.control, mode, Waiter(id, t));
    Slots(control, x.adds[t := if proceeds then Admitted(id, mode) else Throttled(id, mode)])
  }

  /** The call whose throttle the queue resolves goes on. */
  function Admit(adds: map<Ticket, AddCall>, woken: Option<Waiter>): map<Ticket, AddCall> {
    if woken.Some? && woken.value.ticket in adds && adds[woken.value.ticket].Throttled?
    then adds[woken.value.ticket := Admitted(adds[woken.value.ticket].id, adds[woken.value.ticket].mode)]
    else adds
  }

  function ReleaseSlot(x: Slots, mode: Mode): Slots {
    var (control, woken) := Release(x.control, mode);
    Slots(control, Admit(x.adds, woken))
  }

  function CancelWaiter(x: Slots, mode: Mode, id: string): Slots {
    var (control, woken) := RemoveQueued(x.control, mode, id);
    Slots(control, Admit(x.adds, woken))
  }

  function AdmitAll(adds: map<Ticket, AddCall>, woken: seq<Waiter>): map<Ticket, AddCall>
    decreases |woken|
  {
    if woken == [] then adds else AdmitAll(Admit(adds, Some(woken[0])), woken[1..])
  }

  /** Shutdown first disables the limits, in regular mode, and empties the queues after the sweep. */
  function CloseQueues(x: Slots, regular: bool): Slots {
    var (control, woken) := RemoveAllQueued(if regular then Disable(x.control) else x.control);
    Slots(control, AdmitAll(x.adds, woken))
  }

  function SlotsAfter(s: State, e: Event): Slots
    requires WellFormed(s.registry) && Enabled(s, e)
  {
    var x := Slots(s.control, s.adds);
    match e
    case BeginNew(t, mode) => x.(adds := s.adds[t := Creating(mode)])
    case BeginResume(t, id, mode) => BeginThrottle(x, t, id, mode)
    case Created(t, id, _) =>
      if id != "" && s.regular then BeginThrottle(x, t, id, s.adds[t].mode) else x.(adds := s.adds - {t})
    case CreateFailed(t) => x.(adds := s.adds - {t})
    case Written(t, _) => x.(adds := s.adds - {t})
    case WriteFailed(t) => x.(adds := s.adds[t := Abandoned(s.adds[t].mode)])
    case Callback(r) => ReleaseSlot(x, s.registry.objs[r].mode)
    case Call(_) => x
    case Sweep(_, _) => CloseQueues(x, s.regular)
    case CancelQueued(mode, id) => CancelWaiter(x, mode, id)
  }

  // ----- Runs -----

  function Apply(s: State, e: Event): (s': State)
    requires WellFormed(s.registry) && Enabled(s, e)
    ensures WellFormed(s'.registry)
  {
    var slots := SlotsAfter(s, e);
    State(s.regular, slots.control, Alter(s.registry, ChangeOf(s, e)), slots.adds)
  }

  ghost predicate IsRun(s: State, es: seq<Event>)
    requires WellFormed(s.registry)
    decreases |es|
  {
    es == [] || (Enabled(s, es[0]) && IsRun(Apply(s, es[0]), es[1..]))
  }

  ghost function After(s: State, es: seq<Event>): (s': State)
    requires WellFormed(s.registry) && IsRun(s, es)
    ensures WellFormed(s'.registry)
    decreases |es|
  {
    if es == [] then s else After(Apply(s, es[0]), es[1..])
  }

  /** A process that has just started: nothing is running and no call is suspended. */
  ghost predicate IsInitial(s: State) {
    && s.registry == Registry(map[], [], {})
    && s.adds == map[]
    && exists production: int, evaluation: int :: IsConfigured(s, production, evaluation)
  }

  predicate IsConfigured(s: State, production: int, evaluation: int) {
    Setup(production, evaluation, !s.regular) == Success(s.control)
  }
}
