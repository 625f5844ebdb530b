/** What stays the same along a run, with no assumption on the callers (packages/cli/src/active-executions.ts). */
module ExecutionHistory {
  import opened Wrappers
  import opened ExecutionRegistry
  import opened ExecutionSweep
  import opened ExecutionModel
  import opened ExecutionLifecycle

  // ----- Continuity across resumes -----

  ghost predicate PresentThroughout(s: State, es: seq<Event>, id: string)
    requires WellFormed(s.registry) && IsRun(s, es)
    decreases |es|
  {
    id in s.registry.active && (es != [] ==> PresentThroughout(Apply(s, es[0]), es[1..], id))
  }

  function Attached(e: Event, id: string, before: Option<PromiseId>): Option<PromiseId> {
    if e.Call? && e.op.AttachResponse? && e.op.id == id then Some(e.op.response) else before
  }

  function LastAttached(es: seq<Event>, id: string, before: Option<PromiseId>): Option<PromiseId>
    decreases |es|
  {
    if es == [] then before else LastAttached(es[1..], id, Attached(es[0], id, before))
  }

  predicate Attaches(c: Change, id: string) {
    c.Performed? && c.op.AttachResponse? && c.op.id == id
  }

  /** The entry of an id before and after a change that keeps it. */
  predicate Continues(c: Change, id: string, e: Execution, e': Execution) {
    && e'.startedAt == e.startedAt
    && e'.response == if Attaches(c, id) then Some(c.op.response) else e.response
  }

  lemma ContinuityPerform(g: Registry, op: Operation, id: string)
    requires WellFormed(g) && id in g.active && id in Perform(g, op).active
    ensures Continues(Performed(op), id, Entry(g, id).value, Entry(Perform(g, op), id).value)
  {
    if op.id in g.active && op.id != id {
      assert g.active[op.id] != g.active[id];
    }
  }

  lemma ContinuityStep(g: Registry, c: Change, id: string)
    requires WellFormed(g) && Applies(g, c) && id in g.active && id in Alter(g, c).active
    ensures Continues(c, id, Entry(g, id).value, Entry(Alter(g, c), id).value)
  {
    match c
    case Unchanged =>
    case Inserted(_, _, _) =>
    case Finished(_) =>
    case Performed(op) => ContinuityPerform(g, op, id);
    case Cleared(all, order) => SweepPostcondition(g, all, order, id);
  }

  /**
   While an id stays present, through any number of resumes, its start time never changes and its response promise
   is the last one attached, also when it was attached while a resume was suspended.
   */
  lemma {:induction false} ContinuityAcrossResumes(s: State, es: seq<Event>, id: string)
    requires WellFormed(s.registry) && IsRun(s, es) && PresentThroughout(s, es, id)
    ensures var before, after := Entry(s.registry, id), Entry(After(s, es).registry, id);
            && after.Some?
            && after.value.startedAt == before.value.startedAt
            && after.value.response == LastAttached(es, id, before.value.response)
    decreases |es|
  {
    if es == [] {
    } else {
      ContinuityStep(s.registry, ChangeOf(s, es[0]), id);
      ContinuityAcrossResumes(Apply(s, es[0]), es[1..], id);
    }
  }

  // ----- The first outcome wins -----

  /** The outcome that a change offers to an object: a stop or a finalization of the id it is the entry of. */
  function Offered(g: Registry, c: Change, r: Ref): Outcome<Option<RunData>> {
    if !IsEntry(g, r) then Pending else
      var e := g.objs[r];
      match c
      case Performed(Finalize(id, run)) => if id == e.id then Resolved(run) else Pending
      case Performed(Stop(id)) =>
        if id == e.id && !e.status.Waiting? then Rejected(ExecutionCancelled(id)) else Pending
      case Cleared(all, _) =>
        if IsCancelled(all, e) && !e.status.Waiting? then Rejected(ExecutionCancelled(e.id)) else Pending
      case _ => Pending
  }

  ghost function FirstOffered(s: State, es: seq<Event>, r: Ref): Outcome<Option<RunData>>
    requires WellFormed(s.registry) && IsRun(s, es)
    decreases |es|
  {
    if es == [] then Pending
    else Offered(s.registry, ChangeOf(s, es[0]), r).Settle(FirstOffered(Apply(s, es[0]), es[1..], r))
  }

  lemma OutcomePerform(g: Registry, op: Operation, r: Ref)
    requires WellFormed(g) && r < |g.objs|
    ensures Perform(g, op).objs[r].outcome == g.objs[r].outcome.Settle(Offered(g, Performed(op), r))
  {
    if op.id in g.active && g.active[op.id] != r {
      assert Perform(g, op).objs[r] == g.objs[r];
    }
  }

  lemma OutcomeSweep(g: Registry, all: bool, order: seq<string>, r: Ref)
    requires WellFormed(g) && IsKeyOrder(g, order) && r < |g.objs|
    ensures r < |SweepEach(g, all, order).objs|
    ensures SweepEach(g, all, order).objs[r].outcome == g.objs[r].outcome.Settle(Offered(g, Cleared(all, order), r))
  {
    SweepIsSimultaneous(g, all, order);
  }

  lemma OutcomeStep(g: Registry, c: Change, r: Ref)
    requires WellFormed(g) && Applies(g, c) && r < |g.objs|
    ensures r < |Alter(g, c).objs| && Alter(g, c).objs[r].outcome == g.objs[r].outcome.Settle(Offered(g, c, r))
  {
    match c
    case Unchanged =>
    case Inserted(_, _, _) =>
    case Finished(_) =>
    case Performed(op) => OutcomePerform(g, op, r);
    case Cleared(all, order) => OutcomeSweep(g, all, order, r);
  }

  /**
   The outcome of an execution object, which every waiter on it sees, is the one it had or else the first one that
   a stop, a finalization or the sweep offered it; what comes later changes nothing.
   */
  lemma {:induction false} FirstOutcomeWins(s: State, es: seq<Event>, r: Ref)
    requires WellFormed(s.registry) && IsRun(s, es) && r < |s.registry.objs|
    ensures r < |After(s, es).registry.objs|
    ensures After(s, es).registry.objs[r].outcome == s.registry.objs[r].outcome.Settle(FirstOffered(s, es, r))
    decreases |es|
  {
    if es == [] {
    } else {
      OutcomeStep(s.registry, ChangeOf(s, es[0]), r);
      FirstOutcomeWins(Apply(s, es[0]), es[1..], r);
    }
  }

  lemma {:induction false} ConsistentRun(s: State, es: seq<Event>)
    requires Consistent(s.registry) && IsRun(s, es)
    ensures Consistent(After(s, es).registry)
    decreases |es|
  {
    if es == [] {
    } else {
      ConsistentStep(s.registry, ChangeOf(s, es[0]));
      ConsistentRun(Apply(s, es[0]), es[1..]);
    }
  }

  /** The catch handler in front of a settle callback never has anything to rethrow. */
  lemma NothingToRethrow(s0: State, es: seq<Event>, r: Ref)
    requires IsInitial(s0) && IsRun(s0, es) && Enabled(After(s0, es), Callback(r))
    ensures var e := After(s0, es).registry.objs[r];
            e.outcome.Resolved? || e.outcome == Rejected(ExecutionCancelled(e.id))
  {
    ConsistentRun(s0, es);
  }

  // ----- The status new -----

  predicate NewAreNameless(g: Registry) {
    forall r :: 0 <= r < |g.objs| && g.objs[r].status.New? ==> g.objs[r].id == ""
  }

  predicate SetsNew(c: Change) {
    c.Performed? && c.op.SetStatus? && c.op.status.New?
  }

  lemma NewStep(g: Registry, c: Change)
    requires WellFormed(g) && Applies(g, c) && NewAreNameless(g) && !SetsNew(c)
    ensures NewAreNameless(Alter(g, c))
  {
    match c
    case Unchanged =>
    case Inserted(_, _, _) =>
    case Finished(_) =>
    case Performed(op) => NewPerform(g, op);
    case Cleared(all, order) => NewSweep(g, all, order);
  }

  lemma NewSweep(g: Registry, all: bool, order: seq<string>)
    requires WellFormed(g) && NewAreNameless(g) && IsKeyOrder(g, order)
    ensures NewAreNameless(SweepEach(g, all, order))
  {
    var g' := SweepEach(g, all, order);
    SweepIsSimultaneous(g, all, order);
    forall r | 0 <= r < |g'.objs| ensures g'.objs[r].status.New? ==> g'.objs[r].id == "" {
      SweptEntry(g, all, order, r);
    }
  }

  lemma NewPerform(g: Registry, op: Operation)
    requires WellFormed(g) && NewAreNameless(g) && !SetsNew(Performed(op))
    ensures NewAreNameless(Perform(g, op))
  {
  }

  ghost predicate NobodySetsNew(s: State, es: seq<Event>)
    requires WellFormed(s.registry) && IsRun(s, es)
    decreases |es|
  {
    es != [] ==> !SetsNew(ChangeOf(s, es[0])) && NobodySetsNew(Apply(s, es[0]), es[1..])
  }

  /** Unless somebody sets it, an execution has the status new only under the empty id. */
  lemma {:induction false} NewOnlyUnderEmptyId(s: State, es: seq<Event>)
    requires WellFormed(s.registry) && NewAreNameless(s.registry) && IsRun(s, es) && NobodySetsNew(s, es)
    ensures NewAreNameless(After(s, es).registry)
    decreases |es|
  {
    if es != [] {
      NewStep(s.registry, ChangeOf(s, es[0]));
      NewOnlyUnderEmptyId(Apply(s, es[0]), es[1..]);
    }
  }
}
