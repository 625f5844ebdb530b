/** When a settle callback deletes the entry of another execution (packages/cli/src/active-executions.ts:104-118). */
module StaleCallbacks {
  import opened ConcurrencyControl
  import opened ExecutionRegistry
  import opened ExecutionSweep
  import opened ExecutionModel
  import opened ExecutionLifecycle

  /** The callback is due, or soon will be, its object is no longer an entry, and it will delete by id. */
  predicate Harms(g: Registry, r: Ref) {
    && r in g.owed && r < |g.objs| && !IsEntry(g, r)
    && !g.objs[r].outcome.Pending? && !g.objs[r].status.Waiting?
  }

  predicate HarmsNobody(g: Registry) {
    forall r <- g.owed :: !Harms(g, r)
  }

  /** Running the callback removes an entry that belongs to another object. */
  predicate DeletesAnother(g: Registry, r: Ref)
    requires WellFormed(g) && Applies(g, Finished(r))
  {
    exists id <- g.active :: g.active[id] != r && id !in Finish(g, r).active
  }

  lemma DeletesAnotherExactlyIfItHarms(g: Registry, r: Ref)
    requires WellFormed(g) && Applies(g, Finished(r))
    ensures DeletesAnother(g, r) <==> Harms(g, r) && g.objs[r].id in g.active
  {
    var id := g.objs[r].id;
    assert id in g.active && g.active[id] != r && !g.objs[r].status.Waiting? ==> id !in Finish(g, r).active;
  }

  /** An entry that has settled, owes its callback and is not waiting. */
  predicate IsSettling(g: Registry, id: string)
    requires WellFormed(g)
  {
    OwesNotWaiting(g, id) && !g.objs[g.active[id]].outcome.Pending?
  }

  /** The change lets go of an execution between its settlement and its callback. */
  predicate DisplacesSettling(g: Registry, c: Change)
    requires WellFormed(g) && Applies(g, c)
  {
    match c
    case Inserted(id, _, _) => IsSettling(g, id)
    case Cleared(all, order) =>
      exists id <- g.active :: IsSettling(g, id) && SweepObject(all, g.objs[g.active[id]]).None?
    case _ => false
  }

  lemma HarmByInsert(g: Registry, id: string, mode: Mode, now: nat)
    requires WellFormed(g) && HarmsNobody(g)
    ensures HarmsNobody(Insert(g, id, mode, now)) <==> !IsSettling(g, id)
  {
    var g' := Insert(g, id, mode, now);
    forall r <- g.owed
      ensures g'.objs[r] == g.objs[r] && (IsEntry(g', r) <==> IsEntry(g, r) && g.objs[r].id != id) && !Harms(g, r)
    {
    }
    assert !Harms(g', |g.objs|);
    if IsSettling(g, id) {
      assert Harms(g', g.active[id]);
    }
  }

  lemma HarmByFinish(g: Registry, r: Ref)
    requires WellFormed(g) && HarmsNobody(g) && Applies(g, Finished(r))
    ensures HarmsNobody(Finish(g, r))
  {
    var g' := Finish(g, r);
    assert !Harms(g, r);
    forall q <- g'.owed ensures !Harms(g', q) {
      assert !Harms(g, q);
    }
  }

  lemma HarmByOperation(g: Registry, op: Operation)
    requires WellFormed(g) && HarmsNobody(g)
    ensures HarmsNobody(Perform(g, op))
  {
    var g' := Perform(g, op);
    forall r <- g'.owed ensures !Harms(g', r) {
      assert !Harms(g, r);
    }
  }

  lemma HarmBySweep(g: Registry, all: bool, order: seq<string>)
    requires WellFormed(g) && HarmsNobody(g) && IsKeyOrder(g, order)
    ensures HarmsNobody(SweepEach(g, all, order)) <==> !DisplacesSettling(g, Cleared(all, order))
  {
    SweepIsSimultaneous(g, all, order);
    var g' := Swept(g, all, order);
    forall r <- g.owed
      ensures Harms(g', r) <==> IsEntry(g, r) && IsSettling(g, g.objs[r].id) && SweepObject(all, g.objs[r]).None?
    {
      assert !Harms(g, r);
    }
    if DisplacesSettling(g, Cleared(all, order)) {
      var id :| id in g.active && IsSettling(g, id) && SweepObject(all, g.objs[g.active[id]]).None?;
      assert Harms(g', g.active[id]);
    }
  }

  /** Harm arises exactly from letting go of an execution between its settlement and its callback. */
  lemma HarmStep(g: Registry, c: Change)
    requires WellFormed(g) && Applies(g, c) && HarmsNobody(g)
    ensures HarmsNobody(Alter(g, c)) <==> !DisplacesSettling(g, c)
  {
    match c
    case Unchanged =>
    case Inserted(id, mode, now) => HarmByInsert(g, id, mode, now);
    case Finished(r) => HarmByFinish(g, r);
    case Performed(op) => HarmByOperation(g, op);
    case Cleared(all, order) => HarmBySweep(g, all, order);
  }

  ghost predicate EverHarms(s: State, es: seq<Event>)
    requires WellFormed(s.registry) && IsRun(s, es)
    decreases |es|
  {
    !HarmsNobody(s.registry) || (es != [] && EverHarms(Apply(s, es[0]), es[1..]))
  }

  ghost predicate EverDisplaces(s: State, es: seq<Event>)
    requires WellFormed(s.registry) && IsRun(s, es)
    decreases |es|
  {
    es != [] && (DisplacesSettling(s.registry, ChangeOf(s, es[0])) || EverDisplaces(Apply(s, es[0]), es[1..]))
  }

  /** Over runs, from any state in which no callback does harm. */
  lemma {:induction false} HarmArisesExactly(s: State, es: seq<Event>)
    requires WellFormed(s.registry) && HarmsNobody(s.registry) && IsRun(s, es)
    ensures EverHarms(s, es) <==> EverDisplaces(s, es)
    decreases |es|
  {
    if es != [] {
      HarmStep(s.registry, ChangeOf(s, es[0]));
      if HarmsNobody(Apply(s, es[0]).registry) {
        HarmArisesExactly(Apply(s, es[0]), es[1..]);
      }
    }
  }

  lemma {:induction false} HarmlessAtTheEnd(s: State, es: seq<Event>)
    requires WellFormed(s.registry) && IsRun(s, es) && !EverHarms(s, es)
    ensures HarmsNobody(After(s, es).registry)
    decreases |es|
  {
    if es != [] {
      HarmlessAtTheEnd(Apply(s, es[0]), es[1..]);
    }
  }

  /**
   In a new process, with any use of the registry that never lets go of an execution between its settlement and its
   callback, no due callback ever deletes the entry of another execution.
   */
  lemma NoCallbackDeletesAnother(s0: State, es: seq<Event>, r: Ref)
    requires IsInitial(s0) && IsRun(s0, es) && !EverDisplaces(s0, es) && Enabled(After(s0, es), Callback(r))
    ensures !DeletesAnother(After(s0, es).registry, r)
  {
    HarmArisesExactly(s0, es);
    HarmlessAtTheEnd(s0, es);
    DeletesAnotherExactlyIfItHarms(After(s0, es).registry, r);
  }
}
