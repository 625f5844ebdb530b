/** The life of one execution, over every interleaving (packages/cli/src/active-executions.ts). */
module ExecutionLifecycle {
  import opened Wrappers
  import opened ConcurrencyControl
  import opened ExecutionRegistry
  import opened ExecutionSweep
  import opened ExecutionModel

  // ----- What holds however the registry is used -----

  predicate Consistent(g: Registry) {
    && WellFormed(g)
    && (forall r :: 0 <= r < |g.objs| && r !in g.owed ==> !g.objs[r].outcome.Pending?)
    && (forall r :: 0 <= r < |g.objs| && g.objs[r].outcome.Rejected? ==>
          g.objs[r].outcome.error == ExecutionCancelled(g.objs[r].id))
  }

  /** No change ever rewrites the identity or the settled outcome of an object. */
  lemma ObjectEvolves(g: Registry, c: Change, r: Ref)
    requires WellFormed(g) && Applies(g, c) && r < |g.objs|
    ensures r < |Alter(g, c).objs| && Evolves(g.objs[r], Alter(g, c).objs[r])
  {
    match c
    case Unchanged =>
    case Inserted(id, mode, now) =>
    case Finished(_) =>
    case Performed(op) =>
    case Cleared(all, order) => SweepIsSimultaneous(g, all, order);
  }

  /** Only storing creates an object and owes a callback; only the callback itself is no longer owed afterwards. */
  lemma OwedStep(g: Registry, c: Change)
    requires WellFormed(g) && Applies(g, c)
    ensures var g' := Alter(g, c);
            match c
            case Inserted(id, mode, _) =>
              && |g'.objs| == |g.objs| + 1 && g'.owed == g.owed + {|g.objs|}
              && g'.objs[|g.objs|].id == id && g'.objs[|g.objs|].mode == mode && g'.objs[|g.objs|].outcome.Pending?
            case Finished(r) => |g'.objs| == |g.objs| && g'.owed == g.owed - {r}
            case _ => |g'.objs| == |g.objs| && g'.owed == g.owed
  {
    if c.Cleared? {
      SweepIsSimultaneous(g, c.all, c.order);
    }
  }

  lemma ConsistentStep(g: Registry, c: Change)
    requires Consistent(g) && Applies(g, c)
    ensures Consistent(Alter(g, c))
  {
    var g' := Alter(g, c);
    OwedStep(g, c);
    forall r | 0 <= r < |g'.objs|
      ensures r !in g'.owed ==> !g'.objs[r].outcome.Pending?
      ensures g'.objs[r].outcome.Rejected? ==> g'.objs[r].outcome.error == ExecutionCancelled(g'.objs[r].id)
    {
      if r < |g.objs| {
        ObjectEvolves(g, c, r);
      }
    }
  }

  // ----- Stale callbacks -----

  /** An object that is no longer the entry of its id, and still owes its callback, is waiting. */
  predicate StaleAreWaiting(g: Registry) {
    forall r <- g.owed :: r < |g.objs| && !IsEntry(g, r) ==> g.objs[r].status.Waiting?
  }

  predicate OwesNotWaiting(g: Registry, id: string)
    requires WellFormed(g)
  {
    id in g.active && g.active[id] in g.owed && !g.objs[g.active[id]].status.Waiting?
  }

  /** The change takes an object that owes its callback, and is not waiting, out of the registry. */
  predicate DisplacesUnfinished(g: Registry, c: Change)
    requires WellFormed(g) && Applies(g, c)
  {
    match c
    case Inserted(id, _, _) => OwesNotWaiting(g, id)
    case Cleared(all, order) =>
      exists id <- g.active :: OwesNotWaiting(g, id) && SweepObject(all, g.objs[g.active[id]]).None?
    case _ => false
  }

  lemma StaleInsert(g: Registry, id: string, mode: Mode, now: nat)
    requires WellFormed(g) && StaleAreWaiting(g)
    ensures StaleAreWaiting(Insert(g, id, mode, now)) <==> !OwesNotWaiting(g, id)
  {
    var g' := Insert(g, id, mode, now);
    forall r <- g.owed ensures g'.objs[r] == g.objs[r] && (IsEntry(g', r) <==> IsEntry(g, r) && g.objs[r].id != id) {}
    assert IsEntry(g', |g.objs|);
  }

  lemma StalePerform(g: Registry, op: Operation)
    requires WellFormed(g) && StaleAreWaiting(g)
    ensures StaleAreWaiting(Perform(g, op))
  {
    var g' := Perform(g, op);
    forall r <- g'.owed ensures !IsEntry(g', r) ==> g'.objs[r].status.Waiting? {
      assert IsEntry(g, r) || g.objs[r].status.Waiting?;
    }
  }

  lemma SweptEntry(g: Registry, all: bool, order: seq<string>, r: Ref)
    requires WellFormed(g) && IsKeyOrder(g, order) && r < |g.objs|
    ensures var g' := SweepEach(g, all, order);
            && |g'.objs| == |g.objs| && g'.owed == g.owed
            && g'.objs[r].status == g.objs[r].status && g'.objs[r].id == g.objs[r].id
            && (IsEntry(g', r) <==> IsEntry(g, r) && SweepObject(all, g.objs[r]).Some?)
  {
    SweepIsSimultaneous(g, all, order);
  }

  lemma StaleSweep(g: Registry, all: bool, order: seq<string>)
    requires WellFormed(g) && StaleAreWaiting(g) && IsKeyOrder(g, order)
    ensures StaleAreWaiting(SweepEach(g, all, order)) <==> !DisplacesUnfinished(g, Cleared(all, order))
  {
    var g' := SweepEach(g, all, order);
    OwedStep(g, Cleared(all, order));
    forall r <- g.owed
      ensures g'.objs[r].status == g.objs[r].status
      ensures IsEntry(g', r) <==> IsEntry(g, r) && SweepObject(all, g.objs[r]).Some?
    {
      SweptEntry(g, all, order, r);
    }
  }

  /**
   That stale objects are waiting, settled or not, is kept by a change exactly if it displaces no unfinished
   execution. Unsettled ones do no harm, as their callback never runs; they keep their slot.
   */
  lemma StaleStep(g: Registry, c: Change)
    requires WellFormed(g) && Applies(g, c) && StaleAreWaiting(g)
    ensures StaleAreWaiting(Alter(g, c)) <==> !DisplacesUnfinished(g, c)
  {
    match c
    case Unchanged =>
    case Inserted(id, mode, now) => StaleInsert(g, id, mode, now);
    case Finished(r) =>
    case Performed(op) => StalePerform(g, op);
    case Cleared(all, order) => StaleSweep(g, all, order);
  }

  /** A settle callback changes no entry but that of its own object. */
  lemma CallbackTouchesOnlyItself(g: Registry, r: Ref, id: string)
    requires WellFormed(g) && Applies(g, Finished(r)) && StaleAreWaiting(g)
    ensures id in g.active && g.active[id] != r ==> Entry(Finish(g, r), id) == Entry(g, id)
  {
  }

  /**
   What goes wrong otherwise: once a settled execution that is not waiting has been overwritten, its callback
   removes the new execution, which then can no longer be finalized or stopped and owes its callback forever.
   */
  lemma DisplacedCallbackRemovesTheNew(g: Registry, id: string, mode: Mode, now: nat)
    requires WellFormed(g) && OwesNotWaiting(g, id) && !g.objs[g.active[id]].outcome.Pending?
    ensures var g1 := Insert(g, id, mode, now);
            && Applies(g1, Finished(g.active[id]))
            && id in g1.active && g1.active[id] == |g.objs| != g.active[id]
            && id !in Finish(g1, g.active[id]).active
            && |g.objs| in Finish(g1, g.active[id]).owed
            && Finish(g1, g.active[id]).objs[|g.objs|].outcome.Pending?
  {
  }

  // ----- The discipline of the registry's callers -----

  /** Storing resumes a waiting execution or starts an absent one; no status is set after settlement, or to new. */
  predicate IsDisciplined(g: Registry, c: Change)
    requires WellFormed(g)
  {
    match c
    case Inserted(id, _, _) => id != "" && (id in g.active ==> g.objs[g.active[id]].status.Waiting?)
    case Performed(SetStatus(id, status)) =>
      !status.New? && (id in g.active ==> g.objs[g.active[id]].outcome.Pending?)
    case _ => true
  }

  ghost predicate DisciplinedRun(s: State, es: seq<Event>)
    requires WellFormed(s.registry) && IsRun(s, es)
    decreases |es|
  {
    es == [] || (IsDisciplined(s.registry, ChangeOf(s, es[0])) && DisciplinedRun(Apply(s, es[0]), es[1..]))
  }

  /** An entry is not new, and if it is not waiting either then its callback is still to come. */
  predicate EntryIsOrderly(g: Registry, id: string)
    requires WellFormed(g) && id in g.active
  {
    var e := g.objs[g.active[id]];
    !e.status.New? && (!e.status.Waiting? ==> g.active[id] in g.owed)
  }

  predicate Orderly(g: Registry) {
    && Consistent(g)
    && StaleAreWaiting(g)
    && forall id <- g.active :: EntryIsOrderly(g, id)
  }

  lemma OrderlyPerform(g: Registry, op: Operation, id: string)
    requires Orderly(g) && IsDisciplined(g, Performed(op)) && id in Perform(g, op).active
    ensures EntryIsOrderly(Perform(g, op), id)
  {
    assert EntryIsOrderly(g, id);
    if op.id in g.active && op.id != id {
      assert Perform(g, op).objs[g.active[id]] == g.objs[g.active[id]];
    }
  }

  lemma OrderlySweep(g: Registry, all: bool, order: seq<string>, id: string)
    requires Orderly(g) && IsKeyOrder(g, order) && id in SweepEach(g, all, order).active
    ensures EntryIsOrderly(SweepEach(g, all, order), id)
  {
    SweepPostcondition(g, all, order, id);
    OwedStep(g, Cleared(all, order));
    assert EntryIsOrderly(g, id);
  }

  lemma OrderlyEntryStep(g: Registry, c: Change, id: string)
    requires Orderly(g) && Applies(g, c) && IsDisciplined(g, c) && id in Alter(g, c).active
    ensures EntryIsOrderly(Alter(g, c), id)
  {
    match c
    case Unchanged =>
    case Inserted(i, mode, now) => assert id != i ==> EntryIsOrderly(g, id);
    case Finished(_) => assert EntryIsOrderly(g, id);
    case Performed(op) => OrderlyPerform(g, op, id);
    case Cleared(all, order) => OrderlySweep(g, all, order, id);
  }

  lemma OrderlyStep(g: Registry, c: Change)
    requires Orderly(g) && Applies(g, c) && IsDisciplined(g, c)
    ensures Orderly(Alter(g, c))
  {
    ConsistentStep(g, c);
    StaleStep(g, c);
    forall id <- Alter(g, c).active ensures EntryIsOrderly(Alter(g, c), id) {
      OrderlyEntryStep(g, c, id);
    }
  }

  lemma {:induction false} OrderlyRun(s: State, es: seq<Event>)
    requires Orderly(s.registry) && IsRun(s, es) && DisciplinedRun(s, es)
    ensures Orderly(After(s, es).registry)
    decreases |es|
  {
    if es == [] {
    } else {
      OrderlyStep(s.registry, ChangeOf(s, es[0]));
      OrderlyRun(Apply(s, es[0]), es[1..]);
    }
  }

  /**
   In every disciplined run of a new process, whatever the interleaving, a callback that is due touches no entry
   of the registry but that of the object it belongs to.
   */
  lemma StaleCallbacksAreHarmless(s0: State, es: seq<Event>, r: Ref, id: string)
    requires IsInitial(s0) && IsRun(s0, es) && DisciplinedRun(s0, es)
    requires Enabled(After(s0, es), Callback(r))
    ensures var g := After(s0, es).registry;
            id in g.active && g.active[id] != r ==>
              Entry(Apply(After(s0, es), Callback(r)).registry, id) == Entry(g, id)
  {
    OrderlyRun(s0, es);
    CallbackTouchesOnlyItself(After(s0, es).registry, r, id);
  }

  // ----- The automaton of one id -----

  datatype Phase = Absent | Live | Paused | Settling

  function PhaseOf(g: Registry, id: string): Phase
    requires WellFormed(g)
  {
    match Entry(g, id)
    case None => Absent
    case Some(e) => if e.status.Waiting? then Paused else if e.outcome.Pending? then Live else Settling
  }

  /** The moves of the automaton. */
  predicate Edge(p: Phase, p': Phase) {
    match p
    case Absent => p'.Live?
    case Live => p'.Paused? || p'.Settling?
    case Paused => p'.Live? || p'.Absent?
    case Settling => p'.Absent?
  }

  /** The moves that a change allows for one id. */
  predicate Moves(c: Change, id: string, p: Phase, p': Phase) {
    match c
    case Inserted(i, _, _) => if i == id then (p.Absent? || p.Paused?) && p'.Live? else p' == p
    case Performed(SetStatus(i, status)) =>
      if i == id && !p.Absent?
      then !p.Settling? && (if status.Waiting? then p'.Paused? else p'.Live?)
      else p' == p
    case Performed(Finalize(i, _)) => if i == id && p.Live? then p'.Settling? else p' == p
    case Performed(Stop(i)) =>
      if i == id && p.Live? then p'.Settling? else if i == id && p.Paused? then p'.Absent? else p' == p
    case Finished(_) => p' == p || (p.Settling? && p'.Absent?)
    case Cleared(_, _) => (p' == p && !p.Paused?) || (p.Live? && p'.Settling?) || (p.Paused? && p'.Absent?)
    case _ => p' == p
  }

  lemma LifecyclePerform(g: Registry, op: Operation, id: string)
    requires Orderly(g) && IsDisciplined(g, Performed(op))
    ensures Moves(Performed(op), id, PhaseOf(g, id), PhaseOf(Perform(g, op), id))
  {
    if op.id in g.active && op.id != id && id in g.active {
      assert g.active[op.id] != g.active[id];
    }
  }

  lemma LifecycleSweep(g: Registry, all: bool, order: seq<string>, id: string)
    requires Orderly(g) && IsKeyOrder(g, order)
    ensures Moves(Cleared(all, order), id, PhaseOf(g, id), PhaseOf(SweepEach(g, all, order), id))
  {
    SweepPostcondition(g, all, order, id);
    if id in g.active {
      assert EntryIsOrderly(g, id);
    }
  }

  /** Under the discipline every change moves every id along the automaton, and a due callback ends its own entry. */
  lemma LifecycleStep(g: Registry, c: Change, id: string)
    requires Orderly(g) && Applies(g, c) && IsDisciplined(g, c)
    ensures Moves(c, id, PhaseOf(g, id), PhaseOf(Alter(g, c), id))
    ensures c.Finished? && PhaseOf(g, id).Settling? && g.active[id] == c.r ==> PhaseOf(Alter(g, c), id).Absent?
  {
    match c
    case Unchanged =>
    case Inserted(_, _, _) =>
    case Finished(_) =>
    case Performed(op) => LifecyclePerform(g, op, id);
    case Cleared(all, order) => LifecycleSweep(g, all, order, id);
  }

  ghost function Phases(s: State, es: seq<Event>, id: string): (ps: seq<Phase>)
    requires WellFormed(s.registry) && IsRun(s, es)
    ensures |ps| == |es| + 1
    decreases |es|
  {
    [PhaseOf(s.registry, id)] + if es == [] then [] else Phases(Apply(s, es[0]), es[1..], id)
  }

  /** Every disciplined run is, seen from any one id, a run of the automaton. */
  lemma {:induction false} LifecycleRun(s: State, es: seq<Event>, id: string, i: nat)
    requires Orderly(s.registry) && IsRun(s, es) && DisciplinedRun(s, es) && i < |es|
    ensures Phases(s, es, id)[i] == Phases(s, es, id)[i + 1] || Edge(Phases(s, es, id)[i], Phases(s, es, id)[i + 1])
    decreases |es|
  {
    LifecycleStep(s.registry, ChangeOf(s, es[0]), id);
    OrderlyStep(s.registry, ChangeOf(s, es[0]));
    if i > 0 {
      LifecycleRun(Apply(s, es[0]), es[1..], id, i - 1);
    }
  }

  /** The one id a change is about. */
  function Target(g: Registry, c: Change): Option<string>
    requires WellFormed(g) && Applies(g, c)
  {
    match c
    case Inserted(id, _, _) => Some(id)
    case Finished(r) => Some(g.objs[r].id)
    case Performed(op) => Some(op.id)
    case _ => None
  }

  /** However the registry is used, a change about one id leaves the entries of all other ids alone. */
  lemma OtherIdsUnchanged(g: Registry, c: Change, id: string)
    requires WellFormed(g) && Applies(g, c) && !c.Cleared? && Target(g, c) != Some(id)
    ensures Entry(Alter(g, c), id) == Entry(g, id)
    ensures id in g.active ==> Alter(g, c).active[id] == g.active[id]
  {
    match c
    case Unchanged =>
    case Inserted(_, _, _) =>
    case Finished(_) =>
    case Performed(_) =>
  }

  /** Conversely to `LifecycleStep`, the discipline leaves every move of the automaton open, for one id at a time. */
  lemma EveryMoveIsOpen(g: Registry, id: string, p: Phase, mode: Mode, now: nat) returns (c: Change)
    requires Orderly(g) && id != "" && Edge(PhaseOf(g, id), p)
    ensures Applies(g, c) && IsDisciplined(g, c) && PhaseOf(Alter(g, c), id) == p
    ensures Target(g, c) == Some(id)
  {
    var p0 := PhaseOf(g, id);
    if p0.Absent? || (p0.Paused? && p.Live?) {
      c := Inserted(id, mode, now);
    } else if p0.Live? && p.Paused? {
      c := Performed(SetStatus(id, Waiting));
    } else if p0.Live? {
      c := Performed(Finalize(id, None));
    } else if p0.Paused? {
      c := Performed(Stop(id));
    } else {
      assert EntryIsOrderly(g, id);
      c := Finished(g.active[id]);
    }
  }
}
