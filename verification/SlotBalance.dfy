/**
 How many executions run at once, and which slots come back (packages/cli/src/active-executions.ts,
 packages/cli/src/concurrency/concurrency-queue.ts).
 */
module SlotBalance {
  import opened Wrappers
  import opened ConcurrencyQueues
  import opened ConcurrencyControl
  import opened ExecutionRegistry
  import opened ExecutionSweep
  import opened ExecutionModel
  import opened ExecutionLifecycle
  import opened ExecutionHistory
  import opened SlotAccounting

  // ----- Conservation over runs -----

  lemma InitialIsConserved(s: State)
    requires IsInitial(s)
    ensures Conserved(s) && TightQueues(s.control) && Consistent(s.registry)
  {
    var production: int, evaluation: int :| IsConfigured(s, production, evaluation);
    SetupStartsFull(production, evaluation, !s.regular);
    forall k <- s.control.queues ensures Held(s, k) == 0 {
      assert HeldByObjects(s.registry, k) == {};
      assert HeldByAdds(s.adds, k) == {};
    }
  }

  /**
   Slots are conserved: in every reachable state, as long as the limits are in force, the free slots of a queue and
   the slots held by executions and by `add` calls make up its limit.
   */
  lemma {:induction false} ConservedRun(s: State, es: seq<Event>)
    requires Conserved(s) && IsRun(s, es)
    ensures Conserved(After(s, es))
    decreases |es|
  {
    if es == [] {
    } else {
      ConservedStep(s, es[0]);
      ConservedRun(Apply(s, es[0]), es[1..]);
    }
  }

  lemma SlotsAreConserved(s0: State, es: seq<Event>, k: QueueKind)
    requires IsInitial(s0) && IsRun(s0, es)
    ensures var s := After(s0, es);
            s.control.enabled && k in s.control.queues ==>
              k in s.control.limits && Free(s.control.queues[k]) + Held(s, k) == s.control.limits[k]
  {
    InitialIsConserved(s0);
    ConservedRun(s0, es);
  }

  // ----- The limit -----

  predicate TightQueues(c: Control) {
    c.enabled ==> forall k <- c.queues :: Tight(c.queues[k])
  }

  /** A queued execution is cancelled while another one waits in the same queue. */
  predicate IsContendedCancel(s: State, e: Event) {
    e.CancelQueued? && IsLimited(s.control, e.mode) &&
    var ws := s.control.queues[QueueFor(e.mode).value].waiting;
    IndexOf(ws, e.id) < |ws| && |ws| > 1
  }

  lemma TightStep(s: State, e: Event)
    requires Conserved(s) && Enabled(s, e) && TightQueues(s.control)
    ensures TightQueues(Apply(s, e).control) <==> !IsContendedCancel(s, e)
  {
    if e.CancelQueued? && IsLimited(s.control, e.mode) {
      var kind := QueueFor(e.mode).value;
      RemoveStaysTight(s.control.queues[kind], e.id);
      assert Apply(s, e).control.queues[kind] == Remove(s.control.queues[kind], e.id).0;
    }
  }

  ghost predicate HasContendedCancel(s: State, es: seq<Event>)
    requires WellFormed(s.registry) && IsRun(s, es)
    decreases |es|
  {
    es != [] && (IsContendedCancel(s, es[0]) || HasContendedCancel(Apply(s, es[0]), es[1..]))
  }

  lemma {:induction false} TightRun(s: State, es: seq<Event>)
    requires Conserved(s) && IsRun(s, es) && TightQueues(s.control) && !HasContendedCancel(s, es)
    ensures TightQueues(After(s, es).control)
    decreases |es|
  {
    if es == [] {
    } else {
      TightStep(s, es[0]);
      ConservedStep(s, es[0]);
      TightRun(Apply(s, es[0]), es[1..]);
    }
  }

  /** As long as no contended cancellation happens, no more executions hold a slot than the limit allows. */
  lemma LimitIsRespected(s0: State, es: seq<Event>, k: QueueKind)
    requires IsInitial(s0) && IsRun(s0, es) && !HasContendedCancel(s0, es)
    ensures var s := After(s0, es);
            s.control.enabled && k in s.control.queues ==>
              k in s.control.limits && Held(s, k) <= s.control.limits[k]
  {
    InitialIsConserved(s0);
    ConservedRun(s0, es);
    TightRun(s0, es);
  }

  /** A contended cancellation in a state that respects the limit breaks it: one more slot is held than there is. */
  lemma ContendedCancelOvershoots(s: State, e: Event)
    requires Conserved(s) && TightQueues(s.control) && IsContendedCancel(s, e)
    ensures var k := QueueFor(e.mode).value;
            var s' := Apply(s, e);
            k in s'.control.queues && k in s'.control.limits && Held(s', k) == s'.control.limits[k] + 1
  {
    var k := QueueFor(e.mode).value;
    RemoveStaysTight(s.control.queues[k], e.id);
    ConservedStep(s, e);
    assert Apply(s, e).control.queues[k] == Remove(s.control.queues[k], e.id).0;
  }

  // ----- Orphans: executions that can never settle -----

  /** Unsettled, and no longer reachable by id. */
  predicate IsOrphan(g: Registry, r: Ref) {
    r in g.owed && r < |g.objs| && g.objs[r].outcome.Pending? && !IsEntry(g, r)
  }

  lemma OrphanStep(g: Registry, c: Change, r: Ref)
    requires WellFormed(g) && Applies(g, c) && IsOrphan(g, r)
    ensures IsOrphan(Alter(g, c), r)
  {
    OwedStep(g, c);
    ObjectEvolves(g, c, r);
    OutcomeStep(g, c, r);
    if c.Cleared? {
      SweepIsSimultaneous(g, c.all, c.order);
    }
  }

  /** Once an orphan, always an orphan. */
  lemma {:induction false} OrphansStay(s: State, es: seq<Event>, r: Ref)
    requires WellFormed(s.registry) && IsRun(s, es) && IsOrphan(s.registry, r)
    ensures IsOrphan(After(s, es).registry, r)
    ensures After(s, es).registry.objs[r].mode == s.registry.objs[r].mode
    decreases |es|
  {
    if es == [] {
    } else {
      OrphanStep(s.registry, ChangeOf(s, es[0]), r);
      ObjectEvolves(s.registry, ChangeOf(s, es[0]), r);
      OrphansStay(Apply(s, es[0]), es[1..], r);
    }
  }

  /** The callback of an orphan never becomes due. */
  lemma OrphansAreNeverDue(s: State, es: seq<Event>, r: Ref)
    requires WellFormed(s.registry) && IsRun(s, es) && IsOrphan(s.registry, r)
    ensures !Enabled(After(s, es), Callback(r))
  {
    OrphansStay(s, es, r);
  }

  /** The slot of an orphan is lost: in no continuation is every slot of its queue free again. */
  lemma OrphanKeepsItsSlot(s: State, es: seq<Event>, r: Ref, k: QueueKind)
    requires Conserved(s) && IsRun(s, es) && IsOrphan(s.registry, r) && QueueFor(s.registry.objs[r].mode) == Some(k)
    ensures var s' := After(s, es);
            s'.control.enabled && k in s'.control.queues ==>
              k in s'.control.limits && Free(s'.control.queues[k]) < s'.control.limits[k]
  {
    OrphansStay(s, es, r);
    ConservedRun(s, es);
    assert r in HeldByObjects(After(s, es).registry, k);
  }

  predicate HasNoOrphan(g: Registry) {
    forall r <- g.owed :: !IsOrphan(g, r)
  }

  predicate IsUnsettled(g: Registry, id: string)
    requires WellFormed(g)
  {
    id in g.active && g.objs[g.active[id]].outcome.Pending?
  }

  /** The change lets go of an execution that has not settled. */
  predicate Strands(g: Registry, c: Change)
    requires WellFormed(g) && Applies(g, c)
  {
    match c
    case Inserted(id, _, _) => IsUnsettled(g, id)
    case Performed(Stop(id)) => IsUnsettled(g, id) && g.objs[g.active[id]].status.Waiting?
    case Finished(r) =>
      !g.objs[r].status.Waiting? && IsUnsettled(g, g.objs[r].id) && g.active[g.objs[r].id] != r
    case Cleared(all, order) =>
      exists id <- g.active :: IsUnsettled(g, id) && SweepObject(all, g.objs[g.active[id]]).None?
    case _ => false
  }

  /** An orphan arises exactly when a change lets go of an unsettled execution. */
  lemma OrphansArise(g: Registry, c: Change)
    requires Consistent(g) && Applies(g, c) && HasNoOrphan(g)
    ensures HasNoOrphan(Alter(g, c)) <==> !Strands(g, c)
  {
    OwedStep(g, c);
    match c
    case Unchanged =>
    case Inserted(id, mode, now) => OrphansByInsert(g, id, mode, now);
    case Finished(r) => OrphansByFinish(g, r);
    case Performed(op) => OrphansByOperation(g, op);
    case Cleared(all, order) => OrphansBySweep(g, all, order);
  }

  lemma OrphansByInsert(g: Registry, id: string, mode: Mode, now: nat)
    requires Consistent(g) && HasNoOrphan(g)
    ensures HasNoOrphan(Insert(g, id, mode, now)) <==> !IsUnsettled(g, id)
  {
    var g' := Insert(g, id, mode, now);
    assert !IsOrphan(g', |g.objs|);
    forall r <- g.owed ensures IsOrphan(g', r) <==> g.objs[r].outcome.Pending? && g.objs[r].id == id {
      assert !IsOrphan(g, r);
    }
    if IsUnsettled(g, id) {
      assert g.active[id] in g'.owed;
    }
  }

  lemma OrphansByFinish(g: Registry, r: Ref)
    requires Consistent(g) && HasNoOrphan(g) && Applies(g, Finished(r))
    ensures HasNoOrphan(Finish(g, r)) <==> !Strands(g, Finished(r))
  {
    var g' := Finish(g, r);
    var id := g.objs[r].id;
    forall q <- g'.owed
      ensures IsOrphan(g', q) <==> g.objs[q].outcome.Pending? && !g.objs[r].status.Waiting? && g.objs[q].id == id
    {
      assert !IsOrphan(g, q);
    }
    if Strands(g, Finished(r)) {
      assert g.active[id] in g'.owed;
    }
  }

  lemma OrphansByOperation(g: Registry, op: Operation)
    requires Consistent(g) && HasNoOrphan(g)
    ensures HasNoOrphan(Perform(g, op)) <==> !Strands(g, Performed(op))
  {
    var g' := Perform(g, op);
    if op.id in g.active {
      var r0 := g.active[op.id];
      forall r <- g.owed | r != r0 ensures !IsOrphan(g', r) {
        assert !IsOrphan(g, r);
      }
      if Strands(g, Performed(op)) {
        assert r0 in g.owed && IsOrphan(g', r0);
      }
    }
  }

  lemma OrphansBySweep(g: Registry, all: bool, order: seq<string>)
    requires Consistent(g) && HasNoOrphan(g) && IsKeyOrder(g, order)
    ensures HasNoOrphan(SweepEach(g, all, order)) <==> !Strands(g, Cleared(all, order))
  {
    SweepIsSimultaneous(g, all, order);
    var g' := Swept(g, all, order);
    forall r <- g.owed
      ensures IsOrphan(g', r) <==> IsEntry(g, r) && g.objs[r].outcome.Pending? && SweepObject(all, g.objs[r]).None?
    {
      assert !IsOrphan(g, r);
    }
    if Strands(g, Cleared(all, order)) {
      var id :| id in g.active && IsUnsettled(g, id) && SweepObject(all, g.objs[g.active[id]]).None?;
      assert g.active[id] in g.owed && IsOrphan(g', g.active[id]);
    }
  }

  /** Under the discipline, an orphan arises exactly from a waiting execution let go of before its promise settled. */
  lemma StrandsUnderDiscipline(g: Registry, c: Change)
    requires Orderly(g) && Applies(g, c) && IsDisciplined(g, c)
    ensures Strands(g, c) <==>
            match c
            case Inserted(id, _, _) => IsUnsettled(g, id) && g.objs[g.active[id]].status.Waiting?
            case Performed(Stop(id)) => IsUnsettled(g, id) && g.objs[g.active[id]].status.Waiting?
            case Cleared(_, _) => exists id <- g.active :: IsUnsettled(g, id) && g.objs[g.active[id]].status.Waiting?
            case _ => false
  {
    if c.Finished? && !g.objs[c.r].status.Waiting? {
      assert IsEntry(g, c.r);
    }
    if c.Cleared? {
      forall id <- g.active
        ensures SweepObject(c.all, g.objs[g.active[id]]).None? <==> g.objs[g.active[id]].status.Waiting?
      {
        assert EntryIsOrderly(g, id);
      }
    }
  }

  // ----- Calls whose last write failed -----

  lemma AbandonedStays(s: State, e: Event, t: Ticket)
    requires Conserved(s) && Enabled(s, e) && t in s.adds && s.adds[t].Abandoned?
    ensures t in Apply(s, e).adds && Apply(s, e).adds[t] == s.adds[t]
  {
  }

  /** The slot of an `add` whose last write failed is lost too. */
  lemma {:induction false} FailedAddKeepsItsSlot(s: State, es: seq<Event>, t: Ticket, k: QueueKind)
    requires Conserved(s) && IsRun(s, es)
    requires t in s.adds && s.adds[t].Abandoned? && QueueFor(s.adds[t].mode) == Some(k)
    ensures var s' := After(s, es);
            && Conserved(s') && t in s'.adds && s'.adds[t] == s.adds[t]
            && (s'.control.enabled && k in s'.control.queues ==>
                  k in s'.control.limits && Free(s'.control.queues[k]) < s'.control.limits[k])
    decreases |es|
  {
    if es == [] {
      assert t in HeldByAdds(s.adds, k);
    } else {
      AbandonedStays(s, es[0], t);
      ConservedStep(s, es[0]);
      FailedAddKeepsItsSlot(Apply(s, es[0]), es[1..], t, k);
    }
  }

  // ----- Balance at rest -----

  /** A call whose place in the queue was given up while it waited: its throttle never resolves. */
  predicate IsDropped(s: State, t: Ticket) {
    && t in s.adds && s.adds[t].Throttled?
    && forall k <- s.control.queues :: forall w <- s.control.queues[k].waiting :: w.ticket != t
  }

  lemma WakesOthers(s: State, mode: Mode, id: string, cancels: bool, t: Ticket)
    requires IsDropped(s, t)
    ensures var x := Slots(s.control, s.adds);
            var y := if cancels then CancelWaiter(x, mode, id) else ReleaseSlot(x, mode);
            IsDropped(State(s.regular, y.control, s.registry, y.adds), t)
  {
  }

  lemma DroppedStep(s: State, e: Event, t: Ticket)
    requires Conserved(s) && Enabled(s, e) && IsDropped(s, t)
    ensures IsDropped(Apply(s, e), t)
  {
    match e
    case Callback(r) => WakesOthers(s, s.registry.objs[r].mode, "", false, t);
    case CancelQueued(mode, id) => WakesOthers(s, mode, id, true, t);
    case _ =>
  }

  /** A dropped call stays suspended forever. */
  lemma {:induction false} DroppedStays(s: State, es: seq<Event>, t: Ticket)
    requires Conserved(s) && IsRun(s, es) && IsDropped(s, t)
    ensures IsDropped(After(s, es), t)
    decreases |es|
  {
    if es == [] {
    } else {
      DroppedStep(s, es[0], t);
      ConservedStep(s, es[0]);
      DroppedStays(Apply(s, es[0]), es[1..], t);
    }
  }

  /** The cancellation of a queued execution drops the call that waits for it. */
  lemma CancelledIsDropped(s: State, e: Event)
    requires Conserved(s) && e.CancelQueued? && IsLimited(s.control, e.mode)
    requires var ws := s.control.queues[QueueFor(e.mode).value].waiting; IndexOf(ws, e.id) < |ws|
    ensures var ws := s.control.queues[QueueFor(e.mode).value].waiting;
            IsDropped(Apply(s, e), ws[IndexOf(ws, e.id)].ticket)
  {
    var kind := QueueFor(e.mode).value;
    var q := s.control.queues[kind];
    var i := IndexOf(q.waiting, e.id);
    var t := q.waiting[i].ticket;
    var rest := q.waiting[..i] + q.waiting[i + 1..];
    assert IsWaiter(s.adds, q.waiting[i], kind);
    forall w <- rest ensures w.ticket != t {
      var j :| 0 <= j < |q.waiting| && j != i && q.waiting[j] == w;
    }
    var (q', woken) := Remove(q, e.id);
    assert forall w <- q'.waiting :: w in rest;
    assert woken.Some? ==> woken.value in rest;
    var s' := Apply(s, e);
    assert s'.control.queues == s.control.queues[kind := q'] && s'.adds == Admit(s.adds, woken);
    forall k <- s'.control.queues, w <- s'.control.queues[k].waiting ensures w.ticket != t {
      if k != kind {
        assert IsWaiter(s.adds, w, k);
      }
    }
  }

  /** Nothing is left to happen: no call can go on, no entry is unsettled, no callback is due. */
  predicate IsAtRest(s: State)
    requires WellFormed(s.registry)
  {
    && (forall t <- s.adds :: s.adds[t].Abandoned? || IsDropped(s, t))
    && (forall id <- s.registry.active :: !IsUnsettled(s.registry, id))
    && (forall r <- s.registry.owed :: s.registry.objs[r].outcome.Pending?)
  }

  /**
   At rest all capacity has come back exactly if no orphan and no failed `add` keeps a slot of the queue. Cancelled
   calls keep none, and an earlier overshoot of the limit costs none.
   */
  lemma BalanceAtRest(s: State, k: QueueKind)
    requires Conserved(s) && IsAtRest(s) && s.control.enabled && k in s.control.queues
    ensures s.control.queues[k].waiting == []
    ensures s.control.queues[k].capacity == s.control.limits[k] <==>
              && (forall r <- s.registry.owed ::
                    IsOrphan(s.registry, r) ==> QueueFor(s.registry.objs[r].mode) != Some(k))
              && (forall t <- s.adds :: s.adds[t].Abandoned? ==> QueueFor(s.adds[t].mode) != Some(k))
  {
    NobodyWaitsAtRest(s, k);
    forall r <- s.registry.owed ensures IsOrphan(s.registry, r) {
      if IsEntry(s.registry, r) {
        assert IsUnsettled(s.registry, s.registry.objs[r].id);
      }
    }
    var objs, calls := HeldByObjects(s.registry, k), HeldByAdds(s.adds, k);
    assert s.control.queues[k].capacity + |objs| + |calls| == s.control.limits[k];
    if s.control.queues[k].capacity == s.control.limits[k] {
      assert objs == {} && calls == {};
      forall r <- s.registry.owed ensures QueueFor(s.registry.objs[r].mode) != Some(k) {
        assert r !in objs;
      }
      forall t <- s.adds | s.adds[t].Abandoned? ensures QueueFor(s.adds[t].mode) != Some(k) {
        assert t !in calls;
      }
    } else if objs != {} {
      var r :| r in objs;
      assert IsOrphan(s.registry, r);
    } else {
      assert calls != {};
      var t :| t in calls;
      assert t in s.adds && s.adds[t].Abandoned?;
    }
  }

  lemma NobodyWaitsAtRest(s: State, k: QueueKind)
    requires Conserved(s) && IsAtRest(s) && s.control.enabled && k in s.control.queues
    ensures s.control.queues[k].waiting == []
  {
    var ws := s.control.queues[k].waiting;
    assert QueueMatches(s.adds, ws, k);
    assert ws == [] || (IsWaiter(s.adds, ws[0], k) && !IsDropped(s, ws[0].ticket));
  }

  ghost predicate IsCleanRun(s: State, es: seq<Event>)
    requires WellFormed(s.registry) && IsRun(s, es)
    decreases |es|
  {
    es != [] ==> !Strands(s.registry, ChangeOf(s, es[0])) && !es[0].WriteFailed? && IsCleanRun(Apply(s, es[0]), es[1..])
  }

  predicate HasNoAbandoned(s: State) {
    forall t <- s.adds :: !s.adds[t].Abandoned?
  }

  lemma AbandonedStep(s: State, e: Event)
    requires WellFormed(s.registry) && Enabled(s, e) && HasNoAbandoned(s) && !e.WriteFailed?
    ensures HasNoAbandoned(Apply(s, e))
  {
    if e.Sweep? {
      var (control, woken) := RemoveAllQueued(if s.regular then Disable(s.control) else s.control);
      AdmitAllAbandonsNone(s.adds, woken);
    }
  }

  lemma {:induction false} AdmitAllAbandonsNone(adds: map<Ticket, AddCall>, woken: seq<Waiter>)
    requires forall t <- adds :: !adds[t].Abandoned?
    ensures forall t <- AdmitAll(adds, woken) :: !AdmitAll(adds, woken)[t].Abandoned?
    decreases |woken|
  {
    if woken == [] {
    } else {
      AdmitAllAbandonsNone(Admit(adds, Some(woken[0])), woken[1..]);
    }
  }

  lemma {:induction false} CleanRun(s: State, es: seq<Event>)
    requires Consistent(s.registry) && HasNoOrphan(s.registry) && HasNoAbandoned(s) && IsRun(s, es) && IsCleanRun(s, es)
    ensures HasNoOrphan(After(s, es).registry) && HasNoAbandoned(After(s, es))
    decreases |es|
  {
    if es == [] {
    } else {
      ConsistentStep(s.registry, ChangeOf(s, es[0]));
      OrphansArise(s.registry, ChangeOf(s, es[0]));
      AbandonedStep(s, es[0]);
      CleanRun(Apply(s, es[0]), es[1..]);
    }
  }

  /**
   If no `add` fails at its last write and no unsettled execution is let go of, then at rest every slot that was
   acquired has been released, also after cancellations of queued executions.
   */
  lemma QuiescentBalance(s0: State, es: seq<Event>, k: QueueKind)
    requires IsInitial(s0) && IsRun(s0, es) && IsCleanRun(s0, es) && IsAtRest(After(s0, es))
    ensures var s := After(s0, es);
            s.control.enabled && k in s.control.queues ==>
              k in s.control.limits && s.control.queues[k] == QueueState(s.control.limits[k], [])
  {
    InitialIsConserved(s0);
    ConservedRun(s0, es);
    CleanRun(s0, es);
    var s := After(s0, es);
    if s.control.enabled && k in s.control.queues {
      BalanceAtRest(s, k);
    }
  }
}
