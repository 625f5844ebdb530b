/**
 Runs of a new process that show what can go wrong (packages/cli/src/active-executions.ts,
 packages/cli/src/concurrency/concurrency-queue.ts). The process runs one production execution at a time.
 */
module ExecutionExamples {
  import opened Wrappers
  import opened ConcurrencyQueues
  import opened ConcurrencyControl
  import opened ExecutionRegistry
  import opened ExecutionModel
  import opened ExecutionLifecycle
  import opened SlotAccounting
  import opened SlotBalance

  function Limited(capacity: int, waiting: seq<Waiter>): Control {
    Control(true, map[ProductionQueue := 1, EvaluationQueue := -1],
            map[ProductionQueue := QueueState(capacity, waiting)])
  }

  function At(capacity: int, waiting: seq<Waiter>, registry: Registry, adds: map<Ticket, AddCall>): State {
    State(true, Limited(capacity, waiting), registry, adds)
  }

  const NOTHING := Registry(map[], [], {})

  function Start(): State {
    At(1, [], NOTHING, map[])
  }

  lemma StartIsInitial()
    ensures IsInitial(Start())
  {
    var limits := map[ProductionQueue := Normalized(1), EvaluationQueue := Normalized(-1)];
    assert limits == Limited(1, []).limits && limits[ProductionQueue] != -1;
    var queues := map k | k in limits && limits[k] > 0 :: QueueState(limits[k], []);
    assert queues == Limited(1, []).queues;
    assert Setup(1, -1, false) == Success(Control(true, limits, queues));
    assert IsConfigured(Start(), 1, -1);
  }

  lemma Then(s: State, e: Event, s': State, es: seq<Event>)
    requires WellFormed(s.registry) && Enabled(s, e) && Apply(s, e) == s' && IsRun(s', es)
    ensures IsRun(s, [e] + es) && After(s, [e] + es) == After(s', es)
    ensures DisciplinedRun(s', es) && IsDisciplined(s.registry, ChangeOf(s, e)) ==> DisciplinedRun(s, [e] + es)
  {
    assert ([e] + es)[0] == e && ([e] + es)[1..] == es;
  }

  lemma Resumes(capacity: int, ws: seq<Waiter>, g: Registry, adds: map<Ticket, AddCall>, t: Ticket, id: string)
    requires WellFormed(g) && t !in adds
    ensures Apply(At(capacity, ws, g, adds), BeginResume(t, id, Webhook))
            == if capacity > 0 then At(capacity - 1, ws, g, adds[t := Admitted(id, Webhook)])
               else At(capacity - 1, ws + [Waiter(id, t)], g, adds[t := Throttled(id, Webhook)])
  {
    var c := Limited(capacity, ws);
    var (q, proceeds) := Enqueue(QueueState(capacity, ws), Waiter(id, t));
    assert c.queues[ProductionQueue := q] == map[ProductionQueue := q];
  }

  lemma CancelsFirst(capacity: int, w: Waiter, next: Waiter, g: Registry, adds: map<Ticket, AddCall>)
    requires WellFormed(g)
    ensures Apply(At(capacity, [w, next], g, adds), CancelQueued(Webhook, w.executionId))
            == At(capacity + 1, [], g, Admit(adds, Some(next)))
  {
    var ws := [w, next];
    var c := Limited(capacity, ws);
    assert IndexOf(ws, w.executionId) == 0 && ws[..0] + ws[1..] == [next] && [next][1..] == [];
    var q := QueueState(capacity + 1, []);
    assert Remove(QueueState(capacity, ws), w.executionId) == (q, Some(next));
    assert c.queues[ProductionQueue := q] == map[ProductionQueue := q];
  }

  // ----- More executions than the limit allows -----

  function Waiting(b: AddCall, c: AddCall): map<Ticket, AddCall> {
    map[0 := Admitted("a", Webhook), 1 := b, 2 := c]
  }

  function TwoQueued(): State {
    At(-2, [Waiter("b", 1), Waiter("c", 2)], NOTHING, Waiting(Throttled("b", Webhook), Throttled("c", Webhook)))
  }

  function TwoAdmitted(): State {
    At(-1, [], NOTHING, Waiting(Throttled("b", Webhook), Admitted("c", Webhook)))
  }

  lemma TwoAreQueued(es: seq<Event>) returns (all: seq<Event>)
    requires IsRun(TwoQueued(), es)
    ensures all == [BeginResume(0, "a", Webhook)]
                   + ([BeginResume(1, "b", Webhook)] + ([BeginResume(2, "c", Webhook)] + es))
    ensures IsRun(Start(), all) && After(Start(), all) == After(TwoQueued(), es)
  {
    ThirdQueued(es);
    all := OneIsQueued([BeginResume(2, "c", Webhook)] + es);
  }

  function OneQueued(): State {
    At(-1, [Waiter("b", 1)], NOTHING, map[0 := Admitted("a", Webhook), 1 := Throttled("b", Webhook)])
  }

  lemma ThirdQueued(es: seq<Event>)
    requires IsRun(TwoQueued(), es)
    ensures IsRun(OneQueued(), [BeginResume(2, "c", Webhook)] + es)
    ensures After(OneQueued(), [BeginResume(2, "c", Webhook)] + es) == After(TwoQueued(), es)
  {
    var b := Waiter("b", 1);
    Resumes(-1, [b], NOTHING, OneQueued().adds, 2, "c");
    assert [b] + [Waiter("c", 2)] == [b, Waiter("c", 2)];
    Then(OneQueued(), BeginResume(2, "c", Webhook), TwoQueued(), es);
  }

  lemma OneIsQueued(es: seq<Event>) returns (all: seq<Event>)
    requires IsRun(OneQueued(), es)
    ensures all == [BeginResume(0, "a", Webhook)] + ([BeginResume(1, "b", Webhook)] + es)
    ensures IsRun(Start(), all) && After(Start(), all) == After(OneQueued(), es)
  {
    var s1 := At(0, [], NOTHING, map[0 := Admitted("a", Webhook)]);
    Resumes(0, [], NOTHING, s1.adds, 1, "b");
    assert [] + [Waiter("b", 1)] == [Waiter("b", 1)];
    Then(s1, BeginResume(1, "b", Webhook), OneQueued(), es);
    all := [BeginResume(1, "b", Webhook)] + es;
    Resumes(1, [], NOTHING, map[], 0, "a");
    Then(Start(), BeginResume(0, "a", Webhook), s1, all);
    all := [BeginResume(0, "a", Webhook)] + all;
  }

  lemma OneTooMany()
    ensures IsRun(TwoQueued(), [CancelQueued(Webhook, "b")])
    ensures After(TwoQueued(), [CancelQueued(Webhook, "b")]) == TwoAdmitted()
    ensures Held(TwoAdmitted(), ProductionQueue) == 2
  {
    CancelsFirst(-2, Waiter("b", 1), Waiter("c", 2), NOTHING, TwoQueued().adds);
    assert Admit(TwoQueued().adds, Some(Waiter("c", 2))) == TwoAdmitted().adds;
    Then(TwoQueued(), CancelQueued(Webhook, "b"), TwoAdmitted(), []);
    assert [CancelQueued(Webhook, "b")] + [] == [CancelQueued(Webhook, "b")];
    assert HeldByObjects(NOTHING, ProductionQueue) == {};
    assert HeldByAdds(TwoAdmitted().adds, ProductionQueue) == {0, 2};
  }

  /**
   Three executions are resumed, of which two wait. Cancelling the first of those lets the other one go on, beside
   the one that is running: two hold a slot, of one.
   */
  lemma LimitExceeded() returns (es: seq<Event>)
    ensures es == [BeginResume(0, "a", Webhook), BeginResume(1, "b", Webhook), BeginResume(2, "c", Webhook),
                   CancelQueued(Webhook, "b")]
    ensures IsInitial(Start()) && IsRun(Start(), es)
    ensures After(Start(), es) == TwoAdmitted() && TwoAdmitted().control.limits[ProductionQueue] == 1
    ensures Held(TwoAdmitted(), ProductionQueue) == 2
  {
    StartIsInitial();
    OneTooMany();
    es := TwoAreQueued([CancelQueued(Webhook, "b")]);
    assert es == [BeginResume(0, "a", Webhook), BeginResume(1, "b", Webhook), BeginResume(2, "c", Webhook),
                  CancelQueued(Webhook, "b")];
  }

  // ----- One execution, stored -----

  function Stored(mode: Mode, status: Status, outcome: Outcome<Option<RunData>>): Execution {
    Execution("a", mode, 10, status, None, None, outcome)
  }

  function Holding(capacity: int, e: Execution): State {
    At(capacity, [], Registry(map["a" := 0], [e], {0}), map[])
  }

  lemma StoredOnce(capacity: int, mode: Mode)
    ensures var s := At(capacity, [], NOTHING, map[0 := Admitted("a", mode)]);
            && Enabled(s, Written(0, 10))
            && Apply(s, Written(0, 10)) == Holding(capacity, Stored(mode, Running, Pending))
  {
    assert map[0 := Admitted("a", mode)] - {0} == map[];
    assert NOTHING.active["a" := 0] == map["a" := 0];
  }

  /** A call on the execution that keeps it. */
  lemma Called(capacity: int, e: Execution, op: Operation, e': Execution)
    requires e.id == op.id == "a" && Operate(op, e) == Some(e')
    ensures Apply(Holding(capacity, e), Call(op)) == Holding(capacity, e')
  {
    assert [e][0 := e'] == [e'];
  }

  // ----- A waiting execution stopped before it settles -----

  function Stopped(): State {
    At(0, [], Registry(map[], [Stored(Webhook, Status.Waiting, Pending)], {0}), map[])
  }

  lemma StoppedWhileWaiting()
    ensures Apply(Holding(0, Stored(Webhook, Status.Waiting, Pending)), Call(Stop("a"))) == Stopped()
  {
    assert map["a" := 0] - {"a"} == map[];
  }

  /** Even callers that keep the discipline can lose a slot for good: nothing settles the execution any more. */
  lemma SlotLost() returns (es: seq<Event>)
    ensures es == [BeginResume(0, "a", Webhook), Written(0, 10), Call(SetStatus("a", Status.Waiting)), Call(Stop("a"))]
    ensures IsInitial(Start()) && IsRun(Start(), es) && DisciplinedRun(Start(), es)
    ensures After(Start(), es) == Stopped() && IsOrphan(Stopped().registry, 0)
    ensures forall later | IsRun(Stopped(), later) ::
              var s := After(Stopped(), later);
              s.control.enabled && ProductionQueue in s.control.queues ==> Free(s.control.queues[ProductionQueue]) < 1
  {
    StartIsInitial();
    LostForGood();
    es := StoppedInTheEnd();
  }

  lemma StoppedInTheEnd() returns (es: seq<Event>)
    ensures es == [BeginResume(0, "a", Webhook), Written(0, 10), Call(SetStatus("a", Status.Waiting)), Call(Stop("a"))]
    ensures IsRun(Start(), es) && DisciplinedRun(Start(), es) && After(Start(), es) == Stopped()
  {
    var running := Stored(Webhook, Running, Pending);
    es := WaitingStopped();
    StoredOnce(0, Webhook);
    var s1 := At(0, [], NOTHING, map[0 := Admitted("a", Webhook)]);
    Then(s1, Written(0, 10), Holding(0, running), es);
    es := [Written(0, 10)] + es;
    Resumes(1, [], NOTHING, map[], 0, "a");
    Then(Start(), BeginResume(0, "a", Webhook), s1, es);
    es := [BeginResume(0, "a", Webhook)] + es;
  }

  lemma WaitingStopped() returns (es: seq<Event>)
    ensures es == [Call(SetStatus("a", Status.Waiting)), Call(Stop("a"))]
    ensures var s := Holding(0, Stored(Webhook, Running, Pending));
            IsRun(s, es) && DisciplinedRun(s, es) && After(s, es) == Stopped()
  {
    var running, waiting := Stored(Webhook, Running, Pending), Stored(Webhook, Status.Waiting, Pending);
    StoppedWhileWaiting();
    Then(Holding(0, waiting), Call(Stop("a")), Stopped(), []);
    es := [Call(Stop("a"))];
    Called(0, running, SetStatus("a", Status.Waiting), waiting);
    Then(Holding(0, running), Call(SetStatus("a", Status.Waiting)), Holding(0, waiting), es);
    es := [Call(SetStatus("a", Status.Waiting))] + es;
  }

  lemma LostForGood()
    ensures IsOrphan(Stopped().registry, 0)
    ensures forall later | IsRun(Stopped(), later) ::
              var s := After(Stopped(), later);
              s.control.enabled && ProductionQueue in s.control.queues ==> Free(s.control.queues[ProductionQueue]) < 1
  {
    var s := Stopped();
    assert HeldByObjects(s.registry, ProductionQueue) == {0} && HeldByAdds(s.adds, ProductionQueue) == {};
    assert Conserved(s);
    forall later | IsRun(s, later)
      ensures var s' := After(s, later);
              s'.control.enabled && ProductionQueue in s'.control.queues
              ==> Free(s'.control.queues[ProductionQueue]) < 1
    {
      OrphanKeepsItsSlot(s, later, 0, ProductionQueue);
      LimitsStay(s, later);
    }
  }

  lemma {:induction false} LimitsStay(s: State, es: seq<Event>)
    requires WellFormed(s.registry) && IsRun(s, es)
    ensures After(s, es).control.limits == s.control.limits
    decreases |es|
  {
    if es == [] {
    } else {
      LimitsStay(Apply(s, es[0]), es[1..]);
    }
  }

  // ----- An `add` whose last write fails -----

  function Failed(): State {
    At(0, [], NOTHING, map[0 := Abandoned(Webhook)])
  }

  /** One failed write, and the only slot is lost for good. */
  lemma SlotLostByFailedWrite() returns (es: seq<Event>)
    ensures es == [BeginResume(0, "a", Webhook), WriteFailed(0)]
    ensures IsInitial(Start()) && IsRun(Start(), es) && DisciplinedRun(Start(), es) && After(Start(), es) == Failed()
    ensures forall later | IsRun(Failed(), later) ::
              var s := After(Failed(), later);
              s.control.enabled && ProductionQueue in s.control.queues ==> Free(s.control.queues[ProductionQueue]) < 1
  {
    StartIsInitial();
    FailedForGood();
    var s1 := At(0, [], NOTHING, map[0 := Admitted("a", Webhook)]);
    assert s1.adds[0 := Abandoned(Webhook)] == Failed().adds;
    Then(s1, WriteFailed(0), Failed(), []);
    es := [WriteFailed(0)];
    Resumes(1, [], NOTHING, map[], 0, "a");
    Then(Start(), BeginResume(0, "a", Webhook), s1, es);
    es := [BeginResume(0, "a", Webhook)] + es;
  }

  lemma FailedForGood()
    ensures forall later | IsRun(Failed(), later) ::
              var s := After(Failed(), later);
              s.control.enabled && ProductionQueue in s.control.queues ==> Free(s.control.queues[ProductionQueue]) < 1
  {
    var s := Failed();
    assert HeldByObjects(s.registry, ProductionQueue) == {} && HeldByAdds(s.adds, ProductionQueue) == {0};
    assert Conserved(s);
    forall later | IsRun(s, later)
      ensures var s' := After(s, later);
              s'.control.enabled && ProductionQueue in s'.control.queues
              ==> Free(s'.control.queues[ProductionQueue]) < 1
    {
      FailedAddKeepsItsSlot(s, later, 0, ProductionQueue);
      LimitsStay(s, later);
    }
  }

  // ----- A resume under the empty id -----

  function Nameless(): Registry {
    Registry(map["" := 0], [Execution("", Manual, 10, New, None, None, Pending)], {0})
  }

  lemma NamelessStored()
    ensures Apply(At(1, [], NOTHING, map[0 := Admitted("", Manual)]), Written(0, 10)) == At(1, [], Nameless(), map[])
  {
    assert map[0 := Admitted("", Manual)] - {0} == map[];
    assert NOTHING.active["" := 0] == Nameless().active;
  }

  /** The stored execution has the status that `add` otherwise never stores. */
  lemma EmptyIdStaysNew() returns (es: seq<Event>)
    ensures es == [BeginResume(0, "", Manual), Written(0, 10)]
    ensures IsInitial(Start()) && IsRun(Start(), es)
    ensures After(Start(), es).registry == Nameless() && Nameless().objs[0].status == New
  {
    StartIsInitial();
    var s1 := At(1, [], NOTHING, map[0 := Admitted("", Manual)]);
    NamelessStored();
    Then(s1, Written(0, 10), At(1, [], Nameless(), map[]), []);
    es := [Written(0, 10)];
    Then(Start(), BeginResume(0, "", Manual), s1, es);
    es := [BeginResume(0, "", Manual)] + es;
  }

  // ----- A finalized execution overwritten before its callback has run -----

  function Overwritten(): Registry {
    Registry(map["a" := 1], [Stored(Manual, Running, Resolved(None)), Stored(Manual, Running, Pending)], {0, 1})
  }

  function Deleted(): Registry {
    Registry(map[], [Stored(Manual, Running, Resolved(None)), Stored(Manual, Running, Pending)], {1})
  }

  function Again(): map<Ticket, AddCall> {
    map[1 := Admitted("a", Manual)]
  }

  lemma ResumedAgain()
    ensures var s := Holding(1, Stored(Manual, Running, Resolved(None)));
            && Apply(s, BeginResume(1, "a", Manual)) == s.(adds := Again())
            && Apply(s.(adds := Again()), Written(1, 20)) == At(1, [], Overwritten(), map[])
  {
    var e := Stored(Manual, Running, Resolved(None));
    assert Again() - {1} == map[];
    assert map["a" := 0]["a" := 1] == map["a" := 1];
    assert [e] + [Stored(Manual, Running, Pending)] == Overwritten().objs;
  }

  lemma OldCallbackDeletes()
    ensures var s := At(1, [], Overwritten(), map[]);
            Enabled(s, Callback(0)) && Apply(s, Callback(0)) == At(1, [], Deleted(), map[])
  {
    assert map["a" := 1] - {"a"} == map[];
    assert {0, 1} - {0} == {1};
  }

  /** The callback of the first execution deletes the second one, which nobody can settle any more. */
  lemma NewExecutionDeleted() returns (es: seq<Event>)
    ensures es == [BeginResume(0, "a", Manual), Written(0, 10), Call(Finalize("a", None)),
                   BeginResume(1, "a", Manual), Written(1, 20), Callback(0)]
    ensures IsInitial(Start()) && IsRun(Start(), es)
    ensures After(Start(), es).registry == Deleted() && IsOrphan(Deleted(), 1)
  {
    StartIsInitial();
    SecondIsOrphan();
    var rest := SecondDeleted();
    es := FirstFinalized(rest);
  }

  lemma SecondIsOrphan()
    ensures IsOrphan(Deleted(), 1)
  {
  }

  lemma SecondDeleted() returns (es: seq<Event>)
    ensures es == [BeginResume(1, "a", Manual), Written(1, 20), Callback(0)]
    ensures IsRun(Holding(1, Stored(Manual, Running, Resolved(None))), es)
    ensures After(Holding(1, Stored(Manual, Running, Resolved(None))), es) == At(1, [], Deleted(), map[])
  {
    var s3, s5 := Holding(1, Stored(Manual, Running, Resolved(None))), At(1, [], Overwritten(), map[]);
    OldCallbackDeletes();
    Then(s5, Callback(0), At(1, [], Deleted(), map[]), []);
    es := [Callback(0)];
    ResumedAgain();
    Then(s3.(adds := Again()), Written(1, 20), s5, es);
    es := [Written(1, 20)] + es;
    Then(s3, BeginResume(1, "a", Manual), s3.(adds := Again()), es);
    es := [BeginResume(1, "a", Manual)] + es;
  }

  lemma FirstFinalized(es: seq<Event>) returns (all: seq<Event>)
    requires IsRun(Holding(1, Stored(Manual, Running, Resolved(None))), es)
    ensures all == [BeginResume(0, "a", Manual)] + ([Written(0, 10)] + ([Call(Finalize("a", None))] + es))
    ensures IsRun(Start(), all)
    ensures After(Start(), all) == After(Holding(1, Stored(Manual, Running, Resolved(None))), es)
  {
    var running, done := Stored(Manual, Running, Pending), Stored(Manual, Running, Resolved(None));
    Called(1, running, Finalize("a", None), done);
    Then(Holding(1, running), Call(Finalize("a", None)), Holding(1, done), es);
    all := [Call(Finalize("a", None))] + es;
    StoredOnce(1, Manual);
    var s1 := At(1, [], NOTHING, map[0 := Admitted("a", Manual)]);
    Then(s1, Written(0, 10), Holding(1, running), all);
    all := [Written(0, 10)] + all;
    Then(Start(), BeginResume(0, "a", Manual), s1, all);
    all := [BeginResume(0, "a", Manual)] + all;
  }
}
