/**
 Concurrency limits per kind of execution (packages/cli/src/concurrency/concurrency-control.service.ts).
 Telemetry, logging and the database calls of this service are not part of the model.
 */
module ConcurrencyControl {
  import opened Wrappers
  import opened ConcurrencyQueues

  datatype Mode = Cli | Error | Integrated | Internal | Manual | Retry | Trigger | Webhook | Evaluation

  datatype QueueKind = ProductionQueue | EvaluationQueue

  function QueueFor(mode: Mode): Option<QueueKind> {
    match mode
    case Webhook | Trigger => Some(ProductionQueue)
    case Evaluation => Some(EvaluationQueue)
    case _ => None
  }

  datatype Control = Control(enabled: bool, limits: map<QueueKind, int>, queues: map<QueueKind, QueueState>)

  datatype SetupError = InvalidConcurrencyLimit(limit: int)

  function LimitOf(productionLimit: int, evaluationLimit: int, k: QueueKind): int {
    if k.ProductionQueue? then productionLimit else evaluationLimit
  }

  function Normalized(limit: int): int {
    if limit < -1 then -1 else limit
  }

  function Setup(productionLimit: int, evaluationLimit: int, queueMode: bool): Result<Control, SetupError> {
    if productionLimit == 0 || evaluationLimit == 0 then Failure(InvalidConcurrencyLimit(0)) else
      var limits := map[ProductionQueue := Normalized(productionLimit), EvaluationQueue := Normalized(evaluationLimit)];
      if (forall k <- limits :: limits[k] == -1) || queueMode
      then Success(Control(false, limits, map[]))
      else Success(Control(true, limits, map k | k in limits && limits[k] > 0 :: QueueState(limits[k], [])))
  }

  /** Whether calls for this mode reach a queue at all. */
  predicate IsLimited(c: Control, mode: Mode) {
    c.enabled && QueueFor(mode).Some? && QueueFor(mode).value in c.queues
  }

  function Throttle(c: Control, mode: Mode, w: Waiter): (Control, bool) {
    if !IsLimited(c, mode) then (c, true) else
      var kind := QueueFor(mode).value;
      var (q, proceeds) := Enqueue(c.queues[kind], w);
      (c.(queues := c.queues[kind := q]), proceeds)
  }

  function Release(c: Control, mode: Mode): (Control, Option<Waiter>) {
    if !IsLimited(c, mode) then (c, None) else
      var kind := QueueFor(mode).value;
      var (q, woken) := Dequeue(c.queues[kind]);
      (c.(queues := c.queues[kind := q]), woken)
  }

  function RemoveQueued(c: Control, mode: Mode, id: string): (Control, Option<Waiter>) {
    if !IsLimited(c, mode) then (c, None) else
      var kind := QueueFor(mode).value;
      var (q, woken) := Remove(c.queues[kind], id);
      (c.(queues := c.queues[kind := q]), woken)
  }

  function EmptyQueue(c: Control, kind: QueueKind): (Control, seq<Waiter>) {
    if kind !in c.queues then (c, []) else
      var (q, woken) := RemoveEach(c.queues[kind], Ids(c.queues[kind].waiting));
      (c.(queues := c.queues[kind := q]), woken)
  }

  function RemoveAllQueued(c: Control): (Control, seq<Waiter>) {
    if !c.enabled then (c, []) else
      var (c1, woken1) := EmptyQueue(c, ProductionQueue);
      var (c2, woken2) := EmptyQueue(c1, EvaluationQueue);
      (c2, woken1 + woken2)
  }

  function Disable(c: Control): Control {
    c.(enabled := false)
  }

  /** A new service is disabled exactly in queue mode or without any limit; each limit has a queue, all of it free. */
  lemma SetupStartsFull(productionLimit: int, evaluationLimit: int, queueMode: bool)
    ensures var r := Setup(productionLimit, evaluationLimit, queueMode);
            && (r.Failure? <==> productionLimit == 0 || evaluationLimit == 0)
            && (r.Success? ==>
                  && (r.value.enabled <==> !queueMode && (productionLimit > 0 || evaluationLimit > 0))
                  && (ProductionQueue in r.value.queues <==> r.value.enabled && productionLimit > 0)
                  && (EvaluationQueue in r.value.queues <==> r.value.enabled && evaluationLimit > 0)
                  && (forall k <- r.value.queues ::
                        && k in r.value.limits && Tight(r.value.queues[k])
                        && Free(r.value.queues[k]) == r.value.limits[k] > 0
                        && r.value.limits[k] == LimitOf(productionLimit, evaluationLimit, k)))
  {
    var r := Setup(productionLimit, evaluationLimit, queueMode);
    if r.Success? {
      assert ProductionQueue in r.value.limits && EvaluationQueue in r.value.limits;
    }
  }

  // ----- What the calls answer -----

  /** Executions of these modes are never limited. */
  const UNLIMITED_MODES: set<Mode> := {Cli, Error, Integrated, Internal, Manual, Retry}

  /** A disabled service, an unlimited mode or a limit of -1 lets everybody through and wakes nobody. */
  lemma UnlimitedCallsPass(c: Control, mode: Mode, w: Waiter, id: string)
    requires || !c.enabled || mode in UNLIMITED_MODES
             || (mode in {Webhook, Trigger} && ProductionQueue !in c.queues)
             || (mode == Evaluation && EvaluationQueue !in c.queues)
    ensures Throttle(c, mode, w) == (c, true)
    ensures Release(c, mode) == (c, None)
    ensures RemoveQueued(c, mode, id) == (c, None)
  {
  }

  /** All other calls are about one queue: webhooks and triggers share one, evaluations have their own. */
  lemma LimitedCallsReachTheirQueue(c: Control, mode: Mode, w: Waiter, id: string, k: QueueKind)
    requires c.enabled && k in c.queues
    requires mode == Webhook || mode == Trigger || mode == Evaluation
    requires k == if mode == Evaluation then EvaluationQueue else ProductionQueue
    ensures var q := c.queues[k];
            && (q.capacity > 0 ==>
                  Throttle(c, mode, w) == (c.(queues := c.queues[k := QueueState(q.capacity - 1, q.waiting)]), true))
            && (q.capacity <= 0 ==>
                  Throttle(c, mode, w)
                  == (c.(queues := c.queues[k := QueueState(q.capacity - 1, q.waiting + [w])]), false))
    ensures var q := c.queues[k];
            && (q.waiting == [] ==>
                  Release(c, mode) == (c.(queues := c.queues[k := QueueState(q.capacity + 1, [])]), None))
            && (q.waiting != [] ==>
                  Release(c, mode)
                  == (c.(queues := c.queues[k := QueueState(q.capacity + 1, q.waiting[1..])]), Some(q.waiting[0])))
    ensures var q := c.queues[k];
            && ((forall v <- q.waiting :: v.executionId != id) ==> RemoveQueued(c, mode, id) == (c, None))
            && (forall v <- q.waiting | v.executionId == id && |q.waiting| == 1 ::
                  RemoveQueued(c, mode, id) == (c.(queues := c.queues[k := QueueState(q.capacity + 1, [])]), None))
  {
    var q := c.queues[k];
    assert c.queues[k := q] == c.queues;
    if |q.waiting| == 1 && q.waiting[0].executionId == id {
      assert q.waiting[..0] + q.waiting[1..] == [];
      assert Remove(q, id) == (QueueState(q.capacity + 1, []), None);
    }
    if v :| v in q.waiting && v.executionId == id && |q.waiting| == 1 {
      assert v == q.waiting[0];
    }
  }

  /** Emptying the queues empties each of them, production first. */
  lemma RemoveAllEmptiesEveryQueue(c: Control)
    requires c.enabled && (forall k <- c.queues :: DistinctIds(c.queues[k].waiting))
    ensures var (c', woken) := RemoveAllQueued(c);
            && c'.enabled && c'.limits == c.limits && c'.queues.Keys == c.queues.Keys
            && (forall k <- c'.queues ::
                  && c'.queues[k].waiting == []
                  && c'.queues[k].capacity == c.queues[k].capacity + (|c.queues[k].waiting| + 1) / 2)
            && woken == (if ProductionQueue in c.queues then EverySecond(c.queues[ProductionQueue].waiting) else [])
                        + (if EvaluationQueue in c.queues then EverySecond(c.queues[EvaluationQueue].waiting) else [])
  {
    var (c1, woken1) := EmptyQueue(c, ProductionQueue);
    EmptyingOne(c, ProductionQueue);
    EmptyingOne(c1, EvaluationQueue);
    forall k <- RemoveAllQueued(c).0.queues ensures k == ProductionQueue || k == EvaluationQueue {
      match k
      case ProductionQueue =>
      case EvaluationQueue =>
    }
  }

  lemma EmptyingOne(c: Control, kind: QueueKind)
    requires forall k <- c.queues :: DistinctIds(c.queues[k].waiting) || k != kind
    ensures var (c', woken) := EmptyQueue(c, kind);
            && c'.enabled == c.enabled && c'.limits == c.limits && c'.queues.Keys == c.queues.Keys
            && (forall k <- c.queues | k != kind :: c'.queues[k] == c.queues[k])
            && (kind !in c.queues ==> woken == [])
            && (kind in c.queues ==>
                  && c'.queues[kind]
                     == QueueState(c.queues[kind].capacity + (|c.queues[kind].waiting| + 1) / 2, [])
                  && woken == EverySecond(c.queues[kind].waiting))
  {
    if kind in c.queues {
      RemoveEachDropsEveryOther(c.queues[kind]);
    }
  }

  class ConcurrencyControlService {
    var isEnabled: bool
    const limits: map<QueueKind, int>
    const queues: map<QueueKind, ConcurrencyQueue>

    ghost predicate Valid() {
      forall k1, k2 :: k1 in queues && k2 in queues && k1 != k2 ==> queues[k1] != queues[k2]
    }

    function View(): Control
      reads this, queues.Values
    {
      Control(isEnabled, limits, map k | k in queues :: queues[k].View())
    }

    /** Builds the service, or reports the limit its configuration may not have. */
    static method Create(productionLimit: int, evaluationLimit: int, queueMode: bool)
      returns (r: Result<ConcurrencyControlService, SetupError>)
      ensures r.Success? <==> Setup(productionLimit, evaluationLimit, queueMode).Success?
      ensures r.Failure? ==> r.error == Setup(productionLimit, evaluationLimit, queueMode).error
      ensures r.Success? ==>
                && fresh(r.value) && fresh(r.value.queues.Values) && r.value.Valid()
                && r.value.View() == Setup(productionLimit, evaluationLimit, queueMode).value
    {
      if productionLimit == 0 || evaluationLimit == 0 {
        return Failure(InvalidConcurrencyLimit(0));
      }
      var limits := map[ProductionQueue := Normalized(productionLimit), EvaluationQueue := Normalized(evaluationLimit)];
      assert ProductionQueue in limits && EvaluationQueue in limits;
      var enabled := !((limits[ProductionQueue] == -1 && limits[EvaluationQueue] == -1) || queueMode);
      var queues: map<QueueKind, ConcurrencyQueue> := map[];
      if enabled {
        queues := OpenQueues(limits);
      }
      var service := new ConcurrencyControlService.Over(enabled, limits, queues);
      r := Success(service);
      ghost var expected := Setup(productionLimit, evaluationLimit, queueMode).value;
      assert forall k <- limits :: k == ProductionQueue || k == EvaluationQueue;
      assert service.View().queues == expected.queues;
    }

    /** One queue for each positive limit. */
    static method OpenQueues(limits: map<QueueKind, int>) returns (queues: map<QueueKind, ConcurrencyQueue>)
      requires ProductionQueue in limits && EvaluationQueue in limits
      ensures forall k :: k in queues <==> k in limits && limits[k] > 0
      ensures fresh(queues.Values) && forall k <- queues :: queues[k].View() == QueueState(limits[k], [])
      ensures forall k1, k2 :: k1 in queues && k2 in queues && k1 != k2 ==> queues[k1] != queues[k2]
    {
      queues := map[];
      if limits[ProductionQueue] > 0 {
        var production := new ConcurrencyQueue(limits[ProductionQueue]);
        queues := queues[ProductionQueue := production];
      }
      if limits[EvaluationQueue] > 0 {
        var evaluation := new ConcurrencyQueue(limits[EvaluationQueue]);
        queues := queues[EvaluationQueue := evaluation];
      }
      forall k ensures k in queues <==> k in limits && limits[k] > 0 {
        match k
        case ProductionQueue =>
        case EvaluationQueue =>
      }
    }

    constructor Over(enabled: bool, limits: map<QueueKind, int>, queues: map<QueueKind, ConcurrencyQueue>)
      ensures isEnabled == enabled && this.limits == limits && this.queues == queues
    {
      this.isEnabled := enabled;
      this.limits := limits;
      this.queues := queues;
    }

    method ThrottleCall(mode: Mode, executionId: string, ticket: Ticket) returns (proceeds: bool)
      requires Valid()
      modifies queues.Values
      ensures (View(), proceeds) == Throttle(old(View()), mode, Waiter(executionId, ticket))
    {
      proceeds := true;
      var kind := QueueFor(mode);
      if isEnabled && kind.Some? && kind.value in queues {
        proceeds := queues[kind.value].EnqueueCaller(executionId, ticket);
        assert View().queues == old(View()).queues[kind.value := queues[kind.value].View()];
      }
    }

    method ReleaseCall(mode: Mode) returns (woken: Option<Waiter>)
      requires Valid()
      modifies queues.Values
      ensures (View(), woken) == Release(old(View()), mode)
    {
      woken := None;
      var kind := QueueFor(mode);
      if isEnabled && kind.Some? && kind.value in queues {
        woken := queues[kind.value].DequeueCaller();
        assert View().queues == old(View()).queues[kind.value := queues[kind.value].View()];
      }
    }

    method RemoveCall(mode: Mode, executionId: string) returns (woken: Option<Waiter>)
      requires Valid()
      modifies queues.Values
      ensures (View(), woken) == RemoveQueued(old(View()), mode, executionId)
    {
      woken := None;
      var kind := QueueFor(mode);
      if isEnabled && kind.Some? && kind.value in queues {
        woken := queues[kind.value].RemoveCaller(executionId);
        assert View().queues == old(View()).queues[kind.value := queues[kind.value].View()];
      }
    }

    /** Removes the given ids from one queue, one at a time. */
    static method RemoveIds(queue: ConcurrencyQueue, ids: seq<string>) returns (woken: seq<Waiter>)
      modifies queue
      ensures (queue.View(), woken) == RemoveEach(old(queue.View()), ids)
    {
      woken := [];
      var i := 0;
      ghost var whole := RemoveEach(queue.View(), ids);
      assert ids[i..] == ids && [] + whole.1 == whole.1;
      while i < |ids|
        invariant 0 <= i <= |ids|
        invariant RemoveEach(queue.View(), ids[i..]).0 == whole.0
        invariant woken + RemoveEach(queue.View(), ids[i..]).1 == whole.1
      {
        assert ids[i..][1..] == ids[i + 1..];
        var next := queue.RemoveCaller(ids[i]);
        ghost var rest := RemoveEach(queue.View(), ids[i + 1..]).1;
        assert woken + (AsSeq(next) + rest) == (woken + AsSeq(next)) + rest;
        woken := woken + AsSeq(next);
        i := i + 1;
      }
      assert ids[i..] == [] && woken + [] == woken;
    }

    method EmptyQueueCall(kind: QueueKind) returns (woken: seq<Waiter>)
      requires Valid()
      modifies queues.Values
      ensures (View(), woken) == EmptyQueue(old(View()), kind)
    {
      woken := [];
      if kind in queues {
        woken := RemoveIds(queues[kind], Ids(queues[kind].waiting));
        assert View().queues == old(View()).queues[kind := queues[kind].View()];
      }
    }

    method RemoveAllCall() returns (woken: seq<Waiter>)
      requires Valid()
      modifies queues.Values
      ensures (View(), woken) == RemoveAllQueued(old(View()))
    {
      woken := [];
      if isEnabled {
        var fromProduction := EmptyQueueCall(ProductionQueue);
        var fromEvaluation := EmptyQueueCall(EvaluationQueue);
        woken := fromProduction + fromEvaluation;
      }
    }

    method DisableCall()
      modifies this
      ensures View() == Disable(old(View()))
    {
      isEnabled := false;
    }
  }
}
