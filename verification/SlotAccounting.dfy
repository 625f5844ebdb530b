/**
 Where the concurrency slots are: held by executions, by suspended `add` calls, or free
 (packages/cli/src/active-executions.ts:70-118, packages/cli/src/concurrency/concurrency-control.service.ts).
 */
module SlotAccounting {
  import opened Wrappers
  import opened ConcurrencyQueues
  import opened ConcurrencyControl
  import opened ExecutionRegistry
  import opened ExecutionModel
  import opened ExecutionLifecycle

  function HeldByObjects(g: Registry, k: QueueKind): set<Ref> {
    set r | r in g.owed && r < |g.objs| && QueueFor(g.objs[r].mode) == Some(k)
  }

  predicate HoldsSlot(a: AddCall, k: QueueKind) {
    (a.Admitted? || a.Abandoned?) && QueueFor(a.mode) == Some(k)
  }

  function HeldByAdds(adds: map<Ticket, AddCall>, k: QueueKind): set<Ticket> {
    set t | t in adds && HoldsSlot(adds[t], k)
  }

  /** Slots acquired and not released: executions that owe their callback, and `add` calls past the throttle. */
  function Held(s: State, k: QueueKind): nat {
    |HeldByObjects(s.registry, k)| + |HeldByAdds(s.adds, k)|
  }

  // ----- The waiters of the queues are suspended `add` calls -----

  predicate IsWaiter(adds: map<Ticket, AddCall>, w: Waiter, k: QueueKind) {
    w.ticket in adds && adds[w.ticket].Throttled? && QueueFor(adds[w.ticket].mode) == Some(k)
  }

  predicate QueueMatches(adds: map<Ticket, AddCall>, ws: seq<Waiter>, k: QueueKind) {
    && (forall w <- ws :: IsWaiter(adds, w, k))
    && (forall i, j :: 0 <= i < j < |ws| ==> ws[i].ticket != ws[j].ticket)
  }

  predicate WaitersMatch(x: Slots) {
    forall k <- x.control.queues :: QueueMatches(x.adds, x.control.queues[k].waiting, k)
  }

  /** Free slots, and slots held by `add` calls. */
  function Ledger(x: Slots, k: QueueKind): int
    requires k in x.control.queues
  {
    Free(x.control.queues[k]) + |HeldByAdds(x.adds, k)|
  }

  /** From `x` to `y` the ledger of one queue gains `gain`, and its waiters are still suspended calls. */
  predicate LedgerStep(x: Slots, y: Slots, k: QueueKind, gain: int) {
    && y.control.enabled == x.control.enabled
    && y.control.limits == x.control.limits
    && y.control.queues.Keys == x.control.queues.Keys
    && k in x.control.queues && k in y.control.queues
    && QueueMatches(y.adds, y.control.queues[k].waiting, k)
    && Ledger(y, k) == Ledger(x, k) + gain
  }

  /** Replacing one call changes the count by whether the old and the new one hold a slot. */
  lemma ReplaceCall(adds: map<Ticket, AddCall>, t: Ticket, a: AddCall, k: QueueKind)
    ensures |HeldByAdds(adds[t := a], k)| + (if t in adds && HoldsSlot(adds[t], k) then 1 else 0)
            == |HeldByAdds(adds, k)| + (if HoldsSlot(a, k) then 1 else 0)
  {
    var others := HeldByAdds(adds, k) - {t};
    assert HeldByAdds(adds[t := a], k) == if HoldsSlot(a, k) then others + {t} else others;
    assert HeldByAdds(adds, k) == if t in adds && HoldsSlot(adds[t], k) then others + {t} else others;
  }

  lemma DropCall(adds: map<Ticket, AddCall>, t: Ticket, k: QueueKind)
    requires t in adds
    ensures |HeldByAdds(adds - {t}, k)| + (if HoldsSlot(adds[t], k) then 1 else 0) == |HeldByAdds(adds, k)|
  {
    var others := HeldByAdds(adds, k) - {t};
    assert HeldByAdds(adds - {t}, k) == others;
    assert HeldByAdds(adds, k) == if HoldsSlot(adds[t], k) then others + {t} else others;
  }

  /** A call other than a waiter may change or go without disturbing the waiters. */
  lemma WaitersUndisturbed(adds: map<Ticket, AddCall>, adds': map<Ticket, AddCall>, t: Ticket,
                           ws: seq<Waiter>, k: QueueKind)
    requires QueueMatches(adds, ws, k) && (t in adds ==> !adds[t].Throttled?)
    requires forall u :: u != t ==> (u in adds' <==> u in adds) && (u in adds ==> adds'[u] == adds[u])
    ensures QueueMatches(adds', ws, k) && forall w <- ws :: w.ticket != t
  {
    forall w <- ws ensures IsWaiter(adds', w, k) && w.ticket != t {
      assert IsWaiter(adds, w, k);
    }
  }

  lemma CallStep(x: Slots, t: Ticket, a: AddCall, k: QueueKind)
    requires WaitersMatch(x) && k in x.control.queues && (t in x.adds ==> !x.adds[t].Throttled?)
    ensures LedgerStep(x, x.(adds := x.adds[t := a]), k,
                       (if HoldsSlot(a, k) then 1 else 0) - (if t in x.adds && HoldsSlot(x.adds[t], k) then 1 else 0))
  {
    assert QueueMatches(x.adds, x.control.queues[k].waiting, k);
    ReplaceCall(x.adds, t, a, k);
    WaitersUndisturbed(x.adds, x.adds[t := a], t, x.control.queues[k].waiting, k);
  }

  lemma DropStep(x: Slots, t: Ticket, k: QueueKind)
    requires WaitersMatch(x) && k in x.control.queues && t in x.adds && !x.adds[t].Throttled?
    ensures LedgerStep(x, x.(adds := x.adds - {t}), k, if HoldsSlot(x.adds[t], k) then -1 else 0)
  {
    assert QueueMatches(x.adds, x.control.queues[k].waiting, k);
    DropCall(x.adds, t, k);
    WaitersUndisturbed(x.adds, x.adds - {t}, t, x.control.queues[k].waiting, k);
  }

  lemma ThrottleStep(x: Slots, t: Ticket, id: string, mode: Mode, k: QueueKind)
    requires WaitersMatch(x) && x.control.enabled && k in x.control.queues && (t in x.adds ==> x.adds[t].Creating?)
    ensures LedgerStep(x, BeginThrottle(x, t, id, mode), k, 0)
  {
    var y := BeginThrottle(x, t, id, mode);
    var ws := x.control.queues[k].waiting;
    assert QueueMatches(x.adds, ws, k);
    ReplaceCall(x.adds, t, y.adds[t], k);
    WaitersUndisturbed(x.adds, y.adds, t, ws, k);
    if y.control.queues[k].waiting != ws {
      assert y.control.queues[k].waiting == ws + [Waiter(id, t)];
    }
  }

  /** Waking the head of a queue turns a waiting call into one that holds the slot. */
  lemma WakeKeepsLedger(x: Slots, q: QueueState, k: QueueKind)
    requires QueueMatches(x.adds, q.waiting, k)
    ensures var (q', woken) := ResolveNext(q);
            var adds := Admit(x.adds, woken);
            && Free(q') + |HeldByAdds(adds, k)| == Free(q) + |HeldByAdds(x.adds, k)|
            && QueueMatches(adds, q'.waiting, k)
            && (forall l :: l != k ==> HeldByAdds(adds, l) == HeldByAdds(x.adds, l))
  {
    if q.waiting != [] {
      var w := q.waiting[0];
      assert IsWaiter(x.adds, w, k);
      ReplaceCall(x.adds, w.ticket, Admitted(x.adds[w.ticket].id, x.adds[w.ticket].mode), k);
      forall v <- q.waiting[1..] ensures IsWaiter(Admit(x.adds, Some(w)), v, k) {
        assert IsWaiter(x.adds, v, k);
      }
    }
  }

  /** Waking a caller of one queue leaves the waiters of the other queue alone. */
  lemma WakeKeepsOthers(adds: map<Ticket, AddCall>, w: Waiter, k: QueueKind, ws: seq<Waiter>, l: QueueKind)
    requires IsWaiter(adds, w, k) && QueueMatches(adds, ws, l) && k != l
    ensures QueueMatches(Admit(adds, Some(w)), ws, l)
  {
    forall v <- ws ensures IsWaiter(Admit(adds, Some(w)), v, l) {
      assert IsWaiter(adds, v, l);
    }
  }

  /** The effect of giving a queue back a slot, or of dropping one of its waiters, on the whole ledger. */
  lemma WakeStep(x: Slots, q: QueueState, kind: QueueKind, k: QueueKind)
    requires WaitersMatch(x) && kind in x.control.queues && k in x.control.queues
    requires QueueMatches(x.adds, q.waiting, kind)
    ensures var (q', woken) := ResolveNext(q);
            LedgerStep(x, Slots(x.control.(queues := x.control.queues[kind := q']), Admit(x.adds, woken)), k,
                       if k == kind then Free(q) - Free(x.control.queues[k]) else 0)
  {
    WakeKeepsLedger(x, q, kind);
    assert QueueMatches(x.adds, x.control.queues[k].waiting, k);
    if k != kind && q.waiting != [] {
      assert IsWaiter(x.adds, q.waiting[0], kind);
      WakeKeepsOthers(x.adds, q.waiting[0], kind, x.control.queues[k].waiting, k);
    }
  }

  lemma ReleaseStep(x: Slots, mode: Mode, k: QueueKind)
    requires WaitersMatch(x) && x.control.enabled && k in x.control.queues
    ensures LedgerStep(x, ReleaseSlot(x, mode), k, if QueueFor(mode) == Some(k) then 1 else 0)
  {
    assert QueueMatches(x.adds, x.control.queues[k].waiting, k);
    if IsLimited(x.control, mode) {
      var kind := QueueFor(mode).value;
      var q := x.control.queues[kind];
      assert QueueMatches(x.adds, q.waiting, kind);
      WakeStep(x, q.(capacity := q.capacity + 1), kind, k);
    }
  }

  lemma WithoutWaiter(adds: map<Ticket, AddCall>, ws: seq<Waiter>, i: nat, k: QueueKind)
    requires QueueMatches(adds, ws, k) && i < |ws|
    ensures QueueMatches(adds, ws[..i] + ws[i + 1..], k)
  {
    var rest := ws[..i] + ws[i + 1..];
    forall w <- rest ensures IsWaiter(adds, w, k) {
      assert w in ws;
    }
  }

  lemma CancelStep(x: Slots, mode: Mode, id: string, k: QueueKind)
    requires WaitersMatch(x) && x.control.enabled && k in x.control.queues
    ensures LedgerStep(x, CancelWaiter(x, mode, id), k, 0)
  {
    assert QueueMatches(x.adds, x.control.queues[k].waiting, k);
    if IsLimited(x.control, mode) {
      CancelLimited(x, mode, id, k);
    }
  }

  lemma CancelLimited(x: Slots, mode: Mode, id: string, k: QueueKind)
    requires WaitersMatch(x) && IsLimited(x.control, mode) && k in x.control.queues
    ensures LedgerStep(x, CancelWaiter(x, mode, id), k, 0)
  {
    var kind := QueueFor(mode).value;
    var q := x.control.queues[kind];
    assert QueueMatches(x.adds, q.waiting, kind);
    var i := IndexOf(q.waiting, id);
    if i < |q.waiting| {
      var q0 := QueueState(q.capacity + 1, q.waiting[..i] + q.waiting[i + 1..]);
      assert Remove(q, id) == ResolveNext(q0) && Free(q0) == Free(q);
      WithoutWaiter(x.adds, q.waiting, i, kind);
      WakeStep(x, q0, kind, k);
    } else {
      assert Remove(q, id) == (q, None);
      assert x.control.queues[kind := q] == x.control.queues;
      assert CancelWaiter(x, mode, id) == x;
      assert QueueMatches(x.adds, x.control.queues[k].waiting, k);
    }
  }

  // ----- Conservation -----

  /** The objects' share of the slots after a change of the registry. */
  function ObjectsGain(g: Registry, c: Change, k: QueueKind): int
    requires Applies(g, c)
  {
    match c
    case Inserted(_, mode, _) => if QueueFor(mode) == Some(k) then 1 else 0
    case Finished(r) => if QueueFor(g.objs[r].mode) == Some(k) then -1 else 0
    case _ => 0
  }

  lemma ModesStay(g: Registry, c: Change)
    requires WellFormed(g) && Applies(g, c)
    ensures |Alter(g, c).objs| >= |g.objs|
    ensures forall r :: 0 <= r < |g.objs| ==> Alter(g, c).objs[r].mode == g.objs[r].mode
  {
    OwedStep(g, c);
    forall r | 0 <= r < |g.objs| ensures Alter(g, c).objs[r].mode == g.objs[r].mode {
      ObjectEvolves(g, c, r);
    }
  }

  lemma ObjectsStep(g: Registry, c: Change, k: QueueKind)
    requires WellFormed(g) && Applies(g, c)
    ensures |HeldByObjects(Alter(g, c), k)| == |HeldByObjects(g, k)| + ObjectsGain(g, c, k)
  {
    OwedStep(g, c);
    ModesStay(g, c);
    OwedCount(g, Alter(g, c), c, k);
  }

  /** The count depends on who owes a callback and on the modes, and on nothing else of the registry. */
  lemma OwedCount(g: Registry, g': Registry, c: Change, k: QueueKind)
    requires WellFormed(g) && WellFormed(g') && Applies(g, c) && |g'.objs| >= |g.objs|
    requires forall r :: 0 <= r < |g.objs| ==> g'.objs[r].mode == g.objs[r].mode
    requires match c
             case Inserted(_, mode, _) =>
               |g'.objs| == |g.objs| + 1 && g'.owed == g.owed + {|g.objs|} && g'.objs[|g.objs|].mode == mode
             case Finished(r) => g'.owed == g.owed - {r}
             case _ => g'.owed == g.owed
    ensures |HeldByObjects(g', k)| == |HeldByObjects(g, k)| + ObjectsGain(g, c, k)
  {
    var before, after := HeldByObjects(g, k), HeldByObjects(g', k);
    match c
    case Inserted(_, mode, _) =>
      assert after == if QueueFor(mode) == Some(k) then before + {|g.objs|} else before;
    case Finished(r) =>
      assert after == before - {r};
      assert r in before <==> QueueFor(g.objs[r].mode) == Some(k);
    case _ =>
      assert after == before;
  }

  /** While the limits are in force, every slot of every queue is either free or held. */
  predicate Conserved(s: State) {
    && WellFormed(s.registry)
    && (s.control.enabled ==> s.regular)
    && (s.control.enabled ==> WaitersMatch(Slots(s.control, s.adds)))
    && (s.control.enabled ==>
          forall k <- s.control.queues ::
            k in s.control.limits && Free(s.control.queues[k]) + Held(s, k) == s.control.limits[k])
  }

  /** What an event does to the ledger makes up for what it does to the objects. */
  lemma SlotsStep(s: State, e: Event, k: QueueKind)
    requires Conserved(s) && Enabled(s, e) && s.control.enabled && k in s.control.queues && !e.Sweep?
    ensures LedgerStep(Slots(s.control, s.adds), SlotsAfter(s, e), k, -ObjectsGain(s.registry, ChangeOf(s, e), k))
  {
    var x := Slots(s.control, s.adds);
    match e
    case BeginNew(t, mode) => CallStep(x, t, Creating(mode), k);
    case BeginResume(t, id, mode) => ThrottleStep(x, t, id, mode, k);
    case Created(t, id, _) => if id != "" { ThrottleStep(x, t, id, s.adds[t].mode, k); } else { DropStep(x, t, k); }
    case CreateFailed(t) => DropStep(x, t, k);
    case Written(t, _) => DropStep(x, t, k);
    case WriteFailed(t) => CallStep(x, t, Abandoned(s.adds[t].mode), k);
    case Callback(r) => ReleaseStep(x, s.registry.objs[r].mode, k);
    case Call(_) => assert QueueMatches(x.adds, x.control.queues[k].waiting, k);
    case CancelQueued(mode, id) => CancelStep(x, mode, id, k);
  }

  lemma ConservedStep(s: State, e: Event)
    requires Conserved(s) && Enabled(s, e)
    ensures Conserved(Apply(s, e))
  {
    var s' := Apply(s, e);
    if s'.control.enabled && s.control.enabled {
      forall k <- s'.control.queues
        ensures k in s'.control.limits && Free(s'.control.queues[k]) + Held(s', k) == s'.control.limits[k]
        ensures QueueMatches(s'.adds, s'.control.queues[k].waiting, k)
      {
        SlotsStep(s, e, k);
        ObjectsStep(s.registry, ChangeOf(s, e), k);
      }
    }
  }
}