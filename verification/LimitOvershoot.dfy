/**
 How far a concurrency limit can be exceeded, and when it is at all
 (packages/cli/src/concurrency/concurrency-queue.ts:45-55).
 */
module LimitOvershoot {
  import opened Wrappers
  import opened ConcurrencyQueues
  import opened ConcurrencyControl
  import opened ExecutionRegistry
  import opened ExecutionModel
  import opened SlotAccounting
  import opened SlotBalance

  /** No more callers wait than the capacity is overdrawn by. This holds however callers are removed. */
  predicate LooseQueues(c: Control) {
    c.enabled ==> forall k <- c.queues :: Loose(c.queues[k])
  }

  predicate IsContendedIn(s: State, e: Event, k: QueueKind) {
    IsContendedCancel(s, e) && QueueFor(e.mode) == Some(k)
  }

  /** From `q` to `q'` the free slots get fewer than none only if `contended`, and then by one. */
  predicate DebtGrows(q: QueueState, q': QueueState, contended: bool) {
    && Loose(q')
    && (if contended then Free(q') == Free(q) - 1 else Free(q') >= Free(q) || Free(q') >= 0)
  }

  lemma DebtOfCalls(c: Control, mode: Mode, w: Waiter, id: string, k: QueueKind)
    requires k in c.queues && Loose(c.queues[k])
    ensures var c' := Throttle(c, mode, w).0; k in c'.queues && DebtGrows(c.queues[k], c'.queues[k], false)
    ensures var c' := Release(c, mode).0; k in c'.queues && DebtGrows(c.queues[k], c'.queues[k], false)
    ensures var c' := RemoveQueued(c, mode, id).0;
            var ws := c.queues[k].waiting;
            k in c'.queues && DebtGrows(c.queues[k], c'.queues[k], IsLimited(c, mode) && QueueFor(mode) == Some(k)
                                                                   && IndexOf(ws, id) < |ws| && |ws| > 1)
  {
    LooseSteps(c.queues[k], w, id);
  }

  /** The free slots of a queue get fewer than none only by contended cancellations, one by each. */
  lemma DebtStep(s: State, e: Event, k: QueueKind)
    requires Conserved(s) && Enabled(s, e) && s.control.enabled && Apply(s, e).control.enabled
    requires k in s.control.queues && Loose(s.control.queues[k])
    ensures var c' := Apply(s, e).control;
            k in c'.queues && DebtGrows(s.control.queues[k], c'.queues[k], IsContendedIn(s, e, k))
  {
    match e
    case BeginResume(t, id, mode) => DebtOfCalls(s.control, mode, Waiter(id, t), id, k);
    case Created(t, id, _) => DebtOfCalls(s.control, s.adds[t].mode, Waiter(id, t), id, k);
    case Callback(r) => DebtOfCalls(s.control, s.registry.objs[r].mode, Waiter("", 0), "", k);
    case CancelQueued(mode, id) => DebtOfCalls(s.control, mode, Waiter(id, 0), id, k);
    case _ =>
  }

  ghost function ContendedCancels(s: State, es: seq<Event>, k: QueueKind): nat
    requires WellFormed(s.registry) && IsRun(s, es)
    decreases |es|
  {
    if es == [] then 0
    else (if IsContendedIn(s, es[0], k) then 1 else 0) + ContendedCancels(Apply(s, es[0]), es[1..], k)
  }

  lemma {:induction false} DebtRun(s: State, es: seq<Event>, k: QueueKind, debt: nat)
    requires Conserved(s) && IsRun(s, es) && LooseQueues(s.control)
    requires s.control.enabled && k in s.control.queues ==> Free(s.control.queues[k]) + debt >= 0
    ensures var s' := After(s, es);
            s'.control.enabled && k in s'.control.queues ==>
              Free(s'.control.queues[k]) + debt + ContendedCancels(s, es, k) >= 0
    decreases |es|
  {
    if es != [] {
      var s' := Apply(s, es[0]);
      ConservedStep(s, es[0]);
      KeepsLimits(s, es[0]);
      if s'.control.enabled {
        forall l <- s'.control.queues ensures Loose(s'.control.queues[l]) {
          DebtStep(s, es[0], l);
        }
        if k in s'.control.queues {
          DebtStep(s, es[0], k);
        }
      }
      DebtRun(s', es[1..], k, debt + if IsContendedIn(s, es[0], k) then 1 else 0);
    }
  }

  lemma KeepsLimits(s: State, e: Event)
    requires Conserved(s) && Enabled(s, e)
    ensures Apply(s, e).control.enabled ==>
              s.control.enabled && Apply(s, e).control.queues.Keys == s.control.queues.Keys
  {
  }

  /** The limit is exceeded by at most the number of contended cancellations. */
  lemma OvershootIsBounded(s0: State, es: seq<Event>, k: QueueKind)
    requires IsInitial(s0) && IsRun(s0, es)
    ensures var s := After(s0, es);
            s.control.enabled && k in s.control.queues ==>
              k in s.control.limits && Held(s, k) <= s.control.limits[k] + ContendedCancels(s0, es, k)
  {
    InitialIsConserved(s0);
    ConservedRun(s0, es);
    DebtRun(s0, es, k, 0);
  }

  /** Some limit is in force and exceeded. */
  ghost predicate IsOvershot(s: State)
    requires WellFormed(s.registry)
  {
    s.control.enabled &&
    exists k <- s.control.queues :: k in s.control.limits && Held(s, k) > s.control.limits[k]
  }

  ghost predicate EverOvershot(s: State, es: seq<Event>)
    requires WellFormed(s.registry) && IsRun(s, es)
    decreases |es|
  {
    IsOvershot(s) || (es != [] && EverOvershot(Apply(s, es[0]), es[1..]))
  }

  /** Over runs, some limit is exceeded at some time exactly if some contended cancellation happens. */
  lemma {:induction false} OvershotExactly(s: State, es: seq<Event>)
    requires Conserved(s) && IsRun(s, es) && TightQueues(s.control)
    ensures EverOvershot(s, es) <==> HasContendedCancel(s, es)
    decreases |es|
  {
    if s.control.enabled {
      assert forall k <- s.control.queues :: Tight(s.control.queues[k]) && Held(s, k) <= s.control.limits[k];
    }
    if es != [] {
      TightStep(s, es[0]);
      ConservedStep(s, es[0]);
      if IsContendedCancel(s, es[0]) {
        ContendedCancelOvershoots(s, es[0]);
      } else {
        OvershotExactly(Apply(s, es[0]), es[1..]);
      }
    }
  }

  /** In a new process a limit is exceeded at some time exactly if a contended cancellation happens. */
  lemma LimitExceededExactly(s0: State, es: seq<Event>)
    requires IsInitial(s0) && IsRun(s0, es)
    ensures EverOvershot(s0, es) <==> HasContendedCancel(s0, es)
  {
    InitialIsConserved(s0);
    OvershotExactly(s0, es);
  }
}
