/** How the registry drains once `shutdown` has swept it (packages/cli/src/active-executions.ts:228-262). */
module ExecutionShutdown {
  import opened ConcurrencyQueues
  import opened ExecutionRegistry
  import opened ExecutionSweep
  import opened ExecutionModel
  import opened ExecutionLifecycle

  // ----- Throttled calls stay throttled -----

  lemma DisabledStep(s: State, e: Event, t: Ticket)
    requires WellFormed(s.registry) && Enabled(s, e) && !s.control.enabled && t in s.adds && s.adds[t].Throttled?
    ensures var s' := Apply(s, e);
            !s'.control.enabled && s'.control == s.control && t in s'.adds && s'.adds[t] == s.adds[t]
  {
  }

  /** Once the limits are disabled, no throttled call ever goes on, whatever is released, removed or cancelled. */
  lemma {:induction false} ThrottledStayThrottled(s: State, es: seq<Event>, t: Ticket)
    requires WellFormed(s.registry) && IsRun(s, es)
    requires !s.control.enabled && t in s.adds && s.adds[t].Throttled?
    ensures t in After(s, es).adds && After(s, es).adds[t] == s.adds[t]
    decreases |es|
  {
    if es == [] {
    } else {
      DisabledStep(s, es[0], t);
      ThrottledStayThrottled(Apply(s, es[0]), es[1..], t);
    }
  }

  /** In regular mode the sweep disables the limits, and wakes nobody when it then empties the queues. */
  lemma SweepWakesNobody(s: State, cancelAll: bool, order: seq<string>)
    requires WellFormed(s.registry) && Enabled(s, Sweep(cancelAll, order)) && s.regular
    ensures var s' := Apply(s, Sweep(cancelAll, order));
            !s'.control.enabled && s'.adds == s.adds && s'.control.queues == s.control.queues
  {
  }

  /** No execution that is throttled when a shutdown begins in regular mode ever starts. */
  lemma NoneStartsDuringShutdown(s: State, cancelAll: bool, order: seq<string>, es: seq<Event>, t: Ticket)
    requires WellFormed(s.registry) && Enabled(s, Sweep(cancelAll, order)) && s.regular
    requires IsRun(Apply(s, Sweep(cancelAll, order)), es) && t in s.adds && s.adds[t].Throttled?
    ensures var s' := After(Apply(s, Sweep(cancelAll, order)), es);
            t in s'.adds && s'.adds[t] == s.adds[t]
  {
    SweepWakesNobody(s, cancelAll, order);
    ThrottledStayThrottled(Apply(s, Sweep(cancelAll, order)), es, t);
  }

  // ----- The registry drains -----

  /** Every entry is on its way out: not waiting, and with its callback to come. */
  predicate IsDraining(g: Registry) {
    WellFormed(g) && forall id <- g.active :: !g.objs[g.active[id]].status.Waiting? && g.active[id] in g.owed
  }

  /** Nothing is added, and no status becomes waiting. */
  predicate IsQuiet(c: Change) {
    !c.Inserted? && !(c.Performed? && c.op.SetStatus? && c.op.status.Waiting?)
  }

  predicate AllSettled(g: Registry)
    requires WellFormed(g)
  {
    forall id <- g.active :: !g.objs[g.active[id]].outcome.Pending?
  }

  /** The sweep keeps only executions that are not waiting, and settles them all if it covers them all. */
  lemma SweepDrains(g: Registry, all: bool, order: seq<string>)
    requires WellFormed(g) && IsKeyOrder(g, order)
    requires forall id <- g.active :: !g.objs[g.active[id]].status.Waiting? ==> g.active[id] in g.owed
    ensures var g' := SweepEach(g, all, order);
            && IsDraining(g') && g'.active.Keys <= g.active.Keys
            && (all || AllSettled(g) ==> AllSettled(g'))
  {
    var g' := SweepEach(g, all, order);
    OwedStep(g, Cleared(all, order));
    forall id <- g'.active
      ensures id in g.active && g'.active[id] in g'.owed && !g'.objs[g'.active[id]].status.Waiting?
      ensures all || AllSettled(g) ==> !g'.objs[g'.active[id]].outcome.Pending?
    {
      SweepPostcondition(g, all, order, id);
    }
  }

  lemma DrainPerform(g: Registry, op: Operation)
    requires IsDraining(g) && IsQuiet(Performed(op))
    ensures var g' := Perform(g, op);
            IsDraining(g') && (AllSettled(g) ==> AllSettled(g')) && g'.active.Keys <= g.active.Keys
  {
  }

  lemma DrainStep(g: Registry, c: Change)
    requires IsDraining(g) && Applies(g, c) && IsQuiet(c)
    ensures var g' := Alter(g, c);
            && IsDraining(g')
            && (AllSettled(g) ==> AllSettled(g'))
            && g'.active.Keys <= g.active.Keys
            && |g'.owed| == |g.owed| - if c.Finished? then 1 else 0
  {
    OwedStep(g, c);
    match c
    case Unchanged =>
    case Finished(_) =>
    case Performed(op) => DrainPerform(g, op);
    case Cleared(all, order) => SweepDrains(g, all, order);
  }

  ghost predicate IsQuietRun(s: State, es: seq<Event>)
    requires WellFormed(s.registry) && IsRun(s, es)
    decreases |es|
  {
    es != [] ==> IsQuiet(ChangeOf(s, es[0])) && IsQuietRun(Apply(s, es[0]), es[1..])
  }

  function Callbacks(es: seq<Event>): nat
    decreases |es|
  {
    if es == [] then 0 else (if es[0].Callback? then 1 else 0) + Callbacks(es[1..])
  }

  /** The map never grows, and each callback that runs leaves one fewer to come. */
  lemma {:induction false} DrainRun(s: State, es: seq<Event>)
    requires IsDraining(s.registry) && IsRun(s, es) && IsQuietRun(s, es)
    ensures var g' := After(s, es).registry;
            && IsDraining(g')
            && (AllSettled(s.registry) ==> AllSettled(g'))
            && g'.active.Keys <= s.registry.active.Keys
            && |g'.owed| + Callbacks(es) == |s.registry.owed|
    decreases |es|
  {
    if es == [] {
    } else {
      DrainStep(s.registry, ChangeOf(s, es[0]));
      DrainRun(Apply(s, es[0]), es[1..]);
    }
  }

  predicate NoCallbackDue(s: State) {
    forall r <- s.registry.owed :: !Enabled(s, Callback(r))
  }

  lemma SweepStartsDraining(s: State, cancelAll: bool, order: seq<string>)
    requires Orderly(s.registry) && Enabled(s, Sweep(cancelAll, order))
    ensures var g' := Apply(s, Sweep(cancelAll, order)).registry;
            && IsDraining(g') && (s.regular && cancelAll ==> AllSettled(g'))
            && g'.active.Keys <= s.registry.active.Keys && g'.owed == s.registry.owed
  {
    var g := s.registry;
    OwedStep(g, Cleared(s.regular && cancelAll, order));
    forall id <- g.active ensures EntryIsOrderly(g, id) {}
    SweepDrains(g, s.regular && cancelAll, order);
  }

  /** In a draining registry, a settled execution that is still present has its callback due. */
  lemma DueCallbacks(s: State)
    requires IsDraining(s.registry)
    ensures NoCallbackDue(s) ==>
              forall id <- s.registry.active :: s.registry.objs[s.registry.active[id]].outcome.Pending?
  {
    forall id <- s.registry.active
      ensures s.registry.objs[s.registry.active[id]].outcome.Pending? || Enabled(s, Callback(s.registry.active[id]))
    {
    }
  }

  /**
   After the sweep of an orderly registry, a quiet run can run at most as many callbacks as are owed, and once no
   callback is due every execution still present is one that has not settled yet.
   */
  lemma ShutdownDrains(s: State, cancelAll: bool, order: seq<string>, es: seq<Event>)
    requires Orderly(s.registry) && Enabled(s, Sweep(cancelAll, order))
    requires IsRun(Apply(s, Sweep(cancelAll, order)), es) && IsQuietRun(Apply(s, Sweep(cancelAll, order)), es)
    ensures var s1 := Apply(s, Sweep(cancelAll, order));
            var s' := After(s1, es);
            && Callbacks(es) <= |s.registry.owed|
            && s'.registry.active.Keys <= s1.registry.active.Keys <= s.registry.active.Keys
            && (NoCallbackDue(s') ==>
                  forall id <- s'.registry.active :: s'.registry.objs[s'.registry.active[id]].outcome.Pending?)
  {
    var s1 := Apply(s, Sweep(cancelAll, order));
    SweepStartsDraining(s, cancelAll, order);
    DrainRun(s1, es);
    DueCallbacks(After(s1, es));
  }

  /**
   In regular mode with `cancelAll` the wait of `shutdown` ends: whenever an execution is still present, a callback
   is due, and there are only finitely many of them. Once they have run, the registry is empty.
   */
  lemma CancelAllEmptiesTheRegistry(s: State, order: seq<string>, es: seq<Event>)
    requires s.regular && Orderly(s.registry) && Enabled(s, Sweep(true, order))
    requires IsRun(Apply(s, Sweep(true, order)), es) && IsQuietRun(Apply(s, Sweep(true, order)), es)
    ensures var s' := After(Apply(s, Sweep(true, order)), es);
            NoCallbackDue(s') ==> s'.registry.active == map[]
  {
    var s1 := Apply(s, Sweep(true, order));
    SweepStartsDraining(s, true, order);
    DrainRun(s1, es);
    var s' := After(s1, es);
    DueCallbacks(s');
    assert NoCallbackDue(s') ==> s'.registry.active.Keys == {};
  }
}
