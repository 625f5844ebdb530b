/**
 Throttles passed against slots released, mode by mode and whether or not a limit is in force
 (packages/cli/src/active-executions.ts:70-118).
 */
module SlotCounting {
  import opened ConcurrencyQueues
  import opened ConcurrencyControl
  import opened ExecutionRegistry
  import opened ExecutionModel
  import opened ExecutionLifecycle
  import opened SlotAccounting

  /** The executions of a mode that have not released their slot. */
  function OwedIn(g: Registry, mode: Mode): set<Ref> {
    set r | r in g.owed && r < |g.objs| && g.objs[r].mode == mode
  }

  /** The `add` calls of a mode that have passed the throttle and not stored their execution. */
  function PastThrottle(adds: map<Ticket, AddCall>, mode: Mode): set<Ticket> {
    set t | t in adds && (adds[t].Admitted? || adds[t].Abandoned?) && adds[t].mode == mode
  }

  /** The calls that pass the throttle in one step. */
  function Passing(before: map<Ticket, AddCall>, after: map<Ticket, AddCall>, mode: Mode): set<Ticket> {
    set t | t in after && after[t].Admitted? && after[t].mode == mode && !(t in before && before[t].Admitted?)
  }

  predicate Releases(s: State, e: Event, mode: Mode) {
    e.Callback? && e.r < |s.registry.objs| && s.registry.objs[e.r].mode == mode
  }

  ghost function Passed(s: State, es: seq<Event>, mode: Mode): nat
    requires WellFormed(s.registry) && IsRun(s, es)
    decreases |es|
  {
    if es == [] then 0
    else |Passing(s.adds, Apply(s, es[0]).adds, mode)| + Passed(Apply(s, es[0]), es[1..], mode)
  }

  ghost function Released(s: State, es: seq<Event>, mode: Mode): nat
    requires WellFormed(s.registry) && IsRun(s, es)
    decreases |es|
  {
    if es == [] then 0 else (if Releases(s, es[0], mode) then 1 else 0) + Released(Apply(s, es[0]), es[1..], mode)
  }

  /** What may become of one call: it passes the throttle, is stored, or fails; otherwise it stays as it is. */
  predicate IsCallStep(before: map<Ticket, AddCall>, after: map<Ticket, AddCall>, stored: set<Ticket>, t: Ticket) {
    if t in before && before[t].Admitted? then
      if t in stored then t !in after
      else t in after && (after[t] == before[t] || after[t] == Abandoned(before[t].mode))
    else
      && t !in stored
      && (t in before && before[t].Abandoned? ==> t in after && after[t] == before[t])
      && (!(t in before && before[t].Abandoned?) ==> (t in after ==> !after[t].Abandoned?))
  }

  function Leaving(before: map<Ticket, AddCall>, stored: set<Ticket>, mode: Mode): set<Ticket> {
    set t | t in stored && t in before && before[t].mode == mode
  }

  function Stored(e: Event): set<Ticket> {
    if e.Written? then {e.t} else {}
  }

  lemma CallStep(s: State, e: Event, t: Ticket)
    requires WellFormed(s.registry) && Enabled(s, e) && s.regular
    ensures IsCallStep(s.adds, Apply(s, e).adds, Stored(e), t)
  {
  }

  lemma PassingOne(before: map<Ticket, AddCall>, after: map<Ticket, AddCall>, stored: set<Ticket>,
                   mode: Mode, t: Ticket)
    requires IsCallStep(before, after, stored, t)
    ensures var was, passing := t in PastThrottle(before, mode), t in Passing(before, after, mode);
            var out := t in Leaving(before, stored, mode);
            && (t in PastThrottle(after, mode) <==> (was && !out) || passing)
            && (out ==> was) && (passing ==> !was)
  {
  }

  /** Passing the throttle is the only way to get past it, and storing the execution the only way out. */
  lemma PassingCount(before: map<Ticket, AddCall>, after: map<Ticket, AddCall>, stored: set<Ticket>, mode: Mode)
    requires forall t: Ticket :: IsCallStep(before, after, stored, t)
    ensures |PastThrottle(after, mode)|
            == |PastThrottle(before, mode)| + |Passing(before, after, mode)| - |Leaving(before, stored, mode)|
  {
    var was, passing := PastThrottle(before, mode), Passing(before, after, mode);
    var out := Leaving(before, stored, mode);
    forall t: Ticket
      ensures t in PastThrottle(after, mode) <==> t in (was - out) + passing
      ensures (t in out ==> t in was) && (t in passing ==> t !in was)
    {
      PassingOne(before, after, stored, mode, t);
    }
    assert PastThrottle(after, mode) == (was - out) + passing;
    CountOfChanged(was, out, passing);
  }

  lemma CountOfChanged(was: set<Ticket>, out: set<Ticket>, entering: set<Ticket>)
    requires out <= was && was !! entering
    ensures |(was - out) + entering| == |was| - |out| + |entering|
  {
    assert (was - out) + out == was;
    assert |was| == |was - out| + |out|;
  }

  lemma CallsStep(s: State, e: Event, mode: Mode)
    requires WellFormed(s.registry) && Enabled(s, e) && s.regular
    ensures var before, after := s.adds, Apply(s, e).adds;
            |PastThrottle(after, mode)| == |PastThrottle(before, mode)| + |Passing(before, after, mode)|
                                           - if e.Written? && s.adds[e.t].mode == mode then 1 else 0
  {
    forall t: Ticket ensures IsCallStep(s.adds, Apply(s, e).adds, Stored(e), t) {
      CallStep(s, e, t);
    }
    PassingCount(s.adds, Apply(s, e).adds, Stored(e), mode);
    assert Leaving(s.adds, Stored(e), mode) == if e.Written? && s.adds[e.t].mode == mode then {e.t} else {};
  }

  function Gain(g: Registry, c: Change, mode: Mode): int
    requires Applies(g, c)
  {
    match c
    case Inserted(_, m, _) => if m == mode then 1 else 0
    case Finished(r) => if g.objs[r].mode == mode then -1 else 0
    case _ => 0
  }

  lemma OwedInStep(g: Registry, c: Change, mode: Mode)
    requires WellFormed(g) && Applies(g, c)
    ensures |OwedIn(Alter(g, c), mode)| == |OwedIn(g, mode)| + Gain(g, c, mode)
  {
    var g' := Alter(g, c);
    OwedStep(g, c);
    ModesStay(g, c);
    if c.Inserted? {
      OwedInMore(g, g', mode);
    } else if c.Finished? {
      OwedInLess(g, g', c.r, mode);
    } else {
      assert OwedIn(g', mode) == OwedIn(g, mode);
    }
  }

  lemma OwedInMore(g: Registry, g': Registry, mode: Mode)
    requires |g'.objs| == |g.objs| + 1 && g'.owed == g.owed + {|g.objs|}
    requires forall r :: 0 <= r < |g.objs| ==> g'.objs[r].mode == g.objs[r].mode
    ensures |OwedIn(g', mode)| == |OwedIn(g, mode)| + if g'.objs[|g.objs|].mode == mode then 1 else 0
  {
    var before := OwedIn(g, mode);
    assert OwedIn(g', mode) == if g'.objs[|g.objs|].mode == mode then before + {|g.objs|} else before;
  }

  lemma OwedInLess(g: Registry, g': Registry, r: Ref, mode: Mode)
    requires r in g.owed && r < |g.objs| == |g'.objs| && g'.owed == g.owed - {r}
    requires forall q :: 0 <= q < |g.objs| ==> g'.objs[q].mode == g.objs[q].mode
    ensures |OwedIn(g', mode)| == |OwedIn(g, mode)| - if g.objs[r].mode == mode then 1 else 0
  {
    assert OwedIn(g', mode) == OwedIn(g, mode) - {r};
    assert r in OwedIn(g, mode) <==> g.objs[r].mode == mode;
  }

  /**
   In regular mode, for every mode of execution: the throttles passed are the slots released, the executions whose
   callback has not run, and the `add` calls that have not stored theirs or failed to.
   */
  lemma {:induction false} PassedAreAccountedFor(s: State, es: seq<Event>, mode: Mode)
    requires WellFormed(s.registry) && s.regular && IsRun(s, es)
    ensures var s' := After(s, es);
            |OwedIn(s.registry, mode)| + |PastThrottle(s.adds, mode)| + Passed(s, es, mode)
            == Released(s, es, mode) + |OwedIn(s'.registry, mode)| + |PastThrottle(s'.adds, mode)|
    decreases |es|
  {
    if es == [] {
    } else {
      CallsStep(s, es[0], mode);
      OwedInStep(s.registry, ChangeOf(s, es[0]), mode);
      PassedAreAccountedFor(Apply(s, es[0]), es[1..], mode);
    }
  }

  lemma ThrottlesAreCounted(s0: State, es: seq<Event>, mode: Mode)
    requires IsInitial(s0) && s0.regular && IsRun(s0, es)
    ensures var s := After(s0, es);
            Passed(s0, es, mode)
            == Released(s0, es, mode) + |OwedIn(s.registry, mode)| + |PastThrottle(s.adds, mode)|
  {
    PassedAreAccountedFor(s0, es, mode);
    assert OwedIn(s0.registry, mode) == {} && PastThrottle(s0.adds, mode) == {};
  }
}
