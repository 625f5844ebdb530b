/** What the sweep at the start of `shutdown` leaves behind (packages/cli/src/active-executions.ts:228-248). */
module ExecutionSweep {
  import opened ExecutionRegistry

  predicate IsSwept(g: Registry, order: seq<string>, r: Ref) {
    IsEntry(g, r) && g.objs[r].id in order
  }

  /** An object as the sweep leaves it. */
  function SweptObject(g: Registry, all: bool, order: seq<string>, r: Ref): Execution
    requires r < |g.objs|
  {
    var e := g.objs[r];
    if IsSwept(g, order, r) && SweepObject(all, e).Some? then SweepObject(all, e).value else e
  }

  predicate IsKept(g: Registry, all: bool, order: seq<string>, id: string)
    requires WellFormed(g)
  {
    id in g.active && (id in order ==> SweepObject(all, g.objs[g.active[id]]).Some?)
  }

  function Swept(g: Registry, all: bool, order: seq<string>): Registry
    requires WellFormed(g)
  {
    Registry(
      map id | id in g.active && IsKept(g, all, order, id) :: g.active[id],
      seq(|g.objs|, r requires 0 <= r < |g.objs| => SweptObject(g, all, order, r)),
      g.owed)
  }

  lemma SweptAfterFirst(g: Registry, all: bool, id: string, rest: seq<string>)
    requires WellFormed(g) && id in g.active && id !in rest
    ensures Swept(SweptOne(g, all, id), all, rest) == Swept(g, all, [id] + rest)
  {
    var r0 := g.active[id];
    var g1 := SweptOne(g, all, id);
    var a, b := Swept(g1, all, rest), Swept(g, all, [id] + rest);
    forall i ensures i in a.active <==> i in b.active
      ensures i in a.active ==> a.active[i] == b.active[i]
    {
      assert i in [id] + rest <==> i == id || i in rest;
    }
    assert a.active == b.active;
    forall r: nat | r < |g.objs| ensures a.objs[r] == b.objs[r] {
      assert g.objs[r].id in [id] + rest <==> g.objs[r].id == id || g.objs[r].id in rest;
      assert r != r0 ==> g1.objs[r] == g.objs[r];
    }
    assert a.objs == b.objs;
  }

  /** The sweep, one execution after the other, amounts to one simultaneous change of the registry as it was before. */
  lemma {:induction false} SweepIsSimultaneous(g: Registry, all: bool, order: seq<string>)
    requires WellFormed(g) && IsSnapshot(g, order)
    ensures SweepEach(g, all, order) == Swept(g, all, order)
    decreases |order|
  {
    if order == [] {
      assert Swept(g, all, order).objs == g.objs;
      assert Swept(g, all, order).active == g.active;
    } else {
      var id, rest := order[0], order[1..];
      assert order == [id] + rest;
      assert forall i <- rest :: i != id;
      SweptAfterFirst(g, all, id, rest);
      SweepIsSimultaneous(SweptOne(g, all, id), all, rest);
    }
  }

  /**
   After the sweep an entry is there exactly if it was there before and was neither waiting nor, unless the sweep
   cancelled it, new. Whatever survives is the same object; it is settled unless it has no response promise, is
   not new and is not covered by `cancelAll`.
   */
  lemma SweepPostcondition(g: Registry, all: bool, order: seq<string>, id: string)
    requires WellFormed(g) && IsKeyOrder(g, order)
    ensures var before, after := Entry(g, id), Entry(SweepEach(g, all, order), id);
            && (after.Some? <==>
                  && before.Some? && !before.value.status.Waiting?
                  && (before.value.status.New? ==> IsCancelled(all, before.value)))
            && (after.Some? ==>
                  && SweepEach(g, all, order).active[id] == g.active[id]
                  && before.value.(outcome := after.value.outcome) == after.value
                  && (!before.value.outcome.Pending? ==> after.value.outcome == before.value.outcome)
                  && (before.value.outcome.Pending? ==>
                        if after.value.response.Some? || all
                        then after.value.outcome == Rejected(ExecutionCancelled(id))
                        else after.value.outcome.Pending? && !after.value.status.New?))
  {
    SweepIsSimultaneous(g, all, order);
  }

  /** The cancelled ids are those with a response promise, or all of them in regular mode with `cancelAll`. */
  lemma {:induction false} ToCancelMembers(g: Registry, all: bool, order: seq<string>, id: string)
    requires WellFormed(g) && forall i <- order :: i in g.active
    ensures id in ToCancel(g, all, order) <==> id in order && (Entry(g, id).value.response.Some? || all)
  {
    if order == [] {
    } else {
      assert order == [order[0]] + order[1..];
      ToCancelMembers(g, all, order[1..], id);
    }
  }

  ghost predicate ComesBefore(order: seq<string>, first: string, second: string) {
    exists a, b :: 0 <= a < b < |order| && order[a] == first && order[b] == second
  }

  lemma ComesBeforeInRest(order: seq<string>, first: string, second: string)
    requires order != []
    ensures ComesBefore(order[1..], first, second) ==> ComesBefore(order, first, second)
    ensures first == order[0] && second in order[1..] ==> ComesBefore(order, first, second)
  {
    var rest := order[1..];
    if a, b :| 0 <= a < b < |rest| && rest[a] == first && rest[b] == second {
      assert order[a + 1] == first && order[b + 1] == second;
    }
    if second in rest {
      var b :| 0 <= b < |rest| && rest[b] == second;
      assert order[b + 1] == second;
    }
  }

  /** They are reported in the order of the sweep, each once. */
  lemma {:induction false} ToCancelOrder(g: Registry, all: bool, order: seq<string>, i: nat, j: nat)
    requires WellFormed(g) && IsSnapshot(g, order) && i < j < |ToCancel(g, all, order)|
    ensures ComesBefore(order, ToCancel(g, all, order)[i], ToCancel(g, all, order)[j])
    ensures ToCancel(g, all, order)[i] != ToCancel(g, all, order)[j]
  {
    var rest := order[1..];
    var cancelled, later := ToCancel(g, all, order), ToCancel(g, all, rest);
    ComesBeforeInRest(order, cancelled[i], cancelled[j]);
    if cancelled == later {
      ToCancelOrder(g, all, rest, i, j);
    } else {
      assert cancelled == [order[0]] + later;
      if i == 0 {
        assert cancelled[j] == later[j - 1];
        ToCancelMembers(g, all, rest, cancelled[j]);
      } else {
        ToCancelOrder(g, all, rest, i - 1, j - 1);
      }
    }
  }

  // ----- The sweep as a loop over the ids -----

  /** What is reported about some ids depends on their entries alone. */
  lemma {:induction false} ToCancelReads(g: Registry, g': Registry, all: bool, order: seq<string>)
    requires WellFormed(g) && WellFormed(g')
    requires forall id <- order :: id in g.active && id in g'.active && Entry(g, id) == Entry(g', id)
    ensures ToCancel(g, all, order) == ToCancel(g', all, order)
  {
    if order == [] {
    } else {
      assert Entry(g, order[0]) == Entry(g', order[0]);
      ToCancelReads(g, g', all, order[1..]);
    }
  }

  /** How far the sweep of `g0` has come when the registry is `g`: the ids from `i` on are still to be swept. */
  predicate IsSweeping(g: Registry, g0: Registry, all: bool, executionIds: seq<string>, i: nat, toCancel: seq<string>)
    requires WellFormed(g) && WellFormed(g0) && IsSnapshot(g0, executionIds) && i <= |executionIds|
  {
    var rest := executionIds[i..];
    && IsSnapshot(g, rest)
    && SweepEach(g, all, rest) == SweepEach(g0, all, executionIds)
    && toCancel + ToCancel(g, all, rest) == ToCancel(g0, all, executionIds)
  }

  lemma SweptOneKeepsOthers(g: Registry, all: bool, id: string)
    requires WellFormed(g) && id in g.active
    ensures var g' := SweptOne(g, all, id);
            forall i <- g.active | i != id :: i in g'.active && g'.active[i] == g.active[i]
  {
  }

  lemma SweptOneKeepsRest(g: Registry, all: bool, order: seq<string>)
    requires WellFormed(g) && IsSnapshot(g, order) && order != []
    ensures var g' := SweptOne(g, all, order[0]);
            IsSnapshot(g', order[1..]) && ToCancel(g', all, order[1..]) == ToCancel(g, all, order[1..])
  {
    var g' := SweptOne(g, all, order[0]);
    forall id <- order[1..] ensures id != order[0] && id in g'.active && Entry(g', id) == Entry(g, id) {}
    ToCancelReads(g, g', all, order[1..]);
  }

  /** One turn of the loop: the next id is still there, and sweeping it keeps the sweep on course. */
  lemma SweepTurn(g: Registry, g0: Registry, all: bool, executionIds: seq<string>, i: nat, toCancel: seq<string>)
    requires WellFormed(g) && WellFormed(g0) && IsSnapshot(g0, executionIds) && i < |executionIds|
    requires IsSweeping(g, g0, all, executionIds, i, toCancel)
    ensures var id := executionIds[i];
            && id in g.active
            && IsSweeping(SweptOne(g, all, id), g0, all, executionIds, i + 1,
                          if IsCancelled(all, Entry(g, id).value) then toCancel + [id] else toCancel)
  {
    var order := executionIds[i..];
    assert order[0] == executionIds[i] && order[1..] == executionIds[i + 1..];
    SweptOneKeepsRest(g, all, order);
    var later := ToCancel(g, all, order[1..]);
    if IsCancelled(all, Entry(g, order[0]).value) {
      assert toCancel + ([order[0]] + later) == (toCancel + [order[0]]) + later;
    } else {
      assert [] + later == later;
    }
  }

  lemma SweepStarts(g: Registry, all: bool, executionIds: seq<string>)
    requires WellFormed(g) && IsSnapshot(g, executionIds)
    ensures IsSweeping(g, g, all, executionIds, 0, [])
  {
    assert executionIds[0..] == executionIds;
    assert [] + ToCancel(g, all, executionIds) == ToCancel(g, all, executionIds);
  }

  lemma SweepEnds(g: Registry, g0: Registry, all: bool, executionIds: seq<string>, toCancel: seq<string>)
    requires WellFormed(g) && WellFormed(g0) && IsSnapshot(g0, executionIds)
    requires IsSweeping(g, g0, all, executionIds, |executionIds|, toCancel)
    ensures g == SweepEach(g0, all, executionIds) && toCancel == ToCancel(g0, all, executionIds)
  {
    assert executionIds[|executionIds|..] == [];
    assert toCancel + [] == toCancel;
  }
}
