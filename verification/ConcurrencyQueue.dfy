/**
 The queue behind one concurrency limit (packages/cli/src/concurrency/concurrency-queue.ts).

 `Enqueue` takes a slot at once or suspends its caller; `Dequeue` gives a slot back and wakes the oldest
 suspended caller; `Remove` drops a suspended caller. A suspended caller is known by a ticket, which stands
 for the `resolve` function the queue keeps.
 */
module ConcurrencyQueues {
  import opened Wrappers

  type Ticket = nat

  datatype Waiter = Waiter(executionId: string, ticket: Ticket)

  datatype QueueState = QueueState(capacity: int, waiting: seq<Waiter>)

  /** Slots that nobody holds. Negative once more callers hold a slot than the limit allows. */
  function Free(q: QueueState): int {
    q.capacity + |q.waiting|
  }

  /** Callers wait only when, and exactly as many as, the capacity is overdrawn. */
  predicate Tight(q: QueueState) {
    |q.waiting| == if q.capacity < 0 then -q.capacity else 0
  }

  /** No more callers wait than the capacity is overdrawn by. */
  predicate Loose(q: QueueState) {
    |q.waiting| <= if q.capacity < 0 then -q.capacity else 0
  }

  /** The new state, and whether the caller proceeds at once. */
  function Enqueue(q: QueueState, w: Waiter): (QueueState, bool) {
    if q.capacity - 1 < 0
    then (QueueState(q.capacity - 1, q.waiting + [w]), false)
    else (QueueState(q.capacity - 1, q.waiting), true)
  }

  /** Wakes the oldest waiter, if there is one. */
  function ResolveNext(q: QueueState): (QueueState, Option<Waiter>) {
    if q.waiting == [] then (q, None) else (q.(waiting := q.waiting[1..]), Some(q.waiting[0]))
  }

  function Dequeue(q: QueueState): (QueueState, Option<Waiter>) {
    ResolveNext(q.(capacity := q.capacity + 1))
  }

  /** Position of the first waiter with this id, or the length when there is none. */
  function IndexOf(ws: seq<Waiter>, id: string): (i: nat)
    ensures i <= |ws|
    ensures i < |ws| ==> ws[i].executionId == id
    ensures forall j :: 0 <= j < i ==> ws[j].executionId != id
  {
    if ws == [] || ws[0].executionId == id then 0 else 1 + IndexOf(ws[1..], id)
  }

  function Remove(q: QueueState, id: string): (QueueState, Option<Waiter>) {
    var i := IndexOf(q.waiting, id);
    if i == |q.waiting| then (q, None)
    else ResolveNext(QueueState(q.capacity + 1, q.waiting[..i] + q.waiting[i + 1..]))
  }

  /** The first waiter with the id is dropped, and the next in line goes on; an unknown id changes nothing. */
  lemma RemoveDropsTheFirst(capacity: int, before: seq<Waiter>, w: Waiter, behind: seq<Waiter>)
    requires forall v <- before :: v.executionId != w.executionId
    ensures Remove(QueueState(capacity, before), w.executionId) == (QueueState(capacity, before), None)
    ensures var rest := before + behind;
            Remove(QueueState(capacity, before + [w] + behind), w.executionId)
            == if rest == [] then (QueueState(capacity + 1, []), None)
               else (QueueState(capacity + 1, rest[1..]), Some(rest[0]))
  {
    var ws := before + [w] + behind;
    assert forall j :: 0 <= j < |before| ==> ws[j] == before[j] && before[j] in before;
    assert ws[|before|] == w;
    assert IndexOf(ws, w.executionId) == |before|;
    assert ws[..|before|] + ws[|before| + 1..] == before + behind;
  }

  // ----- First come, first served -----

  datatype Op = Arrive(waiter: Waiter) | Leave | Cancel(id: string)

  function Serve(q: QueueState, op: Op): (QueueState, Option<Waiter>) {
    match op
    case Arrive(w) => var (q', now) := Enqueue(q, w); (q', if now then Some(w) else None)
    case Leave => Dequeue(q)
    case Cancel(id) => Remove(q, id)
  }

  function AsSeq<T>(o: Option<T>): seq<T> {
    if o.Some? then [o.value] else []
  }

  function AfterOps(q: QueueState, ops: seq<Op>): QueueState
    decreases |ops|
  {
    if ops == [] then q else AfterOps(Serve(q, ops[0]).0, ops[1..])
  }

  /** The callers let through, in the order they were let through. */
  function Grants(q: QueueState, ops: seq<Op>): seq<Waiter>
    decreases |ops|
  {
    if ops == [] then [] else
      var (q', granted) := Serve(q, ops[0]);
      AsSeq(granted) + Grants(q', ops[1..])
  }

  function Arrival(op: Op): seq<Waiter> {
    if op.Arrive? then [op.waiter] else []
  }

  function Arrivals(ops: seq<Op>): seq<Waiter> {
    if ops == [] then []
    else Arrival(ops[0]) + Arrivals(ops[1..])
  }

  lemma ServeInOrder(q: QueueState, op: Op)
    requires Tight(q) && !op.Cancel?
    ensures Tight(Serve(q, op).0)
    ensures q.waiting + Arrival(op) == AsSeq(Serve(q, op).1) + Serve(q, op).0.waiting
  {
  }

  lemma Regroup<T>(a: seq<T>, b: seq<T>, c: seq<T>, d: seq<T>, e: seq<T>, f: seq<T>, g: seq<T>)
    requires a + b == c + d && d + e == f + g
    ensures a + (b + e) == (c + f) + g
  {
    assert a + (b + e) == (a + b) + e == c + (d + e) == c + (f + g);
  }

  /**
   Callers are let through exactly in the order in which they came, whatever the interleaving of arrivals and
   departures: nobody is lost, duplicated or overtaken.
   */
  lemma {:induction false} FirstComeFirstServed(q: QueueState, ops: seq<Op>)
    requires Tight(q) && forall op <- ops :: !op.Cancel?
    ensures Tight(AfterOps(q, ops))
    ensures q.waiting + Arrivals(ops) == Grants(q, ops) + AfterOps(q, ops).waiting
    decreases |ops|
  {
    if ops == [] {
    } else {
      var (q', granted) := Serve(q, ops[0]);
      ServeInOrder(q, ops[0]);
      FirstComeFirstServed(q', ops[1..]);
      Regroup(q.waiting, Arrival(ops[0]), AsSeq(granted), q'.waiting,
              Arrivals(ops[1..]), Grants(q', ops[1..]), AfterOps(q', ops[1..]).waiting);
    }
  }

  // ----- The same with cancellations -----

  /** `a` is what is left of `b` when some elements are taken out. */
  ghost predicate IsSubsequence<T>(a: seq<T>, b: seq<T>) {
    a == [] || (b != [] && (if a[0] == b[0] then IsSubsequence(a[1..], b[1..]) else IsSubsequence(a, b[1..])))
  }

  lemma {:induction false} DropFirst<T>(a: seq<T>, b: seq<T>)
    requires a != [] && IsSubsequence(a, b)
    ensures IsSubsequence(a[1..], b)
    decreases |b|, 1
  {
    if a[0] == b[0] {
      SkipFirst(a[1..], b);
    } else {
      DropFirst(a, b[1..]);
      SkipFirst(a[1..], b);
    }
  }

  lemma {:induction false} SkipFirst<T>(a: seq<T>, b: seq<T>)
    requires b != [] && IsSubsequence(a, b[1..])
    ensures IsSubsequence(a, b)
    decreases |b|, 0
  {
    if a != [] && a[0] == b[0] {
      DropFirst(a, b[1..]);
    }
  }

  lemma {:induction false} SubsequenceOfSubsequence<T>(a: seq<T>, b: seq<T>, c: seq<T>)
    requires IsSubsequence(a, b) && IsSubsequence(b, c)
    ensures IsSubsequence(a, c)
    decreases |c|
  {
    if a != [] {
      if b[0] == c[0] {
        if a[0] == b[0] {
          SubsequenceOfSubsequence(a[1..], b[1..], c[1..]);
        } else {
          SubsequenceOfSubsequence(a, b[1..], c[1..]);
        }
      } else {
        SubsequenceOfSubsequence(a, b, c[1..]);
        SkipFirst(a, c);
      }
    }
  }

  lemma {:induction false} SubsequenceBehind<T>(x: seq<T>, a: seq<T>, b: seq<T>)
    requires IsSubsequence(a, b)
    ensures IsSubsequence(x + a, x + b)
    decreases |x|
  {
    if x == [] {
      assert x + a == a && x + b == b;
    } else {
      assert (x + a)[1..] == x[1..] + a && (x + b)[1..] == x[1..] + b;
      SubsequenceBehind(x[1..], a, b);
    }
  }

  lemma {:induction false} SubsequenceBefore<T>(a: seq<T>, b: seq<T>, y: seq<T>)
    requires IsSubsequence(a, b)
    ensures IsSubsequence(a + y, b + y)
    decreases |b|
  {
    if b == [] {
      assert a + y == b + y == y;
      IsSubsequenceOfItself(y);
    } else {
      assert (b + y)[1..] == b[1..] + y;
      if a != [] && a[0] == b[0] {
        assert (a + y)[1..] == a[1..] + y;
        SubsequenceBefore(a[1..], b[1..], y);
      } else {
        SubsequenceBefore(a, b[1..], y);
        SkipFirst(a + y, b + y);
      }
    }
  }

  lemma {:induction false} IsSubsequenceOfItself<T>(a: seq<T>)
    ensures IsSubsequence(a, a)
  {
    if a != [] {
      IsSubsequenceOfItself(a[1..]);
    }
  }

  lemma {:induction false} WithoutOne<T>(ws: seq<T>, i: nat)
    requires i < |ws|
    ensures IsSubsequence(ws[..i] + ws[i + 1..], ws)
  {
    assert ws == ws[..i] + ws[i..];
    IsSubsequenceOfItself(ws[i + 1..]);
    assert ws[i..][1..] == ws[i + 1..];
    SkipFirst(ws[i + 1..], ws[i..]);
    SubsequenceBehind(ws[..i], ws[i + 1..], ws[i..]);
  }

  /** What one step does to a loose queue: it stays loose, and only a contended removal costs a slot. */
  lemma LooseSteps(q: QueueState, w: Waiter, id: string)
    requires Loose(q)
    ensures Loose(Enqueue(q, w).0) && (Free(Enqueue(q, w).0) == Free(q) || Free(Enqueue(q, w).0) >= 0)
    ensures Loose(Dequeue(q).0) && Free(Dequeue(q).0) >= Free(q)
    ensures Loose(Remove(q, id).0)
    ensures Free(Remove(q, id).0) == Free(q) - if IndexOf(q.waiting, id) < |q.waiting| && |q.waiting| > 1 then 1 else 0
  {
  }

  lemma ServesInOrder(q: QueueState, op: Op)
    requires Loose(q)
    ensures Loose(Serve(q, op).0)
    ensures IsSubsequence(AsSeq(Serve(q, op).1) + Serve(q, op).0.waiting, q.waiting + Arrival(op))
  {
    IsSubsequenceOfItself(q.waiting + Arrival(op));
    match op
    case Arrive(w) => assert [] + (q.waiting + [w]) == q.waiting + [w];
    case Leave => assert q.waiting + [] == q.waiting;
    case Cancel(id) =>
      assert q.waiting + [] == q.waiting;
      var i := IndexOf(q.waiting, id);
      if i < |q.waiting| {
        WithoutOne(q.waiting, i);
        var rest := q.waiting[..i] + q.waiting[i + 1..];
        assert AsSeq(Remove(q, id).1) + Remove(q, id).0.waiting == rest;
      } else {
        assert [] + q.waiting == q.waiting;
      }
  }

  lemma Associative<T>(a: seq<T>, b: seq<T>, c: seq<T>)
    ensures (a + b) + c == a + (b + c)
  {
  }

  lemma OrderOfBoth<T>(before: seq<T>, arrived: seq<T>, granted: seq<T>, between: seq<T>,
                       later: seq<T>, grants: seq<T>, left: seq<T>)
    requires IsSubsequence(granted + between, before + arrived) && IsSubsequence(grants + left, between + later)
    ensures IsSubsequence((granted + grants) + left, before + (arrived + later))
  {
    SubsequenceBefore(granted + between, before + arrived, later);
    SubsequenceBehind(granted, grants + left, between + later);
    Associative(granted, between, later);
    Associative(before, arrived, later);
    Associative(granted, grants, left);
    SubsequenceOfSubsequence(granted + (grants + left), granted + (between + later), before + (arrived + later));
  }

  /**
   With cancellations too, whoever is let through or still waits is in the order of arrival, nobody twice, and
   nobody overtakes anybody.
   */
  lemma {:induction false} GrantsKeepTheOrder(q: QueueState, ops: seq<Op>)
    requires Loose(q)
    ensures Loose(AfterOps(q, ops))
    ensures IsSubsequence(Grants(q, ops) + AfterOps(q, ops).waiting, q.waiting + Arrivals(ops))
    decreases |ops|
  {
    if ops == [] {
      assert Grants(q, ops) + q.waiting == q.waiting == q.waiting + Arrivals(ops);
      IsSubsequenceOfItself(q.waiting);
    } else {
      var (q', granted) := Serve(q, ops[0]);
      ServesInOrder(q, ops[0]);
      GrantsKeepTheOrder(q', ops[1..]);
      OrderOfBoth(q.waiting, Arrival(ops[0]), AsSeq(granted), q'.waiting,
                  Arrivals(ops[1..]), Grants(q', ops[1..]), AfterOps(q', ops[1..]).waiting);
    }
  }

  /** Only cancelled callers are missing, at most one for each cancellation. */
  lemma {:induction false} OnlyCancelledAreMissing(q: QueueState, ops: seq<Op>)
    ensures var present := |Grants(q, ops)| + |AfterOps(q, ops).waiting|;
            |q.waiting| + |Arrivals(ops)| - Cancels(ops) <= present <= |q.waiting| + |Arrivals(ops)|
    decreases |ops|
  {
    if ops != [] {
      OnlyCancelledAreMissing(Serve(q, ops[0]).0, ops[1..]);
    }
  }

  function Cancels(ops: seq<Op>): nat {
    if ops == [] then 0 else (if ops[0].Cancel? then 1 else 0) + Cancels(ops[1..])
  }

  /**
   `Remove` gives its capacity back and also wakes the next waiter, so a removal made while somebody else is
   waiting too lets one caller more through than the limit allows: the queue stays tight exactly when the
   removed caller was the only one waiting (or was not waiting at all).
   */
  lemma RemoveStaysTight(q: QueueState, id: string)
    requires Tight(q)
    ensures Tight(Remove(q, id).0) <==> (IndexOf(q.waiting, id) == |q.waiting| || |q.waiting| == 1)
    ensures !Tight(Remove(q, id).0) ==> Free(Remove(q, id).0) == -1
  {
  }

  // ----- Removing everybody -----

  /** The ids of the waiters, as a JavaScript set lists them: each once, in the order of their first occurrence. */
  function Ids(ws: seq<Waiter>): seq<string> {
    if ws == [] then [] else [ws[0].executionId] + Except(Ids(ws[1..]), ws[0].executionId)
  }

  function Except(ids: seq<string>, id: string): seq<string> {
    if ids == [] then []
    else (if ids[0] == id then [] else [ids[0]]) + Except(ids[1..], id)
  }

  function RemoveEach(q: QueueState, ids: seq<string>): (QueueState, seq<Waiter>)
    decreases |ids|
  {
    if ids == [] then (q, []) else
      var (q1, woken) := Remove(q, ids[0]);
      var (q2, rest) := RemoveEach(q1, ids[1..]);
      (q2, AsSeq(woken) + rest)
  }

  function EverySecond(ws: seq<Waiter>): seq<Waiter> {
    if |ws| < 2 then [] else [ws[1]] + EverySecond(ws[2..])
  }

  predicate DistinctIds(ws: seq<Waiter>) {
    forall i, j :: 0 <= i < j < |ws| ==> ws[i].executionId != ws[j].executionId
  }

  /** Removing the head drops it and wakes the second; the second is then no longer there to be removed. */
  lemma RemoveFirstTwo(q: QueueState)
    requires DistinctIds(q.waiting) && |q.waiting| >= 2
    ensures var q1 := QueueState(q.capacity + 1, q.waiting[2..]);
            && Remove(q, q.waiting[0].executionId) == (q1, Some(q.waiting[1]))
            && Remove(q1, q.waiting[1].executionId) == (q1, None)
  {
    var ws := q.waiting;
    assert ws[..0] + ws[0 + 1..] == ws[1..] && ws[1..][1..] == ws[2..];
    assert IndexOf(ws, ws[0].executionId) == 0;
    assert IndexOf(ws[2..], ws[1].executionId) == |ws[2..]|;
  }

  lemma {:induction false} IdsExcept(ws: seq<Waiter>, id: string)
    requires forall w <- ws :: w.executionId != id
    ensures Except(Ids(ws), id) == Ids(ws)
  {
    IdsAreOfWaiters(ws);
    ExceptAbsent(Ids(ws), id);
  }

  lemma {:induction false} ExceptAbsent(ids: seq<string>, id: string)
    ensures forall i <- Except(ids, id) :: i in ids
    ensures id !in ids ==> Except(ids, id) == ids
  {
    if ids != [] {
      ExceptAbsent(ids[1..], id);
    }
  }

  lemma {:induction false} IdsAreOfWaiters(ws: seq<Waiter>)
    ensures forall id <- Ids(ws) :: exists w <- ws :: w.executionId == id
  {
    if ws != [] {
      IdsAreOfWaiters(ws[1..]);
      ExceptAbsent(Ids(ws[1..]), ws[0].executionId);
      assert ws[0] in ws && forall w <- ws[1..] :: w in ws;
    }
  }

  lemma IdsOfTwo(ws: seq<Waiter>)
    requires |ws| >= 2 && DistinctIds(ws)
    ensures var ids := Ids(ws);
            && |ids| >= 2 && ids[0] == ws[0].executionId
            && ids[1..][0] == ws[1].executionId && ids[1..][1..] == Ids(ws[2..])
  {
    assert ws[1..][1..] == ws[2..];
    IdsExcept(ws[2..], ws[1].executionId);
    IdsExcept(ws[1..], ws[0].executionId);
    assert Ids(ws) == [ws[0].executionId] + ([ws[1].executionId] + Ids(ws[2..]));
  }

  lemma RemoveEachTwice(q: QueueState, ids: seq<string>)
    requires DistinctIds(q.waiting) && |q.waiting| >= 2 && |ids| >= 2
    requires ids[0] == q.waiting[0].executionId && ids[1..][0] == q.waiting[1].executionId
    ensures var (q', rest) := RemoveEach(QueueState(q.capacity + 1, q.waiting[2..]), ids[1..][1..]);
            RemoveEach(q, ids) == (q', [q.waiting[1]] + rest)
  {
    RemoveFirstTwo(q);
    var q1 := QueueState(q.capacity + 1, q.waiting[2..]);
    var (q', rest) := RemoveEach(q1, ids[1..][1..]);
    assert AsSeq<Waiter>(None) + rest == rest;
    assert RemoveEach(q1, ids[1..]) == (q', rest);
  }

  /**
   However the ids are chosen and however often they occur, each removal takes one waiter out and wakes another one,
   as long as there is one: the capacity grows by as many as are woken, or by one more if the last removal found
   nobody left to wake.
   */
  lemma {:induction false} RemoveEachCounts(q: QueueState, ids: seq<string>)
    ensures var (q', woken) := RemoveEach(q, ids);
            var dropped := q'.capacity - q.capacity;
            && dropped + |woken| + |q'.waiting| == |q.waiting|
            && (dropped == |woken| || (dropped == |woken| + 1 && q'.waiting == []))
    decreases |ids|
  {
    if ids != [] {
      RemoveEachCounts(Remove(q, ids[0]).0, ids[1..]);
    }
  }

  /** With an id that occurs twice the queue may not even get empty: the set of ids has it once. */
  lemma RepeatedIdStays(capacity: int, a1: Waiter, b: Waiter, a2: Waiter)
    requires a1.executionId == a2.executionId != b.executionId
    ensures RemoveEach(QueueState(capacity, [a1, b, a2]), Ids([a1, b, a2])) == (QueueState(capacity + 1, [a2]), [b])
  {
    var ws, x, y := [a1, b, a2], a1.executionId, b.executionId;
    assert ws[1..] == [b, a2] && [b, a2][1..] == [a2] && [a2][1..] == [] && Ids([]) == [];
    assert [x][1..] == [] && [y, x][1..] == [x] && Except([], x) == Except([], y) == [];
    assert Ids([a2]) == [x];
    assert Except([x], y) == [x] && Except([x], x) == [];
    assert Ids([b, a2]) == [y] + [x] == [y, x];
    assert Except([y, x], x) == [y] + [] == [y];
    assert Ids(ws) == [x] + [y] == [x, y];
    var q1 := QueueState(capacity + 1, [a2]);
    assert IndexOf(ws, x) == 0 && ws[..0] + ws[1..] == [b, a2];
    assert Remove(QueueState(capacity, ws), x) == (q1, Some(b));
    assert IndexOf([a2], y) == 1;
    assert Remove(q1, y) == (q1, None);
    assert [x, y][1..] == [y] && [y][1..] == [];
    assert RemoveEach(q1, []) == (q1, []);
    assert AsSeq<Waiter>(None) + [] == [];
    assert RemoveEach(q1, [y]) == (q1, []);
    assert [b] + [] == [b];
  }

  /**
   Removing every waiter in turn empties the queue, but only every other waiter is dropped: the removal of one
   wakes the next. The capacity grows by the number dropped, not by the number that was waiting.
   */
  lemma {:induction false} RemoveEachDropsEveryOther(q: QueueState)
    requires DistinctIds(q.waiting)
    ensures var (q', woken) := RemoveEach(q, Ids(q.waiting));
            && q'.waiting == []
            && woken == EverySecond(q.waiting)
            && q'.capacity == q.capacity + (|q.waiting| + 1) / 2
    decreases |q.waiting|
  {
    var ws := q.waiting;
    if |ws| == 0 {
    } else if |ws| == 1 {
      assert Ids(ws) == [ws[0].executionId];
    } else {
      IdsOfTwo(ws);
      RemoveEachTwice(q, Ids(ws));
      RemoveEachDropsEveryOther(QueueState(q.capacity + 1, ws[2..]));
    }
  }

  /**
   Emptying a queue releases "all capacity back", as its caller is told, without waking anybody exactly when at
   most one caller was waiting.
   */
  lemma RemoveEachReleasesAll(q: QueueState)
    ensures var (q', woken) := RemoveEach(q, Ids(q.waiting));
            (q'.capacity == q.capacity + |q.waiting| && woken == []) <==> |q.waiting| <= 1
  {
    if |q.waiting| <= 1 {
      RemoveEachDropsEveryOther(q);
    } else {
      var (q1, woken) := Remove(q, Ids(q.waiting)[0]);
      assert woken.Some?;
    }
  }

  // ----- The queue object -----

  class ConcurrencyQueue {
    var capacity: int
    var waiting: seq<Waiter>

    function View(): QueueState
      reads this
    {
      QueueState(capacity, waiting)
    }

    constructor (capacity: int)
      ensures View() == QueueState(capacity, [])
    {
      this.capacity := capacity;
      this.waiting := [];
    }

    method EnqueueCaller(executionId: string, ticket: Ticket) returns (proceeds: bool)
      modifies this
      ensures (View(), proceeds) == Enqueue(old(View()), Waiter(executionId, ticket))
    {
      capacity := capacity - 1;
      proceeds := capacity >= 0;
      if capacity < 0 {
        waiting := waiting + [Waiter(executionId, ticket)];
      }
    }

    method DequeueCaller() returns (woken: Option<Waiter>)
      modifies this
      ensures (View(), woken) == Dequeue(old(View()))
    {
      capacity := capacity + 1;
      woken := WakeNext();
    }

    method RemoveCaller(executionId: string) returns (woken: Option<Waiter>)
      modifies this
      ensures (View(), woken) == Remove(old(View()), executionId)
    {
      var index := IndexOf(waiting, executionId);
      woken := None;
      if index < |waiting| {
        waiting := waiting[..index] + waiting[index + 1..];
        capacity := capacity + 1;
        woken := WakeNext();
      }
    }

    method WakeNext() returns (woken: Option<Waiter>)
      modifies this
      ensures (View(), woken) == ResolveNext(old(View()))
    {
      woken := None;
      if waiting != [] {
        woken := Some(waiting[0]);
        waiting := waiting[1..];
      }
    }
  }
}
