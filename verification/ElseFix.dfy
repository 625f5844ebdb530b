/**
 Exactly when the fix of no-useless-catch-throw is safe before an `else`
 (packages/@n8n/eslint-config/local-rules.js:199-210).
 */
module ElseFix {
  import opened Wrappers
  import opened JavaScript
  import opened LintRules
  import opened FixText
  import opened FixMeaning

  // ----- A value that a program does not mention -----

  function BoundOf(v: Value): nat {
    if v.Undefined? then 0 else v.content + 1
  }

  function Max(a: nat, b: nat): nat {
    if a < b then b else a
  }

  /** Every literal of the expression is below this. */
  function BoundIn(e: Expr): nat
    decreases e, 1
  {
    match e
    case Ident(_) => 0
    case Literal(v) => BoundOf(v)
    case Member(target, property, _) => Max(BoundIn(target), BoundIn(property))
    case Call(_, callee, args) => Max(BoundIn(callee), BoundInArgs(args))
  }

  function BoundInArgs(es: seq<Expr>): nat
    decreases es, 0
  {
    if es == [] then 0 else Max(BoundIn(es[0]), BoundInArgs(es[1..]))
  }

  function BoundAt(s: Stmt): nat
    decreases s, 1
  {
    match s
    case Evaluate(e) => BoundIn(e)
    case Assign(_, e) => BoundIn(e)
    case Block(body) => Bound(body)
    case If(test, consequent, alternate) =>
      Max(BoundIn(test), Max(BoundAt(consequent), if alternate.None? then 0 else BoundAt(alternate.value)))
    case While(test, body) => Max(BoundIn(test), BoundAt(body))
    case Throw(e) => BoundIn(e)
    case Return(e) => BoundIn(e)
    case Break(_) => 0
    case Try(_, block, handler, finalizer) =>
      Max(Bound(block), Max(BoundInHandler(handler), BoundInFinalizer(finalizer)))
  }

  function BoundInHandler(handler: Option<Catch>): nat
    decreases handler, 1
  {
    if handler.None? then 0 else Bound(handler.value.body)
  }

  function BoundInFinalizer(finalizer: Finalizer): nat
    decreases finalizer, 1
  {
    if finalizer.NoFinalizer? then 0 else Bound(finalizer.body)
  }

  function Bound(ss: seq<Stmt>): nat
    decreases ss, 0
  {
    if ss == [] then 0 else Max(BoundAt(ss[0]), Bound(ss[1..]))
  }

  // ----- Surroundings in which only that value is falsy -----

  function ShyEnv(n: nat): Env {
    FailingEnv().(truthy := v => v != Data(n))
  }

  predicate IsBelow(n: nat, st: Store) {
    forall x <- st :: BoundOf(st[x]) <= n
  }

  predicate EndsBelow(n: nat, r: Executed) {
    r.Some? ==>
      && IsBelow(n, r.value.1)
      && (r.value.0.Thrown? ==> BoundOf(r.value.0.error) <= n)
  }

  lemma {:induction false} SameFailures(n: nat, e: Expr, st: Store)
    ensures Eval(ShyEnv(n), e, st) == Eval(FailingEnv(), e, st)
    decreases e, 1
  {
    match e
    case Ident(_) =>
    case Literal(_) =>
    case Member(target, property, _) =>
      SameFailures(n, target, st);
      SameFailures(n, property, Eval(FailingEnv(), target, st).1);
    case Call(_, callee, args) =>
      SameFailures(n, callee, st);
      SameFailuresOfArgs(n, args, st);
      SameFailuresOfArgs(n, args, Eval(FailingEnv(), callee, st).1);
  }

  lemma {:induction false} SameFailuresOfArgs(n: nat, es: seq<Expr>, st: Store)
    ensures EvalArgs(ShyEnv(n), es, st) == EvalArgs(FailingEnv(), es, st)
    decreases es, 0
  {
    if es != [] {
      SameFailures(n, es[0], st);
      SameFailuresOfArgs(n, es[1..], Eval(FailingEnv(), es[0], st).1);
    }
  }

  /** Nothing the program evaluates gives the value, so every test it reaches is true. */
  lemma EvaluatesBelow(n: nat, e: Expr, st: Store)
    requires BoundIn(e) <= n && IsBelow(n, st)
    ensures var (v, st1) := Eval(ShyEnv(n), e, st);
            st1 == st && if v.Failure? then v.error == Undefined else BoundOf(v.value) <= n && ShyEnv(n).truthy(v.value)
  {
    SameFailures(n, e, st);
    OnlyLiteralsAndVariables(e, st);
  }

  lemma {:induction false} RunsBelow(n: nat, fuel: nat, s: Stmt, st: Store)
    requires BoundAt(s) <= n && IsBelow(n, st)
    ensures EndsBelow(n, Exec(ShyEnv(n), fuel, s, st))
    decreases fuel, s, 1
  {
    match s
    case Evaluate(e) => EvaluatesBelow(n, e, st);
    case Assign(_, e) => EvaluatesBelow(n, e, st);
    case Block(body) => AllRunBelow(n, fuel, body, st);
    case If(test, consequent, _) =>
      EvaluatesBelow(n, test, st);
      RunsBelow(n, fuel, consequent, st);
    case While(test, body) =>
      EvaluatesBelow(n, test, st);
      RunsBelow(n, fuel, body, st);
      var r := Exec(ShyEnv(n), fuel, body, st);
      if r.Some? && r.value.0.Normal? && fuel > 0 {
        RunsBelow(n, fuel - 1, s, r.value.1);
      }
    case Throw(e) => EvaluatesBelow(n, e, st);
    case Return(e) => EvaluatesBelow(n, e, st);
    case Break(_) =>
    case Try(_, block, handler, finalizer) =>
      AllRunBelow(n, fuel, block, st);
      var tried := ExecAll(ShyEnv(n), fuel, block, st);
      CatchRunsBelow(n, fuel, handler, tried);
      FinallyRunsBelow(n, fuel, finalizer, ExecCatch(ShyEnv(n), fuel, handler, tried));
  }

  lemma {:induction false} AllRunBelow(n: nat, fuel: nat, ss: seq<Stmt>, st: Store)
    requires Bound(ss) <= n && IsBelow(n, st)
    ensures EndsBelow(n, ExecAll(ShyEnv(n), fuel, ss, st))
    decreases fuel, ss, 0
  {
    if ss != [] {
      RunsBelow(n, fuel, ss[0], st);
      var r := Exec(ShyEnv(n), fuel, ss[0], st);
      if r.Some? && r.value.0.Normal? {
        AllRunBelow(n, fuel, ss[1..], r.value.1);
      }
    }
  }

  lemma {:induction false} CatchRunsBelow(n: nat, fuel: nat, handler: Option<Catch>, tried: Executed)
    requires BoundInHandler(handler) <= n && EndsBelow(n, tried)
    ensures EndsBelow(n, ExecCatch(ShyEnv(n), fuel, handler, tried))
    decreases fuel, handler, 1
  {
    if handler.Some? && tried.Some? && tried.value.0.Thrown? {
      var c, st := handler.value, tried.value.1;
      AllRunBelow(n, fuel, c.body, st);
      if c.param.Some? && c.param.value.Name? {
        AllRunBelow(n, fuel, c.body, st[c.param.value.name := tried.value.0.error]);
      }
    }
  }

  lemma {:induction false} FinallyRunsBelow(n: nat, fuel: nat, finalizer: Finalizer, caught: Executed)
    requires BoundInFinalizer(finalizer) <= n && EndsBelow(n, caught)
    ensures EndsBelow(n, ExecFinally(ShyEnv(n), fuel, finalizer, caught))
    decreases fuel, finalizer, 1
  {
    if finalizer.Finally? && caught.Some? {
      AllRunBelow(n, fuel, finalizer.body, caught.value.1);
    }
  }

  /** There an `else` that an open `if` has taken never runs. */
  lemma {:induction false} TakenElseIsIdle(n: nat, fuel: nat, s: Stmt, alternate: Stmt, st: Store)
    requires EndsOpen(s) && BoundAt(s) <= n && IsBelow(n, st)
    ensures Exec(ShyEnv(n), fuel, Fill(ElsePath(s), alternate), st) == Exec(ShyEnv(n), fuel, s, st)
    decreases fuel, s
  {
    EvaluatesBelow(n, s.test, st);
    match s
    case While(test, body) =>
      FillFirst(WhileHead(test), ElsePath(body), alternate);
      TakenElseIsIdle(n, fuel, body, alternate, st);
      RunsBelow(n, fuel, body, st);
      var r := Exec(ShyEnv(n), fuel, body, st);
      if r.Some? && fuel > 0 {
        TakenElseIsIdle(n, fuel - 1, s, alternate, r.value.1);
      }
    case If(test, consequent, other) =>
      if other.Some? {
        FillFirst(ElseHead(test, consequent), ElsePath(other.value), alternate);
      } else if EndsOpen(consequent) {
        FillFirst(IfHead(test), ElsePath(consequent), alternate);
        TakenElseIsIdle(n, fuel, consequent, alternate, st);
      } else {
        FillFirst(ElseHead(test, consequent), [], alternate);
      }
  }

  lemma FillFirst(head: Head, heads: seq<Head>, s: Stmt)
    ensures head.WhileHead? ==> Fill([head] + heads, s) == While(head.test, Fill(heads, s))
    ensures head.IfHead? ==> Fill([head] + heads, s) == If(head.test, Fill(heads, s), None)
    ensures head.ElseHead? ==> Fill([head] + heads, s) == If(head.test, head.consequent, Some(Fill(heads, s)))
  {
    assert ([head] + heads)[1..] == heads;
  }

  // ----- Before an `else` -----

  ghost predicate ElseFixIsSafe(loc: nat, block: seq<Stmt>) {
    forall env: Env, fuel: nat, test: Expr, alternate: Stmt, st: Store
      | IsParsedAt(alternate) && CatchFix(loc) !in OffersAt(alternate) ::
      KeepsMeaning(env, fuel, CatchFix(loc), [If(test, RethrowingTry(loc, block), Some(alternate))], st)
  }

  lemma ClosedStatementFixed(env: Env, fuel: nat, loc: nat, test: Expr, block: seq<Stmt>, alternate: Stmt, st: Store)
    requires |block| == 1 && IsParsed(block) && !EndsOpen(block[0])
    requires IsParsedAt(alternate) && CatchFix(loc) !in OffersAt(alternate)
    ensures KeepsMeaning(env, fuel, CatchFix(loc), [If(test, RethrowingTry(loc, block), Some(alternate))], st)
  {
    var f, s := CatchFix(loc), RethrowingTry(loc, block);
    var branch := If(test, s, Some(alternate));
    assert [branch][1..] == [];
    TryIsReported(loc, block);
    StatementKept(f, alternate, false);
    ExpressionKept(f, test) by { CatchFixLeavesExpressions(f, test); }
    assert FitsBody(f, s, true) && FitsBody(f, alternate, false);
    ProgramFixed(env, fuel, f, [branch], st);
  }

  /** What follows the first statement of the text after the fix, `else` included. */
  function Rest(block: seq<Stmt>, alternate: Stmt): seq<Stmt>
    requires |block| > 1 && EndsOpen(block[|block| - 1])
  {
    var rest := block[1..];
    rest[..|rest| - 1] + [Fill(ElsePath(rest[|rest| - 1]), alternate)]
  }

  lemma TakenElseText(loc: nat, test: Expr, block: seq<Stmt>, alternate: Stmt)
    requires block != [] && EndsOpen(block[|block| - 1])
    requires IsParsedAt(alternate) && CatchFix(loc) !in OffersAt(alternate)
    ensures var branch := If(test, block[0], None);
            FixProgram(CatchFix(loc), [If(test, RethrowingTry(loc, block), Some(alternate))])
            == Some(if |block| == 1 then [Fill(ElsePath(branch), alternate)] else [branch] + Rest(block, alternate))
  {
    var s := RethrowingTry(loc, block);
    TryIsReported(loc, block);
    ElseIsTaken(CatchFix(loc), test, s, alternate);
    EnterOne(IfHead(test), block[0]);
    var branch := Enter([IfHead(test)], Reading(block, [])).done;
    assert branch == [If(test, block[0], None)] + block[1..];
    Regrouped(branch, block[1..], If(test, block[0], None), alternate);
  }

  lemma Regrouped(all: seq<Stmt>, rest: seq<Stmt>, first: Stmt, alternate: Stmt)
    requires all == [first] + rest && EndsOpen(all[|rest|])
    ensures all[..|rest|] + [Fill(ElsePath(all[|rest|]), alternate)]
            == if rest == [] then [Fill(ElsePath(first), alternate)]
               else [first] + (rest[..|rest| - 1] + [Fill(ElsePath(rest[|rest| - 1]), alternate)])
  {
    if rest == [] {
      assert all[..0] == [] && all[0] == first;
    } else {
      assert all[|rest|] == rest[|rest| - 1];
      assert all[..|rest|] == [first] + rest[..|rest| - 1];
    }
  }

  /** With the test falsy, the rest of the block runs and nothing else, whatever the `else` says. */
  lemma TakenElseNeverRuns(n: nat, fuel: nat, loc: nat, block: seq<Stmt>, alternate: Stmt)
    requires block != [] && EndsOpen(block[|block| - 1]) && Bound(block) <= n
    requires IsParsedAt(alternate) && CatchFix(loc) !in OffersAt(alternate)
    ensures var test := Literal(Data(n));
            var fixed := FixProgram(CatchFix(loc), [If(test, RethrowingTry(loc, block), Some(alternate))]);
            fixed.Some? && ExecAll(ShyEnv(n), fuel, fixed.value, map[]) == ExecAll(ShyEnv(n), fuel, block[1..], map[])
  {
    var test := Literal(Data(n));
    var branch := If(test, block[0], None);
    TakenElseText(loc, test, block, alternate);
    if |block| == 1 {
      FalsyBranchIsIdle(n, fuel, test, block[0], alternate);
      ExecAlone(ShyEnv(n), fuel, Fill(ElsePath(branch), alternate), map[]);
    } else {
      SkipsBranch(n, fuel, branch, Rest(block, alternate));
      RestIsIdle(n, fuel, block, alternate);
    }
  }

  lemma SkipsBranch(n: nat, fuel: nat, branch: Stmt, rest: seq<Stmt>)
    requires branch.If? && branch.test == Literal(Data(n)) && branch.alternate.None?
    ensures ExecAll(ShyEnv(n), fuel, [branch] + rest, map[]) == ExecAll(ShyEnv(n), fuel, rest, map[])
  {
    assert ([branch] + rest)[1..] == rest;
    assert Exec(ShyEnv(n), fuel, branch, map[]) == Some((Normal, map[]));
  }

  lemma RestIsIdle(n: nat, fuel: nat, block: seq<Stmt>, alternate: Stmt)
    requires |block| > 1 && EndsOpen(block[|block| - 1]) && Bound(block) <= n
    ensures ExecAll(ShyEnv(n), fuel, Rest(block, alternate), map[]) == ExecAll(ShyEnv(n), fuel, block[1..], map[])
  {
    var rest := block[1..];
    var last := |rest| - 1;
    BoundOfTail(block);
    assert rest == rest[..last] + [rest[last]];
    LastIsIdle(n, fuel, rest[..last], rest[last], alternate);
  }

  lemma FalsyBranchIsIdle(n: nat, fuel: nat, test: Expr, s: Stmt, alternate: Stmt)
    requires test == Literal(Data(n)) && EndsOpen(s)
    ensures EndsOpen(If(test, s, None))
    ensures Exec(ShyEnv(n), fuel, Fill(ElsePath(If(test, s, None)), alternate), map[]) == Some((Normal, map[]))
  {
    FillFirst(IfHead(test), ElsePath(s), alternate);
  }

  lemma BoundOfTail(ss: seq<Stmt>)
    requires ss != []
    ensures Bound(ss[1..]) <= Bound(ss)
  {
  }

  lemma {:induction false} LastIsIdle(n: nat, fuel: nat, front: seq<Stmt>, last: Stmt, alternate: Stmt)
    requires EndsOpen(last) && Bound(front + [last]) <= n
    ensures ExecAll(ShyEnv(n), fuel, front + [Fill(ElsePath(last), alternate)], map[])
            == ExecAll(ShyEnv(n), fuel, front + [last], map[])
  {
    var env := ShyEnv(n);
    BoundOfConcat(front, [last]);
    assert [last][1..] == [];
    ExecAllConcat(env, fuel, front, [Fill(ElsePath(last), alternate)], map[]);
    ExecAllConcat(env, fuel, front, [last], map[]);
    AllRunBelow(n, fuel, front, map[]);
    var r := ExecAll(env, fuel, front, map[]);
    if r.Some? && r.value.0.Normal? {
      TakenElseIsIdle(n, fuel, last, alternate, r.value.1);
      ExecAlone(env, fuel, last, r.value.1);
      ExecAlone(env, fuel, Fill(ElsePath(last), alternate), r.value.1);
    }
  }

  lemma {:induction false} BoundOfConcat(a: seq<Stmt>, b: seq<Stmt>)
    ensures Bound(a + b) == Max(Bound(a), Bound(b))
  {
    if a == [] {
      assert a + b == b;
    } else {
      assert (a + b)[0] == a[0] && (a + b)[1..] == a[1..] + b;
      BoundOfConcat(a[1..], b);
    }
  }

  /** Of two different things for the `else` to do, the program after the fix misses at least one. */
  lemma TakenElseShows(loc: nat, block: seq<Stmt>)
    requires block != [] && EndsOpen(block[|block| - 1])
    ensures !ElseFixIsSafe(loc, block)
  {
    var n, s := Bound(block), RethrowingTry(loc, block);
    var env, test := ShyEnv(n), Literal(Data(n));
    var nothing, throwing := Block([]), Throw(Literal(Undefined));
    TakenElseNeverRuns(n, 0, loc, block, nothing);
    TakenElseNeverRuns(n, 0, loc, block, throwing);
    ExecAlone(env, 0, If(test, s, Some(nothing)), map[]);
    ExecAlone(env, 0, If(test, s, Some(throwing)), map[]);
    assert Exec(env, 0, If(test, s, Some(nothing)), map[]) == Some((Normal, map[]));
    assert Exec(env, 0, If(test, s, Some(throwing)), map[]) == Some((Thrown(Undefined), map[]));
    assert !KeepsMeaning(env, 0, CatchFix(loc), [If(test, s, Some(nothing))], map[])
        || !KeepsMeaning(env, 0, CatchFix(loc), [If(test, s, Some(throwing))], map[]);
  }

  /**
   `if (false) try { if (a) b(); } catch (e) { throw e; } else x = 1;` assigns. After the fix the `else` belongs to
   the inner `if`, which does not run.
   */
  lemma LostAssignment(env: Env, fuel: nat, loc: nat, test: Expr, s: Stmt, st: Store)
    requires test.Literal? && !env.truthy(test.value) && EndsOpen(s) && "x" !in st
    ensures var branch := If(test, RethrowingTry(loc, [s]), Some(Assign("x", Literal(Data(1)))));
            && ExecAll(env, fuel, [branch], st) == Some((Normal, st["x" := Data(1)]))
            && FixProgram(CatchFix(loc), [branch]).Some?
            && ExecAll(env, fuel, FixProgram(CatchFix(loc), [branch]).value, st) == Some((Normal, st))
  {
    var alternate := Assign("x", Literal(Data(1)));
    var branch := If(test, RethrowingTry(loc, [s]), Some(alternate));
    TryIsReported(loc, [s]);
    ElseIsTaken(CatchFix(loc), test, RethrowingTry(loc, [s]), alternate);
    EnterOne(IfHead(test), s);
    ExecAlone(env, fuel, branch, st);
    FillFirst(IfHead(test), ElsePath(s), alternate);
    var fixed := If(test, Fill(ElsePath(s), alternate), None);
    assert FixProgram(CatchFix(loc), [branch]).value == [fixed];
    ExecAlone(env, fuel, fixed, st);
  }

  /** Before an `else` the fix is safe exactly for a single statement that takes no `else`. */
  lemma ElseFixIsSafeExactly(loc: nat, block: seq<Stmt>)
    requires IsParsed(block)
    ensures ElseFixIsSafe(loc, block) <==> |block| == 1 && !EndsOpen(block[0])
  {
    var f, s := CatchFix(loc), RethrowingTry(loc, block);
    TryIsReported(loc, block);
    if |block| == 1 && !EndsOpen(block[0]) {
      forall env: Env, fuel: nat, test: Expr, alternate: Stmt, st: Store
        | IsParsedAt(alternate) && f !in OffersAt(alternate)
        ensures KeepsMeaning(env, fuel, f, [If(test, s, Some(alternate))], st)
      {
        ClosedStatementFixed(env, fuel, loc, test, block, alternate, st);
      }
    } else if block != [] && EndsOpen(block[|block| - 1]) {
      TakenElseShows(loc, block);
    } else {
      var alternate := Assign("x", Literal(Data(1)));
      ElseIsLeftOver(f, Literal(Undefined), s, alternate);
      assert !KeepsMeaning(FalsyEnv(), 0, f, [If(Literal(Undefined), s, Some(alternate))], map[]);
    }
  }
}
