/** What the two autofixes do to the meaning of programs (packages/@n8n/eslint-config/local-rules.js). */
module FixMeaning {
  import opened Wrappers
  import opened JavaScript
  import opened LintRules
  import opened FixText

  // ----- One fix by itself -----

  lemma ArgumentAlone(env: Env, e: Expr, st: Store)
    ensures var (v, st1) := Eval(env, e, st);
            EvalArgs(env, [e], st) == (if v.Failure? then Failure(v.error) else Success([v.value]), st1)
  {
    var (v, st1) := Eval(env, e, st);
    assert [e][1..] == [];
    assert EvalArgs(env, [], st1) == (Success([]), st1);
    if v.Success? {
      assert [v.value] + [] == [v.value];
    }
  }

  /** Copying by way of text and the deep copy evaluate alike, effects and errors included. */
  lemma PlainPatternCopies(env: Env, e: Expr, st: Store)
    requires IsDeepCopyPattern(e) && IsPlainPattern(e)
    ensures Eval(env, DeepCopyCall(e), st) == Eval(env, e, st)
  {
    var inner := e.args[0];
    var x := inner.args[0];
    ArgumentAlone(env, x, st);
    ArgumentAlone(env, inner, st);
    assert e.args == [inner] && inner.args == [x];
    assert e.callee == GlobalJson("parse") && inner.callee == GlobalJson("stringify");
  }

  lemma {:induction false} NothingDone(env: Env, fuel: nat, body: seq<Stmt>, st: Store)
    requires DoesNothing(body)
    ensures ExecAll(env, fuel, body, st) == Some((Normal, st))
    decreases body
  {
    if body != [] {
      if body[0].Block? {
        NothingDone(env, fuel, body[0].body, st);
      }
      NothingDone(env, fuel, body[1..], st);
    }
  }

  /** A try statement that only rethrows, and finally does nothing, does what its block does. */
  lemma UselessTryIsBlock(env: Env, fuel: nat, s: Stmt, st: Store)
    requires IsUselessTry(s) && (s.finalizer.Finally? ==> DoesNothing(s.finalizer.body))
    ensures Exec(env, fuel, s, st) == ExecAll(env, fuel, s.block, st)
  {
    var tried := ExecAll(env, fuel, s.block, st);
    Rethrown(env, fuel, s.handler.value, tried);
    if s.finalizer.Finally? && tried.Some? {
      NothingDone(env, fuel, s.finalizer.body, tried.value.1);
    }
  }

  lemma Rethrown(env: Env, fuel: nat, c: Catch, tried: Executed)
    requires CatchVerdict(c) == Reported
    ensures ExecCatch(env, fuel, Some(c), tried) == tried
  {
    if tried.Some? && tried.value.0.Thrown? {
      var name, st, error := c.param.value.name, tried.value.1, tried.value.0.error;
      var bound := st[name := error];
      assert c.body[1..] == [];
      assert Exec(env, fuel, c.body[0], bound) == Some((Thrown(error), bound));
      assert ExecAll(env, fuel, c.body, bound) == Some((Thrown(error), bound));
      assert Rebind(bound, st, name) == st;
    }
  }

  // ----- One fix in a program -----

  lemma {:induction false} EvalFixed(env: Env, f: Fix, e: Expr, st: Store)
    requires SafeExpr(f, e)
    ensures Eval(env, FixExpr(f, e), st) == Eval(env, e, st)
    decreases e, 1
  {
    if HitsExpr(f, e) {
      PlainPatternCopies(env, e, st);
    } else {
      match e
      case Ident(_) =>
      case Literal(_) =>
      case Member(target, property, computed) =>
        FixKeepsShape(f, property);
        EvalFixed(env, f, target, st);
        var (o, st1) := Eval(env, target, st);
        EvalFixed(env, f, property, st1);
      case Call(_, callee, args) =>
        FixKeepsShape(f, callee);
        EvalFixed(env, f, callee, st);
        EvalArgsFixed(env, f, args, st);
        var (g, st1) := Eval(env, callee, st);
        EvalArgsFixed(env, f, args, st1);
    }
  }

  lemma {:induction false} EvalArgsFixed(env: Env, f: Fix, es: seq<Expr>, st: Store)
    requires SafeArgs(f, es)
    ensures EvalArgs(env, FixArgs(f, es), st) == EvalArgs(env, es, st)
    decreases es, 0
  {
    if es != [] {
      EvalFixed(env, f, es[0], st);
      var (v, st1) := Eval(env, es[0], st);
      EvalArgsFixed(env, f, es[1..], st1);
      assert FixArgs(f, es)[1..] == FixArgs(f, es[1..]);
    }
  }

  lemma {:induction false} ExecFixed(env: Env, fuel: nat, f: Fix, s: Stmt, st: Store)
    requires SafeStmt(f, s)
    ensures Exec(env, fuel, Replace(f, s), st) == Exec(env, fuel, s, st)
    decreases fuel, s, 1
  {
    if HitsStmt(f, s) {
      UselessTryIsBlock(env, fuel, s, st);
      if |s.block| == 1 {
        ExecAlone(env, fuel, s.block[0], st);
        assert s.block == [s.block[0]];
      }
    } else {
      match s
      case Evaluate(e) => EvalFixed(env, f, e, st);
      case Assign(_, e) => EvalFixed(env, f, e, st);
      case Block(body) => AllFixed(env, fuel, f, body, st);
      case If(test, consequent, alternate) =>
        EvalFixed(env, f, test, st);
        var (v, st1) := Eval(env, test, st);
        ExecFixed(env, fuel, f, consequent, st1);
        if alternate.Some? {
          ExecFixed(env, fuel, f, alternate.value, st1);
        }
      case While(_, _) => WhileFixed(env, fuel, f, s, st);
      case Throw(e) => EvalFixed(env, f, e, st);
      case Return(e) => EvalFixed(env, f, e, st);
      case Break(_) =>
      case Try(_, block, handler, finalizer) =>
        AllFixed(env, fuel, f, block, st);
        var tried := ExecAll(env, fuel, block, st);
        CatchFixed(env, fuel, f, handler, tried);
        FinallyFixed(env, fuel, f, finalizer, ExecCatch(env, fuel, handler, tried));
    }
  }

  lemma {:induction false} WhileFixed(env: Env, fuel: nat, f: Fix, s: Stmt, st: Store)
    requires s.While? && SafeStmt(f, s)
    ensures Exec(env, fuel, Replace(f, s), st) == Exec(env, fuel, s, st)
    decreases fuel, s, 0
  {
    EvalFixed(env, f, s.test, st);
    var st1 := Eval(env, s.test, st).1;
    ExecFixed(env, fuel, f, s.loopBody, st1);
    var r := Exec(env, fuel, s.loopBody, st1);
    if r.Some? && fuel > 0 {
      ExecFixed(env, fuel - 1, f, s, r.value.1);
    }
  }

  lemma {:induction false} AllFixed(env: Env, fuel: nat, f: Fix, ss: seq<Stmt>, st: Store)
    requires SafeAll(f, ss)
    ensures ExecAll(env, fuel, ReplaceAll(f, ss), st) == ExecAll(env, fuel, ss, st)
    decreases fuel, ss, 0
  {
    if ss != [] {
      var first := if HitsStmt(f, ss[0]) then ss[0].block else [Replace(f, ss[0])];
      if HitsStmt(f, ss[0]) {
        UselessTryIsBlock(env, fuel, ss[0], st);
      } else {
        ExecFixed(env, fuel, f, ss[0], st);
        ExecAlone(env, fuel, Replace(f, ss[0]), st);
      }
      ExecAllConcat(env, fuel, first, ReplaceAll(f, ss[1..]), st);
      var r := Exec(env, fuel, ss[0], st);
      if r.Some? && r.value.0.Normal? {
        AllFixed(env, fuel, f, ss[1..], r.value.1);
      }
    }
  }

  lemma ExecAlone(env: Env, fuel: nat, s: Stmt, st: Store)
    ensures ExecAll(env, fuel, [s], st) == Exec(env, fuel, s, st)
  {
    assert [s][1..] == [];
  }

  lemma {:induction false} CatchFixed(env: Env, fuel: nat, f: Fix, handler: Option<Catch>, tried: Executed)
    requires handler.Some? ==> SafeAll(f, handler.value.body)
    ensures ExecCatch(env, fuel, ReplaceInHandler(f, handler), tried) == ExecCatch(env, fuel, handler, tried)
    decreases fuel, handler, 1
  {
    if handler.Some? && tried.Some? && tried.value.0.Thrown? {
      var c, st := handler.value, tried.value.1;
      AllFixed(env, fuel, f, c.body, st);
      if c.param.Some? && c.param.value.Name? {
        AllFixed(env, fuel, f, c.body, st[c.param.value.name := tried.value.0.error]);
      }
    }
  }

  lemma {:induction false} FinallyFixed(env: Env, fuel: nat, f: Fix, finalizer: Finalizer, caught: Executed)
    requires finalizer.Finally? ==> SafeAll(f, finalizer.body)
    ensures ExecFinally(env, fuel, ReplaceInFinalizer(f, finalizer), caught)
            == ExecFinally(env, fuel, finalizer, caught)
    decreases fuel, finalizer, 1
  {
    if finalizer.Finally? && caught.Some? {
      AllFixed(env, fuel, f, finalizer.body, caught.value.1);
    }
  }

  /** The text after the fix is a program, which ends like the one before and leaves the same store. */
  predicate KeepsMeaning(env: Env, fuel: nat, f: Fix, ss: seq<Stmt>, st: Store) {
    var fixed := FixProgram(f, ss);
    fixed.Some? && ExecAll(env, fuel, fixed.value, st) == ExecAll(env, fuel, ss, st)
  }

  /** A safe fix that fits where it is applied keeps the meaning of the program. */
  lemma ProgramFixed(env: Env, fuel: nat, f: Fix, ss: seq<Stmt>, st: Store)
    requires IsParsed(ss) && Fits(f, ss) && SafeAll(f, ss)
    ensures KeepsMeaning(env, fuel, f, ss, st)
  {
    ProgramReplaced(f, ss);
    AllFixed(env, fuel, f, ss, st);
  }

  // ----- Exactly when one fix is safe -----

  /** Surroundings in which nothing fails and calls by name, calls by computed name and extra arguments show. */
  function TellingEnv(): Env {
    Env(_ => Success(Data(0)), _ => true, _ => Data(0), (_, _) => Success(Data(0)),
        vs => if |vs| == 1 then Success(vs[0]) else Success(Data(3)),
        _ => Success(Data(1)),
        (_, _, st) => (Success(Data(2)), st))
  }

  lemma {:induction false} NothingFails(e: Expr, st: Store)
    ensures Eval(TellingEnv(), e, st).0.Success?
    decreases e, 1
  {
    match e
    case Ident(_) =>
    case Literal(_) =>
    case Member(target, property, _) =>
      NothingFails(target, st);
      NothingFails(property, Eval(TellingEnv(), target, st).1);
    case Call(_, callee, args) =>
      NothingFails(callee, st);
      NoArgumentFails(args, st);
      NoArgumentFails(args, Eval(TellingEnv(), callee, st).1);
  }

  lemma {:induction false} NoArgumentFails(es: seq<Expr>, st: Store)
    ensures EvalArgs(TellingEnv(), es, st).0.Success?
    decreases es, 0
  {
    if es != [] {
      NothingFails(es[0], st);
      NoArgumentFails(es[1..], Eval(TellingEnv(), es[0], st).1);
    }
  }

  /** The rule reports more calls than it may rewrite: a second argument or a computed name changes the meaning. */
  lemma DeepCopyFixIsSafeExactlyForPlainPatterns(e: Expr)
    requires IsDeepCopyPattern(e)
    ensures (forall env: Env, st: Store :: Eval(env, DeepCopyCall(e), st) == Eval(env, e, st)) <==> IsPlainPattern(e)
  {
    if IsPlainPattern(e) {
      forall env: Env, st: Store ensures Eval(env, DeepCopyCall(e), st) == Eval(env, e, st) {
        PlainPatternCopies(env, e, st);
      }
    } else {
      TellsApart(e);
    }
  }

  lemma TellsApart(e: Expr)
    requires IsDeepCopyPattern(e) && !IsPlainPattern(e)
    ensures Eval(TellingEnv(), DeepCopyCall(e), map[]).0 == Success(Data(1))
    ensures Eval(TellingEnv(), e, map[]).0 in {Success(Data(2)), Success(Data(3))}
  {
    var env, inner := TellingEnv(), e.args[0];
    var x := inner.args[0];
    NothingFails(x, map[]);
    ArgumentAlone(env, x, map[]);
    NothingFails(e.callee, map[]);
    NoArgumentFails(e.args, map[]);
    NoArgumentFails(e.args, Eval(env, e.callee, map[]).1);
    if !e.callee.computed && |e.args| == 1 {
      assert e.args == [inner];
      ArgumentAlone(env, inner, map[]);
      NothingFails(inner.callee, map[]);
      NoArgumentFails(inner.args, Eval(env, inner.callee, map[]).1);
      assert Eval(env, inner, map[]).0 == Success(Data(2));
    }
  }

  ghost predicate IsInert(body: seq<Stmt>) {
    forall env: Env, fuel: nat, st: Store :: ExecAll(env, fuel, body, st) == Some((Normal, st))
  }

  /** The rule also drops finalizers, which is safe, whatever the block, only for those that do nothing. */
  lemma FinalizerMayGoIfInert(s: Stmt)
    requires IsUselessTry(s)
    ensures (forall env: Env, fuel: nat, block: seq<Stmt>, st: Store ::
               Exec(env, fuel, s.(block := block), st) == ExecAll(env, fuel, block, st))
            <==> (s.finalizer.Finally? ==> IsInert(s.finalizer.body))
  {
    if s.finalizer.Finally? ==> IsInert(s.finalizer.body) {
      forall env: Env, fuel: nat, block: seq<Stmt>, st: Store
        ensures Exec(env, fuel, s.(block := block), st) == ExecAll(env, fuel, block, st)
      {
        var tried := ExecAll(env, fuel, block, st);
        Rethrown(env, fuel, s.handler.value, tried);
        assert Exec(env, fuel, s.(block := block), st) == ExecFinally(env, fuel, s.finalizer, tried);
      }
    } else {
      var env: Env, fuel: nat, st: Store :| ExecAll(env, fuel, s.finalizer.body, st) != Some((Normal, st));
      var empty := s.(block := []);
      assert ExecAll(env, fuel, [], st) == Some((Normal, st));
      assert Exec(env, fuel, empty, st) != Some((Normal, st));
    }
  }

  // ----- Finalizers without loops and exception handling of their own -----

  /** No loop, no try statement, and no branch on a literal, which may leave code that never runs. */
  predicate IsDirect(body: seq<Stmt>)
    decreases body, 0
  {
    body != [] ==> IsDirectAt(body[0]) && IsDirect(body[1..])
  }

  predicate IsDirectAt(s: Stmt)
    decreases s, 1
  {
    match s
    case Block(body) => IsDirect(body)
    case If(test, consequent, alternate) =>
      !test.Literal? && IsDirectAt(consequent) && (alternate.Some? ==> IsDirectAt(alternate.value))
    case While(_, _) => false
    case Try(_, _, _, _) => false
    case _ => true
  }

  /** Surroundings in which only literals and assigned variables have a value. */
  function FailingEnv(): Env {
    var error := Failure(Undefined);
    Env(_ => error, _ => true, _ => Undefined, (_, _) => error, _ => error, _ => error, (_, _, st) => (error, st))
  }

  lemma {:induction false} OnlyLiteralsAndVariables(e: Expr, st: Store)
    ensures var (v, st1) := Eval(FailingEnv(), e, st);
            && st1 == st
            && if v.Failure? then v.error == Undefined
               else (e.Literal? && v.value == e.value) || (e.Ident? && e.name in st && v.value == st[e.name])
    decreases e, 1
  {
    match e
    case Ident(_) =>
    case Literal(_) =>
    case Member(target, property, _) =>
      OnlyLiteralsAndVariables(target, st);
      OnlyLiteralsAndVariables(property, st);
    case Call(_, callee, args) =>
      OnlyLiteralsAndVariables(callee, st);
      ArgumentsLeaveStore(args, st);
  }

  lemma {:induction false} ArgumentsLeaveStore(es: seq<Expr>, st: Store)
    ensures var (vs, st1) := EvalArgs(FailingEnv(), es, st); st1 == st && (vs.Failure? ==> vs.error == Undefined)
    decreases es, 0
  {
    if es != [] {
      OnlyLiteralsAndVariables(es[0], st);
      ArgumentsLeaveStore(es[1..], st);
    }
  }

  /** What a direct statement does there: variables stay, and from no variables at all something shows. */
  ghost predicate Shows(nothing: bool, st: Store, r: Executed) {
    && r.Some?
    && st.Keys <= r.value.1.Keys
    && (!nothing && r.value.0.Normal? ==> r.value.1.Keys != {})
  }

  lemma {:induction false} DirectShowsAt(fuel: nat, s: Stmt, st: Store)
    requires IsDirectAt(s)
    ensures Shows(DoesNothing([s]), st, Exec(FailingEnv(), fuel, s, st))
    decreases s, 1
  {
    assert [s][1..] == [] && DoesNothing([]);
    assert DoesNothing([s]) <==> (s.Evaluate? && s.e.Literal?) || (s.Block? && DoesNothing(s.body));
    match s
    case Block(body) => DirectShows(fuel, body, st);
    case If(test, consequent, alternate) =>
      OnlyLiteralsAndVariables(test, st);
      DirectShowsAt(fuel, consequent, st);
      if alternate.Some? {
        DirectShowsAt(fuel, alternate.value, st);
      }
    case Break(_) =>
    case Evaluate(e) =>
      OnlyLiteralsAndVariables(e, st);
      assert e.Ident? && e.name in st ==> e.name in st.Keys;
    case Assign(name, e) =>
      OnlyLiteralsAndVariables(e, st);
      if Eval(FailingEnv(), e, st).0.Success? {
        assert name in st[name := Eval(FailingEnv(), e, st).0.value].Keys;
      }
    case Throw(e) => OnlyLiteralsAndVariables(e, st);
    case Return(e) => OnlyLiteralsAndVariables(e, st);
  }

  lemma {:induction false} DirectShows(fuel: nat, body: seq<Stmt>, st: Store)
    requires IsDirect(body)
    ensures Shows(DoesNothing(body), st, ExecAll(FailingEnv(), fuel, body, st))
    decreases body, 0
  {
    if body != [] {
      DirectShowsAt(fuel, body[0], st);
      assert [body[0]][1..] == [];
      var r := Exec(FailingEnv(), fuel, body[0], st);
      if r.value.0.Normal? {
        DirectShows(fuel, body[1..], r.value.1);
      }
    }
  }

  /**
   A useless try statement may become its block, whatever that is, exactly if it has no finalizer or one that
   visibly does nothing. Finalizers with loops, try statements or branches on literals are covered one way only.
   */
  lemma CatchFixIsSafeExactly(s: Stmt)
    requires IsUselessTry(s) && (s.finalizer.Finally? ==> IsDirect(s.finalizer.body))
    ensures (forall env: Env, fuel: nat, block: seq<Stmt>, st: Store ::
               Exec(env, fuel, s.(block := block), st) == ExecAll(env, fuel, block, st))
            <==> (s.finalizer.Finally? ==> DoesNothing(s.finalizer.body))
  {
    FinalizerMayGoIfInert(s);
    if s.finalizer.Finally? {
      InertExactly(s.finalizer.body);
    }
  }

  lemma InertExactly(body: seq<Stmt>)
    ensures DoesNothing(body) ==> IsInert(body)
    ensures IsDirect(body) ==> (IsInert(body) <==> DoesNothing(body))
  {
    if DoesNothing(body) {
      forall env: Env, fuel: nat, st: Store ensures ExecAll(env, fuel, body, st) == Some((Normal, st)) {
        NothingDone(env, fuel, body, st);
      }
    } else if IsDirect(body) {
      DirectShows(0, body, map[]);
      assert ExecAll(FailingEnv(), 0, body, map[]) != Some((Normal, map[]));
    }
  }

  /** A finalizer that assigns a variable is lost. */
  lemma DroppedFinalizerShows(env: Env, fuel: nat, loc: nat)
    ensures var s := Try(loc, [], Some(Catch(Some(Name("e")), [Throw(Ident("e"))])),
                         Finally([Assign("done", Literal(Data(1)))]));
            && IsUselessTry(s)
            && ExecAll(env, fuel, [s], map[]) == Some((Normal, map["done" := Data(1)]))
            && FixProgram(CatchFix(loc), [s]) == Some([])
            && ExecAll(env, fuel, [], map[]) == Some((Normal, map[]))
  {
    var assign := Assign("done", Literal(Data(1)));
    var st: Store := map[];
    ExecAlone(env, fuel, assign, st);
    assert Exec(env, fuel, assign, st) == Some((Normal, st["done" := Data(1)]));
    var s := Try(loc, [], Some(Catch(Some(Name("e")), [Throw(Ident("e"))])), Finally([assign]));
    ExecAlone(env, fuel, s, st);
    ReadAlone(CatchFix(loc), s);
    assert ReadAll(CatchFix(loc), [s]) == Some(Reading([], []));
  }

  // ----- Exactly when the braces may go -----

  /** A useless try statement around a block. */
  function RethrowingTry(loc: nat, block: seq<Stmt>): Stmt {
    Try(loc, block, Some(Catch(Some(Name("e")), [Throw(Ident("e"))])), NoFinalizer)
  }

  /** Where a try statement can be a body without braces, and no `else` follows. */
  datatype Place = LoopBody | Branch

  function Around(place: Place, test: Expr, s: Stmt): Stmt {
    if place.LoopBody? then While(test, s) else If(test, s, None)
  }

  ghost predicate BodyFixIsSafe(place: Place, loc: nat, n: nat) {
    forall env: Env, fuel: nat, test: Expr, block: seq<Stmt>, st: Store | |block| == n && IsParsed(block) ::
      KeepsMeaning(env, fuel, CatchFix(loc), [Around(place, test, RethrowingTry(loc, block))], st)
  }

  /** As the body of a loop or of a branch without `else`, it may go exactly if its block has one statement. */
  lemma BodyFixIsSafeExactlyForOneStatement(place: Place, loc: nat, n: nat)
    ensures BodyFixIsSafe(place, loc, n) <==> n == 1
  {
    if n == 1 {
      forall env: Env, fuel: nat, test: Expr, block: seq<Stmt>, st: Store | |block| == 1 && IsParsed(block)
        ensures KeepsMeaning(env, fuel, CatchFix(loc), [Around(place, test, RethrowingTry(loc, block))], st)
      {
        OneStatementFixed(env, fuel, place, loc, test, block, st);
      }
    } else {
      var block := seq(n, _ => Assign("x", Literal(Data(1))));
      SecondStatementEscapes(FalsyEnv(), 0, place, loc, Literal(Undefined), block, map[]);
      AssignmentsAreParsed(block);
    }
  }

  function FalsyEnv(): Env {
    FailingEnv().(truthy := _ => false)
  }

  lemma {:induction false} AssignmentsAreParsed(block: seq<Stmt>)
    requires forall s <- block :: s.Assign?
    ensures IsParsed(block)
  {
    if block != [] {
      AssignmentsAreParsed(block[1..]);
    }
  }

  lemma TryIsReported(loc: nat, block: seq<Stmt>)
    ensures var s := RethrowingTry(loc, block);
            HitsStmt(CatchFix(loc), s) && SafeStmt(CatchFix(loc), s) && (IsParsed(block) ==> IsParsedAt(s))
  {
    var handler := RethrowingTry(loc, block).handler.value;
    assert handler.body[1..] == [];
  }

  lemma OneStatementFixed(env: Env, fuel: nat, place: Place, loc: nat, test: Expr, block: seq<Stmt>, st: Store)
    requires |block| == 1 && IsParsed(block)
    ensures KeepsMeaning(env, fuel, CatchFix(loc), [Around(place, test, RethrowingTry(loc, block))], st)
  {
    var f, s := CatchFix(loc), RethrowingTry(loc, block);
    var around := Around(place, test, s);
    assert [around][1..] == [];
    TryIsReported(loc, block);
    ExpressionKept(f, test) by { CatchFixLeavesExpressions(f, test); }
    assert FitsBody(f, s, false);
    ProgramFixed(env, fuel, f, [around], st);
  }

  /**
   `while (false) try { x = 1; x = 1; } catch (e) { throw e; }` never assigns, nor does `if (false)` in its place.
   After the fix the second assignment comes after the loop or the branch. With an empty block no body is left.
   */
  lemma SecondStatementEscapes(env: Env, fuel: nat, place: Place, loc: nat, test: Expr, block: seq<Stmt>, st: Store)
    requires test.Literal? && !env.truthy(test.value) && |block| != 1 && "x" !in st
    requires forall s <- block :: s == Assign("x", Literal(Data(1)))
    ensures ExecAll(env, fuel, [Around(place, test, RethrowingTry(loc, block))], st) == Some((Normal, st))
    ensures !KeepsMeaning(env, fuel, CatchFix(loc), [Around(place, test, RethrowingTry(loc, block))], st)
  {
    var f, s := CatchFix(loc), RethrowingTry(loc, block);
    ExecAlone(env, fuel, Around(place, test, s), st);
    TryIsReported(loc, block);
    if place.LoopBody? {
      LoopBodyUnbraced(f, test, s);
    } else {
      BranchUnbraced(f, test, s);
    }
    if block != [] {
      var rest := block[1..];
      var fixed := [Around(place, test, block[0])] + rest;
      var st1 := st["x" := Data(1)];
      assert fixed[1..] == rest && forall a <- rest :: a in block;
      assert Exec(env, fuel, fixed[0], st) == Some((Normal, st));
      AssignmentsRun(env, fuel, rest, st);
      assert ExecAll(env, fuel, fixed, st) == Some((Normal, st1));
    }
  }

  lemma {:induction false} AssignmentsRun(env: Env, fuel: nat, ss: seq<Stmt>, st: Store)
    requires ss != [] && forall s <- ss :: s == Assign("x", Literal(Data(1)))
    ensures ExecAll(env, fuel, ss, st) == Some((Normal, st["x" := Data(1)]))
  {
    var st1 := st["x" := Data(1)];
    assert ss[0] in ss;
    assert Exec(env, fuel, ss[0], st) == Some((Normal, st1));
    if ss[1..] != [] {
      assert forall s <- ss[1..] :: s in ss;
      AssignmentsRun(env, fuel, ss[1..], st1);
      assert st1["x" := Data(1)] == st1;
    }
  }
}
