/**
 The rule no-uncaught-json-parse (packages/@n8n/eslint-config/local-rules.js:46-68), and that the deep-copy fix does
 not disturb it.
 */
module UncaughtParse {
  import opened JavaScript
  import opened LintRules
  import opened FixText

  datatype NodeType = ExpressionNode | StatementNode | TryNode | CatchNode

  // ----- The rule: search the ancestors of each call -----

  predicate IsUncaughtParse(e: Expr, ancestors: seq<NodeType>) {
    IsJsonCall(e, "parse") && !ParsesStringified(e) && TryNode !in ancestors
  }

  function Visit(e: Expr, ancestors: seq<NodeType>): seq<nat>
    decreases e, 1
  {
    var below := ancestors + [ExpressionNode];
    match e
    case Member(target, property, _) => Visit(target, below) + Visit(property, below)
    case Call(loc, callee, args) =>
      (if IsUncaughtParse(e, ancestors) then [loc] else []) + Visit(callee, below) + VisitArgs(args, below)
    case _ => []
  }

  function VisitArgs(es: seq<Expr>, ancestors: seq<NodeType>): seq<nat>
    decreases es, 0
  {
    if es == [] then [] else Visit(es[0], ancestors) + VisitArgs(es[1..], ancestors)
  }

  function VisitStmt(s: Stmt, ancestors: seq<NodeType>): seq<nat>
    decreases s, 1
  {
    var below := ancestors + [if s.Try? then TryNode else StatementNode];
    match s
    case Evaluate(e) => Visit(e, below)
    case Assign(_, e) => Visit(e, below)
    case Block(body) => VisitAll(body, below)
    case If(test, consequent, alternate) =>
      Visit(test, below) + VisitStmt(consequent, below)
      + (if alternate.None? then [] else VisitStmt(alternate.value, below))
    case While(test, body) => Visit(test, below) + VisitStmt(body, below)
    case Throw(e) => Visit(e, below)
    case Return(e) => Visit(e, below)
    case Break(_) => []
    case Try(_, block, handler, finalizer) =>
      VisitAll(block, below)
      + (if handler.None? then [] else VisitAll(handler.value.body, below + [CatchNode]))
      + (if finalizer.NoFinalizer? then [] else VisitAll(finalizer.body, below))
  }

  function VisitAll(ss: seq<Stmt>, ancestors: seq<NodeType>): seq<nat>
    decreases ss, 0
  {
    if ss == [] then [] else VisitStmt(ss[0], ancestors) + VisitAll(ss[1..], ancestors)
  }

  /**
   Exactly these calls are reported: `JSON.parse` outside every try statement, unless its first argument is a call of
   `JSON.stringify`, which is left to the other rule.
   */
  lemma ParseIsReported(e: Expr, ancestors: seq<NodeType>)
    ensures IsUncaughtParse(e, ancestors) <==>
            && TryNode !in ancestors
            && (exists loc, computed, args :: e == JsonCall(loc, "parse", computed, args))
            && !(exists loc, computed, args :: e.args != [] && e.args[0] == JsonCall(loc, "stringify", computed, args))
  {
    if IsJsonCall(e, "parse") {
      assert e == JsonCall(e.loc, "parse", e.callee.computed, e.args);
      if e.args != [] && IsJsonCall(e.args[0], "stringify") {
        var first := e.args[0];
        assert first == JsonCall(first.loc, "stringify", first.callee.computed, first.args);
      }
    }
  }

  /** A call of `JSON.parse` adds at most its own report to those within its arguments. */
  lemma ReportsOfCall(loc: nat, computed: bool, args: seq<Expr>, ancestors: seq<NodeType>)
    ensures var e := JsonCall(loc, "parse", computed, args);
            Visit(e, ancestors)
            == (if IsUncaughtParse(e, ancestors) then [loc] else []) + VisitArgs(args, ancestors + [ExpressionNode])
  {
    var e, below := JsonCall(loc, "parse", computed, args), ancestors + [ExpressionNode];
    assert Visit(e.callee.target, below + [ExpressionNode]) == [];
    assert Visit(e.callee.property, below + [ExpressionNode]) == [];
    assert Visit(e.callee, below) == [];
  }

  // ----- The calls outside every try statement -----

  function UncaughtIn(e: Expr): seq<nat>
    decreases e, 1
  {
    match e
    case Member(target, property, _) => UncaughtIn(target) + UncaughtIn(property)
    case Call(loc, callee, args) =>
      (if IsJsonCall(e, "parse") && !ParsesStringified(e) then [loc] else [])
      + UncaughtIn(callee) + UncaughtInArgs(args)
    case _ => []
  }

  function UncaughtInArgs(es: seq<Expr>): seq<nat>
    decreases es, 0
  {
    if es == [] then [] else UncaughtIn(es[0]) + UncaughtInArgs(es[1..])
  }

  /** Nothing inside a try statement counts, in its catch clause and its finalizer neither. */
  function UncaughtAt(s: Stmt): seq<nat>
    decreases s, 1
  {
    match s
    case Evaluate(e) => UncaughtIn(e)
    case Assign(_, e) => UncaughtIn(e)
    case Block(body) => Uncaught(body)
    case If(test, consequent, alternate) =>
      UncaughtIn(test) + UncaughtAt(consequent) + (if alternate.None? then [] else UncaughtAt(alternate.value))
    case While(test, body) => UncaughtIn(test) + UncaughtAt(body)
    case Throw(e) => UncaughtIn(e)
    case Return(e) => UncaughtIn(e)
    case Break(_) => []
    case Try(_, _, _, _) => []
  }

  function Uncaught(ss: seq<Stmt>): seq<nat>
    decreases ss, 0
  {
    if ss == [] then [] else UncaughtAt(ss[0]) + Uncaught(ss[1..])
  }

  lemma {:induction false} VisitFindsUncaught(e: Expr, ancestors: seq<NodeType>)
    ensures Visit(e, ancestors) == if TryNode in ancestors then [] else UncaughtIn(e)
    decreases e, 1
  {
    var below := ancestors + [ExpressionNode];
    match e
    case Ident(_) =>
    case Literal(_) =>
    case Member(target, property, _) =>
      VisitFindsUncaught(target, below);
      VisitFindsUncaught(property, below);
    case Call(_, callee, args) =>
      VisitFindsUncaught(callee, below);
      VisitArgsFindsUncaught(args, below);
  }

  lemma {:induction false} VisitArgsFindsUncaught(es: seq<Expr>, ancestors: seq<NodeType>)
    ensures VisitArgs(es, ancestors) == if TryNode in ancestors then [] else UncaughtInArgs(es)
    decreases es, 0
  {
    if es != [] {
      VisitFindsUncaught(es[0], ancestors);
      VisitArgsFindsUncaught(es[1..], ancestors);
    }
  }

  lemma {:induction false} VisitStmtFindsUncaught(s: Stmt, ancestors: seq<NodeType>)
    ensures VisitStmt(s, ancestors) == if TryNode in ancestors then [] else UncaughtAt(s)
    decreases s, 1
  {
    var below := ancestors + [if s.Try? then TryNode else StatementNode];
    assert TryNode in below <==> TryNode in ancestors || s.Try?;
    match s
    case Evaluate(e) => VisitFindsUncaught(e, below);
    case Assign(_, e) => VisitFindsUncaught(e, below);
    case Block(body) => VisitAllFindsUncaught(body, below);
    case If(test, consequent, alternate) =>
      VisitFindsUncaught(test, below);
      VisitStmtFindsUncaught(consequent, below);
      if alternate.Some? {
        VisitStmtFindsUncaught(alternate.value, below);
      }
    case While(test, body) =>
      VisitFindsUncaught(test, below);
      VisitStmtFindsUncaught(body, below);
    case Throw(e) => VisitFindsUncaught(e, below);
    case Return(e) => VisitFindsUncaught(e, below);
    case Break(_) =>
    case Try(_, _, _, _) => VisitTryFindsNothing(s, ancestors);
  }

  lemma {:induction false} VisitTryFindsNothing(s: Stmt, ancestors: seq<NodeType>)
    requires s.Try?
    ensures VisitStmt(s, ancestors) == []
    decreases s, 0
  {
    var below := ancestors + [TryNode];
    assert TryNode in below && TryNode in below + [CatchNode];
    VisitAllFindsUncaught(s.block, below);
    if s.handler.Some? {
      VisitAllFindsUncaught(s.handler.value.body, below + [CatchNode]);
    }
    if s.finalizer.Finally? {
      VisitAllFindsUncaught(s.finalizer.body, below);
    }
  }

  /** Searching the ancestors of each call finds the calls that a walk stopping at try statements finds. */
  lemma {:induction false} VisitAllFindsUncaught(ss: seq<Stmt>, ancestors: seq<NodeType>)
    ensures VisitAll(ss, ancestors) == if TryNode in ancestors then [] else Uncaught(ss)
    decreases ss, 0
  {
    if ss != [] {
      VisitStmtFindsUncaught(ss[0], ancestors);
      VisitAllFindsUncaught(ss[1..], ancestors);
    }
  }

  // ----- The deep-copy fix -----

  /** No uncaught JSON.parse call is among the extra arguments that the fix drops; one argument alone loses nothing. */
  predicate LosesNothing(f: Fix, e: Expr)
    decreases e, 1
  {
    if HitsExpr(f, e) then UncaughtInArgs(e.args[1..]) == [] else
      match e
      case Member(target, property, _) => LosesNothing(f, target) && LosesNothing(f, property)
      case Call(_, callee, args) => LosesNothing(f, callee) && LosesNothingInArgs(f, args)
      case _ => true
  }

  predicate LosesNothingInArgs(f: Fix, es: seq<Expr>)
    decreases es, 0
  {
    es != [] ==> LosesNothing(f, es[0]) && LosesNothingInArgs(f, es[1..])
  }

  /** Statements inside a try statement are not looked at. */
  predicate LosesNothingAt(f: Fix, s: Stmt)
    decreases s, 1
  {
    match s
    case Evaluate(e) => LosesNothing(f, e)
    case Assign(_, e) => LosesNothing(f, e)
    case Block(body) => LosesNothingInAll(f, body)
    case If(test, consequent, alternate) =>
      LosesNothing(f, test) && LosesNothingAt(f, consequent) && (alternate.Some? ==> LosesNothingAt(f, alternate.value))
    case While(test, body) => LosesNothing(f, test) && LosesNothingAt(f, body)
    case Throw(e) => LosesNothing(f, e)
    case Return(e) => LosesNothing(f, e)
    case Break(_) => true
    case Try(_, _, _, _) => true
  }

  predicate LosesNothingInAll(f: Fix, ss: seq<Stmt>)
    decreases ss, 0
  {
    ss != [] ==> LosesNothingAt(f, ss[0]) && LosesNothingInAll(f, ss[1..])
  }

  lemma {:induction false} FixKeepsUncaughtIn(f: Fix, e: Expr)
    ensures LosesNothing(f, e) ==> UncaughtIn(FixExpr(f, e)) == UncaughtIn(e)
    ensures |UncaughtIn(FixExpr(f, e))| <= |UncaughtIn(e)|
    ensures !LosesNothing(f, e) ==> |UncaughtIn(FixExpr(f, e))| < |UncaughtIn(e)|
    decreases e, 1
  {
    if HitsExpr(f, e) {
      UncaughtInPattern(e);
    } else {
      match e
      case Ident(_) =>
      case Literal(_) =>
      case Member(target, property, _) =>
        FixKeepsUncaughtIn(f, target);
        FixKeepsUncaughtIn(f, property);
      case Call(_, callee, args) =>
        JsonCallKept(f, e, "parse");
        PatternKept(f, e);
        FixKeepsUncaughtIn(f, callee);
        FixKeepsUncaughtInArgs(f, args);
    }
  }

  /** In a matching call only the copied expression and the extra arguments can hold uncaught calls. */
  lemma UncaughtInPattern(e: Expr)
    requires IsDeepCopyPattern(e)
    ensures UncaughtIn(e) == UncaughtIn(DeepCopyCall(e)) + UncaughtInArgs(e.args[1..])
  {
    var inner := e.args[0];
    var x := inner.args[0];
    assert |"parse"| != |"stringify"|;
    assert UncaughtIn(e.callee) == [] && UncaughtIn(inner.callee) == [];
    assert UncaughtInArgs([x]) == UncaughtIn(x) by {
      assert [x][1..] == [];
      assert UncaughtIn(x) + [] == UncaughtIn(x);
    }
    assert inner.args == [x];
    assert UncaughtIn(inner) == UncaughtIn(x);
    assert UncaughtIn(DeepCopyCall(e)) == UncaughtIn(x);
  }

  lemma {:induction false} FixKeepsUncaughtInArgs(f: Fix, es: seq<Expr>)
    ensures LosesNothingInArgs(f, es) ==> UncaughtInArgs(FixArgs(f, es)) == UncaughtInArgs(es)
    ensures |UncaughtInArgs(FixArgs(f, es))| <= |UncaughtInArgs(es)|
    ensures !LosesNothingInArgs(f, es) ==> |UncaughtInArgs(FixArgs(f, es))| < |UncaughtInArgs(es)|
    decreases es, 0
  {
    if es != [] {
      FixKeepsUncaughtIn(f, es[0]);
      FixKeepsUncaughtInArgs(f, es[1..]);
      assert FixArgs(f, es)[1..] == FixArgs(f, es[1..]);
    }
  }

  lemma {:induction false} FixKeepsUncaughtAt(f: Fix, s: Stmt)
    requires f.DeepCopyFix?
    ensures LosesNothingAt(f, s) ==> UncaughtAt(Replace(f, s)) == UncaughtAt(s)
    ensures |UncaughtAt(Replace(f, s))| <= |UncaughtAt(s)|
    ensures !LosesNothingAt(f, s) ==> |UncaughtAt(Replace(f, s))| < |UncaughtAt(s)|
    decreases s, 1
  {
    match s
    case Evaluate(e) => FixKeepsUncaughtIn(f, e);
    case Assign(_, e) => FixKeepsUncaughtIn(f, e);
    case Block(body) => FixKeepsUncaught(f, body);
    case If(test, consequent, alternate) =>
      FixKeepsUncaughtIn(f, test);
      FixKeepsUncaughtAt(f, consequent);
      if alternate.Some? {
        FixKeepsUncaughtAt(f, alternate.value);
      }
    case While(test, body) =>
      FixKeepsUncaughtIn(f, test);
      FixKeepsUncaughtAt(f, body);
    case Throw(e) => FixKeepsUncaughtIn(f, e);
    case Return(e) => FixKeepsUncaughtIn(f, e);
    case Break(_) =>
    case Try(_, _, _, _) =>
  }

  lemma {:induction false} FixKeepsUncaught(f: Fix, ss: seq<Stmt>)
    requires f.DeepCopyFix?
    ensures LosesNothingInAll(f, ss) ==> Uncaught(ReplaceAll(f, ss)) == Uncaught(ss)
    ensures |Uncaught(ReplaceAll(f, ss))| <= |Uncaught(ss)|
    ensures !LosesNothingInAll(f, ss) ==> |Uncaught(ReplaceAll(f, ss))| < |Uncaught(ss)|
    decreases ss, 0
  {
    if ss != [] {
      FixKeepsUncaughtAt(f, ss[0]);
      FixKeepsUncaught(f, ss[1..]);
      assert ReplaceAll(f, ss)[1..] == ReplaceAll(f, ss[1..]);
    }
  }

  lemma {:induction false} DeepCopyFits(f: Fix, s: Stmt, elseNext: bool)
    requires f.DeepCopyFix?
    ensures FitsAt(f, s, elseNext)
    decreases s, 1
  {
    match s
    case Block(body) => DeepCopyFitsAll(f, body);
    case While(_, body) => DeepCopyFits(f, body, elseNext);
    case If(_, consequent, alternate) =>
      DeepCopyFits(f, consequent, elseNext || alternate.Some?);
      if alternate.Some? {
        DeepCopyFits(f, alternate.value, elseNext);
      }
    case Try(_, block, handler, finalizer) =>
      DeepCopyFitsAll(f, block);
      if handler.Some? {
        DeepCopyFitsAll(f, handler.value.body);
      }
      if finalizer.Finally? {
        DeepCopyFitsAll(f, finalizer.body);
      }
    case _ =>
  }

  lemma {:induction false} DeepCopyFitsAll(f: Fix, ss: seq<Stmt>)
    requires f.DeepCopyFix?
    ensures Fits(f, ss)
    decreases ss, 0
  {
    if ss != [] {
      DeepCopyFits(f, ss[0], false);
      DeepCopyFitsAll(f, ss[1..]);
    }
  }

  /** The deep-copy fix changes what is reported exactly when it drops a reportable extra argument. */
  lemma ReportsKeptExactlyIfNothingIsLost(f: Fix, ss: seq<Stmt>, ancestors: seq<NodeType>)
    requires f.DeepCopyFix? && IsParsed(ss) && TryNode !in ancestors
    ensures var fixed := FixProgram(f, ss);
            fixed.Some? && (VisitAll(fixed.value, ancestors) == VisitAll(ss, ancestors) <==> LosesNothingInAll(f, ss))
  {
    DeepCopyFitsAll(f, ss);
    ProgramReplaced(f, ss);
    VisitAllFindsUncaught(ss, ancestors);
    VisitAllFindsUncaught(ReplaceAll(f, ss), ancestors);
    FixKeepsUncaught(f, ss);
  }
}
