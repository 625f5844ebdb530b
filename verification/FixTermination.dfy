/** Repeated fixing ends, and ends with nothing to fix (packages/@n8n/eslint-config/local-rules.js). */
module FixTermination {
  import opened Wrappers
  import opened JavaScript
  import opened LintRules
  import opened FixText
  import opened FixMeaning

  datatype Rule = ParseStringify | UselessCatch

  function RuleOf(f: Fix): Rule {
    if f.DeepCopyFix? then ParseStringify else UselessCatch
  }

  // ----- Calls matching the deep-copy pattern, and try statements -----

  function CallsIn(e: Expr): nat
    decreases e, 1
  {
    match e
    case Member(target, property, _) => CallsIn(target) + CallsIn(property)
    case Call(_, callee, args) => (if IsDeepCopyPattern(e) then 1 else 0) + CallsIn(callee) + CallsInArgs(args)
    case _ => 0
  }

  function CallsInArgs(es: seq<Expr>): nat
    decreases es, 0
  {
    if es == [] then 0 else CallsIn(es[0]) + CallsInArgs(es[1..])
  }

  /** For the deep-copy rule the matching calls, for the catch rule the try statements. */
  function SizeAt(rule: Rule, s: Stmt): nat
    decreases s, 1
  {
    match s
    case Evaluate(e) => SizeIn(rule, e)
    case Assign(_, e) => SizeIn(rule, e)
    case Block(body) => Size(rule, body)
    case If(test, consequent, alternate) =>
      SizeIn(rule, test) + SizeAt(rule, consequent) + if alternate.None? then 0 else SizeAt(rule, alternate.value)
    case While(test, body) => SizeIn(rule, test) + SizeAt(rule, body)
    case Throw(e) => SizeIn(rule, e)
    case Return(e) => SizeIn(rule, e)
    case Break(_) => 0
    case Try(_, block, handler, finalizer) =>
      (if rule.UselessCatch? then 1 else 0)
      + Size(rule, block) + SizeInHandler(rule, handler) + SizeInFinalizer(rule, finalizer)
  }

  function SizeInHandler(rule: Rule, handler: Option<Catch>): nat
    decreases handler, 1
  {
    if handler.None? then 0 else Size(rule, handler.value.body)
  }

  function SizeInFinalizer(rule: Rule, finalizer: Finalizer): nat
    decreases finalizer, 1
  {
    if finalizer.NoFinalizer? then 0 else Size(rule, finalizer.body)
  }

  function SizeIn(rule: Rule, e: Expr): nat {
    if rule.ParseStringify? then CallsIn(e) else 0
  }

  function Size(rule: Rule, ss: seq<Stmt>): nat
    decreases ss, 0
  {
    if ss == [] then 0 else SizeAt(rule, ss[0]) + Size(rule, ss[1..])
  }

  lemma {:induction false} SizeConcat(rule: Rule, a: seq<Stmt>, b: seq<Stmt>)
    ensures Size(rule, a + b) == Size(rule, a) + Size(rule, b)
  {
    if a == [] {
      assert a + b == b;
    } else {
      assert (a + b)[0] == a[0] && (a + b)[1..] == a[1..] + b;
      SizeConcat(rule, a[1..], b);
    }
  }

  // ----- The measure of what a text reads as -----

  function SizeOfHeads(rule: Rule, heads: seq<Head>): nat {
    if heads == [] then 0 else
      SizeIn(rule, heads[0].test) + (if heads[0].ElseHead? then SizeAt(rule, heads[0].consequent) else 0)
      + SizeOfHeads(rule, heads[1..])
  }

  function SizeOf(rule: Rule, r: Reading): nat {
    Size(rule, r.done) + SizeOfHeads(rule, r.heads)
  }

  lemma {:induction false} SizeOfHeadsConcat(rule: Rule, a: seq<Head>, b: seq<Head>)
    ensures SizeOfHeads(rule, a + b) == SizeOfHeads(rule, a) + SizeOfHeads(rule, b)
  {
    if a == [] {
      assert a + b == b;
    } else {
      assert (a + b)[0] == a[0] && (a + b)[1..] == a[1..] + b;
      SizeOfHeadsConcat(rule, a[1..], b);
    }
  }

  lemma {:induction false} SizeOfFilled(rule: Rule, heads: seq<Head>, s: Stmt)
    ensures SizeAt(rule, Fill(heads, s)) == SizeOfHeads(rule, heads) + SizeAt(rule, s)
  {
    if heads != [] {
      SizeOfFilled(rule, heads[1..], s);
      SizeOfHead(rule, heads, s);
    }
  }

  lemma SizeOfHead(rule: Rule, heads: seq<Head>, s: Stmt)
    requires heads != []
    ensures SizeAt(rule, Fill(heads, s)) - SizeAt(rule, Fill(heads[1..], s))
            == SizeOfHeads(rule, heads) - SizeOfHeads(rule, heads[1..])
  {
    var inner := Fill(heads[1..], s);
    match heads[0]
    case WhileHead(test) => SizeOfLoop(rule, test, inner);
    case IfHead(test) => SizeOfBranch(rule, test, inner, None);
    case ElseHead(test, consequent) => SizeOfBranch(rule, test, consequent, Some(inner));
  }

  lemma SizeOfLoop(rule: Rule, test: Expr, body: Stmt)
    ensures SizeAt(rule, While(test, body)) == SizeIn(rule, test) + SizeAt(rule, body)
  {
  }

  lemma SizeOfBranch(rule: Rule, test: Expr, consequent: Stmt, alternate: Option<Stmt>)
    ensures SizeAt(rule, If(test, consequent, alternate))
            == SizeIn(rule, test) + SizeAt(rule, consequent)
               + if alternate.None? then 0 else SizeAt(rule, alternate.value)
  {
  }

  lemma SizeOfComplete(rule: Rule, done: seq<Stmt>)
    ensures SizeOf(rule, Reading(done, [])) == Size(rule, done)
  {
  }

  lemma SizeOfOne(rule: Rule, s: Stmt)
    ensures Size(rule, [s]) == SizeAt(rule, s) == SizeOf(rule, One(s))
  {
    var alone := [s];
    assert alone[1..] == [];
    SizeOfComplete(rule, alone);
  }

  /** Reading on loses nothing and doubles nothing. */
  lemma SizeOfFollow(rule: Rule, r: Reading, next: Reading)
    ensures SizeOf(rule, Enter(r.heads, next)) == SizeOfHeads(rule, r.heads) + SizeOf(rule, next)
    ensures SizeOf(rule, Follow(r, next)) == SizeOf(rule, r) + SizeOf(rule, next)
  {
    if next.done == [] {
      SizeOfHeadsConcat(rule, r.heads, next.heads);
    } else {
      var filled := Fill(r.heads, next.done[0]);
      SizeOfFilled(rule, r.heads, next.done[0]);
      SizeOfOne(rule, filled);
      SizeConcat(rule, [filled], next.done[1..]);
    }
    SizeConcat(rule, r.done, Enter(r.heads, next).done);
  }

  lemma {:induction false} SizeOfElsePath(rule: Rule, s: Stmt)
    requires EndsOpen(s)
    ensures SizeOfHeads(rule, ElsePath(s)) == SizeAt(rule, s)
  {
    match s
    case While(test, body) =>
      SizeOfElsePath(rule, body);
      SizeOfHeadsConcat(rule, [WhileHead(test)], ElsePath(body));
    case If(test, consequent, alternate) =>
      if alternate.Some? {
        SizeOfElsePath(rule, alternate.value);
        SizeOfHeadsConcat(rule, [ElseHead(test, consequent)], ElsePath(alternate.value));
      } else if EndsOpen(consequent) {
        SizeOfElsePath(rule, consequent);
        SizeOfHeadsConcat(rule, [IfHead(test)], ElsePath(consequent));
      }
  }

  lemma SizeOfFollowElse(rule: Rule, r: Reading, next: Reading)
    requires FollowElse(r, next).Some?
    ensures SizeOf(rule, FollowElse(r, next).value) == SizeOf(rule, r) + SizeOf(rule, next)
  {
    var last := |r.done| - 1;
    assert r.done == r.done[..last] + [r.done[last]];
    SizeConcat(rule, r.done[..last], [r.done[last]]);
    SizeOfOne(rule, r.done[last]);
    SizeOfElsePath(rule, r.done[last]);
    SizeOfFollow(rule, Reading(r.done[..last], ElsePath(r.done[last])), next);
  }

  // ----- One fix -----

  lemma {:induction false} FixInExpression(f: Fix, e: Expr)
    ensures f !in OffersIn(e) ==> FixExpr(f, e) == e
    ensures f in OffersIn(e) ==> f.DeepCopyFix? && CallsIn(FixExpr(f, e)) < CallsIn(e)
    decreases e, 1
  {
    if HitsExpr(f, e) {
      var inner := e.args[0];
      var x := inner.args[0];
      assert inner.args == [x] && e.args == [inner] + e.args[1..];
      assert CallsInArgs([x]) == CallsIn(x) && CallsInArgs([]) == 0 by { assert [x][1..] == []; }
      assert CallsIn(DeepCopyCall(e)) == CallsIn(x);
      assert CallsIn(inner) >= CallsIn(x);
    } else {
      match e
      case Ident(_) =>
      case Literal(_) =>
      case Member(target, property, _) =>
        FixInExpression(f, target);
        FixInExpression(f, property);
      case Call(_, callee, args) =>
        PatternKept(f, e);
        FixInExpression(f, callee);
        FixInArguments(f, args);
    }
  }

  lemma {:induction false} FixInArguments(f: Fix, es: seq<Expr>)
    ensures f !in OffersInArgs(es) ==> FixArgs(f, es) == es
    ensures f in OffersInArgs(es) ==> f.DeepCopyFix? && CallsInArgs(FixArgs(f, es)) < CallsInArgs(es)
    decreases es, 0
  {
    if es != [] {
      FixInExpression(f, es[0]);
      FixInArguments(f, es[1..]);
      assert FixArgs(f, es)[1..] == FixArgs(f, es[1..]);
    }
  }

  /** No measure grows, and the measure of the fix's rule shrinks if the fix was offered. */
  predicate Shrinks(rule: Rule, f: Fix, offered: bool, before: nat, after: nat) {
    after <= before && (offered && rule == RuleOf(f) ==> after < before)
  }

  lemma FixInTest(rule: Rule, f: Fix, e: Expr)
    ensures Shrinks(rule, f, f in OffersIn(e), SizeIn(rule, e), SizeIn(rule, FixExpr(f, e)))
  {
    FixInExpression(f, e);
  }

  lemma {:induction false} FixAtStatement(rule: Rule, f: Fix, s: Stmt)
    requires Read(f, s).Some?
    ensures Shrinks(rule, f, f in OffersAt(s), SizeAt(rule, s), SizeOf(rule, Read(f, s).value))
    decreases s, 2
  {
    if HitsStmt(f, s) {
      FixAtHit(rule, f, s);
    } else if s.Try? {
      FixAtTry(rule, f, s);
    } else if s.If? {
      FixAtBranch(rule, f, s);
    } else if s.While? {
      FixAtLoop(rule, f, s);
    } else if s.Block? {
      FixAtBlock(rule, f, s);
    } else if s.Break? {
      BreakReadsAsIs(f, s);
      FixAtUnchanged(rule, f, s);
    } else {
      FixAtExpression(rule, f, s);
    }
  }

  lemma BreakReadsAsIs(f: Fix, s: Stmt)
    requires s.Break?
    ensures Read(f, s) == Some(One(s)) && f !in OffersAt(s)
  {
  }

  lemma FixAtUnchanged(rule: Rule, f: Fix, s: Stmt)
    requires Read(f, s) == Some(One(s)) && f !in OffersAt(s)
    ensures Shrinks(rule, f, f in OffersAt(s), SizeAt(rule, s), SizeOf(rule, Read(f, s).value))
  {
    SizeOfOne(rule, s);
  }

  lemma FixAtHit(rule: Rule, f: Fix, s: Stmt)
    requires HitsStmt(f, s)
    ensures Read(f, s).Some?
    ensures Shrinks(rule, f, f in OffersAt(s), SizeAt(rule, s), SizeOf(rule, Read(f, s).value))
  {
    assert SizeOf(rule, Reading(s.block, [])) == Size(rule, s.block);
  }

  lemma FixAtExpression(rule: Rule, f: Fix, s: Stmt)
    requires s.Evaluate? || s.Assign? || s.Throw? || s.Return?
    ensures Read(f, s).Some?
    ensures Shrinks(rule, f, f in OffersAt(s), SizeAt(rule, s), SizeOf(rule, Read(f, s).value))
  {
    FixInTest(rule, f, s.e);
    var fixed := s.(e := FixExpr(f, s.e));
    assert Read(f, s) == Some(One(fixed));
    SizeOfOne(rule, fixed);
    assert SizeAt(rule, s) == SizeIn(rule, s.e) && SizeAt(rule, fixed) == SizeIn(rule, fixed.e);
    assert OffersAt(s) == OffersIn(s.e);
  }

  lemma {:induction false} FixAtBlock(rule: Rule, f: Fix, s: Stmt)
    requires s.Block? && Read(f, s).Some?
    ensures Shrinks(rule, f, f in OffersAt(s), SizeAt(rule, s), SizeOf(rule, Read(f, s).value))
    decreases s, 1
  {
    BlockReads(f, s.body);
    FixInProgram(rule, f, s.body);
    var fixed := FixProgram(f, s.body).value;
    BlockSize(rule, s.body);
    BlockSize(rule, fixed);
    SizeOfOne(rule, Block(fixed));
  }

  lemma BlockReads(f: Fix, body: seq<Stmt>)
    ensures Read(f, Block(body)).Some? <==> FixProgram(f, body).Some?
    ensures FixProgram(f, body).Some? ==> Read(f, Block(body)) == Some(One(Block(FixProgram(f, body).value)))
    ensures OffersAt(Block(body)) == Offers(body)
  {
  }

  lemma BlockSize(rule: Rule, body: seq<Stmt>)
    ensures SizeAt(rule, Block(body)) == Size(rule, body)
  {
  }

  lemma {:induction false} FixAtLoop(rule: Rule, f: Fix, s: Stmt)
    requires s.While? && Read(f, s).Some?
    ensures Shrinks(rule, f, f in OffersAt(s), SizeAt(rule, s), SizeOf(rule, Read(f, s).value))
    decreases s, 1
  {
    var head := WhileHead(FixExpr(f, s.test));
    FixInTest(rule, f, s.test);
    FixAtStatement(rule, f, s.loopBody);
    SizeOfFollow(rule, Reading([], [head]), Read(f, s.loopBody).value);
    assert [head][1..] == [];
  }

  lemma {:induction false} FixAtBranch(rule: Rule, f: Fix, s: Stmt)
    requires s.If? && Read(f, s).Some?
    ensures Shrinks(rule, f, f in OffersAt(s), SizeAt(rule, s), SizeOf(rule, Read(f, s).value))
    decreases s, 1
  {
    var head := IfHead(FixExpr(f, s.test));
    FixInTest(rule, f, s.test);
    FixAtStatement(rule, f, s.consequent);
    var consequent := Read(f, s.consequent).value;
    SizeOfFollow(rule, Reading([], [head]), consequent);
    assert [head][1..] == [];
    if s.alternate.Some? {
      FixAtStatement(rule, f, s.alternate.value);
      SizeOfFollowElse(rule, Enter([head], consequent), Read(f, s.alternate.value).value);
    }
  }

  lemma {:induction false} FixAtTry(rule: Rule, f: Fix, s: Stmt)
    requires s.Try? && !HitsStmt(f, s) && Read(f, s).Some?
    ensures Shrinks(rule, f, f in OffersAt(s), SizeAt(rule, s), SizeOf(rule, Read(f, s).value))
    decreases s, 1
  {
    FixInProgram(rule, f, s.block);
    FixInHandler(rule, f, s.handler);
    FixInFinalizer(rule, f, s.finalizer);
    assert f in OffersAt(s) <==>
      f in Offers(s.block) || f in OffersInHandler(s.handler) || f in OffersInFinalizer(s.finalizer);
    var fixed := Try(s.loc, FixProgram(f, s.block).value,
                     FixHandler(f, s.handler).value, FixFinalizer(f, s.finalizer).value);
    assert Read(f, s).value == One(fixed);
    SizeOfOne(rule, fixed);
  }

  lemma {:induction false} FixInHandler(rule: Rule, f: Fix, handler: Option<Catch>)
    requires FixHandler(f, handler).Some?
    ensures Shrinks(rule, f, f in OffersInHandler(handler),
                    SizeInHandler(rule, handler), SizeInHandler(rule, FixHandler(f, handler).value))
    decreases handler, 1
  {
    if handler.Some? {
      FixInProgram(rule, f, handler.value.body);
    }
  }

  lemma {:induction false} FixInFinalizer(rule: Rule, f: Fix, finalizer: Finalizer)
    requires FixFinalizer(f, finalizer).Some?
    ensures Shrinks(rule, f, f in OffersInFinalizer(finalizer),
                    SizeInFinalizer(rule, finalizer), SizeInFinalizer(rule, FixFinalizer(f, finalizer).value))
    decreases finalizer, 1
  {
    if finalizer.Finally? {
      FixInProgram(rule, f, finalizer.body);
    }
  }

  lemma {:induction false} FixInList(rule: Rule, f: Fix, ss: seq<Stmt>)
    requires ReadAll(f, ss).Some?
    ensures Shrinks(rule, f, f in Offers(ss), Size(rule, ss), SizeOf(rule, ReadAll(f, ss).value))
    decreases ss, 0
  {
    if ss != [] {
      FixAtStatement(rule, f, ss[0]);
      FixInList(rule, f, ss[1..]);
      SizeOfFollow(rule, Read(f, ss[0]).value, ReadAll(f, ss[1..]).value);
    }
  }

  /** Also where the braces matter, an offered fix makes its rule's measure smaller and no measure larger. */
  lemma {:induction false} FixInProgram(rule: Rule, f: Fix, ss: seq<Stmt>)
    requires FixProgram(f, ss).Some?
    ensures f in Offers(ss) && rule == RuleOf(f) ==> Size(rule, FixProgram(f, ss).value) < Size(rule, ss)
    ensures Size(rule, FixProgram(f, ss).value) <= Size(rule, ss)
    decreases ss, 1
  {
    FixInList(rule, f, ss);
  }

  predicate Changes(f: Fix, ss: seq<Stmt>) {
    FixProgram(f, ss) != Some(ss)
  }

  /** The fixes that change a program are those that are offered, so a fixpoint has nothing to report. */
  lemma FixpointHasNothingToReport(ss: seq<Stmt>)
    requires IsParsed(ss)
    ensures forall f :: Changes(f, ss) <==> f in Offers(ss)
    ensures (forall f :: !Changes(f, ss)) <==> Offers(ss) == {}
  {
    forall f ensures Changes(f, ss) <==> f in Offers(ss) {
      if f in Offers(ss) {
        if FixProgram(f, ss).Some? {
          FixInProgram(RuleOf(f), f, ss);
        }
      } else {
        StatementsKept(f, ss);
        ProgramReplaced(f, ss);
      }
    }
    if Offers(ss) != {} {
      var f :| f in Offers(ss);
      assert Changes(f, ss);
    }
  }

  // ----- Many fixes -----

  /** Each fix is offered when its turn comes, and leaves a program. */
  ghost predicate IsFixing(ss: seq<Stmt>, fs: seq<Fix>)
    decreases |fs|
  {
    fs != [] ==>
      && fs[0] in Offers(ss) && FixProgram(fs[0], ss).Some?
      && IsFixing(FixProgram(fs[0], ss).value, fs[1..])
  }

  ghost function Fixed(ss: seq<Stmt>, fs: seq<Fix>): seq<Stmt>
    requires IsFixing(ss, fs)
    decreases |fs|
  {
    if fs == [] then ss else Fixed(FixProgram(fs[0], ss).value, fs[1..])
  }

  /** Offered fixes, in any order and of both rules, run out after at most so many. */
  lemma {:induction false} FixingEnds(ss: seq<Stmt>, fs: seq<Fix>)
    requires IsFixing(ss, fs)
    ensures |fs| + Size(ParseStringify, Fixed(ss, fs)) + Size(UselessCatch, Fixed(ss, fs))
            <= Size(ParseStringify, ss) + Size(UselessCatch, ss)
    decreases |fs|
  {
    if fs != [] {
      FixInProgram(ParseStringify, fs[0], ss);
      FixInProgram(UselessCatch, fs[0], ss);
      FixingEnds(FixProgram(fs[0], ss).value, fs[1..]);
    }
  }

  // ----- Programs in which every fix is safe -----

  predicate IsTameExpr(e: Expr)
    decreases e, 1
  {
    match e
    case Member(target, property, _) => IsTameExpr(target) && IsTameExpr(property)
    case Call(_, callee, args) =>
      (IsDeepCopyPattern(e) ==> IsPlainPattern(e)) && IsTameExpr(callee) && AreTameArgs(args)
    case _ => true
  }

  predicate AreTameArgs(es: seq<Expr>)
    decreases es, 0
  {
    es != [] ==> IsTameExpr(es[0]) && AreTameArgs(es[1..])
  }

  predicate IsTameAt(s: Stmt)
    decreases s, 1
  {
    match s
    case Evaluate(e) => IsTameExpr(e)
    case Assign(_, e) => IsTameExpr(e)
    case Block(body) => IsTame(body)
    case If(test, consequent, alternate) =>
      && IsTameExpr(test)
      && !consequent.Try? && IsTameAt(consequent)
      && (alternate.Some? ==> !alternate.value.Try? && IsTameAt(alternate.value))
    case While(test, body) => IsTameExpr(test) && !body.Try? && IsTameAt(body)
    case Throw(e) => IsTameExpr(e)
    case Return(e) => IsTameExpr(e)
    case Break(_) => true
    case Try(_, block, handler, finalizer) =>
      && IsTame(block)
      && (handler.Some? ==> IsTame(handler.value.body))
      && (finalizer.Finally? ==> DoesNothing(finalizer.body))
  }

  /**
   Every matching call is plain, every finalizer visibly does nothing, and no try statement is the body of a branch
   or a loop without braces of its own.
   */
  predicate IsTame(ss: seq<Stmt>)
    decreases ss, 0
  {
    ss != [] ==> IsTameAt(ss[0]) && IsTame(ss[1..])
  }

  lemma {:induction false} TameExpression(f: Fix, e: Expr)
    requires IsTameExpr(e)
    ensures SafeExpr(f, e) && IsTameExpr(FixExpr(f, e))
    decreases e, 1
  {
    if HitsExpr(f, e) {
      assert e.args[0].args == [e.args[0].args[0]];
      assert IsTameExpr(e.args[0]) && AreTameArgs(e.args[0].args);
      var copied := DeepCopyCall(e);
      assert copied.args[1..] == [];
    } else {
      match e
      case Ident(_) =>
      case Literal(_) =>
      case Member(target, property, _) =>
        TameExpression(f, target);
        TameExpression(f, property);
      case Call(_, callee, args) =>
        TameExpression(f, callee);
        TameArguments(f, args);
        PlainPatternKept(f, e);
    }
  }

  lemma {:induction false} TameArguments(f: Fix, es: seq<Expr>)
    requires AreTameArgs(es)
    ensures SafeArgs(f, es) && AreTameArgs(FixArgs(f, es))
    decreases es, 0
  {
    if es != [] {
      TameExpression(f, es[0]);
      TameArguments(f, es[1..]);
      assert FixArgs(f, es)[1..] == FixArgs(f, es[1..]);
    }
  }

  lemma PlainPatternKept(f: Fix, e: Expr)
    requires !HitsExpr(f, e) && (IsDeepCopyPattern(e) ==> IsPlainPattern(e))
    ensures IsDeepCopyPattern(FixExpr(f, e)) ==> IsPlainPattern(FixExpr(f, e))
  {
    PatternKept(f, e);
    if IsDeepCopyPattern(e) {
      assert |"parse"| != |"stringify"|;
      assert !HitsExpr(f, e.args[0]);
      JsonCallKept(f, e, "parse");
      JsonCallKept(f, e.args[0], "stringify");
      assert FixArgs(f, e.args)[0] == FixExpr(f, e.args[0]);
    }
  }

  lemma {:induction false} NothingOffered(ss: seq<Stmt>)
    requires DoesNothing(ss)
    ensures Offers(ss) == {}
    decreases ss
  {
    if ss != [] {
      if ss[0].Block? {
        NothingOffered(ss[0].body);
      }
      NothingOffered(ss[1..]);
    }
  }

  lemma {:induction false} TameConcat(a: seq<Stmt>, b: seq<Stmt>)
    ensures IsTame(a + b) <==> IsTame(a) && IsTame(b)
  {
    if a == [] {
      assert a + b == b;
    } else {
      assert (a + b)[0] == a[0] && (a + b)[1..] == a[1..] + b;
      TameConcat(a[1..], b);
    }
  }

  lemma {:induction false} TameStatement(f: Fix, s: Stmt, elseNext: bool)
    requires IsTameAt(s)
    ensures SafeStmt(f, s)
    ensures !HitsStmt(f, s) ==> FitsAt(f, s, elseNext) && IsTameAt(Replace(f, s)) && (Replace(f, s).Try? <==> s.Try?)
    decreases s, 1
  {
    match s
    case Evaluate(e) => TameExpression(f, e);
    case Assign(_, e) => TameExpression(f, e);
    case Block(body) => TameProgram(f, body);
    case If(test, consequent, alternate) =>
      TameExpression(f, test);
      TameStatement(f, consequent, elseNext || alternate.Some?);
      if alternate.Some? {
        TameStatement(f, alternate.value, elseNext);
      }
    case While(test, body) =>
      TameExpression(f, test);
      TameStatement(f, body, elseNext);
    case Throw(e) => TameExpression(f, e);
    case Return(e) => TameExpression(f, e);
    case Break(_) =>
    case Try(_, _, _, _) => TameTry(f, s);
  }

  lemma {:induction false} TameTry(f: Fix, s: Stmt)
    requires s.Try? && IsTameAt(s)
    ensures SafeStmt(f, s)
    ensures !HitsStmt(f, s) ==> FitsAt(f, s, false) && IsTameAt(Replace(f, s))
    decreases s, 0
  {
    TameProgram(f, s.block);
    if s.handler.Some? {
      TameProgram(f, s.handler.value.body);
    }
    if s.finalizer.Finally? {
      NothingOffered(s.finalizer.body);
      StatementsKept(f, s.finalizer.body);
    }
    if !HitsStmt(f, s) {
      assert Replace(f, s)
          == Try(s.loc, ReplaceAll(f, s.block), ReplaceInHandler(f, s.handler), ReplaceInFinalizer(f, s.finalizer));
      assert ReplaceInFinalizer(f, s.finalizer) == s.finalizer;
    }
  }

  lemma {:induction false} TameProgram(f: Fix, ss: seq<Stmt>)
    requires IsTame(ss)
    ensures SafeAll(f, ss) && Fits(f, ss) && IsTame(ReplaceAll(f, ss))
    decreases ss, 0
  {
    if ss != [] {
      TameStatement(f, ss[0], false);
      TameProgram(f, ss[1..]);
      var first := if HitsStmt(f, ss[0]) then ss[0].block else [Replace(f, ss[0])];
      if !HitsStmt(f, ss[0]) {
        assert first[1..] == [];
      }
      TameConcat(first, ReplaceAll(f, ss[1..]));
    }
  }

  /** Any fix of a tame program, offered or not, keeps its meaning and leaves a tame program. */
  lemma TameFix(f: Fix, ss: seq<Stmt>)
    requires IsParsed(ss) && IsTame(ss)
    ensures FixProgram(f, ss).Some? && IsParsed(FixProgram(f, ss).value) && IsTame(FixProgram(f, ss).value)
    ensures forall env: Env, fuel: nat, st: Store :: KeepsMeaning(env, fuel, f, ss, st)
  {
    TameProgram(f, ss);
    ProgramReplaced(f, ss);
    FixedIsParsed(f, ss);
    forall env: Env, fuel: nat, st: Store ensures KeepsMeaning(env, fuel, f, ss, st) {
      ProgramFixed(env, fuel, f, ss, st);
    }
  }

  /** A tame program keeps its meaning through any number of fixes of both rules, in any order. */
  lemma {:induction false} FixingKeepsMeaning(env: Env, fuel: nat, ss: seq<Stmt>, fs: seq<Fix>, st: Store)
    requires IsParsed(ss) && IsTame(ss) && IsFixing(ss, fs)
    ensures IsParsed(Fixed(ss, fs)) && IsTame(Fixed(ss, fs))
    ensures ExecAll(env, fuel, Fixed(ss, fs), st) == ExecAll(env, fuel, ss, st)
    decreases |fs|
  {
    if fs != [] {
      TameFix(fs[0], ss);
      assert KeepsMeaning(env, fuel, fs[0], ss, st);
      FixingKeepsMeaning(env, fuel, FixProgram(fs[0], ss).value, fs[1..], st);
    }
  }

  /**
   Applying reported fixes as long as one leaves a program ends, with a program whose remaining reports, if any,
   cannot be fixed. In a tame program nothing is reported at the end.
   */
  lemma {:induction false} FixEverything(ss: seq<Stmt>) returns (fs: seq<Fix>)
    ensures IsFixing(ss, fs)
    ensures forall f <- Offers(Fixed(ss, fs)) :: FixProgram(f, Fixed(ss, fs)).None?
    ensures IsParsed(ss) && IsTame(ss) ==> Offers(Fixed(ss, fs)) == {}
    decreases Size(ParseStringify, ss) + Size(UselessCatch, ss)
  {
    fs := [];
    if f :| f in Offers(ss) && FixProgram(f, ss).Some? {
      var next := FixProgram(f, ss).value;
      FixInProgram(ParseStringify, f, ss);
      FixInProgram(UselessCatch, f, ss);
      var rest := FixEverything(next);
      fs := [f] + rest;
      assert fs[0] == f && fs[1..] == rest;
      if IsParsed(ss) && IsTame(ss) {
        TameFix(f, ss);
      }
    } else if IsParsed(ss) && IsTame(ss) && Offers(ss) != {} {
      var f :| f in Offers(ss);
      TameFix(f, ss);
    }
  }
}
