/**
 What the text of a program reads as after a fix (packages/@n8n/eslint-config/local-rules.js:104, 199-210).

 The fix of no-useless-catch-throw inserts the text of the try block without its braces. In a list of statements
 that does no harm. Where the try statement was the body of a branch or of a loop, only the first statement of the
 block becomes the body, an empty block takes whatever statement comes next, and an `else` that follows may go to
 another `if` or be left over.
 */
module FixText {
  import opened Wrappers
  import opened JavaScript
  import opened LintRules

  // ----- Reading text from left to right -----

  /** The start of a statement whose body is still to come. */
  datatype Head = WhileHead(test: Expr) | IfHead(test: Expr) | ElseHead(test: Expr, consequent: Stmt)

  /** Complete statements, and after them perhaps nested heads that wait for one body. */
  datatype Reading = Reading(done: seq<Stmt>, heads: seq<Head>)

  function One(s: Stmt): Reading {
    Reading([s], [])
  }

  function Fill(heads: seq<Head>, s: Stmt): Stmt {
    if heads == [] then s else
      match heads[0]
      case WhileHead(test) => While(test, Fill(heads[1..], s))
      case IfHead(test) => If(test, Fill(heads[1..], s), None)
      case ElseHead(test, consequent) => If(test, consequent, Some(Fill(heads[1..], s)))
  }

  /** The first statement that follows some heads is their body. */
  function Enter(heads: seq<Head>, r: Reading): Reading {
    if r.done == [] then Reading([], heads + r.heads)
    else Reading([Fill(heads, r.done[0])] + r.done[1..], r.heads)
  }

  function Follow(r: Reading, next: Reading): Reading {
    var entered := Enter(r.heads, next);
    Reading(r.done + entered.done, entered.heads)
  }

  /** Whether an `else` right after the statement would belong to an `if` inside it. */
  predicate EndsOpen(s: Stmt) {
    || (s.If? && (s.alternate.None? || EndsOpen(s.alternate.value)))
    || (s.While? && EndsOpen(s.loopBody))
  }

  /** The heads that a statement leaves when an `else` follows: the innermost open `if` takes it. */
  function ElsePath(s: Stmt): seq<Head>
    requires EndsOpen(s)
  {
    match s
    case While(test, body) => [WhileHead(test)] + ElsePath(body)
    case If(test, consequent, alternate) =>
      if alternate.Some? then [ElseHead(test, consequent)] + ElsePath(alternate.value)
      else if EndsOpen(consequent) then [IfHead(test)] + ElsePath(consequent)
      else [ElseHead(test, consequent)]
  }

  /** An `else` and what follows it. Without an open `if` right before it the text is not a program. */
  function FollowElse(r: Reading, next: Reading): Option<Reading> {
    var last := |r.done| - 1;
    if r.heads != [] || last < 0 || !EndsOpen(r.done[last]) then None
    else Some(Follow(Reading(r.done[..last], ElsePath(r.done[last])), next))
  }

  // ----- A fix, as the text it leaves -----

  function Read(f: Fix, s: Stmt): Option<Reading>
    decreases s, 1
  {
    if HitsStmt(f, s) then Some(Reading(s.block, [])) else
      match s
      case Block(body) =>
        var fixed :- FixProgram(f, body);
        Some(One(Block(fixed)))
      case While(test, body) =>
        var r :- Read(f, body);
        Some(Enter([WhileHead(FixExpr(f, test))], r))
      case If(test, consequent, alternate) =>
        var r :- Read(f, consequent);
        var branch := Enter([IfHead(FixExpr(f, test))], r);
        if alternate.None? then Some(branch) else
          var next :- Read(f, alternate.value);
          FollowElse(branch, next)
      case Try(loc, block, handler, finalizer) =>
        var block' :- FixProgram(f, block);
        var handler' :- FixHandler(f, handler);
        var finalizer' :- FixFinalizer(f, finalizer);
        Some(One(Try(loc, block', handler', finalizer')))
      case _ => Some(One(ReplaceIn(f, s)))
  }

  function FixHandler(f: Fix, handler: Option<Catch>): Option<Option<Catch>>
    decreases handler, 1
  {
    if handler.None? then Some(None) else
      var body :- FixProgram(f, handler.value.body);
      Some(Some(Catch(handler.value.param, body)))
  }

  function FixFinalizer(f: Fix, finalizer: Finalizer): Option<Finalizer>
    decreases finalizer, 1
  {
    if finalizer.NoFinalizer? then Some(NoFinalizer) else
      var body :- FixProgram(f, finalizer.body);
      Some(Finally(body))
  }

  function ReadAll(f: Fix, ss: seq<Stmt>): Option<Reading>
    decreases ss, 0
  {
    if ss == [] then Some(Reading([], [])) else
      var r :- Read(f, ss[0]);
      var next :- ReadAll(f, ss[1..]);
      Some(Follow(r, next))
  }

  /** The program after the fix, or nothing if its text is no longer one. */
  function FixProgram(f: Fix, ss: seq<Stmt>): Option<seq<Stmt>>
    decreases ss, 1
  {
    var r :- ReadAll(f, ss);
    if r.heads == [] then Some(r.done) else None
  }

  // ----- Programs as a parser gives them -----

  /** No `else` stands after a statement that would have taken it. */
  predicate IsParsedAt(s: Stmt)
    decreases s, 1
  {
    match s
    case Block(body) => IsParsed(body)
    case While(_, body) => IsParsedAt(body)
    case If(_, consequent, alternate) =>
      && IsParsedAt(consequent)
      && (alternate.Some? ==> !EndsOpen(consequent) && IsParsedAt(alternate.value))
    case Try(_, block, handler, finalizer) =>
      && IsParsed(block)
      && (handler.Some? ==> IsParsed(handler.value.body))
      && (finalizer.Finally? ==> IsParsed(finalizer.body))
    case _ => true
  }

  predicate IsParsed(ss: seq<Stmt>)
    decreases ss, 0
  {
    ss != [] ==> IsParsedAt(ss[0]) && IsParsed(ss[1..])
  }

  // ----- When the braces do not matter -----

  /**
   A fixed try statement that is the body of a branch or a loop has exactly one statement in its block, which does
   not take an `else` that follows. `elseNext` says whether one follows.
   */
  predicate FitsBody(f: Fix, s: Stmt, elseNext: bool)
    decreases s, 2
  {
    if HitsStmt(f, s) then |s.block| == 1 && (elseNext ==> !EndsOpen(s.block[0])) else FitsAt(f, s, elseNext)
  }

  predicate FitsAt(f: Fix, s: Stmt, elseNext: bool)
    decreases s, 1
  {
    match s
    case Block(body) => Fits(f, body)
    case While(_, body) => FitsBody(f, body, elseNext)
    case If(_, consequent, alternate) =>
      && FitsBody(f, consequent, elseNext || alternate.Some?)
      && (alternate.Some? ==> FitsBody(f, alternate.value, elseNext))
    case Try(_, block, handler, finalizer) =>
      && Fits(f, block)
      && (handler.Some? ==> Fits(f, handler.value.body))
      && (finalizer.Finally? ==> Fits(f, finalizer.body))
    case _ => true
  }

  predicate Fits(f: Fix, ss: seq<Stmt>)
    decreases ss, 0
  {
    ss != [] ==> (HitsStmt(f, ss[0]) || FitsAt(f, ss[0], false)) && Fits(f, ss[1..])
  }

  /** Where the fix fits, the text reads as the program with the statement replaced. */
  lemma {:induction false} BodyReplaced(f: Fix, s: Stmt, elseNext: bool)
    requires IsParsedAt(s) && FitsBody(f, s, elseNext) && (elseNext ==> !EndsOpen(s))
    ensures Read(f, s) == Some(One(Replace(f, s))) && (elseNext ==> !EndsOpen(Replace(f, s)))
    decreases s, 3
  {
    if HitsStmt(f, s) {
      assert s.block == [s.block[0]];
    } else {
      StatementReplaced(f, s, elseNext);
    }
  }

  lemma {:induction false} StatementReplaced(f: Fix, s: Stmt, elseNext: bool)
    requires !HitsStmt(f, s) && IsParsedAt(s) && FitsAt(f, s, elseNext) && (elseNext ==> !EndsOpen(s))
    ensures Read(f, s) == Some(One(Replace(f, s))) && (elseNext ==> !EndsOpen(Replace(f, s)))
    decreases s, 2
  {
    match s
    case Block(body) => ProgramReplaced(f, body);
    case While(test, body) =>
      BodyReplaced(f, body, elseNext);
      EnterOne(WhileHead(FixExpr(f, test)), Replace(f, body));
    case If(_, _, _) => BranchReplaced(f, s, elseNext);
    case Try(_, _, _, _) => TryReplaced(f, s);
    case _ =>
  }

  lemma EnterOne(head: Head, s: Stmt)
    ensures Enter([head], One(s)) == One(Fill([head], s))
    ensures head.WhileHead? ==> Fill([head], s) == While(head.test, s)
    ensures head.IfHead? ==> Fill([head], s) == If(head.test, s, None)
    ensures head.ElseHead? ==> Fill([head], s) == If(head.test, head.consequent, Some(s))
  {
    assert [head][1..] == [];
    assert Fill([], s) == s;
  }

  lemma {:induction false} BranchReplaced(f: Fix, s: Stmt, elseNext: bool)
    requires s.If? && IsParsedAt(s) && FitsAt(f, s, elseNext) && (elseNext ==> !EndsOpen(s))
    ensures Read(f, s) == Some(One(Replace(f, s))) && (elseNext ==> !EndsOpen(Replace(f, s)))
    decreases s, 1
  {
    var test, consequent := FixExpr(f, s.test), Replace(f, s.consequent);
    BodyReplaced(f, s.consequent, s.alternate.Some?);
    EnterOne(IfHead(test), consequent);
    if s.alternate.Some? {
      var alternate := Replace(f, s.alternate.value);
      BodyReplaced(f, s.alternate.value, elseNext);
      EnterOne(ElseHead(test, consequent), alternate);
      ElseAfterBranch(test, consequent, One(alternate));
    }
  }

  /** An `else` after a branch that is closed goes where it should. */
  lemma ElseAfterBranch(test: Expr, consequent: Stmt, next: Reading)
    requires !EndsOpen(consequent)
    ensures FollowElse(One(If(test, consequent, None)), next) == Some(Enter([ElseHead(test, consequent)], next))
  {
    var branch := If(test, consequent, None);
    assert [branch][..0] == [];
    assert ElsePath(branch) == [ElseHead(test, consequent)];
    var entered := Enter([ElseHead(test, consequent)], next);
    assert [] + entered.done == entered.done;
  }

  lemma {:induction false} TryReplaced(f: Fix, s: Stmt)
    requires s.Try? && !HitsStmt(f, s) && IsParsedAt(s) && FitsAt(f, s, false)
    ensures Read(f, s) == Some(One(Replace(f, s)))
    decreases s, 1
  {
    ProgramReplaced(f, s.block);
    if s.handler.Some? {
      ProgramReplaced(f, s.handler.value.body);
    }
    if s.finalizer.Finally? {
      ProgramReplaced(f, s.finalizer.body);
    }
    assert FixHandler(f, s.handler) == Some(ReplaceInHandler(f, s.handler));
    assert FixFinalizer(f, s.finalizer) == Some(ReplaceInFinalizer(f, s.finalizer));
  }

  lemma {:induction false} ProgramReplaced(f: Fix, ss: seq<Stmt>)
    requires IsParsed(ss) && Fits(f, ss)
    ensures ReadAll(f, ss) == Some(Reading(ReplaceAll(f, ss), []))
    ensures FixProgram(f, ss) == Some(ReplaceAll(f, ss))
    decreases ss, 0
  {
    if ss != [] {
      var first := if HitsStmt(f, ss[0]) then ss[0].block else [Replace(f, ss[0])];
      if !HitsStmt(f, ss[0]) {
        StatementReplaced(f, ss[0], false);
      }
      ProgramReplaced(f, ss[1..]);
      FollowComplete(first, Reading(ReplaceAll(f, ss[1..]), []));
    }
  }

  lemma FollowComplete(done: seq<Stmt>, next: Reading)
    ensures Follow(Reading(done, []), next) == Reading(done + next.done, next.heads)
  {
    if next.done != [] {
      assert [next.done[0]] + next.done[1..] == next.done;
    }
  }

  // ----- A fix that is not offered -----

  lemma {:induction false} ExpressionKept(f: Fix, e: Expr)
    requires f !in OffersIn(e)
    ensures FixExpr(f, e) == e && SafeExpr(f, e)
    decreases e, 1
  {
    match e
    case Ident(_) =>
    case Literal(_) =>
    case Member(target, property, _) =>
      ExpressionKept(f, target);
      ExpressionKept(f, property);
    case Call(_, callee, args) =>
      ExpressionKept(f, callee);
      ArgumentsKept(f, args);
  }

  lemma {:induction false} ArgumentsKept(f: Fix, es: seq<Expr>)
    requires f !in OffersInArgs(es)
    ensures FixArgs(f, es) == es && SafeArgs(f, es)
    decreases es, 0
  {
    if es != [] {
      ExpressionKept(f, es[0]);
      ArgumentsKept(f, es[1..]);
    }
  }

  lemma {:induction false} StatementKept(f: Fix, s: Stmt, elseNext: bool)
    requires f !in OffersAt(s)
    ensures !HitsStmt(f, s) && Replace(f, s) == s && SafeStmt(f, s) && FitsAt(f, s, elseNext)
    decreases s, 1
  {
    match s
    case Block(body) => StatementsKept(f, body);
    case While(test, body) =>
      ExpressionKept(f, test);
      StatementKept(f, body, elseNext);
    case If(test, consequent, alternate) =>
      ExpressionKept(f, test);
      StatementKept(f, consequent, elseNext || alternate.Some?);
      if alternate.Some? {
        StatementKept(f, alternate.value, elseNext);
      }
    case Try(_, block, handler, finalizer) => TryKept(f, s);
    case Break(_) =>
    case Evaluate(e) => ExpressionKept(f, e);
    case Assign(_, e) => ExpressionKept(f, e);
    case Throw(e) => ExpressionKept(f, e);
    case Return(e) => ExpressionKept(f, e);
  }

  lemma {:induction false} TryKept(f: Fix, s: Stmt)
    requires s.Try? && f !in OffersAt(s)
    ensures !HitsStmt(f, s) && Replace(f, s) == s && SafeStmt(f, s) && FitsAt(f, s, false)
    decreases s, 0
  {
    StatementsKept(f, s.block);
    if s.handler.Some? {
      StatementsKept(f, s.handler.value.body);
    }
    if s.finalizer.Finally? {
      StatementsKept(f, s.finalizer.body);
    }
    assert ReplaceInHandler(f, s.handler) == s.handler;
    assert ReplaceInFinalizer(f, s.finalizer) == s.finalizer;
    assert Replace(f, s) == s.(block := s.block);
  }

  /** It changes nothing, and is safe wherever it would be applied. */
  lemma {:induction false} StatementsKept(f: Fix, ss: seq<Stmt>)
    requires f !in Offers(ss)
    ensures ReplaceAll(f, ss) == ss && SafeAll(f, ss) && Fits(f, ss)
    decreases ss, 0
  {
    if ss != [] {
      StatementKept(f, ss[0], false);
      StatementsKept(f, ss[1..]);
    }
  }

  // ----- What a parser gives stays so -----

  predicate AreParsed(heads: seq<Head>) {
    forall h <- heads :: h.ElseHead? ==> IsParsedAt(h.consequent) && !EndsOpen(h.consequent)
  }

  predicate IsParsedReading(r: Reading) {
    IsParsed(r.done) && AreParsed(r.heads)
  }

  lemma {:induction false} FillParsed(heads: seq<Head>, s: Stmt)
    requires AreParsed(heads) && IsParsedAt(s)
    ensures IsParsedAt(Fill(heads, s))
  {
    if heads != [] {
      FillParsed(heads[1..], s);
      assert heads[0] in heads;
    }
  }

  lemma {:induction false} ParsedConcat(a: seq<Stmt>, b: seq<Stmt>)
    ensures IsParsed(a + b) <==> IsParsed(a) && IsParsed(b)
  {
    if a == [] {
      assert a + b == b;
    } else {
      assert (a + b)[0] == a[0] && (a + b)[1..] == a[1..] + b;
      ParsedConcat(a[1..], b);
    }
  }

  lemma FollowParsed(r: Reading, next: Reading)
    requires IsParsedReading(r) && IsParsedReading(next)
    ensures IsParsedReading(Enter(r.heads, next)) && IsParsedReading(Follow(r, next))
  {
    if next.done != [] {
      FillParsed(r.heads, next.done[0]);
      ParsedConcat([Fill(r.heads, next.done[0])], next.done[1..]);
    }
    ParsedConcat(r.done, Enter(r.heads, next).done);
  }

  lemma {:induction false} ElsePathParsed(s: Stmt)
    requires EndsOpen(s) && IsParsedAt(s)
    ensures AreParsed(ElsePath(s))
  {
    match s
    case While(test, body) => ElsePathParsed(body);
    case If(test, consequent, alternate) =>
      if alternate.Some? {
        ElsePathParsed(alternate.value);
      } else if EndsOpen(consequent) {
        ElsePathParsed(consequent);
      }
  }

  lemma FollowElseParsed(r: Reading, next: Reading)
    requires IsParsedReading(r) && IsParsedReading(next)
    ensures var after := FollowElse(r, next); after.Some? ==> IsParsedReading(after.value)
  {
    var last := |r.done| - 1;
    if FollowElse(r, next).Some? {
      assert r.done == r.done[..last] + [r.done[last]];
      ParsedConcat(r.done[..last], [r.done[last]]);
      ElsePathParsed(r.done[last]);
      FollowParsed(Reading(r.done[..last], ElsePath(r.done[last])), next);
    }
  }

  lemma {:induction false} ReadParsed(f: Fix, s: Stmt)
    requires IsParsedAt(s)
    ensures Read(f, s).Some? ==> IsParsedReading(Read(f, s).value)
    decreases s, 2
  {
    if !HitsStmt(f, s) && Read(f, s).Some? {
      match s
      case Block(body) => FixedIsParsed(f, body);
      case While(test, body) =>
        ReadParsed(f, body);
        FollowParsed(Reading([], [WhileHead(FixExpr(f, test))]), Read(f, body).value);
      case If(_, _, _) => ReadBranchParsed(f, s);
      case Try(_, _, _, _) => ReadTryParsed(f, s);
      case _ =>
    }
  }

  lemma {:induction false} ReadBranchParsed(f: Fix, s: Stmt)
    requires s.If? && IsParsedAt(s) && Read(f, s).Some?
    ensures IsParsedReading(Read(f, s).value)
    decreases s, 1
  {
    var heads := [IfHead(FixExpr(f, s.test))];
    ReadParsed(f, s.consequent);
    FollowParsed(Reading([], heads), Read(f, s.consequent).value);
    if s.alternate.Some? {
      ReadParsed(f, s.alternate.value);
      FollowElseParsed(Enter(heads, Read(f, s.consequent).value), Read(f, s.alternate.value).value);
    }
  }

  lemma {:induction false} ReadTryParsed(f: Fix, s: Stmt)
    requires s.Try? && !HitsStmt(f, s) && IsParsedAt(s) && Read(f, s).Some?
    ensures IsParsedReading(Read(f, s).value)
    decreases s, 1
  {
    FixedIsParsed(f, s.block);
    if s.handler.Some? {
      FixedIsParsed(f, s.handler.value.body);
    }
    if s.finalizer.Finally? {
      FixedIsParsed(f, s.finalizer.body);
    }
    var fixed := Read(f, s).value.done[0];
    assert IsParsedAt(fixed);
  }

  lemma {:induction false} ReadAllParsed(f: Fix, ss: seq<Stmt>)
    requires IsParsed(ss)
    ensures ReadAll(f, ss).Some? ==> IsParsedReading(ReadAll(f, ss).value)
    decreases ss, 0
  {
    if ss != [] && ReadAll(f, ss).Some? {
      ReadParsed(f, ss[0]);
      ReadAllParsed(f, ss[1..]);
      FollowParsed(Read(f, ss[0]).value, ReadAll(f, ss[1..]).value);
    }
  }

  lemma {:induction false} FixedIsParsed(f: Fix, ss: seq<Stmt>)
    requires IsParsed(ss)
    ensures FixProgram(f, ss).Some? ==> IsParsed(FixProgram(f, ss).value)
    decreases ss, 1
  {
    ReadAllParsed(f, ss);
  }

  // ----- What happens where the braces do matter -----

  /** The first statement of the block becomes the body of the loop, and the others come after the loop. */
  lemma LoopBodyUnbraced(f: Fix, test: Expr, s: Stmt)
    requires HitsStmt(f, s)
    ensures FixProgram(f, [While(test, s)])
            == if s.block == [] then None else Some([While(test, s.block[0])] + s.block[1..])
  {
    ExpressionKept(f, test) by { CatchFixLeavesExpressions(f, test); }
    var loop := While(test, s);
    var r := Enter([WhileHead(test)], Reading(s.block, []));
    ReadAlone(f, loop);
    assert ReadAll(f, [loop]) == Some(r);
    if s.block == [] {
      assert r.heads == [WhileHead(test)];
    } else {
      EnterOne(WhileHead(test), s.block[0]);
    }
  }

  lemma {:induction false} CatchFixLeavesExpressions(f: Fix, e: Expr)
    requires f.CatchFix?
    ensures f !in OffersIn(e)
    decreases e, 1
  {
    match e
    case Ident(_) =>
    case Literal(_) =>
    case Member(target, property, _) =>
      CatchFixLeavesExpressions(f, target);
      CatchFixLeavesExpressions(f, property);
    case Call(_, callee, args) =>
      CatchFixLeavesExpressions(f, callee);
      CatchFixLeavesArguments(f, args);
  }

  lemma {:induction false} CatchFixLeavesArguments(f: Fix, es: seq<Expr>)
    requires f.CatchFix?
    ensures f !in OffersInArgs(es)
    decreases es, 0
  {
    if es != [] {
      CatchFixLeavesExpressions(f, es[0]);
      CatchFixLeavesArguments(f, es[1..]);
    }
  }

  lemma ReadAlone(f: Fix, s: Stmt)
    ensures ReadAll(f, [s]) == Read(f, s)
  {
    assert [s][1..] == [];
    if Read(f, s).Some? {
      var r := Read(f, s).value;
      assert Enter(r.heads, Reading([], [])) == Reading([], r.heads + []);
      assert r.heads + [] == r.heads && r.done + [] == r.done;
    }
  }

  /** With an empty block the loop takes the next statement as its body. */
  lemma EmptyBlockTakesNext(f: Fix, test: Expr, s: Stmt, next: Stmt)
    requires HitsStmt(f, s) && s.block == [] && IsParsedAt(next) && f !in OffersAt(next)
    ensures FixProgram(f, [While(test, s), next]) == Some([While(test, next)])
  {
    ExpressionKept(f, test) by { CatchFixLeavesExpressions(f, test); }
    var loop := While(test, s);
    StatementKept(f, next, false);
    StatementReplaced(f, next, false);
    var waiting := Reading([], [WhileHead(test)]);
    assert [WhileHead(test)] + [] == [WhileHead(test)];
    assert Read(f, loop) == Some(Enter([WhileHead(test)], Reading([], []))) == Some(waiting);
    assert [loop, next][1..] == [next];
    ReadAlone(f, next);
    EnterOne(WhileHead(test), next);
    assert Follow(waiting, One(next)) == One(While(test, next));
  }

  /** As a branch without `else` the block fares like in a loop. */
  lemma BranchUnbraced(f: Fix, test: Expr, s: Stmt)
    requires HitsStmt(f, s)
    ensures FixProgram(f, [If(test, s, None)])
            == if s.block == [] then None else Some([If(test, s.block[0], None)] + s.block[1..])
  {
    ExpressionKept(f, test) by { CatchFixLeavesExpressions(f, test); }
    var branch := If(test, s, None);
    var r := Enter([IfHead(test)], Reading(s.block, []));
    ReadAlone(f, branch);
    assert ReadAll(f, [branch]) == Some(r);
    if s.block == [] {
      assert r.heads == [IfHead(test)];
    } else {
      EnterOne(IfHead(test), s.block[0]);
    }
  }

  /** The last statement of the block takes the `else` that follows the try statement, if it ends in an open `if`. */
  lemma ElseIsTaken(f: Fix, test: Expr, s: Stmt, alternate: Stmt)
    requires HitsStmt(f, s) && s.block != [] && EndsOpen(s.block[|s.block| - 1])
    requires IsParsedAt(alternate) && f !in OffersAt(alternate)
    ensures var branch := Enter([IfHead(test)], Reading(s.block, [])).done;
            var last := |branch| - 1;
            && |branch| == |s.block| && EndsOpen(branch[last])
            && FixProgram(f, [If(test, s, Some(alternate))])
               == Some(branch[..last] + [Fill(ElsePath(branch[last]), alternate)])
  {
    var whole := If(test, s, Some(alternate));
    ExpressionKept(f, test) by { CatchFixLeavesExpressions(f, test); }
    StatementKept(f, alternate, false);
    StatementReplaced(f, alternate, false);
    EnterOne(IfHead(test), s.block[0]);
    var branch := Enter([IfHead(test)], Reading(s.block, []));
    var last := |branch.done| - 1;
    assert last > 0 ==> branch.done[last] == s.block[last];
    assert EndsOpen(branch.done[last]);
    var path := ElsePath(branch.done[last]);
    var taken := Fill(path, alternate);
    assert Enter(path, One(alternate)) == One(taken);
    assert Follow(Reading(branch.done[..last], path), One(alternate)) == Reading(branch.done[..last] + [taken], []);
    assert Read(f, whole) == FollowElse(branch, One(alternate));
    ReadAlone(f, whole);
  }

  /** No statement, or several of which the last takes no `else`, before an `else` no longer make a program. */
  lemma ElseIsLeftOver(f: Fix, test: Expr, s: Stmt, alternate: Stmt)
    requires HitsStmt(f, s) && |s.block| != 1 && (s.block != [] ==> !EndsOpen(s.block[|s.block| - 1]))
    ensures FixProgram(f, [If(test, s, Some(alternate))]) == None
  {
    var branch := If(test, s, Some(alternate));
    var r := Enter([IfHead(FixExpr(f, test))], Reading(s.block, []));
    if s.block != [] {
      assert r.done[|r.done| - 1] == s.block[|s.block| - 1];
    }
    assert Read(f, branch) == None;
    ReadAlone(f, branch);
  }
}
