/** Two autofixing lint rules and what they do to programs (packages/@n8n/eslint-config/local-rules.js). */
module LintRules {
  import opened Wrappers
  import opened JavaScript

  // ----- no-json-parse-json-stringify -----

  /** The rules look at the names only, also behind brackets. */
  predicate IsJsonCall(e: Expr, name: string) {
    e.Call? && e.callee.Member? && e.callee.target == Ident("JSON") && e.callee.property == Ident(name)
  }

  predicate ParsesStringified(e: Expr) {
    IsJsonCall(e, "parse") && |e.args| > 0 && IsJsonCall(e.args[0], "stringify")
  }

  predicate IsDeepCopyPattern(e: Expr) {
    ParsesStringified(e) && |e.args[0].args| == 1
  }

  function DeepCopyCall(e: Expr): Expr
    requires IsDeepCopyPattern(e)
  {
    Call(e.loc, Ident("deepCopy"), [e.args[0].args[0]])
  }

  // ----- no-useless-catch-throw -----

  datatype Verdict = Quiet | Reported | Crashes

  /** A parameter that is a pattern has no name; a missing parameter makes the rule itself fail. */
  function CatchVerdict(c: Catch): Verdict {
    if |c.body| != 1 || !c.body[0].Throw? || !c.body[0].e.Ident? then Quiet
    else
      match c.param
      case None => Crashes
      case Some(Pattern) => Quiet
      case Some(Name(name)) => if c.body[0].e.name == name then Reported else Quiet
  }

  predicate IsUselessTry(s: Stmt) {
    s.Try? && s.handler.Some? && CatchVerdict(s.handler.value) == Reported
  }

  // ----- Applying one fix somewhere in a program -----

  datatype Fix = DeepCopyFix(loc: nat) | CatchFix(loc: nat)

  predicate HitsExpr(f: Fix, e: Expr) {
    f.DeepCopyFix? && IsDeepCopyPattern(e) && e.loc == f.loc
  }

  predicate HitsStmt(f: Fix, s: Stmt) {
    f.CatchFix? && IsUselessTry(s) && s.loc == f.loc
  }

  function FixExpr(f: Fix, e: Expr): Expr
    decreases e, 1
  {
    if HitsExpr(f, e) then DeepCopyCall(e) else
      match e
      case Member(target, property, computed) => Member(FixExpr(f, target), FixExpr(f, property), computed)
      case Call(loc, callee, args) => Call(loc, FixExpr(f, callee), FixArgs(f, args))
      case _ => e
  }

  function FixArgs(f: Fix, es: seq<Expr>): (r: seq<Expr>)
    ensures |r| == |es|
    decreases es, 0
  {
    if es == [] then [] else [FixExpr(f, es[0])] + FixArgs(f, es[1..])
  }

  /** The statement that takes the place of another one, as long as a block keeps its braces where it needs them. */
  function Replace(f: Fix, s: Stmt): Stmt
    decreases s, 2
  {
    if HitsStmt(f, s) then (if |s.block| == 1 then s.block[0] else Block(s.block)) else ReplaceIn(f, s)
  }

  function ReplaceIn(f: Fix, s: Stmt): Stmt
    decreases s, 1
  {
    match s
    case Evaluate(e) => Evaluate(FixExpr(f, e))
    case Assign(name, e) => Assign(name, FixExpr(f, e))
    case Block(body) => Block(ReplaceAll(f, body))
    case If(test, consequent, alternate) =>
      If(FixExpr(f, test), Replace(f, consequent), if alternate.None? then None else Some(Replace(f, alternate.value)))
    case While(test, body) => While(FixExpr(f, test), Replace(f, body))
    case Throw(e) => Throw(FixExpr(f, e))
    case Return(e) => Return(FixExpr(f, e))
    case Break(_) => s
    case Try(loc, block, handler, finalizer) =>
      Try(loc, ReplaceAll(f, block), ReplaceInHandler(f, handler), ReplaceInFinalizer(f, finalizer))
  }

  function ReplaceInHandler(f: Fix, handler: Option<Catch>): Option<Catch>
    decreases handler, 1
  {
    if handler.None? then None else Some(Catch(handler.value.param, ReplaceAll(f, handler.value.body)))
  }

  function ReplaceInFinalizer(f: Fix, finalizer: Finalizer): Finalizer
    decreases finalizer, 1
  {
    if finalizer.NoFinalizer? then NoFinalizer else Finally(ReplaceAll(f, finalizer.body))
  }

  /** In a list of statements the statements of the block take the place of the try statement. */
  function ReplaceAll(f: Fix, ss: seq<Stmt>): seq<Stmt>
    decreases ss, 0
  {
    if ss == [] then []
    else (if HitsStmt(f, ss[0]) then ss[0].block else [Replace(f, ss[0])]) + ReplaceAll(f, ss[1..])
  }

  /** The fixes the two rules offer for a program. */
  function OffersIn(e: Expr): set<Fix>
    decreases e, 1
  {
    match e
    case Member(target, property, _) => OffersIn(target) + OffersIn(property)
    case Call(loc, callee, args) =>
      (if IsDeepCopyPattern(e) then {DeepCopyFix(loc)} else {}) + OffersIn(callee) + OffersInArgs(args)
    case _ => {}
  }

  function OffersInArgs(es: seq<Expr>): set<Fix>
    decreases es, 0
  {
    if es == [] then {} else OffersIn(es[0]) + OffersInArgs(es[1..])
  }

  function OffersAt(s: Stmt): set<Fix>
    decreases s, 1
  {
    match s
    case Evaluate(e) => OffersIn(e)
    case Assign(_, e) => OffersIn(e)
    case Block(body) => Offers(body)
    case If(test, consequent, alternate) =>
      OffersIn(test) + OffersAt(consequent) + if alternate.None? then {} else OffersAt(alternate.value)
    case While(test, body) => OffersIn(test) + OffersAt(body)
    case Throw(e) => OffersIn(e)
    case Return(e) => OffersIn(e)
    case Break(_) => {}
    case Try(loc, block, handler, finalizer) =>
      (if IsUselessTry(s) then {CatchFix(loc)} else {})
      + Offers(block) + OffersInHandler(handler) + OffersInFinalizer(finalizer)
  }

  function OffersInHandler(handler: Option<Catch>): set<Fix>
    decreases handler, 1
  {
    if handler.None? then {} else Offers(handler.value.body)
  }

  function OffersInFinalizer(finalizer: Finalizer): set<Fix>
    decreases finalizer, 1
  {
    if finalizer.NoFinalizer? then {} else Offers(finalizer.body)
  }

  function Offers(ss: seq<Stmt>): set<Fix>
    decreases ss, 0
  {
    if ss == [] then {} else OffersAt(ss[0]) + Offers(ss[1..])
  }

  // ----- What is reported, written out -----

  /** `JSON.name(args)`, or `JSON[name](args)`. */
  function JsonCall(loc: nat, name: string, computed: bool, args: seq<Expr>): Expr {
    Call(loc, Member(Ident("JSON"), Ident(name), computed), args)
  }

  /** `JSON.parse(JSON.stringify(x), more)`. */
  function Copying(loc: nat, computed: bool, inner: nat, innerComputed: bool, x: Expr, more: seq<Expr>): Expr {
    JsonCall(loc, "parse", computed, [JsonCall(inner, "stringify", innerComputed, [x])] + more)
  }

  /** `catch (name) { throw name; }`. */
  function Rethrowing(name: string): Catch {
    Catch(Some(Name(name)), [Throw(Ident(name))])
  }

  /** Exactly these calls are reported, and the fix makes each of them a `deepCopy` of what was stringified. */
  lemma CopiesAreReported(e: Expr)
    ensures IsDeepCopyPattern(e) <==>
            exists loc, computed, inner, innerComputed, x, more ::
              e == Copying(loc, computed, inner, innerComputed, x, more)
    ensures forall loc, computed, inner, innerComputed, x, more ::
              e == Copying(loc, computed, inner, innerComputed, x, more) ==>
                DeepCopyFix(loc) in OffersIn(e) && FixExpr(DeepCopyFix(loc), e) == Call(loc, Ident("deepCopy"), [x])
  {
    if IsDeepCopyPattern(e) {
      var first := e.args[0];
      assert e.args == [first] + e.args[1..] && first.args == [first.args[0]];
      assert e == Copying(e.loc, e.callee.computed, first.loc, first.callee.computed, first.args[0], e.args[1..]);
    }
  }

  /** Exactly the clauses that throw their own parameter are reported, under whatever name. */
  lemma RethrowingIsReported(c: Catch)
    ensures CatchVerdict(c) == Reported <==> exists name :: c == Rethrowing(name)
    ensures CatchVerdict(c) == Crashes <==> c.param.None? && exists name :: c.body == Rethrowing(name).body
    ensures CatchVerdict(c) != Reported ==> forall loc, block, finalizer ::
              !HitsStmt(CatchFix(loc), Try(loc, block, Some(c), finalizer))
  {
    if |c.body| == 1 && c.body[0].Throw? && c.body[0].e.Ident? {
      assert c.body == Rethrowing(c.body[0].e.name).body;
    }
    if name :| c == Rethrowing(name) {
      assert c.body[0] == Throw(Ident(name));
    }
  }

  /** Whatever its block and its finalizer, the statement around such a clause is offered its block in exchange. */
  lemma RethrowingIsFixed(loc: nat, block: seq<Stmt>, name: string, finalizer: Finalizer, behind: seq<Stmt>)
    ensures var s := Try(loc, block, Some(Rethrowing(name)), finalizer);
            && CatchFix(loc) in OffersAt(s)
            && Replace(CatchFix(loc), s) == (if |block| == 1 then block[0] else Block(block))
            && ReplaceAll(CatchFix(loc), [s] + behind) == block + ReplaceAll(CatchFix(loc), behind)
  {
    var s := Try(loc, block, Some(Rethrowing(name)), finalizer);
    RethrowingIsReported(Rethrowing(name));
    assert ([s] + behind)[0] == s && ([s] + behind)[1..] == behind;
  }

  // ----- When a fix is safe for the meaning -----

  /** The outer call has nothing but the copied value, and neither method name is computed. */
  predicate IsPlainPattern(e: Expr)
    requires IsDeepCopyPattern(e)
  {
    |e.args| == 1 && !e.callee.computed && !e.args[0].callee.computed
  }

  /** Statements that visibly do nothing: literals, and blocks of such. */
  predicate DoesNothing(ss: seq<Stmt>)
    decreases ss
  {
    ss != [] ==>
      && ((ss[0].Evaluate? && ss[0].e.Literal?) || (ss[0].Block? && DoesNothing(ss[0].body)))
      && DoesNothing(ss[1..])
  }

  predicate SafeExpr(f: Fix, e: Expr)
    decreases e, 1
  {
    if HitsExpr(f, e) then IsPlainPattern(e) else
      match e
      case Member(target, property, _) => SafeExpr(f, target) && SafeExpr(f, property)
      case Call(_, callee, args) => SafeExpr(f, callee) && SafeArgs(f, args)
      case _ => true
  }

  predicate SafeArgs(f: Fix, es: seq<Expr>)
    decreases es, 0
  {
    es != [] ==> SafeExpr(f, es[0]) && SafeArgs(f, es[1..])
  }

  predicate SafeStmt(f: Fix, s: Stmt)
    decreases s, 1
  {
    if HitsStmt(f, s) then s.finalizer.Finally? ==> DoesNothing(s.finalizer.body) else
      match s
      case Evaluate(e) => SafeExpr(f, e)
      case Assign(_, e) => SafeExpr(f, e)
      case Block(body) => SafeAll(f, body)
      case If(test, consequent, alternate) =>
        SafeExpr(f, test) && SafeStmt(f, consequent) && (alternate.Some? ==> SafeStmt(f, alternate.value))
      case While(test, body) => SafeExpr(f, test) && SafeStmt(f, body)
      case Throw(e) => SafeExpr(f, e)
      case Return(e) => SafeExpr(f, e)
      case Break(_) => true
      case Try(_, block, handler, finalizer) =>
        && SafeAll(f, block)
        && (handler.Some? ==> SafeAll(f, handler.value.body))
        && (finalizer.Finally? ==> SafeAll(f, finalizer.body))
  }

  predicate SafeAll(f: Fix, ss: seq<Stmt>)
    decreases ss, 0
  {
    ss != [] ==> SafeStmt(f, ss[0]) && SafeAll(f, ss[1..])
  }

  // ----- What a fix leaves of the shape of an expression -----

  /** A fix never makes or unmakes a name, a reference to a JSON method, or a call of one. */
  lemma {:induction false} FixKeepsShape(f: Fix, e: Expr)
    ensures FixExpr(f, e).Ident? <==> e.Ident?
    ensures e.Ident? ==> FixExpr(f, e) == e
    ensures FixExpr(f, e).Member? <==> e.Member?
    ensures FixExpr(f, e).Call? <==> e.Call?
    ensures FixExpr(f, e) == GlobalJson("parse") <==> e == GlobalJson("parse")
    ensures FixExpr(f, e) == GlobalJson("stringify") <==> e == GlobalJson("stringify")
  {
    if e.Member? {
      FixKeepsShape(f, e.target);
      FixKeepsShape(f, e.property);
    }
  }

  lemma JsonCallKept(f: Fix, e: Expr, name: string)
    requires !HitsExpr(f, e)
    ensures IsJsonCall(FixExpr(f, e), name) <==> IsJsonCall(e, name)
    ensures IsJsonCall(e, name) ==> FixExpr(f, e).callee == e.callee
  {
    if e.Call? {
      FixKeepsShape(f, e.callee);
      if e.callee.Member? {
        FixKeepsShape(f, e.callee.target);
        FixKeepsShape(f, e.callee.property);
      }
    }
  }

  /** Elsewhere, a call matches the pattern after a fix exactly if it did before. */
  lemma PatternKept(f: Fix, e: Expr)
    requires !HitsExpr(f, e)
    ensures ParsesStringified(FixExpr(f, e)) <==> ParsesStringified(e)
    ensures IsDeepCopyPattern(FixExpr(f, e)) <==> IsDeepCopyPattern(e)
  {
    JsonCallKept(f, e, "parse");
    if IsJsonCall(e, "parse") && |e.args| > 0 {
      var first := e.args[0];
      assert FixArgs(f, e.args)[0] == FixExpr(f, first);
      assert |"parse"| != |"stringify"|;
      if HitsExpr(f, first) {
        assert !IsJsonCall(first, "stringify");
      } else {
        JsonCallKept(f, first, "stringify");
      }
    }
  }
}
