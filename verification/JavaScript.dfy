/**
 A small JavaScript: the syntax the lint rules look at (packages/@n8n/eslint-config/local-rules.js) and what it means.
 The names JSON and deepCopy stand for the global object and for the n8n helper; they are not shadowed.
 */
module JavaScript {
  import opened Wrappers

  datatype Value = Undefined | Data(content: nat)

  type Evaluated = Result<Value, Value> // a value, or what was thrown

  /** `loc` tells the calls, the try statements and the breaks of a program apart. */
  datatype Expr =
    | Ident(name: string)
    | Literal(value: Value)
    | Member(target: Expr, property: Expr, computed: bool)
    | Call(loc: nat, callee: Expr, args: seq<Expr>)

  datatype Param = Name(name: string) | Pattern

  datatype Catch = Catch(param: Option<Param>, body: seq<Stmt>)

  datatype Finalizer = NoFinalizer | Finally(body: seq<Stmt>)

  datatype Stmt =
    | Evaluate(e: Expr)
    | Assign(name: string, e: Expr)
    | Block(body: seq<Stmt>)
    | If(test: Expr, consequent: Stmt, alternate: Option<Stmt>)
    | While(test: Expr, loopBody: Stmt)
    | Throw(e: Expr)
    | Return(e: Expr)
    | Break(loc: nat)
    | Try(loc: nat, block: seq<Stmt>, handler: Option<Catch>, finalizer: Finalizer)

  type Store = map<string, Value>

  /** What a program cannot know about its surroundings. Calls of other functions may change the store. */
  datatype Env = Env(
    unbound: string -> Evaluated,
    truthy: Value -> bool,
    nameOf: string -> Value,
    member: (Value, Value) -> Evaluated,
    parse: seq<Value> -> Evaluated,
    stringify: seq<Value> -> Evaluated,
    invoke: (Value, seq<Value>, Store) -> (Evaluated, Store))

  // ----- Expressions -----

  function GlobalJson(name: string): Expr {
    Member(Ident("JSON"), Ident(name), false)
  }

  /** `deepCopy` read as parsing what stringifying gives. */
  function DeepCopy(env: Env, vs: seq<Value>): Evaluated {
    match env.stringify([if vs == [] then Undefined else vs[0]])
    case Failure(error) => Failure(error)
    case Success(text) => env.parse([text])
  }

  function Eval(env: Env, e: Expr, st: Store): (Evaluated, Store)
    decreases e, 1
  {
    match e
    case Ident(name) => (if name in st then Success(st[name]) else env.unbound(name), st)
    case Literal(v) => (Success(v), st)
    case Member(target, property, computed) =>
      var (o, st1) := Eval(env, target, st);
      if o.Failure? then (o, st1)
      else if !computed && property.Ident? then (env.member(o.value, env.nameOf(property.name)), st1)
      else
        var (p, st2) := Eval(env, property, st1);
        (if p.Failure? then p else env.member(o.value, p.value), st2)
    case Call(_, callee, args) =>
      if callee == GlobalJson("parse") || callee == GlobalJson("stringify") || callee == Ident("deepCopy") then
        var (vs, st1) := EvalArgs(env, args, st);
        (if vs.Failure? then Failure(vs.error)
         else if callee == GlobalJson("parse") then env.parse(vs.value)
         else if callee == GlobalJson("stringify") then env.stringify(vs.value)
         else DeepCopy(env, vs.value), st1)
      else
        var (f, st1) := Eval(env, callee, st);
        if f.Failure? then (f, st1) else
          var (vs, st2) := EvalArgs(env, args, st1);
          if vs.Failure? then (Failure(vs.error), st2) else env.invoke(f.value, vs.value, st2)
  }

  function EvalArgs(env: Env, es: seq<Expr>, st: Store): (r: (Result<seq<Value>, Value>, Store))
    ensures r.0.Success? ==> |r.0.value| == |es|
    decreases es, 0
  {
    if es == [] then (Success([]), st) else
      var (v, st1) := Eval(env, es[0], st);
      if v.Failure? then (Failure(v.error), st1) else
        var (vs, st2) := EvalArgs(env, es[1..], st1);
        (if vs.Failure? then vs else Success([v.value] + vs.value), st2)
  }

  // ----- Statements -----

  datatype Completion = Normal | Broke | Returned(value: Value) | Thrown(error: Value)

  /** How a statement ends and the store it leaves, or nothing if its loops take more turns than `fuel`. */
  type Executed = Option<(Completion, Store)>

  function Rebind(st: Store, before: Store, name: string): Store {
    if name in before then st[name := before[name]] else st - {name}
  }

  function Exec(env: Env, fuel: nat, s: Stmt, st: Store): Executed
    decreases fuel, s, 1
  {
    match s
    case Evaluate(e) =>
      var (v, st1) := Eval(env, e, st);
      Some((if v.Failure? then Thrown(v.error) else Normal, st1))
    case Assign(name, e) =>
      var (v, st1) := Eval(env, e, st);
      Some(if v.Failure? then (Thrown(v.error), st1) else (Normal, st1[name := v.value]))
    case Block(body) => ExecAll(env, fuel, body, st)
    case If(test, consequent, alternate) =>
      var (v, st1) := Eval(env, test, st);
      if v.Failure? then Some((Thrown(v.error), st1))
      else if env.truthy(v.value) then Exec(env, fuel, consequent, st1)
      else if alternate.None? then Some((Normal, st1))
      else Exec(env, fuel, alternate.value, st1)
    case While(test, body) =>
      var (v, st1) := Eval(env, test, st);
      if v.Failure? then Some((Thrown(v.error), st1))
      else if !env.truthy(v.value) then Some((Normal, st1))
      else
        var r := Exec(env, fuel, body, st1);
        if r.None? then None
        else if r.value.0.Broke? then Some((Normal, r.value.1))
        else if !r.value.0.Normal? then r
        else if fuel == 0 then None
        else Exec(env, fuel - 1, s, r.value.1)
    case Throw(e) =>
      var (v, st1) := Eval(env, e, st);
      Some((Thrown(if v.Failure? then v.error else v.value), st1))
    case Return(e) =>
      var (v, st1) := Eval(env, e, st);
      Some((if v.Failure? then Thrown(v.error) else Returned(v.value), st1))
    case Break(_) => Some((Broke, st))
    case Try(_, block, handler, finalizer) =>
      ExecFinally(env, fuel, finalizer, ExecCatch(env, fuel, handler, ExecAll(env, fuel, block, st)))
  }

  function ExecAll(env: Env, fuel: nat, ss: seq<Stmt>, st: Store): Executed
    decreases fuel, ss, 0
  {
    if ss == [] then Some((Normal, st)) else
      var r := Exec(env, fuel, ss[0], st);
      if r.None? || !r.value.0.Normal? then r else ExecAll(env, fuel, ss[1..], r.value.1)
  }

  /** A catch clause runs after a throw only; its parameter is visible in its body only. */
  function ExecCatch(env: Env, fuel: nat, handler: Option<Catch>, tried: Executed): Executed
    decreases fuel, handler, 1
  {
    if handler.None? || tried.None? || !tried.value.0.Thrown? then tried else
      var c, st := handler.value, tried.value.1;
      if c.param.Some? && c.param.value.Name? then
        var r := ExecAll(env, fuel, c.body, st[c.param.value.name := tried.value.0.error]);
        if r.None? then None else Some((r.value.0, Rebind(r.value.1, st, c.param.value.name)))
      else ExecAll(env, fuel, c.body, st)
  }

  /** A finalizer always runs, and its own ending wins unless it is normal. */
  function ExecFinally(env: Env, fuel: nat, finalizer: Finalizer, caught: Executed): Executed
    decreases fuel, finalizer, 1
  {
    if finalizer.NoFinalizer? || caught.None? then caught else
      var last := ExecAll(env, fuel, finalizer.body, caught.value.1);
      if last.None? || !last.value.0.Normal? then last else Some((caught.value.0, last.value.1))
  }

  lemma {:induction false} ExecAllConcat(env: Env, fuel: nat, a: seq<Stmt>, b: seq<Stmt>, st: Store)
    ensures var r := ExecAll(env, fuel, a, st);
            ExecAll(env, fuel, a + b, st)
            == if r.None? || !r.value.0.Normal? then r else ExecAll(env, fuel, b, r.value.1)
  {
    if a == [] {
      assert a + b == b;
    } else {
      assert (a + b)[0] == a[0] && (a + b)[1..] == a[1..] + b;
      var r := Exec(env, fuel, a[0], st);
      if r.Some? && r.value.0.Normal? {
        ExecAllConcat(env, fuel, a[1..], b, r.value.1);
      }
    }
  }

  // ----- What leaves a statement early -----

  /** A loop whose body breaks is over, and ends normally; what stands behind the `break` does not run. */
  lemma BreakLeavesTheLoop(env: Env, fuel: nat, test: Expr, body: seq<Stmt>, at: nat, behind: seq<Stmt>, st: Store)
    requires Eval(env, test, st).0.Success? && env.truthy(Eval(env, test, st).0.value)
    requires var r := ExecAll(env, fuel, body, Eval(env, test, st).1); r.Some? && r.value.0.Normal?
    ensures Exec(env, fuel, While(test, Block(body + [Break(at)] + behind)), st)
            == Some((Normal, ExecAll(env, fuel, body, Eval(env, test, st).1).value.1))
  {
    var st1 := Eval(env, test, st).1;
    ExecAllConcat(env, fuel, body + [Break(at)], behind, st1);
    ExecAllConcat(env, fuel, body, [Break(at)], st1);
  }

  /** An error is caught under the name of the clause, and what stands behind it does not run. */
  lemma ThrowReachesTheHandler(env: Env, fuel: nat, loc: nat, body: seq<Stmt>, v: Value, behind: seq<Stmt>,
                               name: string, st: Store)
    requires var r := ExecAll(env, fuel, body, st); r.Some? && r.value.0.Normal?
    ensures var handler := Catch(Some(Name(name)), [Return(Ident(name))]);
            var s := Try(loc, body + [Throw(Literal(v))] + behind, Some(handler), NoFinalizer);
            Exec(env, fuel, s, st) == Some((Returned(v), ExecAll(env, fuel, body, st).value.1))
  {
    ExecAllConcat(env, fuel, body + [Throw(Literal(v))], behind, st);
    ExecAllConcat(env, fuel, body, [Throw(Literal(v))], st);
    var handler := Catch(Some(Name(name)), [Return(Ident(name))]);
    var st1 := ExecAll(env, fuel, body, st).value.1;
    assert ExecAll(env, fuel, body + [Throw(Literal(v))] + behind, st) == Some((Thrown(v), st1));
    assert ExecAll(env, fuel, handler.body, st1[name := v]) == Some((Returned(v), st1[name := v]));
    assert Rebind(st1[name := v], st1, name) == st1;
  }
}
