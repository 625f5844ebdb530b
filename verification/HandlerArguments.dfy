/** How a route handler builds the arguments of its method (packages/cli/src/controller.registry.ts:59-77). */
module HandlerArguments {
  import opened Wrappers

  type SchemaId = nat

  datatype Value = Undefined | RequestObject | ResponseObject | Data(content: nat)

  datatype Arg = Param(key: string) | Body | Query | Other(argType: string)

  /** What reflection knows about a parameter: a schema class, or anything without `safeParse`. */
  datatype ParamType = Schema(id: SchemaId) | NoSchema

  datatype Request = Request(params: map<string, Value>, body: Value, query: Value)

  datatype Parsed = Parsed(data: Value) | Invalid(issue: nat)

  type Parser = (SchemaId, Value) -> Parsed

  datatype Handled =
    | Invoked(args: seq<Value>)           // the controller method was called
    | BadRequest(issue: nat)              // response 400 with the first issue
    | UnknownArgType(argType: string)     // thrown

  /** What one declared argument does by itself. */
  datatype Effect = Skips | Pushes(value: Value) | Fails(outcome: Handled)

  function TypeAt(argTypes: seq<ParamType>, k: nat): ParamType {
    if k < |argTypes| then argTypes[k] else NoSchema
  }

  function ParamValue(req: Request, key: string): Value {
    if key in req.params then req.params[key] else Undefined
  }

  function EffectOf(arg: Option<Arg>, t: ParamType, req: Request, parse: Parser): Effect {
    match arg
    case None => Skips
    case Some(Param(key)) => Pushes(ParamValue(req, key))
    case Some(Other(argType)) => Fails(UnknownArgType(argType))
    case Some(source) =>
      if t.NoSchema? then Skips else
        match parse(t.id, if source.Body? then req.body else req.query)
        case Parsed(data) => Pushes(data)
        case Invalid(issue) => Fails(BadRequest(issue))
  }

  /** The declared arguments of a route, for one request. */
  datatype Declaration = Declaration(args: seq<Option<Arg>>, types: seq<ParamType>, req: Request, parse: Parser) {
    function At(k: nat): Effect
      requires k < |args|
    {
      EffectOf(args[k], TypeAt(types, k), req, parse)
    }

    /** How many of the first `k` arguments push a value. */
    function PushesBefore(k: nat): nat
      requires k <= |args|
    {
      if k == 0 then 0 else PushesBefore(k - 1) + if At(k - 1).Pushes? then 1 else 0
    }

    /** How many of the first `k` arguments push nothing. */
    function SkipsBefore(k: nat): nat
      requires k <= |args|
    {
      if k == 0 then 0 else SkipsBefore(k - 1) + if At(k - 1).Pushes? then 0 else 1
    }

    /** Where the value of argument `k` ends up. */
    function Position(k: nat): nat
      requires k <= |args|
    {
      2 + PushesBefore(k)
    }

    ghost predicate NoneFailsBefore(k: nat)
      requires k <= |args|
    {
      forall j :: 0 <= j < k ==> !At(j).Fails?
    }

    /** The arguments pushed by the first `k` declarations are exactly these, each in its place. */
    ghost predicate Places(k: nat, values: seq<Value>)
      requires k <= |args|
    {
      && |values| == Position(k)
      && values[0] == RequestObject && values[1] == ResponseObject
      && forall j :: 0 <= j < k && At(j).Pushes? ==> Position(j) < |values| && values[Position(j)] == At(j).value
    }

    ghost predicate PushesNothing(k: nat)
      requires k < |args|
    {
      Position(k + 1) == Position(k)
    }

    ghost predicate PushesOne(k: nat, values: seq<Value>, value: Value)
      requires k < |args|
    {
      Position(k + 1) == Position(k) + 1 <= |values| && values[Position(k)] == value
    }

    /** The part of the request that belongs to argument `k` was parsed, and the parsed value pushed. */
    ghost predicate PushesParsed(k: nat, values: seq<Value>, part: Value)
      requires k < |args|
    {
      if k < |types| && types[k].Schema?
      then Position(k) < |values| && PushesOne(k, values, values[Position(k)])
           && parse(types[k].id, part) == Parsed(values[Position(k)])
      else PushesNothing(k)
    }

    /** Argument `k` got what its decorator asks for: a path parameter, the parsed body or query, or nothing. */
    ghost predicate IsBound(k: nat, values: seq<Value>)
      requires k < |args|
    {
      match args[k]
      case None => PushesNothing(k)
      case Some(Param(key)) => PushesOne(k, values, if key in req.params then req.params[key] else Undefined)
      case Some(Body) => PushesParsed(k, values, req.body)
      case Some(Query) => PushesParsed(k, values, req.query)
      case Some(Other(_)) => false
    }

    /** Argument `k` has a type nobody knows, or the schema finds an issue with its part of the request. */
    ghost predicate IsRefused(k: nat, r: Handled)
      requires k < |args|
    {
      match args[k]
      case None => false
      case Some(Param(_)) => false
      case Some(Body) => RefusesPart(k, r, req.body)
      case Some(Query) => RefusesPart(k, r, req.query)
      case Some(Other(argType)) => r == UnknownArgType(argType)
    }

    ghost predicate RefusesPart(k: nat, r: Handled, part: Value)
      requires k < |args|
    {
      k < |types| && types[k].Schema? && r.BadRequest? && parse(types[k].id, part) == Invalid(r.issue)
    }

    /** A list with every value in its place has what each decorator asks for, up to the first that fails. */
    lemma PlacesAreBound(k: nat, values: seq<Value>)
      requires k <= |args| && NoneFailsBefore(k) && Places(k, values)
      ensures forall j :: 0 <= j < k ==> IsBound(j, values)
    {
      forall j | 0 <= j < k ensures IsBound(j, values) {
        assert !At(j).Fails?;
        PushesGrow(this, j + 1, k);
      }
    }
  }

  /**
   The handler: the controller method is called exactly if no argument fails, and then every value is in its place;
   otherwise the failing argument with the lowest index alone decides what happens.
   */
  method Handle(d: Declaration) returns (r: Handled)
    ensures r.Invoked? <==> d.NoneFailsBefore(|d.args|)
    ensures r.Invoked? ==> d.Places(|d.args|, r.args)
    ensures r.Invoked? ==> forall k :: 0 <= k < |d.args| ==> d.IsBound(k, r.args)
    ensures !r.Invoked? ==>
              exists k :: 0 <= k < |d.args| && d.NoneFailsBefore(k) && d.At(k) == Fails(r) && d.IsRefused(k, r)
  {
    var args := [RequestObject, ResponseObject];
    for index := 0 to |d.args|
      invariant d.NoneFailsBefore(index) && d.Places(index, args)
    {
      var arg := d.args[index];
      ghost var effect := d.At(index);
      if arg.None? {
        continue;
      }
      match arg.value {
        case Param(key) =>
          args := args + [ParamValue(d.req, key)];
        case Other(argType) =>
          return UnknownArgType(argType);
        case source =>
          var paramType := TypeAt(d.types, index);
          if paramType.Schema? {
            var output := d.parse(paramType.id, if source.Body? then d.req.body else d.req.query);
            match output {
              case Parsed(data) =>
                args := args + [data];
              case Invalid(issue) =>
                assert effect == Fails(BadRequest(issue));
                return BadRequest(issue);
            }
          }
      }
    }
    d.PlacesAreBound(|d.args|, args);
    r := Invoked(args);
  }

  lemma {:induction false} CountsAddUp(d: Declaration, k: nat)
    requires k <= |d.args|
    ensures d.PushesBefore(k) + d.SkipsBefore(k) == k
  {
    if k > 0 {
      CountsAddUp(d, k - 1);
    }
  }

  /**
   The value for parameter `k` is passed as argument `k` exactly if two earlier parameters push nothing, as the
   undecorated request and response do when they come first.
   */
  lemma AlignedExactlyAfterTwoSkips(d: Declaration, k: nat)
    requires k <= |d.args|
    ensures d.Position(k) == k <==> d.SkipsBefore(k) == 2
  {
    CountsAddUp(d, k);
  }

  lemma {:induction false} PushesGrow(d: Declaration, j: nat, k: nat)
    requires j <= k <= |d.args|
    ensures d.PushesBefore(j) <= d.PushesBefore(k)
    ensures j < k && d.At(j).Pushes? ==> d.PushesBefore(j) < d.PushesBefore(k)
    decreases k
  {
    if j < k {
      PushesGrow(d, j, k - 1);
    }
  }

  /** No two values are placed on top of each other, and the declared order is kept. */
  lemma PlacesAreDistinct(d: Declaration, j: nat, k: nat)
    requires j < k < |d.args| && d.At(j).Pushes? && d.At(k).Pushes?
    ensures d.Position(j) < d.Position(k)
  {
    PushesGrow(d, j, k);
  }

  /** In a method that starts with the two undecorated parameters, each further one that all push is aligned. */
  lemma {:induction false} ConventionalMethodIsAligned(d: Declaration, k: nat)
    requires 2 <= k <= |d.args| && d.args[0].None? && d.args[1].None?
    requires forall j :: 2 <= j < k ==> d.At(j).Pushes?
    ensures d.Position(k) == k
  {
    if k == 2 {
      assert d.PushesBefore(1) == 0;
    } else {
      ConventionalMethodIsAligned(d, k - 1);
    }
  }
}
