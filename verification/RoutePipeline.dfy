/** The chain of handlers in front of a controller method (packages/cli/src/controller.registry.ts:79-147). */
module RoutePipeline {
  import opened Wrappers

  type User = nat
  type Feature = string
  type Scope = string

  /** A request as it travels down the chain; authentication sets the user, other middlewares may change the rest. */
  datatype Request = Request(user: Option<User>, rest: nat)

  datatype Response = Response(status: nat, message: string)

  datatype Failure = Unauthenticated | Unexpected(code: nat)

  /** What a middleware does: it calls `next`, ends the request with a response, or throws. */
  datatype Step = Next(req: Request) | Respond(response: Response) | Throw(error: Failure)

  type Middleware = Request -> Step

  datatype RateLimit = Flag(enabled: bool) | Settings(limit: nat, windowMs: nat)

  datatype AccessScope = AccessScope(scope: Scope, globalOnly: bool)

  datatype Verb = Get | Post | Put | Patch | Delete

  datatype Route = Route(
    verb: Verb,
    path: string,
    rateLimit: Option<RateLimit>,
    skipAuth: bool,
    licenseFeature: Option<Feature>,
    accessScope: Option<AccessScope>,
    middlewares: seq<Middleware>,
    usesTemplates: bool)

  datatype ScopeCheck = Granted | Missing | NotFound(message: string) | Failed(error: Failure)

  /** The services that the chain consults, as they answer during one request. */
  datatype Services = Services(
    inProduction: bool,
    limiter: RateLimit -> Middleware,
    authMiddleware: Middleware,
    isLicensed: Feature -> bool,
    checkScopes: (User, Scope, bool, Request) -> ScopeCheck)

  // ----- The middlewares the registry creates -----

  const MISSING_LICENSE := Response(403, "Plan lacks license for this feature")
  const MISSING_SCOPE := Response(403, "User is missing a scope required to perform this action")

  function LicenseGate(sv: Services, feature: Feature): Middleware {
    (req: Request) => if sv.isLicensed(feature) then Next(req) else Respond(MISSING_LICENSE)
  }

  function ScopeGate(sv: Services, access: AccessScope): Middleware {
    (req: Request) =>
      if req.user.None? then Throw(Unauthenticated) else
        match sv.checkScopes(req.user.value, access.scope, access.globalOnly, req)
        case Granted => Next(req)
        case Missing => Respond(MISSING_SCOPE)
        case NotFound(message) => Respond(Response(404, message))
        case Failed(error) => Throw(error)
  }

  // ----- The chain, as it is registered -----

  predicate IsRateLimited(sv: Services, route: Route) {
    sv.inProduction && route.rateLimit.Some? && (route.rateLimit.value.Flag? ==> route.rateLimit.value.enabled)
  }

  function Chain(sv: Services, route: Route, controllerMiddlewares: seq<Middleware>): seq<Middleware> {
    (if IsRateLimited(sv, route) then [sv.limiter(route.rateLimit.value)] else [])
    + (if route.skipAuth then [] else [sv.authMiddleware])
    + (if route.licenseFeature.Some? then [LicenseGate(sv, route.licenseFeature.value)] else [])
    + (if route.accessScope.Some? then [ScopeGate(sv, route.accessScope.value)] else [])
    + controllerMiddlewares
    + route.middlewares
  }

  // ----- Running the chain -----

  /** Each middleware sees the request as the one before it passed it on. */
  function RunAll(chain: seq<Middleware>, req: Request): Step {
    if chain == [] then Next(req) else
      var step := chain[0](req);
      if step.Next? then RunAll(chain[1..], step.req) else step
  }

  /** What a further part of the chain makes of what has happened so far. */
  function Continue(sofar: Step, chain: seq<Middleware>): Step {
    if sofar.Next? then RunAll(chain, sofar.req) else sofar
  }

  datatype HandlerResult = Returned(data: nat) | HandlerThrew(error: Failure)

  /** How a request ends. */
  datatype Ending =
    | Answered(response: Response) // by a middleware
    | Escaped(error: Failure)      // thrown to the framework
    | SentData(data: nat)          // the controller's result
    | SentError(error: Failure)    // the controller's error, turned into an error response
    | LeftToTemplate               // the controller has written the response itself

  /** With templates the result is dropped and errors pass through; otherwise both are sent. */
  function Finally(usesTemplates: bool, result: HandlerResult): Ending {
    match result
    case Returned(data) => if usesTemplates then LeftToTemplate else SentData(data)
    case HandlerThrew(error) => if usesTemplates then Escaped(error) else SentError(error)
  }

  function Serve(sv: Services, route: Route, controllerMiddlewares: seq<Middleware>,
                 handler: Request -> HandlerResult, req: Request): Ending {
    match RunAll(Chain(sv, route, controllerMiddlewares), req)
    case Next(r) => Finally(route.usesTemplates, handler(r))
    case Respond(response) => Answered(response)
    case Throw(error) => Escaped(error)
  }

  // ----- Reference: the gates one after the other -----

  function AfterRateLimit(sv: Services, route: Route, req: Request): Step {
    if IsRateLimited(sv, route) then sv.limiter(route.rateLimit.value)(req) else Next(req)
  }

  function AfterAuthentication(sv: Services, route: Route, sofar: Step): Step {
    if sofar.Next? && !route.skipAuth then sv.authMiddleware(sofar.req) else sofar
  }

  function AfterLicense(sv: Services, route: Route, sofar: Step): Step {
    if sofar.Next? && route.licenseFeature.Some? && !sv.isLicensed(route.licenseFeature.value)
    then Respond(MISSING_LICENSE) else sofar
  }

  function AfterScope(sv: Services, route: Route, sofar: Step): Step {
    if !sofar.Next? || route.accessScope.None? then sofar
    else if sofar.req.user.None? then Throw(Unauthenticated)
    else
      var access := route.accessScope.value;
      match sv.checkScopes(sofar.req.user.value, access.scope, access.globalOnly, sofar.req)
      case Granted => sofar
      case Missing => Respond(MISSING_SCOPE)
      case NotFound(message) => Respond(Response(404, message))
      case Failed(error) => Throw(error)
  }

  /** Rate limit, authentication, license, scope, controller middlewares, route middlewares. */
  function Staged(sv: Services, route: Route, controllerMiddlewares: seq<Middleware>, req: Request): Step {
    var limited := AfterRateLimit(sv, route, req);
    var authenticated := AfterAuthentication(sv, route, limited);
    var licensed := AfterLicense(sv, route, authenticated);
    var permitted := AfterScope(sv, route, licensed);
    Continue(Continue(permitted, controllerMiddlewares), route.middlewares)
  }

  lemma {:induction false} RunAllConcat(a: seq<Middleware>, b: seq<Middleware>, req: Request)
    ensures RunAll(a + b, req) == Continue(RunAll(a, req), b)
  {
    if a == [] {
      assert a + b == b;
    } else {
      assert (a + b)[0] == a[0] && (a + b)[1..] == a[1..] + b;
      if a[0](req).Next? {
        RunAllConcat(a[1..], b, a[0](req).req);
      }
    }
  }

  lemma RunOptional(present: bool, gate: Middleware, sofar: Step)
    ensures Continue(sofar, if present then [gate] else []) == if present && sofar.Next? then gate(sofar.req) else sofar
  {
    if sofar.Next? {
      var step := gate(sofar.req);
      assert [gate][0] == gate && [gate][1..] == [];
      if step.Next? {
        assert RunAll([], step.req) == Next(step.req);
      }
    }
  }

  /** The registered handlers do what the gates do one after the other, for every request and configuration. */
  lemma ChainIsStaged(sv: Services, route: Route, controllerMiddlewares: seq<Middleware>, req: Request)
    ensures RunAll(Chain(sv, route, controllerMiddlewares), req) == Staged(sv, route, controllerMiddlewares, req)
  {
    var rate := if IsRateLimited(sv, route) then [sv.limiter(route.rateLimit.value)] else [];
    var auth := if route.skipAuth then [] else [sv.authMiddleware];
    var license := if route.licenseFeature.Some? then [LicenseGate(sv, route.licenseFeature.value)] else [];
    var scope := if route.accessScope.Some? then [ScopeGate(sv, route.accessScope.value)] else [];
    RunAllConcat(rate + auth + license + scope + controllerMiddlewares, route.middlewares, req);
    RunAllConcat(rate + auth + license + scope, controllerMiddlewares, req);
    RunAllConcat(rate + auth + license, scope, req);
    RunAllConcat(rate + auth, license, req);
    RunAllConcat(rate, auth, req);
    var limited := RunAll(rate, req);
    assert Continue(Next(req), rate) == limited;
    if IsRateLimited(sv, route) {
      RunOptional(true, sv.limiter(route.rateLimit.value), Next(req));
    }
    RunOptional(!route.skipAuth, sv.authMiddleware, limited);
    var authenticated := Continue(limited, auth);
    if route.licenseFeature.Some? {
      RunOptional(true, LicenseGate(sv, route.licenseFeature.value), authenticated);
    }
    var licensed := Continue(authenticated, license);
    if route.accessScope.Some? {
      RunOptional(true, ScopeGate(sv, route.accessScope.value), licensed);
    }
  }

  // ----- Reference: the first gate that does not pass decides -----

  /** The request as the first gates pass it on, one after the other. */
  ghost predicate Passes(chain: seq<Middleware>, reqs: seq<Request>) {
    0 < |reqs| <= |chain| + 1 && forall i :: 0 <= i < |reqs| - 1 ==> chain[i](reqs[i]) == Next(reqs[i + 1])
  }

  lemma PassesOn(chain: seq<Middleware>, req: Request, reqs: seq<Request>)
    requires chain != [] && chain[0](req).Next? && Passes(chain[1..], reqs) && reqs[0] == chain[0](req).req
    ensures Passes(chain, [req] + reqs)
  {
    var all := [req] + reqs;
    forall i | 0 <= i < |all| - 1 ensures chain[i](all[i]) == Next(all[i + 1]) {
      if i > 0 {
        assert chain[i] == chain[1..][i - 1] && all[i] == reqs[i - 1] && all[i + 1] == reqs[i];
      }
    }
  }

  /**
   The outcome is that of the first gate that does not pass the request on, or else the request that all of them
   passed on.
   */
  lemma {:induction false} FirstFailingGateDecides(chain: seq<Middleware>, req: Request) returns (reqs: seq<Request>)
    ensures Passes(chain, reqs) && reqs[0] == req
    ensures var n := |reqs| - 1;
            if n == |chain| then RunAll(chain, req) == Next(reqs[n])
            else RunAll(chain, req) == chain[n](reqs[n]) && !chain[n](reqs[n]).Next?
  {
    if chain == [] || !chain[0](req).Next? {
      reqs := [req];
    } else {
      var rest := FirstFailingGateDecides(chain[1..], chain[0](req).req);
      PassesOn(chain, req, rest);
      reqs := [req] + rest;
    }
  }

  /** The handler is reached exactly if every gate passes the request on; the witness is the requests in between. */
  lemma ReachedExactlyIfAllPass(chain: seq<Middleware>, req: Request)
    ensures RunAll(chain, req).Next? <==> exists reqs :: Passes(chain, reqs) && |reqs| == |chain| + 1 && reqs[0] == req
  {
    var reqs := FirstFailingGateDecides(chain, req);
    if other :| Passes(chain, other) && |other| == |chain| + 1 && other[0] == req {
      PassedAll(chain, req, other);
    }
  }

  lemma {:induction false} PassedAll(chain: seq<Middleware>, req: Request, reqs: seq<Request>)
    requires Passes(chain, reqs) && |reqs| == |chain| + 1 && reqs[0] == req
    ensures RunAll(chain, req) == Next(reqs[|chain|])
  {
    if chain == [] {
    } else {
      assert chain[0](reqs[0]) == Next(reqs[1]);
      PassedAll(chain[1..], reqs[1], reqs[1..]);
    }
  }

  // ----- What it takes to reach the handler -----

  /**
   No request reaches the handler unless the limiter let it through, authentication accepted it, the license is
   there and the user that authentication left in the request has the scope.
   */
  lemma HandlerIsGuarded(sv: Services, route: Route, controllerMiddlewares: seq<Middleware>, req: Request)
    requires RunAll(Chain(sv, route, controllerMiddlewares), req).Next?
    ensures var limited := AfterRateLimit(sv, route, req);
            && limited.Next?
            && (!route.skipAuth ==> sv.authMiddleware(limited.req).Next?)
            && (route.licenseFeature.Some? ==> sv.isLicensed(route.licenseFeature.value))
            && (route.accessScope.Some? ==>
                  var q := if route.skipAuth then limited.req else sv.authMiddleware(limited.req).req;
                  var access := route.accessScope.value;
                  q.user.Some? && sv.checkScopes(q.user.value, access.scope, access.globalOnly, q) == Granted)
  {
    ChainIsStaged(sv, route, controllerMiddlewares, req);
    var authenticated := AfterAuthentication(sv, route, AfterRateLimit(sv, route, req));
    assert AfterScope(sv, route, AfterLicense(sv, route, authenticated)).Next?;
  }

  /** Who answers and with what: the first gate that does not pass, or the handler; only templates let errors escape. */
  lemma EndingIsDecided(sv: Services, route: Route, controllerMiddlewares: seq<Middleware>,
                        handler: Request -> HandlerResult, req: Request)
    ensures var staged := Staged(sv, route, controllerMiddlewares, req);
            var ending := Serve(sv, route, controllerMiddlewares, handler, req);
            && (staged.Respond? ==> ending == Answered(staged.response))
            && (staged.Throw? ==> ending == Escaped(staged.error))
            && (staged.Next? ==>
                  var result := handler(staged.req);
                  && (result.Returned? ==>
                        ending == if route.usesTemplates then LeftToTemplate else SentData(result.data))
                  && (result.HandlerThrew? ==>
                        ending == if route.usesTemplates then Escaped(result.error) else SentError(result.error)))
  {
    ChainIsStaged(sv, route, controllerMiddlewares, req);
  }

  /** A scoped route that skips authentication turns away every request that the limiter leaves anonymous. */
  lemma ScopedRouteNeedsAUser(sv: Services, route: Route, controllerMiddlewares: seq<Middleware>, req: Request)
    requires route.skipAuth && route.accessScope.Some?
    ensures var limited := AfterRateLimit(sv, route, req);
            var licensed := route.licenseFeature.Some? ==> sv.isLicensed(route.licenseFeature.value);
            limited.Next? ==> limited.req.user.None? ==>
              RunAll(Chain(sv, route, controllerMiddlewares), req)
              == if licensed then Throw(Unauthenticated) else Respond(MISSING_LICENSE)
    ensures var limited := AfterRateLimit(sv, route, req);
            !limited.Next? ==> RunAll(Chain(sv, route, controllerMiddlewares), req) == limited
  {
    ChainIsStaged(sv, route, controllerMiddlewares, req);
  }

  // ----- What each gate makes of a request -----

  /** The chain of the same route without what stands before, or behind, some gate. */
  function BehindLimit(route: Route): Route {
    route.(rateLimit := None)
  }

  function UpToAuthentication(route: Route): Route {
    route.(licenseFeature := None, accessScope := None, middlewares := [])
  }

  /** In production a rate limit that is set, and not to `false`, is the first to see a request. */
  lemma RateLimitComesFirst(sv: Services, route: Route, controllerMiddlewares: seq<Middleware>, req: Request)
    requires sv.inProduction && route.rateLimit.Some?
    requires route.rateLimit.value == Flag(true) || route.rateLimit.value.Settings?
    ensures var step := sv.limiter(route.rateLimit.value)(req);
            RunAll(Chain(sv, route, controllerMiddlewares), req)
            == if step.Next? then RunAll(Chain(sv, BehindLimit(route), controllerMiddlewares), step.req) else step
  {
    var step := sv.limiter(route.rateLimit.value)(req);
    ChainIsStaged(sv, route, controllerMiddlewares, req);
    if step.Next? {
      ChainIsStaged(sv, BehindLimit(route), controllerMiddlewares, step.req);
    }
  }

  /** Outside production, and without one, the limiter does not matter: the request is as good as past it. */
  lemma NoRateLimit(sv: Services, route: Route, controllerMiddlewares: seq<Middleware>, req: Request,
                    limiter: RateLimit -> Middleware)
    requires !sv.inProduction || route.rateLimit.None? || route.rateLimit.value == Flag(false)
    ensures RunAll(Chain(sv, route, controllerMiddlewares), req)
            == RunAll(Chain(sv.(limiter := limiter), route, controllerMiddlewares), req)
            == RunAll(Chain(sv, BehindLimit(route), controllerMiddlewares), req)
  {
    ChainIsStaged(sv, route, controllerMiddlewares, req);
    ChainIsStaged(sv.(limiter := limiter), route, controllerMiddlewares, req);
    ChainIsStaged(sv, BehindLimit(route), controllerMiddlewares, req);
  }

  /** Authentication is next, unless the route skips it. */
  lemma AuthenticationComesNext(sv: Services, route: Route, req: Request)
    requires route.rateLimit.None?
    ensures RunAll(Chain(sv, UpToAuthentication(route), []), req)
            == if route.skipAuth then Next(req) else sv.authMiddleware(req)
  {
    ChainIsStaged(sv, UpToAuthentication(route), [], req);
  }

  /** What becomes of a request that limiter and authentication have passed on as `q`. */
  lemma LicenseAndScopeDecide(sv: Services, route: Route, controllerMiddlewares: seq<Middleware>, req: Request,
                              q: Request)
    requires RunAll(Chain(sv, UpToAuthentication(route), []), req) == Next(q)
    ensures var step := RunAll(Chain(sv, route, controllerMiddlewares), req);
            if route.licenseFeature.Some? && !sv.isLicensed(route.licenseFeature.value)
            then step == Respond(Response(403, "Plan lacks license for this feature"))
            else if route.accessScope.None?
            then step == RunAll(controllerMiddlewares + route.middlewares, q)
            else if q.user.None?
            then step == Throw(Unauthenticated)
            else
              var access := route.accessScope.value;
              var check := sv.checkScopes(q.user.value, access.scope, access.globalOnly, q);
              && (check.Granted? ==> step == RunAll(controllerMiddlewares + route.middlewares, q))
              && (check.Missing? ==>
                    step == Respond(Response(403, "User is missing a scope required to perform this action")))
              && (check.NotFound? ==> step == Respond(Response(404, check.message)))
              && (check.Failed? ==> step == Throw(check.error))
  {
    ChainIsStaged(sv, UpToAuthentication(route), [], req);
    ChainIsStaged(sv, route, controllerMiddlewares, req);
    RunAllConcat(controllerMiddlewares, route.middlewares, q);
  }

  // ----- Registration -----

  datatype Registered = Registered(verb: Verb, path: string, chain: seq<Middleware>, usesTemplates: bool)

  /** What is registered for a route runs its gates in order. */
  ghost predicate IsRegistered(r: Registered, sv: Services, route: Route, controllerMiddlewares: seq<Middleware>) {
    && r.verb == route.verb && r.path == route.path && r.usesTemplates == route.usesTemplates
    && forall req :: RunAll(r.chain, req) == Staged(sv, route, controllerMiddlewares, req)
  }

  /** Registers the routes of one controller on its router, in the order of its metadata. */
  method RegisterRoutes(sv: Services, routes: seq<Route>, controllerMiddlewares: seq<Middleware>)
    returns (router: seq<Registered>)
    ensures |router| == |routes|
    ensures forall i :: 0 <= i < |routes| ==> IsRegistered(router[i], sv, routes[i], controllerMiddlewares)
  {
    router := [];
    for n := 0 to |routes|
      invariant |router| == n
      invariant forall i :: 0 <= i < n ==> IsRegistered(router[i], sv, routes[i], controllerMiddlewares)
    {
      var route := routes[n];
      var entry := Registered(route.verb, route.path, Chain(sv, route, controllerMiddlewares), route.usesTemplates);
      forall req ensures RunAll(entry.chain, req) == Staged(sv, route, controllerMiddlewares, req) {
        ChainIsStaged(sv, route, controllerMiddlewares, req);
      }
      router := router + [entry];
    }
  }
}
