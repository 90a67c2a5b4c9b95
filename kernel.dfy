/**
 * The kernel: runs the configured middlewares in order on one request, resolving the
 * ones named by a string through the container when they are reached, and returns
 * the first Response.
 */
module HttpKernel {
  import opened Wrappers
  import opened PhpArrays
  import opened Values
  import opened HttpResponse
  import opened HttpRequest
  import opened Routing
  import opened DependencyInjection
  import opened Controller

  /**
   * What a middleware other than the framework's two does with a request carrying this bag:
   * its answer, and the withAttribute calls it makes on the request, in order.
   */
  type OtherProcess = (string, Bag) -> (Result<Option<Response>>, Entries)

  /** Everything a run depends on that no middleware changes. */
  datatype Context = Context(
    routes: seq<Route>,
    uri: Result<string>,
    verb: Result<string>,
    defs: Entries,
    produce: nat -> Value,
    bi: Builtins,
    call: Invoker,
    other: OtherProcess)

  /** Everything a run changes: the request's attribute bag and the container's memo, factory runs and injections. */
  datatype World = World(bag: Bag, resolved: Entries, invoked: seq<string>, injected: seq<Value>)

  function MiddlewareMessage(v: Value): string
  {
    "The Middleware must be an instance of " + MIDDLEWARE_INTERFACE + ", \"" + Describe(v) + "\" given."
  }

  /** One entry of the collection: resolve it if it is an id, check it, let it process the request. */
  function Step(entry: Value, ctx: Context, w: World): (r: (Result<Option<Response>>, World))
    ensures !entry.Str? && !entry.Middleware? ==> r == (Err(LogicException(MiddlewareMessage(entry))), w)
    ensures w.invoked <= r.1.invoked && w.injected <= r.1.injected
    ensures entry.Middleware? && !entry.kind.ControllerMiddleware? ==>
      r.1.resolved == w.resolved && r.1.invoked == w.invoked && r.1.injected == w.injected
  {
    var (m, w1) :=
      if entry.Str? then
        var g := GetStep(ctx.defs, ctx.produce, w.resolved, entry.s);
        (g.result, w.(resolved := g.resolved, invoked := w.invoked + g.invoked))
      else (Ok(entry), w);
    match m
    case Err(e) => (Err(e), w1)
    case Ok(mw) =>
      if !mw.Middleware? then (Err(LogicException(MiddlewareMessage(mw))), w1)
      else
        match mw.kind
        case RouterMiddleware =>
          var (res, bag') := RouterProcess(ctx.routes, ctx.uri, ctx.verb, w1.bag);
          (res, w1.(bag := bag'))
        case ControllerMiddleware =>
          var d := ControllerProcess(w1.bag, ctx.defs, ctx.produce, w1.resolved, ctx.bi, ctx.call);
          (if d.result.Ok? then Ok(Some(d.result.value)) else Err(d.result.error),
           w1.(resolved := d.resolved, invoked := w1.invoked + d.invoked, injected := w1.injected + d.injected))
        case OtherMiddleware(cls) =>
          var (res, writes) := ctx.other(cls, w1.bag);
          (res, w1.(bag := PutAll(w1.bag, writes)))
  }

  /** The loop of handle: Ok(None) means every middleware passed. */
  function Run(entries: seq<Value>, ctx: Context, w: World): (r: (Result<Option<Response>>, World))
    ensures w.invoked <= r.1.invoked && w.injected <= r.1.injected
    ensures r.0 == Ok(None) ==> forall i :: 0 <= i < |entries| ==> entries[i].Str? || entries[i].Middleware?
    decreases |entries|
  {
    if entries == [] then (Ok(None), w)
    else
      var (res, w1) := Step(entries[0], ctx, w);
      assert forall i :: 1 <= i < |entries| ==> entries[i] == entries[1..][i - 1];
      if res == Ok(None) then Run(entries[1..], ctx, w1) else (res, w1)
  }

  /** `return $response` under a Response return type: null fails. */
  function HandleResult(r: Result<Option<Response>>): (h: Result<Response>)
    ensures r == Ok(None) ==> h == Err(TypeError)
    ensures r.Ok? && r.value.Some? ==> h == Ok(r.value.value)
    ensures r.Err? ==> h == Err(r.error)
  {
    match r
    case Ok(None) => Err(TypeError)
    case Ok(Some(x)) => Ok(x)
    case Err(e) => Err(e)
  }

  const PROJECT_DIR_PARAMETER := "kernel.project_dir"
  const ENVIRONMENT_PARAMETER := "kernel.environment"

  function Parameters(environment: string, projectDir: string): (p: Entries)
    ensures DistinctKeys(p) && Keys(p) == [PROJECT_DIR_PARAMETER, ENVIRONMENT_PARAMETER]
    ensures Get(p, ENVIRONMENT_PARAMETER) == Some(Str(environment))
    ensures Get(p, PROJECT_DIR_PARAMETER) == Some(Str(projectDir))
  {
    var p := [(PROJECT_DIR_PARAMETER, Str(projectDir)), (ENVIRONMENT_PARAMETER, Str(environment))];
    IndexOfAt(p, ENVIRONMENT_PARAMETER, 1);
    p
  }

  class Kernel {
    const environment: string
    /** dirname(__DIR__, 2): where the configuration files live. */
    const projectDir: string
    const container: Container
    const middlewareCollection: seq<Value>
    /** The objects that the framework's two middleware values denote, and the other middlewares' behaviour. */
    const routerMiddleware: RouterMiddleware
    const controllerMiddleware: ControllerMiddleware
    const other: OtherProcess

    ghost predicate Valid()
      reads this, container, controllerMiddleware
    {
      container.Valid() && controllerMiddleware.container == container
    }

    /**
     * `services` and `middlewares` are what config/services.php and config/middlewares.php
     * return; the container gets the parameters, then every service not shadowed by one.
     */
    constructor(environment: string, projectDir: string, services: Entries, middlewares: seq<Value>,
                produce: nat -> Value, routerMiddleware: RouterMiddleware, bi: Builtins, call: Invoker, other: OtherProcess)
      ensures Valid()
      ensures this.environment == environment && this.projectDir == projectDir
      ensures container.definitions == WithSelf(Union(Parameters(environment, projectDir), services))
      ensures container.resolved == [] && container.produce == produce
      ensures middlewareCollection == middlewares
      ensures this.routerMiddleware == routerMiddleware && controllerMiddleware.bi == bi && controllerMiddleware.call == call
      ensures fresh(container) && fresh(controllerMiddleware)
    {
      this.environment := environment;
      this.projectDir := projectDir;
      var c := new Container(Union(Parameters(environment, projectDir), services), produce);
      container := c;
      middlewareCollection := middlewares;
      this.routerMiddleware := routerMiddleware;
      controllerMiddleware := new ControllerMiddleware(c, bi, call);
      this.other := other;
    }

    function GetParameters(): Entries
    {
      Parameters(environment, projectDir)
    }

    function Ctx(request: Request): Context
      reads this, routerMiddleware.router, container, controllerMiddleware
    {
      Context(routerMiddleware.router.routes, request.GetUri(), request.GetMethod(), container.definitions,
              container.produce, controllerMiddleware.bi, controllerMiddleware.call, other)
    }

    ghost function WorldOf(request: Request): World
      reads request, container, controllerMiddleware
    {
      World(request.attributes, container.resolved, container.invoked, controllerMiddleware.injected)
    }

    /** Passes the request through the middlewares until one answers. */
    method Handle(request: Request) returns (r: Result<Response>)
      requires Valid() && request.Valid()
      modifies request, container, controllerMiddleware
      ensures Valid() && request.Valid()
      ensures var (res, w) := Run(middlewareCollection, old(Ctx(request)), old(WorldOf(request)));
        r == HandleResult(res) && WorldOf(request) == w
    {
      ghost var ctx := Ctx(request);
      ghost var w0 := WorldOf(request);
      var i := 0;
      while i < |middlewareCollection|
        invariant 0 <= i <= |middlewareCollection|
        invariant Valid() && request.Valid()
        invariant ctx == Ctx(request)
        invariant Run(middlewareCollection, ctx, w0) == Run(middlewareCollection[i..], ctx, WorldOf(request))
      {
        var entry := middlewareCollection[i];
        assert middlewareCollection[i..][0] == entry && middlewareCollection[i..][1..] == middlewareCollection[i + 1..];
        var res := RunEntry(entry, request);
        if res.Err? {
          return Err(res.error);
        }
        if res.value.Some? {
          return Ok(res.value.value);
        }
        i := i + 1;
      }
      return Err(TypeError);
    }

    /** One turn of the loop: resolve an id through the container, check the middleware, let it process. */
    method RunEntry(entry: Value, request: Request) returns (res: Result<Option<Response>>)
      requires Valid() && request.Valid()
      modifies request, container, controllerMiddleware
      ensures Valid() && request.Valid()
      ensures Ctx(request) == old(Ctx(request))
      ensures (res, WorldOf(request)) == Step(entry, old(Ctx(request)), old(WorldOf(request)))
    {
      var mw := entry;
      if entry.Str? {
        var g := container.Get(entry.s);
        if g.Err? {
          return Err(g.error);
        }
        mw := g.value;
      }
      if !mw.Middleware? {
        return Err(LogicException(MiddlewareMessage(mw)));
      }
      match mw.kind {
        case RouterMiddleware =>
          res := routerMiddleware.Process(request);
        case ControllerMiddleware =>
          res := controllerMiddleware.Process(request);
        case OtherMiddleware(cls) =>
          var (answer, writes) := other(cls, request.attributes);
          WithAttributes(request, writes);
          res := answer;
      }
    }
  }

  // ---------------------------------------------------------------- lemmas

  /** The environment parameter is the constructor's environment string. */
  lemma EnvironmentParameter(environment: string, projectDir: string, services: Entries)
    ensures Get(WithSelf(Union(Parameters(environment, projectDir), services)), ENVIRONMENT_PARAMETER) == Some(Str(environment))
  {
    UnionGet(Parameters(environment, projectDir), services, ENVIRONMENT_PARAMETER);
    SelfRegistration(Union(Parameters(environment, projectDir), services));
  }

  /** Running a collection is running its front, then (only if nobody answered) its back. */
  lemma {:induction false} RunConcat(a: seq<Value>, b: seq<Value>, ctx: Context, w: World)
    ensures Run(a + b, ctx, w) ==
      if Run(a, ctx, w).0 == Ok(None) then Run(b, ctx, Run(a, ctx, w).1) else Run(a, ctx, w)
    decreases |a|
  {
    if a == [] {
      assert a + b == b;
    } else {
      assert (a + b)[0] == a[0] && (a + b)[1..] == a[1..] + b;
      var (res, w1) := Step(a[0], ctx, w);
      if res == Ok(None) {
        RunConcat(a[1..], b, ctx, w1);
      }
    }
  }

  /** Once a middleware answers, no later middleware is resolved or run: the rest of the list is irrelevant. */
  lemma FirstResponseWins(a: seq<Value>, b: seq<Value>, ctx: Context, w: World)
    requires Run(a, ctx, w).0.Ok? && Run(a, ctx, w).0.value.Some?
    ensures Run(a + b, ctx, w) == Run(a, ctx, w)
  {
    RunConcat(a, b, ctx, w);
  }

  /** With no middleware, or none answering, handle fails on its Response return type. */
  lemma NobodyAnswers(entries: seq<Value>, ctx: Context, w: World)
    requires Run(entries, ctx, w).0 == Ok(None)
    ensures HandleResult(Run(entries, ctx, w).0) == Err(TypeError)
    ensures HandleResult(Run([], ctx, w).0) == Err(TypeError)
  {
  }

  /** An entry that is neither an id nor a middleware stops the run before anything is called on it. */
  lemma NonMiddlewareRejected(v: Value, rest: seq<Value>, ctx: Context, w: World)
    requires !v.Str? && !v.Middleware?
    ensures Run([v] + rest, ctx, w) == (Err(LogicException(MiddlewareMessage(v))), w)
  {
    assert ([v] + rest)[0] == v;
  }

  /** The router step on a [service id, method] handler writes the id and the method name. */
  lemma RouterStepOnPair(ctx: Context, w: World, route: Route, svc: string, act: string)
    requires MatchRequest(ctx.routes, ctx.uri, ctx.verb) == Ok(route)
    requires route.handler == Arr([(IntKey(0), Str(svc)), (IntKey(1), Str(act))])
    ensures HandlerAttributes(route).Ok?
    ensures var bag' := PutAll(w.bag, HandlerAttributes(route).value);
      && Step(Middleware(RouterMiddleware), ctx, w) == (Ok(None), w.(bag := bag'))
      && AttributeIn(bag', CONTROLLER_ATTRIBUTE) == Str(svc)
      && AttributeIn(bag', ACTION_ATTRIBUTE) == Str(act)
  {
    PairHandler(Str(svc), Str(act));
    var attrs := HandlerAttributes(route).value;
    PutReserved(w.bag, attrs, CONTROLLER_ATTRIBUTE);
    PutReserved(w.bag, attrs, ACTION_ATTRIBUTE);
  }

  /** The controller step on a service id and a method the service object has: the pair is called. */
  lemma ControllerStepOnPair(ctx: Context, w: World, svc: string, act: string, o: Obj)
    requires AttributeIn(w.bag, CONTROLLER_ATTRIBUTE) == Str(svc) && AttributeIn(w.bag, ACTION_ATTRIBUTE) == Str(act)
    requires !ctx.bi.callableName(svc) && !o.invokable && act in o.methods
    requires GetStep(ctx.defs, ctx.produce, w.resolved, svc).result == Ok(Instance(o))
    ensures var pair := Arr([(IntKey(0), Instance(o)), (IntKey(1), Str(act))]);
      HandleResult(Step(Middleware(ControllerMiddleware), ctx, w).0) == CallController(w.bag, pair, ctx.call)
  {
    var pair := Arr([(IntKey(0), Instance(o)), (IntKey(1), Str(act))]);
    ServicePairResolved(w.bag, ctx.defs, ctx.produce, w.resolved, ctx.bi, svc, act, o);
    var d := ControllerProcess(w.bag, ctx.defs, ctx.produce, w.resolved, ctx.bi, ctx.call);
    assert d.result == CallController(w.bag, pair, ctx.call);
  }

  /**
   * The framework's usual pipeline, router then controller, on a route whose handler is
   * a [service id, method] pair naming a non-callable service object that has the method:
   * the controller middleware reads what the router wrote on the same request, and the
   * answer is that method's Response.
   */
  lemma RouterThenController(ctx: Context, w: World, route: Route, svc: string, act: string, o: Obj)
    requires MatchRequest(ctx.routes, ctx.uri, ctx.verb) == Ok(route)
    requires route.handler == Arr([(IntKey(0), Str(svc)), (IntKey(1), Str(act))])
    requires !ctx.bi.callableName(svc) && !o.invokable && act in o.methods
    requires GetStep(ctx.defs, ctx.produce, w.resolved, svc).result == Ok(Instance(o))
    ensures HandlerAttributes(route).Ok?
    ensures var bag' := PutAll(w.bag, HandlerAttributes(route).value);
      var pair := Arr([(IntKey(0), Instance(o)), (IntKey(1), Str(act))]);
      HandleResult(Run([Middleware(RouterMiddleware), Middleware(ControllerMiddleware)], ctx, w).0) == CallController(bag', pair, ctx.call)
  {
    RouterStepOnPair(ctx, w, route, svc, act);
    var w' := w.(bag := PutAll(w.bag, HandlerAttributes(route).value));
    ControllerStepOnPair(ctx, w', svc, act, o);
    var entries := [Middleware(RouterMiddleware), Middleware(ControllerMiddleware)];
    RunPassOn(entries, ctx, w);
    assert entries[1..] == [Middleware(ControllerMiddleware)];
    RunLast(Middleware(ControllerMiddleware), ctx, w');
  }

  /** A middleware that passes on hands the next one the world it leaves. */
  lemma RunPassOn(entries: seq<Value>, ctx: Context, w: World)
    requires entries != [] && Step(entries[0], ctx, w).0 == Ok(None)
    ensures Run(entries, ctx, w) == Run(entries[1..], ctx, Step(entries[0], ctx, w).1)
  {
  }

  /** The last middleware's answer is the run's answer. */
  lemma RunLast(entry: Value, ctx: Context, w: World)
    ensures Run([entry], ctx, w) == Step(entry, ctx, w)
  {
    assert [entry][1..] == [];
  }

  /**
   * A middleware of the application that writes attributes and passes on hands the next
   * middleware the same request, carrying what it wrote.
   */
  lemma OtherWritesSeen(cls: string, rest: seq<Value>, ctx: Context, w: World)
    requires ctx.other(cls, w.bag).0 == Ok(None)
    ensures var bag' := PutAll(w.bag, ctx.other(cls, w.bag).1);
      Run([Middleware(OtherMiddleware(cls))] + rest, ctx, w) == Run(rest, ctx, w.(bag := bag'))
  {
    var entries := [Middleware(OtherMiddleware(cls))] + rest;
    assert entries[0] == Middleware(OtherMiddleware(cls)) && entries[1..] == rest;
    RunPassOn(entries, ctx, w);
  }
}
