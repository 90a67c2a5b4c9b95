/**
 * Routing: a route normalises its path and matches on (path, method); the router
 * searches its routes in registration order; the router middleware writes the
 * matched handler into the request's attribute bag or answers 404.
 */
module Routing {
  import opened Wrappers
  import opened PhpArrays
  import opened Strings
  import opened Values
  import opened HttpResponse
  import opened HttpRequest

  // ---------------------------------------------------------------- paths

  /** The shape of every stored route path. */
  predicate NormalisedPath(q: string)
  {
    |q| >= 1 && q[0] == '/' && (|q| > 1 ==> q[1] != '/' && q[|q| - 1] != '/')
  }

  predicate NoWhitespace(s: string)
  {
    forall i :: 0 <= i < |s| ==> s[i] !in WHITESPACE
  }

  /** trimPath: '/' . rtrim(ltrim(trim(p), '/'), '/') */
  function TrimPath(p: string): (r: string)
    ensures NormalisedPath(r)
  {
    var l := TrimLeft(Trim(p), {'/'});
    TrimLeftShape(Trim(p), {'/'});
    var c := TrimRight(l, {'/'});
    TrimRightShape(l, {'/'});
    assert c != [] ==> c[0] == l[0];
    "/" + c
  }

  /** Every character of a trimmed string is a character of the original. */
  lemma TrimKeepsNoWhitespace(s: string, cs: set<char>)
    requires NoWhitespace(s)
    ensures NoWhitespace(TrimLeft(s, cs)) && NoWhitespace(TrimRight(s, cs))
  {
    var l := TrimLeft(s, cs);
    TrimLeftShape(s, cs);
    TrimRightShape(s, cs);
    forall i | 0 <= i < |l| ensures l[i] !in WHITESPACE {
      assert l[i] == s[|s| - |l| + i];
    }
    var r := TrimRight(s, cs);
    forall i | 0 <= i < |r| ensures r[i] !in WHITESPACE {
      assert r[i] == s[i];
    }
  }

  lemma TrimNoWhitespace(p: string)
    requires NoWhitespace(p)
    ensures Trim(p) == p
  {
    TrimLeftNoop(p, WHITESPACE);
    TrimRightNoop(p, WHITESPACE);
  }

  lemma SlashNoWhitespace(c: string)
    requires NoWhitespace(c)
    ensures NoWhitespace("/" + c)
  {
    forall i | 0 <= i < |"/" + c| ensures ("/" + c)[i] !in WHITESPACE {
      if i > 0 {
        assert ("/" + c)[i] == c[i - 1];
      }
    }
  }

  /** A whitespace-free path normalises to a whitespace-free path. */
  lemma TrimPathNoWhitespace(p: string)
    requires NoWhitespace(p)
    ensures NoWhitespace(TrimPath(p))
  {
    TrimNoWhitespace(p);
    var l := TrimLeft(Trim(p), {'/'});
    TrimKeepsNoWhitespace(Trim(p), {'/'});
    TrimKeepsNoWhitespace(l, {'/'});
    SlashNoWhitespace(TrimRight(l, {'/'}));
  }

  /** A normalised path is its own normal form exactly when it does not end in whitespace. */
  lemma TrimPathFixpoint(q: string)
    requires NormalisedPath(q)
    ensures TrimPath(q) == q <==> q[|q| - 1] !in WHITESPACE
  {
    TrimLeftNoop(q, WHITESPACE);
    var t := TrimRight(q, WHITESPACE);
    TrimRightShape(q, WHITESPACE);
    assert Trim(q) == t;
    if q[|q| - 1] !in WHITESPACE {
      TrimRightNoop(q, WHITESPACE);
      if |q| == 1 {
        assert TrimLeft(q, {'/'}) == [];
      } else {
        TrimLeftUnique(q, {'/'}, q[1..]);
        TrimRightNoop(q[1..], {'/'});
        assert "/" + q[1..] == q;
      }
    } else {
      assert t != [] && t[0] == '/';
      assert |t| < |q|;
      var l := TrimLeft(t, {'/'});
      TrimLeftShape(t, {'/'});
      TrimRightShape(l, {'/'});
      assert |l| < |t|;
      assert |TrimPath(q)| <= |l| + 1;
    }
  }

  /** For whitespace-free input, normalising twice is normalising once. */
  lemma TrimPathIdempotent(p: string)
    requires NoWhitespace(p)
    ensures TrimPath(TrimPath(p)) == TrimPath(p)
  {
    TrimPathNoWhitespace(p);
    TrimPathFixpoint(TrimPath(p));
  }

  /** With whitespace next to a slash normalisation is not idempotent: "/a /" becomes "/a ", which becomes "/a". */
  lemma TrimPathNotIdempotent()
    ensures TrimPath("/a /") == "/a "
    ensures TrimPath("/a ") == "/a"
  {
    TrimLeftNoop("/a /", WHITESPACE);
    TrimRightNoop("/a /", WHITESPACE);
    TrimLeftUnique("/a /", {'/'}, "a /");
    TrimRightUnique("a /", {'/'}, "a ");
    TrimLeftNoop("/a ", WHITESPACE);
    TrimRightUnique("/a ", WHITESPACE, "/a");
    TrimLeftUnique("/a", {'/'}, "a");
    TrimRightNoop("a", {'/'});
  }

  // ---------------------------------------------------------------- Route

  const DEFAULT_METHODS: seq<string> := ["GET"]
  const EMPTY_METHODS_MESSAGE := "HTTP methods argument was empty; must contain at least one method"

  datatype Route = Route(name: string, path: string, handler: Value, methods: seq<string>)
  {
    function GetName(): string { name }
    function GetPath(): string { path }
    function GetHandler(): Value { handler }
    function GetMethods(): seq<string> { methods }

    /** The method must be allowed, and the normalised path must equal the stored one. */
    predicate Match(p: string, verb: string): (r: bool)
      ensures r ==> verb in methods
      ensures r ==> NormalisedPath(path)
    {
      verb in methods && TrimPath(p) == path
    }
  }

  /** A route as its constructor leaves it. */
  predicate ValidRoute(r: Route)
  {
    NormalisedPath(r.path) && r.methods != []
  }

  /** `new Route(name, path, handler, methods)`. */
  function NewRoute(name: string, path: string, handler: Value, methods: seq<string> := DEFAULT_METHODS): (r: Result<Route>)
    ensures r.Err? <==> methods == []
    ensures r.Err? ==> r.error == InvalidArgumentException(EMPTY_METHODS_MESSAGE)
    ensures r.Ok? ==> ValidRoute(r.value)
    ensures r.Ok? ==> r.value.GetName() == name && r.value.GetHandler() == handler && r.value.GetMethods() == methods
    ensures r.Ok? ==> r.value.GetPath() == TrimPath(path)
  {
    if methods == [] then Err(InvalidArgumentException(EMPTY_METHODS_MESSAGE))
    else Ok(Route(name, TrimPath(path), handler, methods))
  }

  /** A route built from a whitespace-free path matches its own stored path for each of its methods. */
  lemma MatchOwnPath(name: string, p: string, handler: Value, methods: seq<string>, m: string)
    requires NoWhitespace(p) && m in methods
    ensures NewRoute(name, p, handler, methods).Ok?
    ensures NewRoute(name, p, handler, methods).value.Match(TrimPath(p), m)
  {
    TrimPathIdempotent(p);
  }

  /** Without the method nothing matches; with it, the match is exactly equality of normalised paths. */
  lemma MatchIff(r: Route, p: string, m: string)
    ensures m !in r.methods ==> !r.Match(p, m)
    ensures m in r.methods ==> (r.Match(p, m) <==> TrimPath(p) == r.path)
  {
  }

  lemma TrimPathFoo()
    ensures TrimPath("/foo") == "/foo"
  {
    TrimLeftNoop("/foo", WHITESPACE);
    TrimRightNoop("/foo", WHITESPACE);
    TrimLeftUnique("/foo", {'/'}, "foo");
    TrimRightNoop("foo", {'/'});
  }

  lemma TrimPathFooSlash()
    ensures TrimPath("/foo/") == "/foo"
  {
    TrimLeftNoop("/foo/", WHITESPACE);
    TrimRightNoop("/foo/", WHITESPACE);
    TrimLeftUnique("/foo/", {'/'}, "foo/");
    TrimRightUnique("foo/", {'/'}, "foo");
  }

  lemma TrimPathBareFoo()
    ensures TrimPath("foo") == "/foo"
  {
    TrimLeftNoop("foo", WHITESPACE);
    TrimRightNoop("foo", WHITESPACE);
    TrimLeftNoop("foo", {'/'});
    TrimRightNoop("foo", {'/'});
  }

  /** Trailing slashes and a missing leading slash do not matter: "/foo/" and "foo" reach "/foo". */
  lemma MatchExamples()
    ensures Route("foo", "/foo", Null, DEFAULT_METHODS).Match("/foo/", "GET")
    ensures Route("foo", "/foo", Null, DEFAULT_METHODS).Match("foo", "GET")
    ensures !Route("foo", "/foo", Null, DEFAULT_METHODS).Match("/foo", "POST")
  {
    TrimPathFooSlash();
    TrimPathBareFoo();
  }

  /** The route those examples use is the one `new Route('foo', '/foo', null)` builds. */
  lemma FooRoute()
    ensures NewRoute("foo", "/foo", Null) == Ok(Route("foo", "/foo", Null, DEFAULT_METHODS))
  {
    TrimPathFoo();
  }

  // ---------------------------------------------------------------- Router

  const NO_ROUTE_PREFIX := "No route found for "

  /** The lowest index whose route matches, if any. */
  function FirstMatch(routes: seq<Route>, p: string, m: string): (r: Option<nat>)
    ensures r.Some? ==> r.value < |routes| && routes[r.value].Match(p, m)
    ensures r.Some? ==> forall j :: 0 <= j < r.value ==> !routes[j].Match(p, m)
    ensures r.None? <==> forall j :: 0 <= j < |routes| ==> !routes[j].Match(p, m)
  {
    if routes == [] then None
    else if routes[0].Match(p, m) then Some(0)
    else
      match FirstMatch(routes[1..], p, m)
      case Some(i) => assert routes[i + 1] == routes[1..][i]; Some(i + 1)
      case None => assert forall j :: 1 <= j < |routes| ==> routes[j] == routes[1..][j - 1]; None
  }

  /**
   * Router::match on a request whose URI and method read as given. The method is read
   * inside the loop, so with no routes at all it is never read.
   */
  function MatchRequest(routes: seq<Route>, uri: Result<string>, verb: Result<string>): (r: Result<Route>)
    ensures uri.Err? ==> r == Err(uri.error)
    ensures r.Ok? ==> uri.Ok? && verb.Ok? && r.value in routes && r.value.Match(uri.value, verb.value)
    ensures uri.Ok? && (routes == [] || verb.Ok?) ==>
      (r.Err? <==> (forall j :: 0 <= j < |routes| ==> !routes[j].Match(uri.value, verb.value)))
    ensures uri.Ok? && r.Err? && (routes == [] || verb.Ok?) ==> r.error == RouteNotFound(NO_ROUTE_PREFIX + uri.value)
  {
    match uri
    case Err(e) => Err(e)
    case Ok(p) =>
      if routes == [] then Err(RouteNotFound(NO_ROUTE_PREFIX + p))
      else
        match verb
        case Err(e) => Err(e)
        case Ok(m) =>
          match FirstMatch(routes, p, m)
          case Some(i) => Ok(routes[i])
          case None => Err(RouteNotFound(NO_ROUTE_PREFIX + p))
  }

  class Router {
    var routes: seq<Route>

    constructor(routes: seq<Route>)
      ensures this.routes == routes
    {
      this.routes := [];
      new;
      var i := 0;
      while i < |routes|
        invariant 0 <= i <= |routes|
        invariant this.routes == routes[..i]
      {
        var _ := Add(routes[i]);
        assert routes[..i + 1] == routes[..i] + [routes[i]];
        i := i + 1;
      }
    }

    /** Appends one route and returns this same router. */
    method Add(route: Route) returns (self: Router)
      modifies this
      ensures self == this
      ensures routes == old(routes) + [route]
    {
      routes := routes + [route];
      self := this;
    }

    /** The first route, in registration order, matching the request's URI and method. */
    method Match(request: Request) returns (r: Result<Route>)
      ensures r == MatchRequest(routes, request.GetUri(), request.GetMethod())
    {
      var p :- request.GetUri();
      var i := 0;
      while i < |routes|
        invariant 0 <= i <= |routes|
        invariant i > 0 ==> request.GetMethod().Ok?
        invariant i > 0 ==> forall j :: 0 <= j < i ==> !routes[j].Match(p, request.GetMethod().value)
      {
        var m :- request.GetMethod();
        if routes[i].Match(p, m) {
          return Ok(routes[i]);
        }
        i := i + 1;
      }
      return Err(RouteNotFound(NO_ROUTE_PREFIX + p));
    }
  }

  /** Of two routes with the same path and method, the earlier-registered one wins. */
  lemma EarlierRouteWins(routes: seq<Route>, i: nat, j: nat, p: string, m: string)
    requires i < j < |routes|
    requires routes[i].path == routes[j].path && m in routes[i].methods
    ensures FirstMatch(routes, p, m) != Some(j)
  {
    if FirstMatch(routes, p, m) == Some(j) {
      assert routes[i].Match(p, m);
    }
  }

  /** Adding a route never changes the answer for a request that already matched. */
  lemma {:induction false} FirstMatchAppend(routes: seq<Route>, route: Route, p: string, m: string)
    ensures FirstMatch(routes + [route], p, m) ==
      if FirstMatch(routes, p, m).Some? then FirstMatch(routes, p, m)
      else if route.Match(p, m) then Some(|routes|)
      else None
  {
    if routes != [] {
      assert (routes + [route])[1..] == routes[1..] + [route];
      FirstMatchAppend(routes[1..], route, p, m);
    }
  }

  // ---------------------------------------------------------------- RouterMiddleware

  /**
   * `$handler[i]` inside `??`: a string gives its i-th character, an array its entry i,
   * other scalars null; indexing an object that is not ArrayAccess is an Error.
   */
  function OffsetOrNull(h: Value, i: nat): (r: Result<Value>)
    ensures r.Err? <==> IsObject(h)
  {
    match h
    case Str(s) => Ok(if i < |s| then Str([s[i]]) else Null)
    case Arr(e) =>
      (match Get(e, IntKey(i))
       case Some(v) => Ok(v)
       case None => Ok(Null))
    case Null => Ok(Null)
    case Bool(_) => Ok(Null)
    case Int(_) => Ok(Null)
    case _ => Err(CannotUseObjectAsArray(ClassName(h)))
  }

  /** The three attributes written for a matched route, in their order. */
  function HandlerAttributes(route: Route): (r: Result<Entries>)
    ensures r.Err? <==> IsObject(route.handler)
    ensures r.Ok? ==> |r.value| == 3 && Keys(r.value) == [CONTROLLER_ATTRIBUTE, ACTION_ATTRIBUTE, NAME_ATTRIBUTE]
    ensures r.Ok? ==> r.value[2].1 == Str(route.name)
  {
    var h := route.handler;
    if IsObject(h) then Err(CannotUseObjectAsArray(ClassName(h)))
    else
      var c := OffsetOrNull(h, 0).value;
      Ok([(CONTROLLER_ATTRIBUTE, if c == Null then h else c), (ACTION_ATTRIBUTE, OffsetOrNull(h, 1).value), (NAME_ATTRIBUTE, Str(route.name))])
  }

  /** withAttribute for each entry, in order. */
  function PutAll(bag: Bag, e: Entries): Bag
  {
    if e == [] then bag else PutAttribute(PutAll(bag, e[..|e| - 1]), e[|e| - 1].0, e[|e| - 1].1)
  }

  /** `new Response(null, 404)` as written: null reaches the `string $content` parameter. */
  function NotFoundAsWritten(): Result<Response>
  {
    match CoerceToString(Null, false)
    case Ok(content) => Ok(Response(content, 404))
    case Err(e) => Err(e)
  }

  lemma NotFoundAsWrittenFails()
    ensures NotFoundAsWritten() == Err(TypeError)
  {
  }

  /** The evidently intended 404 answer: empty content. */
  function NotFound(): (r: Response)
    ensures r.GetStatusCode() == 404 && r.GetStatusText() == "Not Found"
    ensures r.GetContent() == "" && r.GetHeaders() == []
  {
    Response("", 404)
  }

  /**
   * RouterMiddleware::process on a request, as (returned value, new attribute bag).
   * Only RouteNotFound is caught; every other failure propagates.
   */
  function RouterProcess(routes: seq<Route>, uri: Result<string>, verb: Result<string>, bag: Bag): (r: (Result<Option<Response>>, Bag))
    ensures r.0 == Ok(Some(NotFound())) <==> MatchRequest(routes, uri, verb).Err? && MatchRequest(routes, uri, verb).error.RouteNotFound?
    ensures r.0 == Ok(None) <==> MatchRequest(routes, uri, verb).Ok? && HandlerAttributes(MatchRequest(routes, uri, verb).value).Ok?
    ensures r.0 == Ok(None) ==> r.1 == PutAll(bag, HandlerAttributes(MatchRequest(routes, uri, verb).value).value)
    ensures r.0 != Ok(None) ==> r.1 == bag
    ensures r.0.Ok? ==> r.0.value.None? || r.0.value.value == NotFound()
  {
    match MatchRequest(routes, uri, verb)
    case Err(e) => if e.RouteNotFound? then (Ok(Some(NotFound())), bag) else (Err(e), bag)
    case Ok(route) =>
      match HandlerAttributes(route)
      case Err(e) => (Err(e), bag)
      case Ok(attrs) => (Ok(None), PutAll(bag, attrs))
  }

  class RouterMiddleware {
    const router: Router

    constructor(router: Router)
      ensures this.router == router
    {
      this.router := router;
    }

    /** Writes the matched route into the request's own attribute bag, or answers 404. */
    method Process(request: Request) returns (r: Result<Option<Response>>)
      requires request.Valid()
      modifies request
      ensures request.Valid()
      ensures (r, request.attributes) == RouterProcess(router.routes, request.GetUri(), request.GetMethod(), old(request.attributes))
    {
      var m := router.Match(request);
      match m
      case Err(e) =>
        r := if e.RouteNotFound? then Ok(Some(NotFound())) else Err(e);
      case Ok(route) =>
        var attrs := HandlerAttributes(route);
        if attrs.Err? {
          return Err(attrs.error);
        }
        WithAttributes(request, attrs.value);
        r := Ok(None);
    }
  }

  /** The foreach over the handler's attributes: each one written in turn with withAttribute. */
  method WithAttributes(request: Request, e: Entries)
    requires request.Valid()
    modifies request
    ensures request.Valid()
    ensures request.attributes == PutAll(old(request.attributes), e)
  {
    var i := 0;
    var req := request;
    while i < |e|
      invariant 0 <= i <= |e|
      invariant req == request && request.Valid()
      invariant request.attributes == PutAll(old(request.attributes), e[..i])
    {
      assert e[..i + 1][..i] == e[..i];
      req := req.WithAttribute(e[i].0, e[i].1);
      i := i + 1;
    }
    assert e[..|e|] == e;
  }

  /** The controller a handler designates: its element 0 when present and not null, else itself. */
  function ControllerOf(h: Value): Value
    requires !IsObject(h)
  {
    var c := OffsetOrNull(h, 0).value;
    if c == Null then h else c
  }

  /** Writing the three reserved attributes: each reads back its own value, every other key its old one. */
  lemma PutReserved(bag: Bag, attrs: Entries, k: string)
    requires |attrs| == 3 && Keys(attrs) == [CONTROLLER_ATTRIBUTE, ACTION_ATTRIBUTE, NAME_ATTRIBUTE]
    ensures AttributeIn(PutAll(bag, attrs), k) ==
      if k == NAME_ATTRIBUTE then attrs[2].1
      else if k == ACTION_ATTRIBUTE then attrs[1].1
      else if k == CONTROLLER_ATTRIBUTE then attrs[0].1
      else AttributeIn(bag, k)
  {
    assert attrs[0].0 == CONTROLLER_ATTRIBUTE && attrs[1].0 == ACTION_ATTRIBUTE && attrs[2].0 == NAME_ATTRIBUTE;
    var b1 := PutAttribute(bag, attrs[0].0, attrs[0].1);
    var b2 := PutAttribute(b1, attrs[1].0, attrs[1].1);
    assert attrs[..2][..1] == attrs[..1] && attrs[..1][..0] == [];
    assert PutAll(bag, attrs[..1]) == b1;
    assert PutAll(bag, attrs[..2]) == b2;
    assert PutAll(bag, attrs) == PutAttribute(b2, attrs[2].0, attrs[2].1);
    AttributeAfterPut(bag, attrs[0].0, attrs[0].1, k);
    AttributeAfterPut(b1, attrs[1].0, attrs[1].1, k);
    AttributeAfterPut(b2, attrs[2].0, attrs[2].1, k);
  }

  /**
   * On a match: nothing is returned, the three reserved attributes hold the handler's
   * controller, its action and the route name, and every other attribute is unchanged.
   */
  lemma ProcessOnMatch(routes: seq<Route>, uri: string, verb: string, bag: Bag, k: string)
    requires MatchRequest(routes, Ok(uri), Ok(verb)).Ok?
    requires !IsObject(MatchRequest(routes, Ok(uri), Ok(verb)).value.handler)
    ensures var route := MatchRequest(routes, Ok(uri), Ok(verb)).value;
      var bag' := RouterProcess(routes, Ok(uri), Ok(verb), bag).1;
      && RouterProcess(routes, Ok(uri), Ok(verb), bag).0 == Ok(None)
      && AttributeIn(bag', CONTROLLER_ATTRIBUTE) == ControllerOf(route.handler)
      && AttributeIn(bag', ACTION_ATTRIBUTE) == OffsetOrNull(route.handler, 1).value
      && AttributeIn(bag', NAME_ATTRIBUTE) == Str(route.name)
      && (k !in {CONTROLLER_ATTRIBUTE, ACTION_ATTRIBUTE, NAME_ATTRIBUTE} ==> AttributeIn(bag', k) == AttributeIn(bag, k))
  {
    var route := MatchRequest(routes, Ok(uri), Ok(verb)).value;
    var attrs := HandlerAttributes(route).value;
    var bag' := PutAll(bag, attrs);
    assert RouterProcess(routes, Ok(uri), Ok(verb), bag) == (Ok(None), bag');
    PutReserved(bag, attrs, CONTROLLER_ATTRIBUTE);
    PutReserved(bag, attrs, ACTION_ATTRIBUTE);
    PutReserved(bag, attrs, NAME_ATTRIBUTE);
    PutReserved(bag, attrs, k);
  }

  /** When no route matches, the answer is the 404 response and the bag is untouched. */
  lemma ProcessNotFound(routes: seq<Route>, uri: string, verb: string, bag: Bag)
    requires forall j :: 0 <= j < |routes| ==> !routes[j].Match(uri, verb)
    ensures RouterProcess(routes, Ok(uri), Ok(verb), bag) == (Ok(Some(NotFound())), bag)
  {
  }

  /** A string handler "ab…" designates controller "a" and action "b"; an empty one is the controller itself. */
  lemma StringHandler(s: string)
    ensures |s| >= 2 ==> ControllerOf(Str(s)) == Str([s[0]]) && OffsetOrNull(Str(s), 1) == Ok(Str([s[1]]))
    ensures |s| == 1 ==> ControllerOf(Str(s)) == Str(s) && OffsetOrNull(Str(s), 1) == Ok(Null)
    ensures s == [] ==> ControllerOf(Str(s)) == Str(s) && OffsetOrNull(Str(s), 1) == Ok(Null)
  {
    if |s| == 1 {
      assert [s[0]] == s;
    }
  }

  /** A [service, method] pair designates that service and that method. */
  lemma PairHandler(service: Value, action: Value)
    requires service != Null
    ensures ControllerOf(Arr([(IntKey(0), service), (IntKey(1), action)])) == service
    ensures OffsetOrNull(Arr([(IntKey(0), service), (IntKey(1), action)]), 1) == Ok(action)
  {
    IndexOfAt([(IntKey(0), service), (IntKey(1), action)], IntKey(1), 1);
  }
}
