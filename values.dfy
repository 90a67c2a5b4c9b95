/**
 * PHP's dynamic values, as far as the framework inspects them. Reflection
 * (is_callable, method_exists, instanceof, get_class) becomes functions over this
 * closed datatype; PHP builtins whose behaviour is not modelled are parameters.
 */
module Values {
  import opened Wrappers
  import opened PhpArrays
  import opened Strings
  import opened HttpResponse

  /** An array key: PHP keys are integers or strings. */
  datatype Key = IntKey(i: int) | StrKey(s: string)

  const PHP_INT_MIN := -0x8000_0000_0000_0000
  const PHP_INT_MAX := 0x7FFF_FFFF_FFFF_FFFF

  /** `$a[$s]`: a string in canonical decimal form within the integer range becomes an integer key. */
  function KeyOf(s: string): (k: Key)
    ensures k.StrKey? ==> k.s == s
    ensures k.IntKey? ==> IntToString(k.i) == s
  {
    match ParseInt(s)
    case Some(i) => if IntToString(i) == s && PHP_INT_MIN <= i <= PHP_INT_MAX then IntKey(i) else StrKey(s)
    case None => StrKey(s)
  }

  /** Different strings are different keys. */
  lemma KeyOfInjective(s: string, t: string)
    requires KeyOf(s) == KeyOf(t)
    ensures s == t
  {
  }

  /** A key as string interpolation or a cast renders it. */
  function KeyString(k: Key): string
  {
    match k
    case IntKey(i) => IntToString(i)
    case StrKey(s) => s
  }

  const RESPONSE_CLASS := "App\\FrameworkPasAPas\\Http\\Response"
  const CONTAINER_CLASS := "App\\FrameworkPasAPas\\DependencyInjection\\Container"
  const ROUTER_MIDDLEWARE_CLASS := "App\\FrameworkPasAPas\\Router\\RouterMiddleware"
  const CONTROLLER_MIDDLEWARE_CLASS := "App\\FrameworkPasAPas\\Controller\\ControllerMiddleware"
  const MIDDLEWARE_INTERFACE := "App\\FrameworkPasAPas\\Http\\MiddlewareInterface"

  /**
   * An application object, described by what the framework asks of it: its class,
   * whether it has __invoke, its methods, whether it extends AbstractController
   * (so it is "container-aware"), and what its __toString returns, if it has one.
   */
  datatype Obj = Obj(className: string, invokable: bool, methods: set<string>, controller: bool, toStr: Option<string>)

  /** The middlewares: the framework's two, or another class implementing MiddlewareInterface. */
  datatype MiddlewareKind = RouterMiddleware | ControllerMiddleware | OtherMiddleware(className: string)

  datatype Value =
    | Null
    | Bool(b: bool)
    | Int(i: int)
    | Str(s: string)
    | Arr(entries: seq<(Key, Value)>)
      /** A \Closure; `id` names its body, whose result is a parameter of the model. */
    | Closure(id: nat)
      /** An instance of Response. */
    | Resp(response: Response)
      /** The dependency container itself. */
    | ContainerRef
    | Middleware(kind: MiddlewareKind)
    | Instance(obj: Obj)

  predicate IsObject(v: Value)
  {
    v.Closure? || v.Resp? || v.ContainerRef? || v.Middleware? || v.Instance?
  }

  predicate IsScalarOrNull(v: Value)
  {
    v.Null? || v.Bool? || v.Int? || v.Str?
  }

  /** get_class */
  function ClassName(v: Value): string
    requires IsObject(v)
  {
    match v
    case Closure(_) => "Closure"
    case Resp(_) => RESPONSE_CLASS
    case ContainerRef => CONTAINER_CLASS
    case Middleware(RouterMiddleware) => ROUTER_MIDDLEWARE_CLASS
    case Middleware(ControllerMiddleware) => CONTROLLER_MIDDLEWARE_CLASS
    case Middleware(OtherMiddleware(c)) => c
    case Instance(o) => o.className
  }

  /** gettype */
  function TypeName(v: Value): string
  {
    match v
    case Null => "NULL"
    case Bool(_) => "boolean"
    case Int(_) => "integer"
    case Str(_) => "string"
    case Arr(_) => "array"
    case _ => "object"
  }

  /** `is_object($v) ? get_class($v) : gettype($v)`, as the framework's error messages print a value. */
  function Describe(v: Value): string
  {
    if IsObject(v) then ClassName(v) else TypeName(v)
  }

  /** The methods method_exists finds on an object. */
  function MethodsOf(v: Value): set<string>
    requires IsObject(v)
  {
    match v
    case Closure(_) => {"__construct", "bind", "bindTo", "call", "fromCallable", "__invoke"}
    case Resp(_) => {"__construct", "getContent", "getStatusCode", "getHeaders", "getProtocolVersion", "getStatusText", "send"}
    case ContainerRef => {"__construct", "get", "has"}
    case Middleware(RouterMiddleware) => {"__construct", "process"}
    case Middleware(ControllerMiddleware) => {"__construct", "process", "resolveController", "callController"}
    case Middleware(OtherMiddleware(_)) => {"process"}
    case Instance(o) => o.methods
  }

  /**
   * PHP builtins whose behaviour depends on the rest of the program or on grammars
   * this model does not describe.
   */
  datatype Builtins = Builtins(
    /** is_callable on a string naming a function, or "Class::method". */
    callableName: string -> bool,
    /** method_exists on a class name. */
    classHasMethod: (string, string) -> bool,
    /** is_numeric on a string. */
    isNumericString: string -> bool,
    /** json_encode of an array. */
    jsonEncode: Value -> string)

  /** is_callable */
  predicate IsCallable(v: Value, bi: Builtins)
  {
    match v
    case Closure(_) => true
    case Instance(o) => o.invokable
    case Str(s) => bi.callableName(s)
    case Arr(e) =>
      |e| == 2 && Get(e, IntKey(0)).Some? && Get(e, IntKey(1)).Some? &&
      var target := Get(e, IntKey(0)).value;
      var m := Get(e, IntKey(1)).value;
      m.Str? &&
      ((IsObject(target) && m.s in MethodsOf(target)) ||
       (target.Str? && bi.callableName(target.s + "::" + m.s)))
    case _ => false
  }

  /** PHP's rendering of false and true as strings. */
  function BoolString(b: bool): string
  {
    if b then "1" else ""
  }

  /** `(string)$v` for null and scalars. */
  function CastScalar(v: Value): string
    requires IsScalarOrNull(v)
  {
    match v
    case Null => ""
    case Bool(b) => BoolString(b)
    case Int(i) => IntToString(i)
    case Str(s) => s
  }

  /**
   * Passing `v` to a `string` parameter from a file without strict_types: scalars are
   * converted and objects with __toString are accepted; null is accepted (as "") only by
   * builtin functions; anything else is a TypeError.
   */
  function CoerceToString(v: Value, builtin: bool): (r: Result<string>)
    ensures v.Str? ==> r == Ok(v.s)
    ensures v.Arr? || v.Resp? || v.Closure? || v.ContainerRef? || v.Middleware? ==> r == Err(TypeError)
  {
    match v
    case Str(s) => Ok(s)
    case Int(i) => Ok(IntToString(i))
    case Bool(b) => Ok(BoolString(b))
    case Null => if builtin then Ok("") else Err(TypeError)
    case Instance(o) => if o.toStr.Some? then Ok(o.toStr.value) else Err(TypeError)
    case _ => Err(TypeError)
  }
}
