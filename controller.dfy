/**
 * The controller middleware: turns the `_controller` and `_action` attributes into a
 * callable, hands the container to framework controllers, calls the callable with the
 * remaining attributes and insists on a Response.
 */
module Controller {
  import opened Wrappers
  import opened PhpArrays
  import opened Values
  import opened HttpResponse
  import opened HttpRequest
  import opened DependencyInjection

  /** How the application's callables behave: what calling one with some arguments returns or throws. */
  type Invoker = (Value, seq<Value>) -> Result<Value>

  const CONTROLLER_RESULT_MESSAGE := "The controller must return an instance of " + RESPONSE_CLASS

  function MissingActionMessage(className: string): string
  {
    "Please use a Method on class " + className + "."
  }

  function UnknownActionMessage(action: string, className: string): string
  {
    "Method \"" + action + "\" on class " + className + " does not exist."
  }

  /** method_exists($service, $name): an object's own methods, or a class named by a string. */
  predicate MethodExists(service: Value, name: string, bi: Builtins)
    requires IsObject(service) || service.Str?
  {
    if service.Str? then bi.classHasMethod(service.s, name) else name in MethodsOf(service)
  }

  /**
   * The last step of resolveController, for a service that is not itself callable:
   * the pair [service, action] when the method exists, else BadMethodCallException.
   */
  function ServiceMethod(service: Value, action: Value, bi: Builtins): (r: Result<Value>)
    ensures r.Ok? ==> r.value == Arr([(IntKey(0), service), (IntKey(1), action)]) && IsCallable(r.value, bi)
    ensures IsObject(service) && action == Null && "" !in MethodsOf(service) ==>
      r == Err(BadMethodCallException(MissingActionMessage(ClassName(service))))
    ensures IsObject(service) && action.Str? && action.s !in MethodsOf(service) ==>
      r == Err(BadMethodCallException(UnknownActionMessage(action.s, ClassName(service))))
  {
    // method_exists takes an object or a class name
    if !(IsObject(service) || service.Str?) then Err(TypeError)
    else
      match CoerceToString(action, true)
      case Err(e) => Err(e)
      case Ok(name) =>
        if !MethodExists(service, name, bi) then
          // get_class needs an object
          if !IsObject(service) then Err(TypeError)
          else if action == Null then Err(BadMethodCallException(MissingActionMessage(ClassName(service))))
          else Err(BadMethodCallException(UnknownActionMessage(name, ClassName(service))))
        else
          var pair := Arr([(IntKey(0), service), (IntKey(1), action)]);
          // the `callable` return type
          if IsCallable(pair, bi) then Ok(pair) else Err(TypeError)
  }

  /** resolveController, with the container's memo threaded through. */
  function ResolveController(bag: Bag, defs: Entries, produce: nat -> Value, resolved: Entries, bi: Builtins): (s: Resolution)
    ensures s.result.Ok? ==> IsCallable(s.result.value, bi)
    ensures IsCallable(AttributeIn(bag, CONTROLLER_ATTRIBUTE), bi) ==>
      s == Resolution(Ok(AttributeIn(bag, CONTROLLER_ATTRIBUTE)), resolved, [])
    ensures !IsCallable(AttributeIn(bag, CONTROLLER_ATTRIBUTE), bi) && CoerceToString(AttributeIn(bag, CONTROLLER_ATTRIBUTE), false).Ok? ==>
      var g := GetStep(defs, produce, resolved, CoerceToString(AttributeIn(bag, CONTROLLER_ATTRIBUTE), false).value);
      (g.result.Ok? && IsCallable(g.result.value, bi) ==> s == g)
  {
    var c := AttributeIn(bag, CONTROLLER_ATTRIBUTE);
    if IsCallable(c, bi) then Resolution(Ok(c), resolved, [])
    else
      match CoerceToString(c, false)
      case Err(e) => Resolution(Err(e), resolved, [])
      case Ok(id) =>
        var g := GetStep(defs, produce, resolved, id);
        match g.result
        case Err(_) => g
        case Ok(service) =>
          if IsCallable(service, bi) then g
          else Resolution(ServiceMethod(service, AttributeIn(bag, ACTION_ATTRIBUTE), bi), g.resolved, g.invoked)
  }

  /** The attributes that become the call's arguments: all but the three reserved ones, in order. */
  function CallArguments(bag: Bag): (r: Result<seq<Value>>)
    ensures r.Err? <==> bag.None?
    ensures r.Err? ==> r.error == UninitializedProperty("attributes")
  {
    match bag
    case None => Err(UninitializedProperty("attributes"))
    case Some(e) => Ok(PhpArrays.Values(Remove(Remove(Remove(e, CONTROLLER_ATTRIBUTE), ACTION_ATTRIBUTE), NAME_ATTRIBUTE)))
  }

  /** callController: anything but a Response is a LogicException. */
  function CallController(bag: Bag, callee: Value, call: Invoker): (r: Result<Response>)
    ensures r.Ok? ==> CallArguments(bag).Ok? && call(callee, CallArguments(bag).value) == Ok(Resp(r.value))
    ensures CallArguments(bag).Ok? && call(callee, CallArguments(bag).value).Ok? && !call(callee, CallArguments(bag).value).value.Resp? ==>
      r == Err(LogicException(CONTROLLER_RESULT_MESSAGE))
  {
    var args :- CallArguments(bag);
    var out :- call(callee, args);
    if out.Resp? then Ok(out.response) else Err(LogicException(CONTROLLER_RESULT_MESSAGE))
  }

  /** One run of process: its result, the container's memo and factory runs, and who received the container. */
  datatype Dispatch = Dispatch(result: Result<Response>, resolved: Entries, invoked: seq<string>, injected: seq<Value>)

  /** A framework controller (an AbstractController) receives the container before it is called. */
  predicate IsFrameworkController(v: Value)
  {
    v.Instance? && v.obj.controller
  }

  function ControllerProcess(bag: Bag, defs: Entries, produce: nat -> Value, resolved: Entries, bi: Builtins, call: Invoker): (d: Dispatch)
    ensures d.injected != [] ==> |d.injected| == 1 && IsFrameworkController(d.injected[0])
    ensures d.injected != [] ==> ResolveController(bag, defs, produce, resolved, bi).result == Ok(d.injected[0])
    ensures var s := ResolveController(bag, defs, produce, resolved, bi);
      s.result.Ok? && IsFrameworkController(s.result.value) ==> d.injected == [s.result.value]
  {
    var s := ResolveController(bag, defs, produce, resolved, bi);
    match s.result
    case Err(e) => Dispatch(Err(e), s.resolved, s.invoked, [])
    case Ok(callee) =>
      Dispatch(CallController(bag, callee, call), s.resolved, s.invoked, if IsFrameworkController(callee) then [callee] else [])
  }

  class ControllerMiddleware {
    const container: Container
    const bi: Builtins
    const call: Invoker
    /** The controllers that were handed the container, in order. */
    ghost var injected: seq<Value>

    constructor(container: Container, bi: Builtins, call: Invoker)
      ensures this.container == container && this.bi == bi && this.call == call
      ensures injected == []
    {
      this.container := container;
      this.bi := bi;
      this.call := call;
      injected := [];
    }

    /** Resolves the controller, injects the container into a framework controller, and calls it. */
    method Process(request: Request) returns (r: Result<Option<Response>>)
      requires container.Valid()
      modifies this, container
      ensures container.Valid()
      ensures r.Ok? ==> r.value.Some?
      ensures var d := ControllerProcess(request.attributes, container.definitions, container.produce, old(container.resolved), bi, call);
        && r == (if d.result.Ok? then Ok(Some(d.result.value)) else Err(d.result.error))
        && container.resolved == d.resolved
        && container.invoked == old(container.invoked) + d.invoked
        && injected == old(injected) + d.injected
    {
      var resolved := ResolveCallee(request);
      if resolved.Err? {
        return Err(resolved.error);
      }
      var callee := resolved.value;
      if IsFrameworkController(callee) {
        injected := injected + [callee];
      }
      var response := CallController(request.attributes, callee, call);
      if response.Err? {
        return Err(response.error);
      }
      return Ok(Some(response.value));
    }

    /** resolveController: a callable `_controller` as it is, else the service or its [service, action] pair. */
    method ResolveCallee(request: Request) returns (r: Result<Value>)
      requires container.Valid()
      modifies container
      ensures container.Valid()
      ensures var s := ResolveController(request.attributes, container.definitions, container.produce, old(container.resolved), bi);
        r == s.result && container.resolved == s.resolved && container.invoked == old(container.invoked) + s.invoked
    {
      var c := request.GetAttribute(CONTROLLER_ATTRIBUTE);
      if IsCallable(c, bi) {
        return Ok(c);
      }
      var id := CoerceToString(c, false);
      if id.Err? {
        return Err(id.error);
      }
      var service := container.Get(id.value);
      if service.Err? {
        return Err(service.error);
      }
      if IsCallable(service.value, bi) {
        return Ok(service.value);
      }
      r := ServiceMethod(service.value, request.GetAttribute(ACTION_ATTRIBUTE), bi);
    }
  }

  // ---------------------------------------------------------------- lemmas

  /** A callable `_controller` is used as it is: the container is not consulted. */
  lemma CallableNeedsNoContainer(bag: Bag, defs: Entries, produce: nat -> Value, resolved: Entries, bi: Builtins, call: Invoker)
    requires IsCallable(AttributeIn(bag, CONTROLLER_ATTRIBUTE), bi)
    ensures var d := ControllerProcess(bag, defs, produce, resolved, bi, call);
      d.resolved == resolved && d.invoked == []
      && d.result == CallController(bag, AttributeIn(bag, CONTROLLER_ATTRIBUTE), call)
  {
  }

  /** A service the container returns that is itself callable is used as it is, not paired with the action. */
  lemma CallableServiceUsedAsIs(bag: Bag, defs: Entries, produce: nat -> Value, resolved: Entries, bi: Builtins, call: Invoker, id: string)
    requires AttributeIn(bag, CONTROLLER_ATTRIBUTE) == Str(id) && !bi.callableName(id)
    requires GetStep(defs, produce, resolved, id).result.Ok?
    requires IsCallable(GetStep(defs, produce, resolved, id).result.value, bi)
    ensures ResolveController(bag, defs, produce, resolved, bi) == GetStep(defs, produce, resolved, id)
    ensures var d := ControllerProcess(bag, defs, produce, resolved, bi, call);
      var service := GetStep(defs, produce, resolved, id).result.value;
      d.result == CallController(bag, service, call)
      && d.resolved == GetStep(defs, produce, resolved, id).resolved
      && d.invoked == GetStep(defs, produce, resolved, id).invoked
  {
  }

  /** An id the container does not know fails with its NotFoundException. */
  lemma UnknownServicePropagates(bag: Bag, defs: Entries, produce: nat -> Value, resolved: Entries, bi: Builtins, call: Invoker, id: string)
    requires AttributeIn(bag, CONTROLLER_ATTRIBUTE) == Str(id) && !bi.callableName(id)
    requires !HasKey(defs, id) && !HasKey(resolved, id)
    ensures ControllerProcess(bag, defs, produce, resolved, bi, call).result == Err(NotFoundException(NotFoundMessage(id)))
  {
  }

  /** A service object that is not callable and lacks the action fails with BadMethodCallException. */
  lemma MissingMethodFails(bag: Bag, defs: Entries, produce: nat -> Value, resolved: Entries, bi: Builtins, call: Invoker, id: string)
    requires AttributeIn(bag, CONTROLLER_ATTRIBUTE) == Str(id) && !bi.callableName(id)
    requires GetStep(defs, produce, resolved, id).result.Ok?
    requires var service := GetStep(defs, produce, resolved, id).result.value;
      IsObject(service) && !IsCallable(service, bi)
    ensures var service := GetStep(defs, produce, resolved, id).result.value;
      var action := AttributeIn(bag, ACTION_ATTRIBUTE);
      var r := ControllerProcess(bag, defs, produce, resolved, bi, call).result;
      && (action == Null && "" !in MethodsOf(service) ==> r == Err(BadMethodCallException(MissingActionMessage(ClassName(service)))))
      && (action.Str? && action.s !in MethodsOf(service) ==> r == Err(BadMethodCallException(UnknownActionMessage(action.s, ClassName(service)))))
  {
  }

  /** A [service, action] pair whose service object has the action is callable. */
  lemma ObjectPairCallable(o: Obj, act: string, bi: Builtins)
    requires act in o.methods
    ensures IsCallable(Arr([(IntKey(0), Instance(o)), (IntKey(1), Str(act))]), bi)
  {
    IndexOfAt([(IntKey(0), Instance(o)), (IntKey(1), Str(act))], IntKey(1), 1);
  }

  /** A service id naming a non-callable object that has the action resolves to the pair [object, action]. */
  lemma ServicePairResolved(bag: Bag, defs: Entries, produce: nat -> Value, resolved: Entries, bi: Builtins, svc: string, act: string, o: Obj)
    requires AttributeIn(bag, CONTROLLER_ATTRIBUTE) == Str(svc) && AttributeIn(bag, ACTION_ATTRIBUTE) == Str(act)
    requires !bi.callableName(svc) && !o.invokable && act in o.methods
    requires GetStep(defs, produce, resolved, svc).result == Ok(Instance(o))
    ensures ResolveController(bag, defs, produce, resolved, bi).result == Ok(Arr([(IntKey(0), Instance(o)), (IntKey(1), Str(act))]))
  {
    ObjectPairCallable(o, act, bi);
    assert ServiceMethod(Instance(o), Str(act), bi) == Ok(Arr([(IntKey(0), Instance(o)), (IntKey(1), Str(act))]));
  }

  /** A [service, action] pair is an array, so it never receives the container. */
  lemma PairIsNeverInjected(bag: Bag, defs: Entries, produce: nat -> Value, resolved: Entries, bi: Builtins, call: Invoker)
    requires ResolveController(bag, defs, produce, resolved, bi).result.Ok?
    requires ResolveController(bag, defs, produce, resolved, bi).result.value.Arr?
    ensures ControllerProcess(bag, defs, produce, resolved, bi, call).injected == []
  {
  }

  /** The call arguments are the attribute values without the reserved keys, in their order. */
  lemma CallArgumentsWithoutReserved(e: Entries)
    requires DistinctKeys(e)
    ensures CallArguments(Some(e)) == Ok(PhpArrays.Values(WithoutKeys(e, {CONTROLLER_ATTRIBUTE, ACTION_ATTRIBUTE, NAME_ATTRIBUTE})))
  {
    var r1 := Remove(e, CONTROLLER_ATTRIBUTE);
    var r2 := Remove(r1, ACTION_ATTRIBUTE);
    RemoveGet(e, CONTROLLER_ATTRIBUTE, CONTROLLER_ATTRIBUTE);
    RemoveGet(r1, ACTION_ATTRIBUTE, ACTION_ATTRIBUTE);
    RemoveIsWithoutKey(r2, NAME_ATTRIBUTE, {});
    RemoveIsWithoutKey(r1, ACTION_ATTRIBUTE, {NAME_ATTRIBUTE});
    RemoveIsWithoutKey(e, CONTROLLER_ATTRIBUTE, {NAME_ATTRIBUTE, ACTION_ATTRIBUTE});
    WithoutNothing(Remove(r2, NAME_ATTRIBUTE));
    assert {} + {NAME_ATTRIBUTE} == {NAME_ATTRIBUTE};
    assert {NAME_ATTRIBUTE} + {ACTION_ATTRIBUTE} == {NAME_ATTRIBUTE, ACTION_ATTRIBUTE};
    assert {NAME_ATTRIBUTE, ACTION_ATTRIBUTE} + {CONTROLLER_ATTRIBUTE} == {CONTROLLER_ATTRIBUTE, ACTION_ATTRIBUTE, NAME_ATTRIBUTE};
  }
}
