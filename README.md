# A verified model of the FrameworkPasAPas micro-framework

This project models, in Dafny, the core of the small PHP framework in
`src/FrameworkPasAPas`, and proves properties of the model:

- the router: routes with normalised paths, matched on (path, method), first-match-wins;
- the dependency container, which resolves each id once and memoises the result;
- the request and response objects;
- the middleware pipeline of the kernel;
- the router and controller middlewares;
- one-shot flash messages kept in one session slot;
- the validator with its `Numeric` check and `{{ key }}` error templates;
- the logger's `{key}` interpolation;
- the four SQL query builders `Select`, `Update`, `Delete` and `Insert`.

PHP's values are a closed datatype (`Values.Value`). Its cases are null, booleans, integers,
strings, arrays (ordered key/value sequences), objects described by their class name and
methods, closures, responses, the container and the middlewares. PHP arrays with string keys
are ordered association lists (`PhpArrays`). `Put` overwrites in place, `Remove` unsets, and
`Merge` and `Union` are `array_merge` and `+`.

Objects that the source changes in place are Dafny classes whose methods carry `modifies`
clauses and are proved against specification functions:

- `Request`'s attribute bag, `Router`'s route list and the container's memo;
- the flash storage slot, the validators and error tables;
- the builders' lists.

Value objects are datatypes: `Route` and `Response`. The kernel's loop is a method proved
against the function `Run`, and the lemmas about `Run` carry the pipeline's properties.

Behaviour the model cannot see is a parameter:

- what a closure factory returns (`produce`);
- what calling a controller returns (`call`);
- what a middleware other than the framework's two answers, and the attributes it writes on the request;
- `is_callable` on a name and `method_exists` on a class name;
- `is_numeric` on a string and `json_encode`;
- the clock's timestamp string.

Where the code and its evident intent differ, the model follows the code:

- a string route handler designates its first character as the controller;
- `Select` glues the join clauses to the FROM list: `SelectSql` and `Select.ToString` build the
  statement as the code writes it, and `SelectSqlIntended` is the spaced statement (see Findings).

One place follows the evident intent instead: the router's 404. The code builds it with a null
content, which the `string` parameter refuses. The model answers the intended 404 (`NotFound`),
and `NotFoundAsWrittenFails` shows the code as written failing (see Findings).

Modules: `Wrappers`, `Strings`, `PhpArrays`, `Values`, `HttpResponse`, `HttpRequest`, `Routing`,
`DependencyInjection`, `Controller`, `HttpKernel`, `Session`, `Validation`, `Log`, `Query`.

## Model

| member | source | states |
|---|---|---|
| Routing.TrimPath | src/FrameworkPasAPas/Router/Route.php:64-67 | the normalised path starts with '/', its second character is not '/', and it ends in '/' only when it is "/" |
| Routing.TrimPathIdempotent | src/FrameworkPasAPas/Router/Route.php:64-67 | for a whitespace-free path, normalising twice is normalising once |
| Routing.TrimPathNotIdempotent | src/FrameworkPasAPas/Router/Route.php:64-67 | "/a /" is stored as "/a ", which normalises again to "/a" |
| Routing.TrimPathFixpoint | src/FrameworkPasAPas/Router/Route.php:64-67 | a normalised path is its own normal form exactly when it does not end in whitespace |
| Routing.TrimPathNoWhitespace | src/FrameworkPasAPas/Router/Route.php:66 | normalising a whitespace-free path keeps it whitespace-free |
| Routing.NewRoute | src/FrameworkPasAPas/Router/Route.php:24-33 | an empty methods list is an InvalidArgumentException with the source's message; otherwise name, handler and methods are kept as given and the path is normalised |
| Routing.FooRoute | src/FrameworkPasAPas/Router/Route.php:24 | the methods default to ['GET'] |
| Routing.Route.Match | src/FrameworkPasAPas/Router/Route.php:35-42 | a route matches only a method it lists, and only when its stored path is a normalised one |
| Routing.MatchIff | src/FrameworkPasAPas/Router/Route.php:35-42 | an absent method never matches; with the method, a route matches exactly when the normalised path equals the stored one |
| Routing.MatchOwnPath | src/FrameworkPasAPas/Router/Route.php:30-42 | a route built from a whitespace-free path matches its own normalised path for every method it lists |
| Routing.MatchExamples | src/FrameworkPasAPas/Router/Route.php:41 | "/foo/" and "foo" both match route "/foo" on GET; POST does not match |
| Routing.FirstMatch | src/FrameworkPasAPas/Router/Router.php:33-38 | the result is the lowest index whose route matches, or none exactly when no route matches |
| Routing.MatchRequest | src/FrameworkPasAPas/Router/Router.php:30-43 | a returned route is registered and matches the request; with no match the error is RouteNotFound("No route found for " + uri) |
| Routing.Router.constructor | src/FrameworkPasAPas/Router/Router.php:20-25 | the route list equals the argument, in order |
| Routing.Router.Add | src/FrameworkPasAPas/Router/Router.php:45-49 | exactly one route is appended at the end, and the same router is returned |
| Routing.Router.Match | src/FrameworkPasAPas/Router/Router.php:30-43 | the loop returns what MatchRequest specifies |
| Routing.EarlierRouteWins | src/FrameworkPasAPas/Router/Router.php:33-38 | of two routes with the same path, where the earlier one lists the method, the later one is never chosen |
| Routing.FirstMatchAppend | src/FrameworkPasAPas/Router/Router.php:45-49 | adding a route never changes the answer for a request that already matched; otherwise the new route answers exactly when it matches |
| Routing.OffsetOrNull | src/FrameworkPasAPas/Router/RouterMiddleware.php:27-28 | `$h[i] ?? …` fails exactly when the handler is an object (no modelled object implements ArrayAccess) |
| Routing.HandlerAttributes | src/FrameworkPasAPas/Router/RouterMiddleware.php:26-30 | fails exactly for an object handler; otherwise exactly the three keys _controller, _action, _name, in that order, and _name is the route name |
| Routing.StringHandler | src/FrameworkPasAPas/Router/RouterMiddleware.php:27-28 | a string handler designates its first character as controller and its second as action |
| Routing.PairHandler | src/FrameworkPasAPas/Router/RouterMiddleware.php:27-28 | a [service, method] handler designates that service and that method |
| Routing.PutReserved | src/FrameworkPasAPas/Router/RouterMiddleware.php:32-34 | after the three writes each reserved key reads its own value and every other key its old one |
| Routing.WithAttributes | src/FrameworkPasAPas/Router/RouterMiddleware.php:32-34 | the foreach writes every entry, in order, into the caller's request |
| Routing.RouterProcess | src/FrameworkPasAPas/Router/RouterMiddleware.php:20-40 | the answer is the 404 exactly when no route matches; it passes on (null) exactly when a route matches and its handler gives the attributes, which are then written into the bag; on any other outcome the bag is untouched and the error propagates |
| Routing.RouterMiddleware.Process | src/FrameworkPasAPas/Router/RouterMiddleware.php:21-40 | the result and the request's new attribute bag are those of RouterProcess |
| Routing.RouterMiddleware.constructor | src/FrameworkPasAPas/Router/RouterMiddleware.php:16-19 | the router is kept |
| Routing.ProcessOnMatch | src/FrameworkPasAPas/Router/RouterMiddleware.php:24-39 | on a match process returns null, and the three reserved attributes hold the controller, the action and the route name; every other attribute is unchanged |
| Routing.ProcessNotFound | src/FrameworkPasAPas/Router/RouterMiddleware.php:35-36 | with no match the answer is the 404 response and the bag is untouched |
| Routing.NotFoundAsWrittenFails | src/FrameworkPasAPas/Router/RouterMiddleware.php:36 | `new Response(null, 404)` is a TypeError |
| Routing.NotFound | src/FrameworkPasAPas/Router/RouterMiddleware.php:36 | the intended 404 response: status 404 "Not Found", empty content, no headers |
| DependencyInjection.Container.constructor | src/FrameworkPasAPas/DependencyInjection/Container.php:21-27 | the definitions are the argument merged with the container under its own class name; the memo is empty |
| DependencyInjection.SelfRegistration | src/FrameworkPasAPas/DependencyInjection/Container.php:23-26 | the container's id is defined and maps to the container, overriding a user definition; other ids are unchanged |
| DependencyInjection.Container.HasIsDefined | src/FrameworkPasAPas/DependencyInjection/Container.php:61-64 | since only defined ids get resolved, `has` holds exactly for defined ids |
| DependencyInjection.GetStep | src/FrameworkPasAPas/DependencyInjection/Container.php:37-54 | NotFoundException exactly when `has` fails; a resolved id returns its memo; afterwards the id is memoised with the result; other ids are untouched; a factory runs only for an unresolved id |
| DependencyInjection.Container.Get | src/FrameworkPasAPas/DependencyInjection/Container.php:37-54 | result, new memo and factory runs are those of GetStep |
| DependencyInjection.GetIsMemoised | src/FrameworkPasAPas/DependencyInjection/Container.php:43-45 | a second get returns the same value and neither resolves nor invokes anything |
| DependencyInjection.FirstGetRunsFactory | src/FrameworkPasAPas/DependencyInjection/Container.php:47-52 | the first get of a closure runs it once and memoises its result |
| DependencyInjection.PlainValueReturned | src/FrameworkPasAPas/DependencyInjection/Container.php:47-50 | a defined value that is not a closure is returned as it is, and no factory is run |
| DependencyInjection.FactoryRunsAtMostOnce | src/FrameworkPasAPas/DependencyInjection/Container.php:43-52 | over any run of gets, each factory runs at most once, only for an id unresolved beforehand, and every such id is resolved at the end |
| DependencyInjection.GetAllKeepsResolved | src/FrameworkPasAPas/DependencyInjection/Container.php:52 | a resolved id stays resolved over any run of gets |
| DependencyInjection.StepKeepsResolved | src/FrameworkPasAPas/DependencyInjection/Container.php:52 | one get never forgets an id resolved before |
| DependencyInjection.ResolvedStaysDefined | src/FrameworkPasAPas/DependencyInjection/Container.php:52 | memoising a defined id keeps the memo's ids distinct and all defined |
| DependencyInjection.InvokedWereUnresolved | src/FrameworkPasAPas/DependencyInjection/Container.php:43-52 | over a run of gets, only ids unresolved at the start have their factory run |
| DependencyInjection.InvokedAreResolved | src/FrameworkPasAPas/DependencyInjection/Container.php:52 | every id whose factory ran is resolved at the end of the run |
| DependencyInjection.InvokedOnce | src/FrameworkPasAPas/DependencyInjection/Container.php:43-52 | no factory runs twice in a run of gets |
| HttpRequest.Request.constructor | src/FrameworkPasAPas/Http/Request.php:16-23 | the five arrays are stored unchanged (the getters of lines 45-63 are the fields); the attribute bag starts uninitialised |
| HttpRequest.ServerString | src/FrameworkPasAPas/Http/Request.php:30-38 | getUri and getMethod succeed exactly when the server entry is a string, and return it |
| HttpRequest.Request.IsMethodPost | src/FrameworkPasAPas/Http/Request.php:40-43 | true exactly when REQUEST_METHOD is "POST" |
| HttpRequest.Request.WithAttribute | src/FrameworkPasAPas/Http/Request.php:65-69 | sets one attribute on this same object, which it returns |
| HttpRequest.PutAttribute | src/FrameworkPasAPas/Http/Request.php:67 | writing an attribute initialises the bag |
| HttpRequest.AttributeAfterPut | src/FrameworkPasAPas/Http/Request.php:65-74 | after withAttribute(k, v), getAttribute reads v for k and the old value for every other key |
| HttpRequest.AttributeOrder | src/FrameworkPasAPas/Http/Request.php:67 | an existing key keeps its position, a new key is appended, keys stay distinct |
| HttpRequest.Request.GetAttribute | src/FrameworkPasAPas/Http/Request.php:71-74 | the stored value of a present key; null for an absent key or an uninitialised bag |
| HttpRequest.AttributeNullIff | src/FrameworkPasAPas/Http/Request.php:71-74 | getAttribute is null exactly when the key is absent or holds null |
| HttpRequest.Request.GetAttributes | src/FrameworkPasAPas/Http/Request.php:76-79 | the bag once set, an uninitialised-property error before |
| HttpResponse.StatusTable | src/FrameworkPasAPas/Http/Response.php:7-21 | the table holds exactly the 13 listed codes |
| HttpResponse.StatusTextUnknownIff | src/FrameworkPasAPas/Http/Response.php:33 | the status text is the table's entry for a listed code and "unknown status" exactly for the others |
| HttpResponse.StatusTextsKnown | src/FrameworkPasAPas/Http/Response.php:7-21 | no listed text is "unknown status" |
| HttpResponse.DefaultResponse | src/FrameworkPasAPas/Http/Response.php:27-35 | the defaults are empty content, status 200 with text "OK", no headers, version 1.0 |
| HttpResponse.Response.StatusLine | src/FrameworkPasAPas/Http/Response.php:64-68 | the status line "HTTP/1.0 code text" splits back into exactly the status code and its text |
| HttpResponse.HeaderLines | src/FrameworkPasAPas/Http/Response.php:73-75 | one line per header |
| HttpResponse.StatusLineParts | src/FrameworkPasAPas/Http/Response.php:64-68 | a status line built from a space-free code and any text splits back into the code's value and that text |
| HttpResponse.HeaderLinesRoundTrip | src/FrameworkPasAPas/Http/Response.php:73-75 | the i-th line splits back into the i-th header when its name has no colon |
| Controller.ServiceMethod | src/FrameworkPasAPas/Controller/ControllerMiddleware.php:47-55 | the callable pair [service, action] when the method exists, else a BadMethodCallException with one of the two messages |
| Controller.ResolveController | src/FrameworkPasAPas/Controller/ControllerMiddleware.php:35-56 | what it returns is callable; a callable _controller is returned as it is, with the container untouched; otherwise a callable service from the container is returned as it is, with that get's memo and factory runs |
| Controller.ControllerMiddleware.ResolveCallee | src/FrameworkPasAPas/Controller/ControllerMiddleware.php:35-56 | the callee and the container's new memo and factory runs are those of ResolveController |
| Controller.CallableNeedsNoContainer | src/FrameworkPasAPas/Controller/ControllerMiddleware.php:37-40 | a callable _controller is called directly and the container is not consulted |
| Controller.CallableServiceUsedAsIs | src/FrameworkPasAPas/Controller/ControllerMiddleware.php:42-45 | a callable service fetched by id is the callee itself, called without its action, and the container's memo and factory runs are that get's |
| Controller.UnknownServicePropagates | src/FrameworkPasAPas/Controller/ControllerMiddleware.php:42 | an id the container does not know fails with its NotFoundException |
| Controller.MissingMethodFails | src/FrameworkPasAPas/Controller/ControllerMiddleware.php:47-54 | a non-callable service without the action fails with "Please use a Method on class X." for a null action, "Method "a" on class X does not exist." otherwise |
| Controller.ServicePairResolved | src/FrameworkPasAPas/Controller/ControllerMiddleware.php:42-55 | a non-callable service that has the action resolves to the pair [service, action] |
| Controller.ObjectPairCallable | src/FrameworkPasAPas/Controller/ControllerMiddleware.php:55 | a [object, method] pair whose object has the method is callable |
| Controller.CallArguments | src/FrameworkPasAPas/Controller/ControllerMiddleware.php:60 | reading the attributes fails exactly when the bag was never set |
| Controller.CallArgumentsWithoutReserved | src/FrameworkPasAPas/Controller/ControllerMiddleware.php:60-65 | the arguments are the attribute values without the three reserved keys, in order |
| Controller.CallController | src/FrameworkPasAPas/Controller/ControllerMiddleware.php:58-72 | a Response from the callee is returned; anything else is a LogicException |
| Controller.ControllerProcess | src/FrameworkPasAPas/Controller/ControllerMiddleware.php:25-33 | the container is handed to exactly the resolved callee when it is a framework controller, and to nothing else |
| Controller.PairIsNeverInjected | src/FrameworkPasAPas/Controller/ControllerMiddleware.php:28-30 | a [service, action] pair is an array and never receives the container |
| Controller.ControllerMiddleware.Process | src/FrameworkPasAPas/Controller/ControllerMiddleware.php:25-33 | never answers null; the result, the memo, the factory runs and the injections are those of ControllerProcess |
| Controller.ControllerMiddleware.constructor | src/FrameworkPasAPas/Controller/ControllerMiddleware.php:20-23 | the container is kept and nothing was injected yet |
| Values.CoerceToString | src/FrameworkPasAPas/Controller/ControllerMiddleware.php:42 | a string _controller is the id itself; an array, response, closure, container or middleware cannot be passed as a string id |
| HttpKernel.Kernel.constructor | src/FrameworkPasAPas/Kernel.php:19-34 | the container is built from the parameters plus the service definitions; the middleware list is the configured one |
| HttpKernel.Parameters | src/FrameworkPasAPas/Kernel.php:65-71 | exactly the keys kernel.project_dir and kernel.environment, holding the project directory and the environment |
| HttpKernel.EnvironmentParameter | src/FrameworkPasAPas/Kernel.php:78-83 | the container's kernel.environment entry is the constructor's environment string |
| HttpKernel.Step | src/FrameworkPasAPas/Kernel.php:42-56 | an entry that is neither an id nor a middleware fails with the LogicException and changes nothing; the factory runs and injections only grow; only an id or the controller middleware touches the container |
| HttpKernel.Run | src/FrameworkPasAPas/Kernel.php:40-61 | the factory runs and injections only grow over a run; when nobody answered, every entry was an id or a middleware |
| HttpKernel.OtherWritesSeen | src/FrameworkPasAPas/Kernel.php:56-59 | an application middleware that passes on hands the next one the bag with its own writes applied |
| HttpKernel.Kernel.RunEntry | src/FrameworkPasAPas/Kernel.php:42-56 | one turn: an id is resolved through the container, a non-middleware is refused, the middleware processes the request, as Step specifies |
| HttpKernel.Kernel.Handle | src/FrameworkPasAPas/Kernel.php:37-62 | the result and the new request bag and container state are those of Run over the middleware list |
| HttpKernel.HandleResult | src/FrameworkPasAPas/Kernel.php:61 | an answer is returned; null under the Response return type is a TypeError; an error propagates |
| HttpKernel.RunConcat | src/FrameworkPasAPas/Kernel.php:40-60 | running a list is running its front, then its back only when nobody in the front answered |
| HttpKernel.FirstResponseWins | src/FrameworkPasAPas/Kernel.php:57-59 | once a middleware answers, later entries are neither resolved nor run |
| HttpKernel.NobodyAnswers | src/FrameworkPasAPas/Kernel.php:37-61 | with no middleware, or none answering, handle fails on its return type |
| HttpKernel.NonMiddlewareRejected | src/FrameworkPasAPas/Kernel.php:46-54 | an entry that is neither an id nor a middleware stops the run with the LogicException, before anything is called |
| HttpKernel.RunPassOn | src/FrameworkPasAPas/Kernel.php:56 | a middleware that passes on hands the same request, with its attributes, to the next |
| HttpKernel.RunLast | src/FrameworkPasAPas/Kernel.php:56-61 | a list of one entry answers what that entry's step answers |
| HttpKernel.RouterStepOnPair | src/FrameworkPasAPas/Kernel.php:56 | on a [service id, method] route the router passes on, having written the id as _controller and the method as _action |
| HttpKernel.ControllerStepOnPair | src/FrameworkPasAPas/Kernel.php:56 | given those attributes and a service that has the method, the controller middleware calls that pair |
| HttpKernel.RouterThenController | src/FrameworkPasAPas/Kernel.php:40-59 | router then controller on a [service id, method] route: the controller middleware reads what the router wrote, and the answer is that method's Response |
| Session.NewFlash | src/FrameworkPasAPas/Session/Flash.php:19-26 | storage that is neither an array nor ArrayAccess is an InvalidArgumentException; otherwise the storage and key are kept |
| Session.Flash.constructor | src/FrameworkPasAPas/Session/Flash.php:19-26 | the storage and the key are kept |
| Session.InStorage | src/FrameworkPasAPas/Session/Flash.php:49-52 | an absent or null slot reads as an empty array, an array slot as its entries; any other slot value is a TypeError, and the TypeError happens exactly then |
| Session.Flash.Set | src/FrameworkPasAPas/Session/Flash.php:28-33 | the new storage is SetSpec's, or a TypeError with the storage unchanged |
| Session.Flash.Get | src/FrameworkPasAPas/Session/Flash.php:35-47 | the result and the new storage are GetSpec's |
| Session.SetThenGet | src/FrameworkPasAPas/Session/Flash.php:28-47 | after set(t, m), get(t) returns m |
| Session.SetReplaces | src/FrameworkPasAPas/Session/Flash.php:31 | a second set of a type replaces the first |
| Session.GetIsOneShot | src/FrameworkPasAPas/Session/Flash.php:42-46 | after get has returned a message, the next get of that type returns null |
| Session.GetAbsent | src/FrameworkPasAPas/Session/Flash.php:37-40 | get of an absent type returns null and writes nothing |
| Session.SetIsLocal | src/FrameworkPasAPas/Session/Flash.php:28-33 | set changes no other slot and, inside the slot, no other type |
| Session.GetKeepsOtherSlots | src/FrameworkPasAPas/Session/Flash.php:54-57 | get changes no slot but the flash slot |
| Session.GetKeepsOtherTypes | src/FrameworkPasAPas/Session/Flash.php:42-44 | get removes only the type it names |
| Session.SetKeepsWellFormed | src/FrameworkPasAPas/Session/Flash.php:28-33 | set succeeds on a well-formed slot and leaves it well formed |
| Session.InStorageAfterPut | src/FrameworkPasAPas/Session/Flash.php:49-57 | what setInStorage writes, getInStorage reads back |
| Session.SlotAfterPut | src/FrameworkPasAPas/Session/Flash.php:54-57 | setInStorage writes the value under the flash key |
| Validation.Numeric.constructor | src/FrameworkPasAPas/Validation/Assert/Numeric.php:14 | the default template is "This value should be of type {{ type }}." and the error is uninitialised |
| Validation.Numeric.GetError | src/FrameworkPasAPas/Validation/Assert/AbstractValidator.php:14-17 | the last error, or an uninitialised-property error before any |
| Validation.Numeric.Error | src/FrameworkPasAPas/Validation/Assert/AbstractValidator.php:19-34 | the error is the template with each context placeholder replaced by strtr |
| Validation.Numeric.Validate | src/FrameworkPasAPas/Validation/Assert/Numeric.php:16-28 | accepts exactly when Rejection is none (null or numeric); otherwise returns false and sets the error |
| Validation.Numeric.Message | src/FrameworkPasAPas/Validation/Assert/Numeric.php:30-34 | replaces the template and returns the same validator |
| Validation.NumericPlaceholders | src/FrameworkPasAPas/Validation/Assert/Numeric.php:23 | the placeholders are {{ value }}, {{ 0 }} and {{ 1 }}, with the value shown, "type" and "numeric" |
| Validation.ReplacementsOfThree | src/FrameworkPasAPas/Validation/Assert/AbstractValidator.php:21-31 | a three-entry context with distinct placeholders gives one pair per entry, in order |
| Validation.DefaultMessageIsLiteral | src/FrameworkPasAPas/Validation/Assert/Numeric.php:14-23 | with the default template the error text is the template itself: {{ type }} is never replaced |
| Validation.ValueIsShown | src/FrameworkPasAPas/Validation/Assert/Numeric.php:23 | a template "{{ value }}" becomes the shown value |
| Validation.KeysOfNumeric | src/FrameworkPasAPas/Validation/Assert/AbstractValidator.php:30 | every Numeric placeholder opens with "{{" and has 'v', '0' or '1' as its fourth character, so none is "{{ type }}" |
| Validation.ValueKeyReplaced | src/FrameworkPasAPas/Validation/Assert/AbstractValidator.php:33 | "{{ value }}" is replaced by the shown value |
| Validation.DefaultKept | src/FrameworkPasAPas/Validation/Assert/Numeric.php:14 | strtr with the Numeric placeholders leaves the default template unchanged |
| Validation.ReplacementsSnocFresh | src/FrameworkPasAPas/Validation/Assert/AbstractValidator.php:21-31 | a context entry with a new placeholder appends exactly one pair |
| Validation.Validator.constructor | src/FrameworkPasAPas/Validation/Validator.php:22-28 | no validators (null), no errors, no data |
| Validation.NewValidator | src/FrameworkPasAPas/Validation/Validator.php:30-38 | fails exactly as Register does; otherwise holds Register's table and no errors |
| Validation.RegisterAccepts | src/FrameworkPasAPas/Validation/Validator.php:30-38 | the constructor succeeds exactly when every candidate of every field is a validator, and keeps one entry per field |
| Validation.Validator.AddValidator | src/FrameworkPasAPas/Validation/Validator.php:90-101 | the new table is AddAll's, or its failure |
| Validation.AddAllAccepts | src/FrameworkPasAPas/Validation/Validator.php:92-98 | addValidator succeeds exactly when every candidate is a validator |
| Validation.AddAllRejects | src/FrameworkPasAPas/Validation/Validator.php:93-97 | the first non-validator gives the InvalidArgumentException naming the field and what was given |
| Validation.AddAllAppends | src/FrameworkPasAPas/Validation/Validator.php:99 | the validators are appended under their field, in order |
| Validation.AddAllOthers | src/FrameworkPasAPas/Validation/Validator.php:99 | other fields' lists are unchanged |
| Validation.AddAllDistinct | src/FrameworkPasAPas/Validation/Validator.php:99 | the table keeps one entry per field |
| Validation.CheckObjectsAll | src/FrameworkPasAPas/Validation/Validator.php:92-99 | when every candidate is a validator, all of them are kept, in order |
| Validation.RuleTableDistinct | src/FrameworkPasAPas/Validation/Validator.php:52 | the table validate iterates has one entry per field |
| Validation.ValidationDataGet | src/FrameworkPasAPas/Validation/Validator.php:42-47 | an upload wins over a body entry of the same name, and a string that trims to "" or "0" becomes null |
| Validation.BlankExamples | src/FrameworkPasAPas/Validation/Validator.php:43 | " 0\n" and "\t " become null; "00", "0.0" and the integer 0 are kept |
| Validation.Validator.GetErrors | src/FrameworkPasAPas/Validation/Validator.php:70-73 | the error table as recorded, unchanged; what validate leaves in it is stated by Validate and ErrorsOfField |
| Validation.Validator.GetData | src/FrameworkPasAPas/Validation/Validator.php:75-78 | the validated data as recorded, unchanged; what validate leaves in it is stated by Validate and DataAfterValidation |
| Validation.Validator.Validate | src/FrameworkPasAPas/Validation/Validator.php:40-65 | data and errors are those of ValidateFields on the merged data and the old errors; the result is true exactly when there are no errors; every registered validator keeps its template, and its error is either unchanged or a message recorded in the error table |
| Validation.Validator.ValidateOne | src/FrameworkPasAPas/Validation/Validator.php:53-61 | one field, as ValidateField specifies; the field's validators keep their templates, a validator whose error changed has it recorded in the table, and every message recorded before stays recorded |
| Validation.Validator.RunChecks | src/FrameworkPasAPas/Validation/Validator.php:57-61 | the errors gain the field's failures, in validator order; a validator whose error changed now holds one of those failures |
| Validation.Validator.RunCheck | src/FrameworkPasAPas/Validation/Validator.php:58-60 | a failing validator appends its error under the field and now holds exactly that message; a passing one appends nothing and keeps its error |
| Validation.DataAfterValidation | src/FrameworkPasAPas/Validation/Validator.php:53-55 | every field with validators has data afterwards: its own when set, null otherwise; other fields keep theirs |
| Validation.ErrorsOfField | src/FrameworkPasAPas/Validation/Validator.php:52-63 | each field's errors are its old errors followed by its failing validators' messages, in order |
| Validation.ErrorsAccumulate | src/FrameworkPasAPas/Validation/Validator.php:80-83 | errors are only appended, never cleared: once validate has failed it keeps failing |
| Validation.NullPasses | src/FrameworkPasAPas/Validation/Assert/Numeric.php:18-20 | null fails no validator |
| Validation.FailuresCount | src/FrameworkPasAPas/Validation/Validator.php:57-61 | at most one message per validator, and none exactly when every validator accepts |
| Validation.FailuresAreRejections | src/FrameworkPasAPas/Validation/Validator.php:58-59 | each recorded message is the error text of a validator that rejects the value |
| Validation.RecordedPushAll | src/FrameworkPasAPas/Validation/Validator.php:82 | appending messages under a field loses no message already in the table |
| Validation.ErrorKept | src/FrameworkPasAPas/Validation/Validator.php:52-63 | a message recorded before a field is validated is still recorded after it |
| Validation.PushAllList | src/FrameworkPasAPas/Validation/Validator.php:82 | appending under k extends k's list and no other |
| Validation.PushList | src/FrameworkPasAPas/Validation/Validator.php:82 | `$errors[$f][] = $m` appends m to f's list and to no other |
| Log.ReplacementOf | src/FrameworkPasAPas/Log/Logger.php:53 | a string or object passes the test; any other value is a TypeError under strict types |
| Log.InterpolationFails | src/FrameworkPasAPas/Log/Logger.php:52-56 | interpolate fails exactly when some context value is neither a string nor an object |
| Log.InterpolationPairs | src/FrameworkPasAPas/Log/Logger.php:51-56 | the only failure is a TypeError |
| Log.ErrorStaysError | src/FrameworkPasAPas/Log/Logger.php:52-56 | one context value that fails the test makes the whole interpolation fail |
| Log.Interpolate | src/FrameworkPasAPas/Log/Logger.php:49-58 | the loop and strtr compute Interpolated |
| Log.LastText | src/FrameworkPasAPas/Log/Logger.php:52-56 | some context entry spelled `name` gives the text, or, when none, no such entry gives a text |
| Log.PairsGet | src/FrameworkPasAPas/Log/Logger.php:52-56 | for every name, the replacement map's entry for "{name}" is the text of the last string or stringable value under that name, and absent when there is none |
| Log.PairsArePlaceholders | src/FrameworkPasAPas/Log/Logger.php:54 | with keys free of '}', the replacement map has distinct keys, each a key in braces |
| Log.StrtrFilled | src/FrameworkPasAPas/Log/Logger.php:57 | strtr replaces a known "{name}" by its text and resumes right after it |
| Log.StrtrKept | src/FrameworkPasAPas/Log/Logger.php:57 | strtr copies an unknown "{name}" and resumes right after it |
| Log.StrtrAtFilled | src/FrameworkPasAPas/Log/Logger.php:57 | strtr on brace-free text, then a known "{name}", then anything: the text, the replacement, then strtr of the rest |
| Log.StrtrAtKept | src/FrameworkPasAPas/Log/Logger.php:57 | strtr on brace-free text, then an unknown "{name}", then anything: the text, "{name}" as written, then strtr of the rest |
| Log.PlaceholderAt | src/FrameworkPasAPas/Log/Logger.php:49-58 | interpolating a + "{name}" + b gives a, then the last text the context supplies for name (or "{name}" as written when none), then the interpolation of b |
| Log.PlaceholderFilled | src/FrameworkPasAPas/Log/Logger.php:54-57 | "{k}" with a string value v becomes v |
| Log.ObjectSkipped | src/FrameworkPasAPas/Log/Logger.php:53 | an object without __toString adds no placeholder |
| Log.UnknownPlaceholderKept | src/FrameworkPasAPas/Log/Logger.php:57 | a placeholder the context does not supply stays as written |
| Log.BraceFreeKept | src/FrameworkPasAPas/Log/Logger.php:57 | text without '{' is logged as written |
| Log.PairsAreBraced | src/FrameworkPasAPas/Log/Logger.php:54 | every replaced key starts with '{' |
| Log.RecordShape | src/FrameworkPasAPas/Log/Logger.php:42-46 | a record has exactly the keys message, level and timestamp, the level upper-cased |
| Log.NullMessage | src/FrameworkPasAPas/Log/Logger.php:43 | a null message logs as the empty message |
| Log.LevelNames | src/FrameworkPasAPas/Log/Logger.php:12-14 | alert, error and info log the levels ALERT, ERROR and INFO |
| Log.Logger.Log | src/FrameworkPasAPas/Log/Logger.php:40-47 | the handler receives exactly one record, LogRecord's, or nothing on failure |
| Log.Logger.constructor | src/FrameworkPasAPas/Log/Logger.php:20-23 | the handler has received no records |
| Log.Logger.Alert | src/FrameworkPasAPas/Log/Logger.php:25-28 | log at level alert |
| Log.Logger.Error | src/FrameworkPasAPas/Log/Logger.php:30-33 | log at level error |
| Log.Logger.Info | src/FrameworkPasAPas/Log/Logger.php:35-38 | log at level info |
| Query.Select.constructor | src/FrameworkPasAPas/DB/Query/Select.php:39-42 | the fields are the argument; the other lists are empty, no distinct, limit uninitialised |
| Query.Select.Select | src/FrameworkPasAPas/DB/Query/Select.php:44-50 | appends the fields in order, changes nothing else, returns the same builder |
| Query.Select.Where | src/FrameworkPasAPas/DB/Query/Select.php:62-68 | appends the conditions in order, changes nothing else |
| Query.Select.From | src/FrameworkPasAPas/DB/Query/Select.php:70-74 | appends "t AS a", or t without alias |
| Query.Select.Limit | src/FrameworkPasAPas/DB/Query/Select.php:76-80 | sets the limit, overwriting any earlier one |
| Query.Select.OrderBy | src/FrameworkPasAPas/DB/Query/Select.php:82-86 | appends "sort order", the order defaulting to ASC |
| Query.Select.InnerJoin | src/FrameworkPasAPas/DB/Query/Select.php:88-94 | appends "INNER JOIN x" for each argument, in order |
| Query.Select.LeftJoin | src/FrameworkPasAPas/DB/Query/Select.php:96-102 | appends "LEFT JOIN x" for each argument, in order |
| Query.Select.Distinct | src/FrameworkPasAPas/DB/Query/Select.php:104-108 | sets distinct and nothing else, so a second call changes nothing |
| Query.Prefixed | src/FrameworkPasAPas/DB/Query/Select.php:88-102 | one clause per argument, the i-th being the join kind before the i-th argument |
| Query.Select.AppendJoins | src/FrameworkPasAPas/DB/Query/Select.php:88-102 | appends one clause per argument, in order, and nothing else |
| Query.SelectSql | src/FrameworkPasAPas/DB/Query/Select.php:52-60 | fails exactly when limit() was never called, with the uninitialised-property error |
| Query.Select.ToString | src/FrameworkPasAPas/DB/Query/Select.php:52-60 | fails exactly when limit() was never called; otherwise the statement as the code assembles it, joins glued to the FROM list |
| Query.SelectUntrimmed | src/FrameworkPasAPas/DB/Query/Select.php:54-59 | with a limit, trim removes nothing: the statement is the assembled text itself |
| Query.SelectSqlIntended | src/FrameworkPasAPas/DB/Query/Select.php:52-60 | the intended statement, with a space before the joins: fails exactly when there is no limit |
| Query.IntendedUntrimmed | src/FrameworkPasAPas/DB/Query/Select.php:54-59 | with a limit, the intended statement is its assembled text |
| Query.GluedText | src/FrameworkPasAPas/DB/Query/Select.php:54-59 | the assembled text of one inner join has no space between table and join |
| Query.UsersPostsText | src/FrameworkPasAPas/DB/Query/Select.php:52-60 | the statement for users joined to posts with limit 1 is "SELECT * FROM usersINNER JOIN posts LIMIT 1" |
| Query.UsersPostsAsWritten | src/FrameworkPasAPas/DB/Query/Select.php:52-102 | the builder calls select, from, innerJoin and limit give that same glued statement |
| Query.JoinSpacing | src/FrameworkPasAPas/DB/Query/Select.php:56 | without joins the written and the intended statement agree; with joins the written one is one space shorter |
| Query.JoinGluedAsWritten | src/FrameworkPasAPas/DB/Query/Select.php:55-56 | for any table and joined table, the statement the code builds glues the table to "INNER JOIN" |
| Query.JoinSeparated | src/FrameworkPasAPas/DB/Query/Select.php:54-59 | for any table and joined table, the intended statement keeps a space before "INNER JOIN" |
| Query.SeparatedText | src/FrameworkPasAPas/DB/Query/Select.php:54-59 | the intended statement's text for a single inner join |
| Query.WhereAppends | src/FrameworkPasAPas/DB/Query/Select.php:57 | each further condition only appends: " WHERE " before the first, " AND " before the others |
| Query.Update.constructor | src/FrameworkPasAPas/DB/Query/Update.php:19-22 | the table is "t AS a", or t without alias; no values or conditions |
| Query.Update.Set | src/FrameworkPasAPas/DB/Query/Update.php:39-43 | appends "c = v", keeping repeated columns |
| Query.Update.Where | src/FrameworkPasAPas/DB/Query/Update.php:31-37 | appends the conditions in order |
| Query.UpdateSql | src/FrameworkPasAPas/DB/Query/Update.php:24-29 | the statement starts "UPDATE t SET" with the assignments joined by ", ", and is exactly that when there are no conditions |
| Query.Update.ToString | src/FrameworkPasAPas/DB/Query/Update.php:24-29 | the statement of the builder's table, assignments and conditions |
| Query.UpdateWhereAppends | src/FrameworkPasAPas/DB/Query/Update.php:26-28 | a further condition only appends to the statement |
| Query.Delete.constructor | src/FrameworkPasAPas/DB/Query/Delete.php:14-17 | the table is "t AS a", or t without alias; no conditions |
| Query.Delete.Where | src/FrameworkPasAPas/DB/Query/Delete.php:24-30 | appends the conditions in order |
| Query.DeleteSql | src/FrameworkPasAPas/DB/Query/Delete.php:19-22 | the statement starts "DELETE FROM t", and is exactly that when there are no conditions |
| Query.Delete.ToString | src/FrameworkPasAPas/DB/Query/Delete.php:19-22 | the statement of the builder's table and conditions |
| Query.DeleteShape | src/FrameworkPasAPas/DB/Query/Delete.php:19-22 | without conditions "DELETE FROM t"; each condition only appends |
| Query.Insert.constructor | src/FrameworkPasAPas/DB/Query/Insert.php:14-17 | the table is kept; no values |
| Query.Insert.Set | src/FrameworkPasAPas/DB/Query/Insert.php:25-29 | maps the column to the value, returning the same builder |
| Query.InsertNewColumn | src/FrameworkPasAPas/DB/Query/Insert.php:27 | a new column is appended with its value at the end of both lists |
| Query.InsertRepeatedColumn | src/FrameworkPasAPas/DB/Query/Insert.php:27 | a repeated column keeps its position and takes the new value |
| Query.InsertAligned | src/FrameworkPasAPas/DB/Query/Insert.php:21-22 | a column and its value sit at the same position of the two lists |
| Query.InsertSql | src/FrameworkPasAPas/DB/Query/Insert.php:19-23 | the statement starts "INSERT INTO t (", ends with ')', and is never shorter than "INSERT INTO t () VALUES ()" |
| Query.Insert.ToString | src/FrameworkPasAPas/DB/Query/Insert.php:19-23 | the statement of the builder's table, columns and values |
| Query.InsertEmpty | src/FrameworkPasAPas/DB/Query/Insert.php:19-23 | with no set() calls, "INSERT INTO t () VALUES ()" |
| Strings.StrtrKey | src/FrameworkPasAPas/Validation/Assert/AbstractValidator.php:33 | strtr replaces the longest key at the front and does not rescan the replacement |
| Strings.StrtrPlain | src/FrameworkPasAPas/Log/Logger.php:57 | where no key starts, strtr leaves the text unchanged |
| Strings.StrtrNoPairs | src/FrameworkPasAPas/Log/Logger.php:57 | strtr with no pairs leaves the text unchanged |
| Strings.TrimLeftShape | src/FrameworkPasAPas/Router/Route.php:66 | ltrim leaves no listed character at the front, and removes only a prefix |
| Strings.TrimRightShape | src/FrameworkPasAPas/Router/Route.php:66 | rtrim leaves no listed character at the end, and removes only a suffix |
| Strings.IntToStringRoundTrip | src/FrameworkPasAPas/Http/Response.php:64-68 | the decimal text of an integer reads back as that integer |
| Strings.IntToStringInjective | src/FrameworkPasAPas/Session/Flash.php:31 | two integers with the same decimal text are equal |
| Strings.JoinAppend | src/FrameworkPasAPas/DB/Query/Select.php:54 | implode of one more part adds the separator and that part |
| Values.KeyOf | src/FrameworkPasAPas/Session/Flash.php:31 | a canonical decimal string becomes an integer key, any other string stays a string key |
| Values.KeyOfInjective | src/FrameworkPasAPas/Session/Flash.php:31 | different types are different keys |
| PhpArrays.PutGet | src/FrameworkPasAPas/Http/Request.php:67 | `$e[$k] = $v` then `$e[$k']` reads v for k and the old value for any other key |
| PhpArrays.PutKeys | src/FrameworkPasAPas/DB/Query/Insert.php:27 | assignment keeps an existing key's position and appends a new one, keeping keys distinct |
| PhpArrays.RemoveGet | src/FrameworkPasAPas/Session/Flash.php:43 | after unset, the key is absent and every other key reads as before |
| PhpArrays.RemoveIsWithoutKey | src/FrameworkPasAPas/Controller/ControllerMiddleware.php:61-63 | removing a key and then the reserved keys leaves the same entries, in the same order, as removing all of them at once |
| PhpArrays.MergeGet | src/FrameworkPasAPas/Validation/Validator.php:47 | array_merge: a key of the second array reads its value there, otherwise the first's |
| PhpArrays.UnionGet | src/FrameworkPasAPas/Kernel.php:82 | `$a + $b`: a key of the first array reads its value there, otherwise the second's |

## Left out

- Closures as route handlers, and any callable other than a named function, an invokable object or a [object, method] pair: calling them is the `call` parameter.
- Nested or cyclic gets inside a factory, and factories that throw: a factory is `produce`, a value it returns with no access to the container.
- The kernel's boot (error_reporting, ini_set, the timezone, the `require` of the configuration files) and getProjectDir: they are I/O. The project directory is a constructor parameter.
- Response::send's header(), headers_sent() and echo: they are output. Only its status line and header lines are modelled.
- Header names that are integer keys: headers are a list of string pairs.
- Request::fromGlobals and the superglobals: I/O.
- Integer-keyed arrays in the attribute bag and the validators table, and array_merge's renumbering of integer keys: fields, attribute names and message types are strings. Flash keys follow PHP's conversion of decimal strings to integer keys.
- Case-insensitive method names in method_exists: methods are a set of exact names.
- The tie between an object's `__toString` and its methods: `Obj.toStr` and `Obj.methods` are independent fields, so an object may have a `toStr` while its method set lacks "__toString"; no operation of the model reads both.
- Validators other than Numeric: ValidatorInterface is not part of this model, and a non-validator candidate is refused by addValidator.
- Loose comparisons: the route path comparison `==` acts as exact equality, because both sides start with '/'.
- Routing.Route.Match: the method test is exact membership, while `in_array` at Route.php:37 compares loosely, so two numeric strings of equal value ("1" and "01") would also match; HTTP methods are non-numeric tokens, for which the two agree.
- Routing.MatchIff: states the match for exact method membership only, for the reason given for Routing.Route.Match.
- The ArrayAccess storage of Flash: the storage is a plain ordered array, and `accessible` records whether the constructor's argument was acceptable.
- FileHandler and the other log handlers: the logger's handler is the list of records it received.
- The clock: the timestamp is the string parameter `now`.
- The grammar of is_numeric, json_encode and the rendering of floats: they are parameters (`Builtins`). Values hold no floats.
- sprintf's handling of '%' in a field name of the addValidator message: field names are inserted as text.
- Insert's columns and values are not quoted or escaped, as in the source; the model keeps them as given.
- JsonResponse, Manager (PDO), NativeSessionStorage, AbstractController's setter, MainController and the configuration files are not part of this model.

## Findings

| source | as written | input that shows it | evidently intended | confidence | as-written member | corrected member |
|---|---|---|---|---|---|---|
| src/FrameworkPasAPas/Router/RouterMiddleware.php:36 | `new Response(null, 404)` passes null to the `string $content` parameter, a TypeError | any request that matches no route | a 404 response with empty content | high; not executed | Routing.NotFoundAsWrittenFails | Routing.NotFound |
| src/FrameworkPasAPas/DB/Query/Select.php:56 | the join clauses follow the FROM list with no space | `(new Select(['*']))->from('users')->innerJoin('posts')->limit(1)` gives "SELECT * FROM usersINNER JOIN posts LIMIT 1" | "SELECT * FROM users INNER JOIN posts LIMIT 1" | high; not executed | Query.JoinGluedAsWritten | Query.JoinSeparated |
