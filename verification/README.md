# OxyRoute core in Dafny

A model of the Rust core of OxyRoute, with the parts of its Python layer that the core replaces
or drives, and proofs of what it promises. `dafny verify dfyconfig.toml` checks the project.

| module | models |
|---|---|
| `Dispatch`, `Protocol` | the synchronous short circuit, the full request pipeline, responses and error paths |
| `ShortCircuits`, `Answers`, `Arguments` | what holds of both dispatchers: agreement, one answer, what the handler is given |
| `Traces`, `Pipeline`, `Contract` | what may follow what in the history of a request, and what goes over the wire |
| `State`, `Routing`, `Templates` | registration, snapshots, route tables, 404 and 405 |
| `Registered`, `Configuration` | what registrations and setters come to over a run |
| `OpenApi`, `Documents` | what registration writes into the OpenAPI document |
| `Dependency`, `Injection` | dependency graph, scheduling, running the factories |
| `RateLimit`, `Bucket`, `Limits` | sharded token buckets, and the handler calls they allow |
| `Admission`, `Resilience` | the in-flight counter and the adaptive limit that drives it |
| `Json`, `Sse`, `Params`, `Decimal` | printers and their standard readers, path coercion |
| `Headers`, `Cors`, `Grants`, `Router` | header merging, CORS, nested routers |
| `Names`, `Text`, `Numbers` | sorting, text and integer helpers |

Code that changes state is modelled by classes and loops whose contracts equate the new state
with a function of the old one (`AppState`, `DependencyGraph`, `RateLimiter`,
`AdaptiveConcurrencyLimiter`, `APIRouter`, the JSON writer); the main results are lemmas about
those functions, over every input and every sequence of operations.

Python callables, the RSGI protocol object and libraries are oracles. Those of `Protocol.World`
are given the whole history of the request, so they may keep any state; a request is the history
it adds. matchit is a choice of the matching template of highest priority, with a conflict check
on insertion; a parameter captures a part of the path under the name its template gives it, which
matchit 0.7 reads from the mark to the next slash. Time, tokens, latencies and limits are real numbers; the square root that the
adaptive limiter needs is passed in with the property that it squares to the current limit.

Where the code does not do what its surroundings suggest, the code is modelled and the exact
condition is proved:

- the scanners end a parameter name at the first character that is no ASCII letter, digit or
  underscore, so that a catch-all may be coerced (`Templates.ScansCapturedExactly`,
  `Arguments.PathParamArrivesByMarkExactly`, with `Arguments.CatchAllIsCoerced` as the failing
  input);
- an argument written later overwrites a dependency or a path parameter of the same name; the names
  are `claims`, those of the JSON body, `form`, `files`, `body` and `protocol`
  (`Arguments.HandlerGetsRecursiveValues`, `Arguments.PathParamArrivesExactly`, with
  `Arguments.ClaimsHideDependency` as the failing input);
- an application created with `include_openapi=False` serves the document until something
  rebuilds the snapshot (`State.SnapshotIsCurrentExactly`, and for the request itself
  `ShortCircuits.DocumentIsServedExactly`);
- a registration refused for its method or template is documented all the same
  (`Documents.FailedRegistrationShowsExactly`, with `Documents.TwiceRegistered` as an input);
- `Allow` leaves out matching methods when templates of different methods overlap
  (`Routing.AllowIsCompleteExactly`; `State.OverlapIsReachable` reaches such a state with two
  registrations);
- the two error paths, and with them the two dispatchers on a trivial route, agree only with few
  exception handlers (`Protocol.ErrorPathsAgreeExactly`, `ShortCircuits.ShortCircuitIsInvisibleExactly`);
- native and Python preflight differ on the four information separators, which only Python treats
  as white space (`Cors.NativePreflightIsExact`);
- the rate limiter reads the clock before it takes the shard lock, which is harmless exactly as
  long as locks are taken in the order of the readings (`Bucket.WindowBoundNeedsOrderExactly`, with
  `Bucket.LockOrderMatters` as an example);
- server-sent data is changed by Python's wider notion of a line boundary
  (`Sse.DataArrivesUnchanged`).

## Model

| member | source | states |
|---|---|---|
| `ShortCircuits.ShortCircuitIsInvisible` | src/dispatch.rs:401-547 | In every state satisfying the application's invariant, answering through the short circuit and falling back to the full pipeline when it defers does to the outside world exactly what the full pipeline does: same calls, same responses in order, same error to the server. Holds for every stateful world when no exception handler is registered, for reliable protocols with one synchronous handler, and for all routes that return |
| `ShortCircuits.ShortCircuitIsInvisibleInEveryRun` | src/lib.rs:888-941 | The same, under either condition, for the state reached by any sequence of registrations, settings, freezing and automatic compilation |
| `ShortCircuits.ShortCircuitIsInvisibleExactly` | src/dispatch.rs:496-546 | A request that the short circuit runs itself is treated alike by both dispatchers, for every reliable protocol and every log, if and only if at most one exception handler is registered and it is not async |
| `ShortCircuits.FailedRouteUsesErrorPaths` | src/dispatch.rs:213-312 | When a trivial route fails, each dispatcher ends as its own error path does from the same point |
| `ShortCircuits.AsyncHandlerIsVisible` | src/dispatch.rs:172-205 | With an async handler the dispatchers differ on every trivial route in a concrete world where every handler fails |
| `ShortCircuits.TwoHandlersAreVisible` | src/dispatch.rs:172-205 | With two synchronous handlers they differ on every trivial route in a concrete world where nothing returned can be mapped |
| `ShortCircuits.TrivialRouteInFull` | src/dispatch.rs:213-312 | The full pipeline skips every optional stage for a route marked trivial and then calls, maps, merges and sends as the synchronous route does |
| `ShortCircuits.TrivialHandlerGetsParams` | src/dispatch.rs:246-267 | The final arguments of the handler of a trivial route are those of the path and nothing else, each as its mark promises where it is the last of its name and the scanners tell it apart; they are the names the handler takes if and only if every parameter name of the template consists of letters, digits and underscores |
| `ShortCircuits.RoutesAgree` | src/dispatch.rs:496-546 | Whenever the routing half of the short circuit answers (unsupported method, 404, 405, trivial route) it equals the routing half of the full pipeline |
| `ShortCircuits.OpenapiAgrees` | src/dispatch.rs:462-492 | Both dispatchers send the OpenAPI document alike, for GET and for HEAD |
| `ShortCircuits.DocumentIsServedExactly` | src/dispatch.rs:462-492 | After any sequence of operations, a GET of `/openapi.json` is answered with the document if and only if the flag is set or nothing has ever rebuilt the snapshot |
| `ShortCircuits.NothingToMerge` | src/dispatch.rs:1498-1503 | The guard of the full pipeline around header merging, which the synchronous route does not have, makes no difference |
| `ShortCircuits.EndsAgree` | src/dispatch.rs:163-210 | An attempt ends the same way in both dispatchers if it succeeds or the error paths agree |
| `Protocol.ErrorPathsAgreeExactly` | src/dispatch.rs:315-376 | As long as the protocol object takes every response, the two error paths agree on all errors and worlds if and only if at most one exception handler is registered and it is not async |
| `Protocol.ErrorPathsAgreeEverywhereExactly` | src/dispatch.rs:172-205 | If the protocol object may raise, they agree if and only if no exception handler is registered |
| `Protocol.OneSyncHandlerAgrees` | src/dispatch.rs:323-371 | With one synchronous handler and a reliable protocol both error paths make the same calls and send the same response |
| `Protocol.AsyncHandlerDisagrees` | src/dispatch.rs:176-182 | An async handler makes the error paths differ in a concrete world where every handler fails |
| `Protocol.TwoHandlersDisagree` | src/dispatch.rs:184-201 | Two synchronous handlers make them differ in a concrete world where nothing a handler returns can be mapped |
| `Protocol.RefusedResponseDisagrees` | src/dispatch.rs:188-193 | A refused response makes them differ as soon as one synchronous handler is registered |
| `Protocol.SendPythonErrorSync` | src/dispatch.rs:163-210 | The handler loop, last registered first, skipping async handlers and passing over failures, equals its recursive specification |
| `Protocol.SameHeadSimple` | src/response.rs:98-109 | The asynchronous and the synchronous form of a HEAD response put the same headers on the wire |
| `Protocol.HeadMirrorsGet` | src/dispatch.rs:1695-1760 | A HEAD answered from a return value has the status and headers of the same GET and the length of the body that GET sends, without the body |
| `Protocol.HeadSends` | src/response.rs:384-394 | A content length set by the handler is replaced by the real one |
| `Protocol.GetSends` | src/dispatch.rs:1638-1660 | GET sends the mapped status, the headers in lower case and the mapped body itself, as text or bytes, or none only if it is empty |
| `Protocol.WireHeadersAre` | src/response.rs:111-160 | On the wire names are in lower case and values as they were |
| `Protocol.LengthIsOfEncoding` | src/response.rs:384-394 | The length of a text is that of its UTF-8 encoding |
| `Answers.EveryRequestIsAnsweredOnce` | src/lib.rs:923-941 | Past admission, in every state satisfying the invariant, with any exception handlers and a reliable protocol: an HTTP request that ends without an error has been answered exactly once, or at most once where a return value may say that it was answered already; one that ends with an error not at all. The handler was called at most once, and only if a route matched and the rate limit, the token check and the body bound, for the declared and for the actual size, let the request through |
| `Answers.PipelineAnswersOnce` | src/dispatch.rs:549-1511 | The same of the full pipeline alone, for any snapshot |
| `Answers.SyncAnswersOnce` | src/dispatch.rs:401-547 | The same of the short circuit, whenever it answers |
| `Answers.TrivialAnswersOnce` | src/dispatch.rs:213-312 | A trivial route calls its handler once and answers once, through whichever of its exits; at most once where a return value may say that it was answered already |
| `Answers.UnmatchedIsRefused` | src/dispatch.rs:531-545 | In every state satisfying the invariant, an HTTP request with a known method and no route, which is no preflight, does not ask for the document and is not answered by middleware, gets one response from the server's entry point: 404 exactly if no method matches the path, else 405 whose Allow header lists only methods that match and not the requested one |
| `Answers.HeadBodyExactly` | src/dispatch.rs:315-376 | Where the answer to a HEAD is made: one from a return value has no body, a 404 or 405 always has one, the end of the error paths has one unless its text is empty |
| `Answers.ErrorAnswersOnce` | src/dispatch.rs:315-376 | The asynchronous error path answers exactly once, whichever of its exits is taken; at most once where a return value may say that it was answered already |
| `Answers.ErrorSyncAnswersOnce` | src/dispatch.rs:163-210 | So does the synchronous error path, over any list of handlers |
| `Answers.RouteServedOnce` | src/dispatch.rs:787-1511 | A matched route answers once, or at most once where a return value may say that it was answered already, and calls its handler at most once, and then only after rate limit, token check and the bound on the declared and the actual size of the body |
| `Answers.FinishIsGood` | src/dispatch.rs:1443-1511 | Mapping, response middleware, header merging and sending either fail without having responded or respond exactly once, or at most once where a return value may say that it was answered already |
| `Answers.MiddlewareIsQuiet` | src/dispatch.rs:1446-1497 | Response middleware responds to nothing by itself and does not call the handler |
| `Pipeline.EveryEventIsDue` | src/dispatch.rs:401-1511 | In every state satisfying the invariant, each event of an HTTP request follows from the history before it: request middleware in registered order until one returns something; the handler of the matched route once, awaited if it is async; the k-th response middleware with the mapped return of the event before, all of them in turn; then the response with the configured headers merged into the last mapped return; after an error the exception handlers for it, last registered first, or its report; nothing after a response that was taken; and a request neither stops while a return value waits nor ends without an error when its last response was refused |
| `Pipeline.ThroughOrderly` | src/dispatch.rs:1446-1497 | Each response middleware is called with what the one before returned, and the last return value is left to be sent |
| `Pipeline.RequestOrderly` | src/dispatch.rs:641-664 | Request middleware is called in order as long as each returns nothing |
| `Traces.ErrorFullOrderly` | src/dispatch.rs:315-376 | The exception handlers that take the error are asked in turn, last registered first, until one returns; what it returns, awaited if it is async, is mapped and sent, and if that fails or none is left the error is reported |
| `Traces.ErrorSyncOrderly` | src/dispatch.rs:163-210 | The same for the synchronous path, which passes over async handlers and goes on after one whose return value cannot be mapped |
| `Contract.MergedPerName` | src/dispatch.rs:1766-1817 | Merging keeps status and body; a CORS header for the request's origin replaces the handler's, other headers of the handler stay, and a security header, the transport one under HTTPS only, is added where both lack it |
| `Contract.AllowReadsBack` | src/dispatch.rs:531-545 | The value of an Allow header is read back, word by word, as the methods it was written for |
| `Contract.DocumentIsSent` | src/dispatch.rs:462-492 | A GET of the document is answered 200 with it as JSON, a HEAD with its length |
| `Contract.PreflightIsSent` | src/dispatch.rs:418-454 | A CORS preflight is answered by the compiled configuration, 204 with its headers or 400 with its text, and nothing else happens |
| `Contract.UnknownMethodIsRaised` | src/dispatch.rs:496-546 | A method no router knows is an error to the server |
| `Contract.LimitedIsRefused` | src/dispatch.rs:805-812 | A request its limiter denies gets 429 with the limit and the seconds to wait, before anything else is done |
| `Contract.DeclaredTooLargeIsRefused` | src/dispatch.rs:823-848 | A body that declares too much gets 413 without being read |
| `Contract.ReadTooLargeIsRefused` | src/dispatch.rs:823-872 | A body that is too long when read gets 413, and an error in reading is raised |
| `Contract.UnauthorizedIsRefused` | src/dispatch.rs:872-950 | A token that is not accepted gets 401 with its reason |
| `Contract.BadFormIsRefused` | src/dispatch.rs:975-1035 | A form without a content type gets 400, one that cannot be parsed the status of the parser |
| `Contract.BadJsonIsRefused` | src/dispatch.rs:1270-1400 | JSON that cannot be parsed gets 400, what the body model refuses 422 |
| `Contract.PassingIsAdmitted` | src/dispatch.rs:805-1060 | What passes limiter, body bound, token and form is admitted to its factories and its handler |
| `Contract.FactoriesAreRun` | src/dispatch.rs:1036-1210 | All declared factories are run, with one request context if any of them asks for it; an error in making it, or in one of them, is the error of the attempt |
| `Contract.LaterArgumentsAre` | src/dispatch.rs:1214-1385 | Under which conditions claims, form, files, raw body and protocol object are passed, and as what |
| `Contract.QueryIsPassed` | src/dispatch.rs:1253-1258 | The parsed query is passed as `query` to a handler that takes it |
| `Contract.RegistrationIsEnforced` | src/lib.rs:424-614 | From registration to the call: whatever happens after a registration, its handler is called for a request only if the token is accepted where one was demanded, the limiter does not refuse where a limit was set, and the body fits where one is read |
| `Contract.OnlyItsHandlerIsCalled` | src/lib.rs:424-614 | Whatever happens after a registration, a request for its route calls its handler and no other |
| `Limits.HandlerCallsAreLimited` | src/dispatch.rs:787-830 | In every run of a route's limiter in lock order, full shards included, the handler is called for one key at most limit + rate * (t2 - t1) times between t1 and t2, and one more limit for every eviction of the key |
| `Limits.CallsAreAllowed` | src/dispatch.rs:787-830 | The calls of the handler for one key in a window are at most the decisions of its limiter that allow |
| `Arguments.HandlerGetsRecursiveValues` | src/dispatch.rs:1061-1385 | A dependency that the handler takes is passed to it with the value of the recursive evaluation of the declared graph, whatever claims, form, body and protocol object turn out to be, if and only if nothing later is passed under its name: `claims` behind a token check, the names of a JSON body, `form` and `files` where a form is read, `body`, `protocol` |
| `Arguments.DependencyArrivesExactly` | src/dispatch.rs:1259-1385 | The same for any results of the dependency loop: the value arrives for all other inputs if and only if its name is not written later |
| `Arguments.ArgumentsByName` | src/dispatch.rs:1241-1385 | Name by name, the argument is that of the last source that writes it; names no later source writes keep what path, query and dependencies gave them |
| `Arguments.ClaimsHideDependency` | src/dispatch.rs:1266-1269 | The failing input: behind a token check, a handler that takes its one dependency called `claims` is given the claims of the token |
| `Arguments.ClaimsAreScheduled` | src/lib.rs:487-501 | That dependency can be registered |
| `Arguments.PathParamArrivesExactly` | src/dispatch.rs:1241-1385 | A path parameter, the last captured under its name, arrives as it was put into the dictionary, whatever the other inputs are, if and only if nothing else is passed under its name, dependencies and the query included |
| `Arguments.PathParamArrivesByMarkExactly` | src/state.rs:112-117 | A parameter of a registered template arrives as its mark promises, a catch-all as text and any other coerced, for every path and whatever the other inputs are, if and only if no later parameter has its name, nothing else is passed under its name, and the scanners tell it apart: the name of a catch-all consists of letters, digits and underscores, and no other parameter has the name the scanners make of a catch-all |
| `Arguments.CatchAllIsCoerced` | src/lib.rs:98-118 | The failing input: `/files/*año` can be registered with a handler that takes `año`, and for the segment `42` the handler is given a number |
| `Arguments.CallHasFinalArguments` | src/dispatch.rs:1234-1442 | The dictionary these results speak of is the one in the call of the handler, right after the dependencies |
| `Dispatch.DependencyArgument` | src/dispatch.rs:1259-1265 | No later dependency overwrites the argument of an earlier one |
| `Dispatch.OtherArguments` | src/dispatch.rs:1259-1265 | Arguments under names that are no dependency are left alone |
| `Dispatch.PathArgumentsAreParams` | src/dispatch.rs:246-264 | The dictionary filled from the path has the captured names as keys, and the last parameter of each name is passed as its mark promises where the scanners tell it apart |
| `Dispatch.FillPathKwargs` | src/dispatch.rs:246-264 | The path parameters as keyword arguments, catch-alls kept as text, the last of equal names winning |
| `Dispatch.AddDependencyKwargs` | src/dispatch.rs:1259-1265 | The loop adds exactly the results the handler takes |
| `Dispatch.RunResponseMiddleware` | src/dispatch.rs:1446-1497 | The middleware loop equals its recursive specification: each one sees the response of the previous one, an error or a response already sent ends it |
| `Dispatch.RunRequestMiddleware` | src/dispatch.rs:641-664 | The loop stops at the first middleware that returns something or raises |
| `Injection.LoopComputesRecursiveValues` | src/dispatch.rs:1061-1210 | Running the factories in scheduled order succeeds if and only if every dependency has a value under recursive evaluation of the graph, and then yields exactly those values; otherwise it stops with the error of the first one that has none |
| `Injection.ResultsAreMade` | src/dispatch.rs:1061-1210 | Running a schedule gives one result for each entry, made by calling its factory with the earlier results it takes, awaiting what an async one returns and resolving a query; or it ends with the error that the first of these to fail raises |
| `Injection.ValueIsMade` | src/dispatch.rs:1061-1210 | The recursive value of an entry whose predecessors have values is what its factory makes of them in these three steps, and its error what one of the steps raises |
| `Injection.AsyncResultsAreAwaited` | src/dispatch.rs:1095-1114 | No result of an async factory is a coroutine, if awaiting leaves these and queries do not lead back to them |
| `Injection.ScheduleIgnoresDeclarationOrder` | src/lib.rs:487-501 | The scheduled list is the same for every permutation of the declared list; no hash iteration order enters it |
| `Injection.PrerequisitesComeFirst` | src/lib.rs:487-501 | The schedule holds every declared entry, and every declared prerequisite of an entry comes before it |
| `Injection.ScheduleIsDetermined` | src/lib.rs:487-501 | The schedule is in this order |
| `Injection.ScheduleFailsExactly` | src/lib.rs:166-171 | Registration reports a duplicate exactly if two names are equal, and a cycle exactly if names are unique and the declared graph has a directed cycle |
| `Injection.InputsAreDeclared` | src/dispatch.rs:1065-1077 | The keys of the dictionary passed to a factory without arbitrary keywords are exactly its declared prerequisites, wherever the schedule puts it, and `request` if it wants the request |
| `Injection.ScheduleIsOrdered` | src/lib.rs:487-501 | Every schedule meets the condition under which the loop is proved to compute recursive values |
| `Injection.BuildGraphFromEntries` | src/dependency.rs:87-105 | The graph built has the entries as nodes and an edge for each declared parameter that names an entry |
| `Injection.AddPrerequisites` | src/dependency.rs:95-102 | Looping over the parameters of one entry adds exactly its edges, in any order of iteration |
| `Injection.CheckNames` | src/lib.rs:158-171 | The name scan accepts exactly the lists without repetition |
| `Injection.ReorderDependencies` | src/lib.rs:487-501 | Building the graph, sorting it and looking the entries up by name equals the schedule |
| `Injection.FactoryKwargs` | src/dispatch.rs:1065-1077 | The keyword dictionary of one factory equals its specification over the earlier results |
| `Injection.ResolveDependencies` | src/dispatch.rs:1061-1210 | The dependency loop equals the recursive run specification, the first failure being final |
| `Dependency.SortFailsExactlyOnCycles` | src/dependency.rs:78-82 | The sort fails if and only if the graph contains a directed cycle |
| `Dependency.SortIsTopological` | src/dependency.rs:40-83 | A successful sort lists every node once with every edge pointing forward |
| `Dependency.OrderIsDetermined` | src/dependency.rs:51-76 | At every point, of all nodes whose prerequisites have been listed, the next one is that whose last prerequisite was listed last; of several the one with the least name, or, without prerequisites, with the greatest |
| `Dependency.FailureLeavesCycle` | src/dependency.rs:78-82 | The nodes a failed sort leaves out contain a cycle, by walking back along prerequisites until one repeats |
| `Dependency.CycleHasNoOrder` | src/dependency.rs:37-39 | A graph with a cycle has no topological order |
| `Dependency.DependencyGraph.TopologicalSort` | src/dependency.rs:40-83 | Counting, decrementing, pushing and popping in place yields Kahn's order with the deterministic stack; no in-degree ever underflows |
| `Dependency.DependencyGraph.Decrement` | src/dependency.rs:61-71 | One pass over the dependents lowers each in-degree by one and collects exactly those that reach zero |
| `Dependency.DependencyGraph.CountInDegrees` | src/dependency.rs:41-49 | The counting loops give every node the number of its prerequisites |
| `Dependency.DependencyGraph.Roots` | src/dependency.rs:51-56 | The initial stack holds the nodes without prerequisites, sorted |
| `Dependency.DependencyGraph.EnsureNode` | src/dependency.rs:22-25 | Adds the node and no edge |
| `Dependency.DependencyGraph.AddEdge` | src/dependency.rs:28-35 | Adds both nodes and exactly this edge |
| `Names.SortIsSorted` | src/dependency.rs:56-71 | Sorting distinct names depends on their set only, so that hash order cannot leak into the result |
| `State.InvariantHoldsInEveryRun` | src/lib.rs:400-665 | After any sequence of registrations, failed registrations, setter calls, freezing and automatic compilation: compiled tables, if present, are the live routers; the snapshot holds them; every index is in range of the snapshot's own routes and names the entry with that template, which matchit can read; masks and routers agree; a frozen application is compiled |
| `State.MatchingIsTheSameCompiled` | src/state.rs:412-435 | Matching gives the same result with and without compiled tables, and a match leads to an entry of the request's own snapshot whose template matches the path and names the parameters captured |
| `State.RegisteredRouteIsFound` | src/lib.rs:597-612 | A successful registration installs its entry for its verb, which had none for that template |
| `Registered.RegisteredRouteReflects` | src/lib.rs:400-614 | After a registration and any later operations, the route found for its verb and template has the registration's handler, token, body, form, async, model, parameter and limit settings, and a permutation of its dependencies |
| `Registered.RegistrationSucceedsExactly` | src/lib.rs:424-614 | A registration succeeds if and only if the application is not frozen, the algorithms are known, at most one body mode is set, a demanded token has a secret that fits, dependencies have unique names and no cycle, limit and texts parse, and the router of the method takes the template |
| `Registered.ErrorHasItsReason` | src/lib.rs:424-614 | Each error names something that is wrong |
| `State.RegistrationsStay` | src/lib.rs:542-612 | A registered route keeps its entry through every later sequence of operations |
| `State.FailedRegistrationKeepsTables` | src/lib.rs:545-604 | A failed registration leaves snapshot, routers and compiled tables as they were, and at most one orphan entry |
| `State.OrphansAreNeverServed` | src/lib.rs:545-604 | No router ever leads to an orphan, whatever is registered later |
| `State.SnapshotIsCurrentExactly` | src/lib.rs:355-365 | The snapshot's settings are the current ones if and only if the application was created with its OpenAPI route or something has rebuilt the snapshot since: the constructor does not |
| `Configuration.SettingsAre` | src/lib.rs:667-840 | After any run: exception handlers and response middleware in the order in which they were added, request middleware added since it was last set, flag and configurations as they were last set, with the compiled forms of exactly these |
| `State.DeclarationOrderIsImmaterial` | src/lib.rs:482-541 | Permuting the declared dependencies of a registration changes neither its outcome nor its entry |
| `State.HeadComesWithGet` | src/state.rs:20-31 | As long as nothing is registered for HEAD itself, every template of the shared router allows GET |
| `State.OverlapIsReachable` | src/lib.rs:597-609 | Registering GET on `/a/:id` and POST on `/a/static` leads to a valid state in which a PUT of `/a/static` gets a 405 that leaves out GET, which matches |
| `State.WithRouteKeepsMasks` | src/lib.rs:606-609 | Inserting a route and its mask keeps masks and routers in agreement |
| `State.WithRouteHas` | src/lib.rs:598-605 | A new route is found through its verb's router only, HEAD sharing that of GET; all others keep their index |
| `State.AppState.constructor` | src/state.rs:195-251 | The empty state, with the snapshot that serves OpenAPI whatever the flag |
| `State.AppState.AddRoute` | src/lib.rs:400-614 | The method equals its specification on state values, error cases included |
| `State.AppState.AppendRoute` | src/lib.rs:542-613 | The part under the write lock: append, validate, write the document, insert, set the mask, drop the compiled tables, rebuild |
| `State.AppState.CheckRegistration` | src/lib.rs:424-509 | The checks made before anything changes, in the order of the source |
| `State.AppState.NewEntry` | src/lib.rs:510-560 | The entry built, trivial exactly if it needs no body, token, dependency or limit and takes exactly its path parameters |
| `State.AppState.InsertRoute` | src/state.rs:378-392 | Inserting into the verb's router, or the error for an unsupported verb or a conflicting template |
| `State.AppState.SnapshotRouters` | src/state.rs:279-295 | Copying the routers and inserting the masks one by one gives the live tables |
| `State.AppState.RebuildSnapshot` | src/state.rs:253-270 | The snapshot becomes the current routes, tables and settings; nothing else changes |
| `State.AppState.Freeze` | src/lib.rs:657-665 | Freezing compiles if needed and rebuilds the snapshot |
| `State.AppState.EnsureCompiled` | src/dispatch.rs:378-393 | The tables are compiled once and returned |
| `State.AppState.Set` | src/lib.rs:667-840 | Each setter changes its settings and rebuilds the snapshot; an unknown middleware phase changes nothing |
| `Documents.EveryRouteIsListed` | src/lib.rs:583-613 | After any sequence of operations the document has an operation for every registered route |
| `Documents.FailedRegistrationShowsExactly` | src/lib.rs:583-605 | A refused registration changes the document if and only if it is refused for its method or its template and the document did not say the same before |
| `Documents.ConflictIsDocumented` | src/lib.rs:583-605 | A second registration of a template is refused, the document says what it asked for, and the first goes on answering |
| `Documents.TwiceRegistered` | src/lib.rs:583-605 | An input: of two registrations of `GET /a`, the handler of the first answers and the document describes the second |
| `Documents.OtherCaseIsDocumented` | src/lib.rs:288-337 | A method in another case is refused, and overwrites what the document says of the method: `get` that of GET |
| `OpenApi.OpenapiPathAndParams` | src/lib.rs:212-243 | The loop puts the scanned parameters of a template in braces and lists them in order |
| `OpenApi.OpenapiAddPath` | src/lib.rs:266-340 | Writes one operation under its path and lower-case method, and declares the bearer scheme if it is secured |
| `OpenApi.WrittenIs` | src/lib.rs:266-340 | What is written is the described operation, the parameters of the path first, under its path and method |
| `OpenApi.ParamsAreScanned` | src/lib.rs:212-243 | The document names exactly the parameters the scanners find |
| `OpenApi.BracedPath` | src/lib.rs:212-243 | A parameter gets braces in the document's path |
| `OpenApi.WritingShowsExactly` | src/lib.rs:266-340 | Writing an operation leaves the document as it is if and only if it was there already |
| `OpenApi.WritingKeeps` | src/lib.rs:266-340 | Writing an operation takes none away and lists its own |
| `Routing.NotFoundExactly` | src/dispatch.rs:531-545 | For a known method without a match the list of allowed methods is empty, which means 404, exactly if no method router matches the path; the requested method is never listed |
| `Routing.AllowedMethodsMatch` | src/state.rs:342-349 | Every listed method really matches the path |
| `Routing.EmptyListExactly` | src/state.rs:342-376 | The list is empty exactly if no router matches |
| `Routing.AllowIsCompleteExactly` | src/state.rs:342-376 | The bitmask lookup equals the scan of all routers, in content and order, if and only if every method registered at any template that matches the path is allowed at the best one |
| `Routing.AllowIsCompleteByMasksExactly` | src/state.rs:342-376 | Where HEAD is registered only along with GET, the masks alone decide: if and only if the best matching template allows whatever any matching template allows |
| `Routing.UniqueTemplateIsComplete` | src/state.rs:342-376 | In particular they are equal where no path matches two templates |
| `Routing.OverlapHidesMethod` | src/state.rs:342-349 | With overlapping templates of different methods the list leaves out a method that matches |
| `Routing.ListIsMaskOfBest` | src/state.rs:342-349 | The list is what the best matching template allows |
| `Routing.MethodsMatchingPath` | src/state.rs:342-376 | The lookup with its fallback scan and flag array equals its specification |
| `Routing.Have` | src/state.rs:350-370 | The flag array records which routers match, GET also for HEAD |
| `Routing.ToVec` | src/state.rs:37-54 | The methods of a mask in their fixed order |
| `Routing.InsertAllows` | src/state.rs:20-35 | Inserting a method into a mask adds exactly the methods it serves, HEAD along with GET |
| `Routing.Matcher.At` | src/state.rs:332-339 | A lookup yields the matching template that beats all others, and none exactly if none matches |
| `Templates.ScanNames` | src/lib.rs:98-141 | The nested scan finds exactly the names that follow a mark, cut at the first character that is no name character |
| `Templates.WildcardParamNames` | src/lib.rs:98-118 | The names of catch-all parameters |
| `Templates.AllPathParamNames` | src/lib.rs:121-141 | The names of all parameters |
| `Templates.WildcardsAreParams` | src/lib.rs:98-141 | Every catch-all is among the parameters |
| `Templates.ScansCapturedExactly` | src/lib.rs:98-141 | Each scanner finds the names that matchit captures, from the mark to the next slash, if and only if all of them consist of letters, digits and underscores |
| `Templates.ScannedFromCaptured` | src/lib.rs:98-141 | Whatever the names, the scanners find their longest beginnings of letters, digits and underscores that are not empty |
| `Templates.WildcardIsTold` | src/lib.rs:98-118 | When the scanner for catch-alls lists a parameter exactly if it is one |
| `Bucket.WindowBound` | src/rate_limit.rs:174-232 | Between any two times at most limit + rate * (t2 - t1) requests of one key are allowed |
| `Bucket.WindowBoundNeedsOrderExactly` | src/rate_limit.rs:174-178 | For any sequence of clock readings in lock order: the window bound holds, for every limit, rate and window, for all its prefixes continued by any number of checks at the latest time read, if and only if the readings never decrease |
| `Bucket.StepBackBreaksBound` | src/rate_limit.rs:174-178 | Wherever a reading goes back, some limit and rate let one request too many through at the latest time |
| `Bucket.WindowBoundWithEvictions` | src/rate_limit.rs:181-232 | A bucket that is evicted now and then keeps the window bound plus what its evictions give back |
| `Bucket.TokensStayInBounds` | src/rate_limit.rs:199-205 | Tokens stay between zero and the limit |
| `Bucket.PatientClientIsNeverDenied` | src/rate_limit.rs:199-221 | A client that spaces its requests at least 1 / rate apart is never denied |
| `Bucket.LazyRefillIsContinuous` | src/rate_limit.rs:199-231 | Lazy refill, which writes nothing back on a denial, makes the decisions of a continuously refilled bucket, reset hints included |
| `Bucket.ResetSecsIsLeastWait` | src/rate_limit.rs:223-231 | The reset hint of a denial is the least positive whole number of seconds after which a check succeeds |
| `Bucket.AllowedResetSecs` | src/rate_limit.rs:207-216 | The reset hint of a success: the least whole wait for the next success if no token is left, else until the bucket is full |
| `Bucket.RemainingIsExact` | src/rate_limit.rs:207-216 | The remaining number of a success is the number of further checks allowed at once, and decisions carry the configured limit |
| `Bucket.LockOrderMatters` | src/rate_limit.rs:176-178 | An example: three requests at one instant against a limit of two |
| `RateLimit.ShardingIsInvisible` | src/rate_limit.rs:168-197 | Over every run in which no shard fills, the sharded limiter decides as one unbounded map of buckets does |
| `RateLimit.RunsAreWellKept` | src/rate_limit.rs:181-197 | In every run each shard holds at most 8192 keys, each at most 256 bytes long and in its own shard, with tokens in bounds |
| `RateLimit.StoredKeysWereChecked` | src/rate_limit.rs:180-197 | Every key stored at any moment of any run is the truncated form of a key checked before |
| `RateLimit.KeysAreIndependent` | src/rate_limit.rs:174-232 | The decisions of one key are those of a bucket of its own, whatever other keys do |
| `RateLimit.LimiterWindowBound` | src/rate_limit.rs:174-232 | The window bound for every key of the whole limiter |
| `RateLimit.LimiterWindowBoundWithEvictions` | src/rate_limit.rs:174-232 | For every key of the whole limiter and every run in lock order, full shards included: at most limit + rate * (t2 - t1) allowed requests, and one more limit for every eviction of that key |
| `RateLimit.KeyIsItsMoves` | src/rate_limit.rs:174-232 | In every run, evictions included, the decisions for one key are those of its own bucket, checked and evicted in the order of the run |
| `RateLimit.CheckKeeps` | src/rate_limit.rs:174-232 | One check keeps every shard well kept, evictions included |
| `RateLimit.TruncatedIsLongest` | src/rate_limit.rs:112-121 | A key is stored under its longest prefix of at most 256 bytes that ends at a character boundary |
| `RateLimit.TruncatedIsUtf8` | src/rate_limit.rs:112-121 | Truncation never cuts a character and loses at most three bytes below the bound |
| `RateLimit.TruncateKey` | src/rate_limit.rs:112-121 | The loop that lowers the end equals the specification |
| `RateLimit.RateLimiter.constructor` | src/rate_limit.rs:155-165 | Sixteen empty shards |
| `RateLimit.RateLimiter.Check` | src/rate_limit.rs:174-232 | One call looks up or inserts its key in its shard, evicting one entry of a full shard, and leaves all other shards alone |
| `RateLimit.RateLimiter.EntryOf` | src/rate_limit.rs:181-197 | The bucket found or inserted, and the entry evicted for it, if any |
| `RateLimit.RateLimiter.Spend` | src/rate_limit.rs:199-231 | Refill, decide and write back only on success |
| `Admission.CounterIsExactInEveryRun` | src/lib.rs:888-941 | Over all interleavings in_flight equals live guards plus requests between their add and what follows it, is never negative, and is 0 at rest |
| `Admission.GuardsNeverExceedLimit` | src/lib.rs:897-921 | With every limit in use between 1 and some bound, never more live guards than the bound |
| `Admission.EveryDecisionIsExact` | src/lib.rs:893-921 | In every run, a decision comes after a load and an add of the same request and rejects it if and only if the limit it loaded is positive and, when it added, live guards and pending requests numbered at least that limit |
| `Admission.FirstComeFirstServed` | src/lib.rs:893-921 | With a positive limit, of n requests decided one after the other the first ones up to the limit get guards and the others are rejected |
| `Admission.LimitIsLastStored` | src/lib.rs:893-921 | The limit in force is the last one stored |
| `Admission.ZeroIsUnlimited` | src/lib.rs:917-921 | The limit 0 admits any number of requests at once |
| `Admission.AdaptiveLimitGoverns` | oxyroute/resilience.py:43-75 | With the adaptive limiter storing limits between request steps, no more than max_limit requests are ever admitted together, and the stored limit is always the limiter's and never 0 |
| `Admission.StepKeepsLimit` | src/lib.rs:897-921 | Every atomic step keeps guards held and guards promised within the bound |
| `Resilience.LimitFloor` | oxyroute/resilience.py:50-73 | If all accepted latencies lie in [lo, hi], the limit never falls below the smaller of its start and 1 / (1 - lo / hi)^2, over any run |
| `Resilience.RunStaysInRange` | oxyroute/resilience.py:68-70 | In every run the limit stays within its bounds and its whole part is never 0 |
| `Resilience.MinRttIsWindowMinimum` | oxyroute/resilience.py:53-54 | The recorded minimum is the exact minimum of the last window of accepted samples |
| `Resilience.LimitMovesExactly` | oxyroute/resilience.py:62-70 | With a sample the limit falls if and only if it is above its lower bound and the part of it that waits, by the ratio of minimum to average latency, exceeds the headroom; it rises if and only if it is below its upper bound and that part is smaller |
| `Resilience.LimitMovesBy` | oxyroute/resilience.py:62-70 | Inside the bounds it makes up the share `smoothing` of the difference |
| `Resilience.LimitFallsWithLatency` | oxyroute/resilience.py:57-70 | The slower requests have been on average, the lower the limit after the next one |
| `Resilience.AdjustsExactly` | oxyroute/resilience.py:50-61 | At every point of a run the samples that adjust the limit are those that took some time and ended in success |
| `Resilience.AverageIsOfAllLatencies` | oxyroute/resilience.py:56-59 | The average is that of all accepted latencies, whatever has left the window |
| `Resilience.ConstructedIsNew` | oxyroute/resilience.py:19-41 | Whatever the arguments, the constructor leaves a limiter without samples and within its bounds, from which the results on runs start |
| `Resilience.ConstructedIs` | oxyroute/resilience.py:19-41 | Bounds in order, the start moved between them, a window of at least ten |
| `Resilience.AdaptiveConcurrencyLimiter.constructor` | oxyroute/resilience.py:19-41 | Bounds and starting limit are put in order, and the application is told |
| `Resilience.AdaptiveConcurrencyLimiter.OnRequestCompleted` | oxyroute/resilience.py:43-75 | One call updates window, minimum, average and limit as specified, and tells the application exactly if it adjusted |
| `Resilience.AdaptiveConcurrencyLimiter.AdjustLimit` | oxyroute/resilience.py:62-70 | Gradient, headroom, smoothing and clamping give the adjusted limit |
| `Resilience.AdaptiveConcurrencyLimiter.Push` | oxyroute/resilience.py:37-53 | The bounded deque keeps the last samples |
| `Json.WrittenReadsBack` | src/schema.rs:237-370 | What is written for an accepted value reads back, under the grammar of RFC 8259 and the visitor, to the same value with tuples turned into lists |
| `Json.AcceptedRoundTrip` | src/schema.rs:229-370 | For such a value, writing succeeds exactly up to 128 levels of nesting, and the round trip holds |
| `Json.WritableExactly` | src/schema.rs:237-242 | Writing a plain value succeeds if and only if its height fits what is left of the depth bound |
| `Json.OnlyPlainIsWritten` | src/schema.rs:237-370 | Whatever holds a foreign object, a key that is no text or an integer beyond 128 bits is refused, at any depth |
| `Json.TextIsJoined` | src/schema.rs:293-365 | Lists and dictionaries are their parts in brackets or braces, with a comma and a space between them and a colon and a space after keys |
| `Json.EscapesAre` | src/schema.rs:237-292 | Only quotes, backslashes and control characters are escaped, each in its one way |
| `Json.ValueReads` | src/schema.rs:237-370 | The parser reads the text of every accepted value back to its tree and leaves what follows it |
| `Json.VisitsToImage` | src/schema.rs:99-211 | The visitor turns the tree of a value into that value as Python sees it |
| `Json.WritePyJson` | src/schema.rs:237-370 | The writer fails exactly on values that are not writable and otherwise appends exactly their text |
| `Json.WriteItems` | src/schema.rs:326-365 | Lists and tuples: brackets, and a separator before every item but the first |
| `Json.WriteMembers` | src/schema.rs:293-325 | Dictionaries: braces, and a failure at the first key that is no text |
| `Json.PyToJsonBytes` | src/schema.rs:376-388 | The entry point starts at depth 0 and returns nothing on failure |
| `Json.BuildPy` | src/schema.rs:101-211 | The visitor equals its specification |
| `Json.VisitSeq` | src/schema.rs:185-196 | The list is filled in order |
| `Json.VisitMap` | src/schema.rs:198-210 | The dictionary is filled in order, a repeated key keeping its place with its last value |
| `Json.SetItemIs` | src/schema.rs:198-210 | A key that is there already keeps its place and gets the new value |
| `Json.SetItemAppends` | src/schema.rs:198-210 | A new key goes to the end |
| `Json.IntegersAreRead` | src/schema.rs:99-140 | A number is read as an integer if it has neither fraction nor exponent, fits 64 bits with or without a sign and is not minus zero, else as a float |
| `Sse.StreamIsReadBack` | oxyroute/sse.py:34-56 | Reading the concatenated chunks by sections 9.2.5 and 9.2.6 of the HTML Living Standard dispatches exactly one message per item, in order, with its name, its data and the last identifier carried over |
| `Sse.DataArrivesUnchanged` | oxyroute/sse.py:46-47 | The data arrives as given if and only if its only line boundaries are line feeds and it does not end in one |
| `Sse.SplitsAtBoundary` | oxyroute/sse.py:46-47 | Data is cut at every line boundary, a carriage return with its line feed being one |
| `Sse.AcceptableExactly` | oxyroute/sse.py:36-43 | The accepted events have no line break in name and identifier |
| `Sse.ReadChunk` | oxyroute/sse.py:34-48 | One chunk dispatches one message and leaves the buffers empty |
| `Sse.LinesOfChunk` | oxyroute/sse.py:46-48 | A chunk is read as its own lines and a blank one, whatever follows |
| `Sse.FormatSseEvent` | oxyroute/sse.py:34-48 | The formatter accepts exactly the events without line breaks in name and identifier and joins their lines |
| `Params.CoercedToIntegerExactly` | src/params.rs:88-106 | A segment becomes the integer i if and only if it is the canonical decimal printing of i and i fits in 64 bits |
| `Params.IntegerLiteralIsPrintedInteger` | src/params.rs:40-61 | The accepted literals are exactly the printed integers |
| `Params.DistinctSegmentsDistinctIntegers` | src/params.rs:88-106 | Distinct segments never become equal integers |
| `Params.FloatLiteralShape` | src/params.rs:63-81 | A float literal is an optional minus sign, a canonical integer part, a point and digits, and nothing else |
| `Params.CoercedByShape` | src/params.rs:88-106 | `true` and `false` are the only booleans, and a float has the value of its digits |
| `Params.KeptAsTextExactly` | src/params.rs:88-106 | A segment stays text exactly if it is no boolean, no 64-bit integer and no float literal |
| `Headers.MergePerName` | src/dispatch.rs:1766-1905 | Name by name, ignoring case: a CORS name occurs once with its last CORS value, other handler headers are as the handler left them, a security header appears once with its first value only where otherwise absent |
| `Headers.OtherHeadersKeepOrder` | src/dispatch.rs:1819-1905 | The handler's other headers survive unchanged and in order |
| `Headers.MergeIsIdempotent` | src/dispatch.rs:1766-1905 | Applying the whole merge twice equals applying it once |
| `Headers.ReplacedIs` | src/dispatch.rs:1832-1835 | What a replacing merge leaves, in closed form |
| `Headers.CompletedIs` | src/dispatch.rs:1875-1879 | What a completing merge leaves, in closed form |
| `Headers.ReplacedNamesOccurOnce` | src/dispatch.rs:1832-1835 | Each configured name occurs once after a replacing merge |
| `Headers.CompletedCounts` | src/dispatch.rs:1875-1879 | A completing merge adds a name only if it was absent, once, the first value winning |
| `Headers.Replace` | src/dispatch.rs:1819-1860 | The retain and push loop equals its specification |
| `Headers.Complete` | src/dispatch.rs:1862-1905 | The loop that pushes what is absent equals its specification |
| `Headers.Retain` | src/dispatch.rs:1832-1835 | Removing one name, ignoring case |
| `Headers.MergeConfigResponseHeaders` | src/dispatch.rs:1766-1817 | Security headers first, then CORS headers |
| `Cors.NativePreflightIsExact` | src/cors.rs:89-147 | Native and Python preflight agree for every configuration if and only if the request has no U+001C to U+001F at the ends of its method and, where it names an origin, in its header list, unless that list also holds a name no list allows |
| `Cors.CleanPreflightsAgree` | src/cors.rs:111-147 | On such requests status, message and headers are the same for every configuration |
| `Cors.SameResponseHeaders` | src/cors.rs:150-171 | On ordinary responses both forms yield the same headers in the same order, for every configuration and origin |
| `Grants.PreflightIsGrantedExactly` | src/cors.rs:111-147 | A preflight is granted if and only if its method is listed, its origin is listed or the list is the wildcard alone without credentials, and its headers are listed or their list is the wildcard alone; the answer names what is granted, the refusal the first of the three that is not |
| `Grants.ResponseIsGrantedExactly` | src/cors.rs:150-171 | What an ordinary response to an origin carries |
| `Grants.CredentialsAreNeverWild` | src/cors.rs:68-87 | With credentials the wildcard is never sent to an origin |
| `Grants.ListReadsBack` | src/cors.rs:93-105 | A list of names written with commas is read back name by name |
| `Cors.RefusalsDiffer` | src/cors.rs:111-121 | The refusals are told apart by what is sent |
| `Cors.UncleanMethodDisagrees` | oxyroute/cors.py:89-91 | A configuration on which an unclean method is answered differently |
| `Cors.PythonAllowsMore` | oxyroute/cors.py:116-128 | A configuration under which Python allows a header list that the native form refuses |
| `Cors.NativeAllowsMore` | src/cors.rs:93-105 | A configuration under which the native form allows what Python refuses |
| `Router.NestingIsOneInclusion` | oxyroute/router.py:60-70 | Routers nested to any depth register the same verbs, paths, handlers and options as one inclusion with the folded prefix and the folded defaults |
| `Router.InnermostDefaultWins` | oxyroute/router.py:67-70 | The folded defaults hold, for every option some level sets, the value of the innermost such level |
| `Router.JoinIsAssociative` | oxyroute/router.py:16-37 | Joining is associative for all strings |
| `Router.JoinIsRooted` | oxyroute/router.py:24-37 | A joined path starts with a slash and does not end in white space |
| `Router.PlainJoin` | oxyroute/router.py:16-37 | A prefix and a path without frills are put together as they are |
| `Router.NormalOfJoin` | oxyroute/router.py:29-37 | As a prefix, a joined path is its two parts in turn |
| `Router.APIRouter.Reg` | oxyroute/router.py:51-58 | Registering appends one route without its empty options |
| `Router.APIRouter.IncludeRouter` | oxyroute/router.py:60-70 | Including appends every route with its method, its handler, the prefix and its own options over the defaults, and leaves the included router alone; an empty router may be included into itself |
| `Router.APIRouter.IncludeOne` | oxyroute/router.py:67-70 | One round appends one route with prefix and merged options, whether or not the two routers are the same |
| `Router.SelfInclusionNeverEnds` | oxyroute/router.py:60-70 | When a router with routes is included into itself, every round of the loop is made and leaves a further route to read |

## Left out

- Bucket.WindowBound: for times that do not decrease in lock order; `Bucket.WindowBoundNeedsOrderExactly` shows that the order is needed.
- RateLimit.ShardingIsInvisible: for runs in which no shard fills, since an eviction forgets a bucket; `RateLimit.RunsAreWellKept`, `RateLimit.KeyIsItsMoves` and `RateLimit.LimiterWindowBoundWithEvictions` have no such condition.
- RateLimit.RateLimiter.Check: floating-point rounding, the `as u64` saturation of hints and window lengths that parse to NaN or infinity are not modelled; parsing of limit texts and of key strategies is not either.
- Resilience.LimitFloor: over real numbers, without floating-point rounding.
- Json.WrittenReadsBack: floats are not among the written values, integers beyond 64 bits are written but read back as floats, and text with lone surrogates, which the writer refuses, is outside Dafny's characters.
- Json.AcceptedRoundTrip: reads by the RFC grammar; the recursion limit of the JSON library's own reader is not modelled.
- Cors.NativePreflightIsExact: for configurations and requests in ASCII, so that the case mappings of both languages coincide.
- Router.APIRouter.IncludeRouter: a router with routes that is included into itself is excluded, since the loop of the source does not end; `Router.SelfInclusionNeverEnds` shows that every round leaves a further route to read.
- ShortCircuits.ShortCircuitIsInvisible: taking the snapshot and compiling its tables is one step, so a route registered in between is not seen; with exception handlers the condition is the one under which the error paths agree, which `ShortCircuits.ShortCircuitIsInvisibleExactly` shows to be needed.
- Routing.Matcher.At: equal priorities are settled by the text of the templates; matchit's tree and its priorities are not modelled, nor what it demands of a template beyond names that are not empty and hold no second mark: the rest is part of the conflict check.
- State.InvariantHoldsInEveryRun: building the compiled tables is taken not to fail on templates that conflict across methods, which the source expects too; a failed insertion leaves its router as it was.
- Answers.EveryRequestIsAnsweredOnce: for a protocol object that takes every response, since one that raises may see a second attempt by the error path; a handler that says it has answered already is believed, so that such a request counts as answered at most once; requests refused at admission are the subject of `Admission`.
- `map_handler_return` and `structured_from_status_body` are one oracle; so are token validation, form parsing, query parsing, body models and the calls of Python configuration objects.
- Scope attributes are taken to be present; looking up a request header is an oracle that yields only values that are not empty.
- Factory calls are one event of a request's history; their order and arguments are the subject of `Injection`.
- WebSocket routes and dispatch, database pools, static files, streaming responses.
- The OpenAPI document beyond its operations and bearer scheme: its texts, its string cache and its setters; registration errors in its texts are one error, and methods in lower case are those of ASCII.
- The Python application layer beyond `APIRouter`: decorators, lifespan, the filtering of merged options by parameter names.
- The GIL, asyncio and Tokio: a request's steps are atomic except for those of `Admission`.
