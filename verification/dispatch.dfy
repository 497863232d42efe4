/** The two dispatchers of `src/dispatch.rs`: the synchronous short circuit and the full pipeline.
    Both are functions from the history before the request to what they add to it. */
module Dispatch {
  import opened Text
  import opened Names
  import opened Injection
  import opened Headers
  import opened Params
  import opened Protocol
  import opened Routing
  import opened State
  import Cors
  import Decimal
  import Templates

  /** The scope of a request; `header` finds a header that is present and not empty. */
  datatype Request = Request(
    proto: string,
    verb: Verb,
    path: string,
    queryString: string,
    scheme: string,
    header: string -> Option<string>)
  {
    predicate IsHead() {
      verb.HEAD?
    }
  }

  datatype JwtRefusal = Unauthorized | Expired {
    function Message(): string {
      if Expired? then "Expired" else "Unauthorized"
    }
  }

  /** What a JSON body turns into: an argument, a 400 for broken JSON, or a 422 from the model. */
  datatype JsonBody = Valid(value: Py) | Malformed(text: string) | Invalid(text: string)

  /** A parsed form, or the status and text it is refused with. */
  datatype FormBody = Form(form: Py, files: Py) | BadForm(status: int, text: string)

  /** The libraries the pipeline hands texts and bytes to, the limiter of a route, and the errors
      raised for impossible requests. */
  datatype Services = Services(
    openapi: string,
    denied: (History, RouteEntry, Request) -> Option<(nat, nat)>,
    maxBody: nat,
    readLength: string -> Option<nat>,
    bodyBytes: Py -> Bytes,
    authorize: (RouteEntry, Option<string>, Option<string>) -> Result<Py, JwtRefusal>,
    parseQuery: string -> map<string, string>,
    queryDict: map<string, string> -> Py,
    noForm: (Py, Py),
    parseForm: (string, Bytes) -> FormBody,
    parseJson: (Option<Py>, Bytes) -> JsonBody,
    bytesObject: Bytes -> Py,
    protocolObject: Py,
    requestContext: Request -> PyResult,
    noContext: Py,
    websocket: (History, Request) -> Outcome,
    methodError: PyErr,
    routeIndexError: PyErr)

  // ---- Parts both dispatchers have -----------------------------------------------------------

  /** A CORS preflight that is answered natively. */
  function Preflight(st: Settings, req: Request): Option<Cors.PreflightResult> {
    if !req.verb.OPTIONS? || st.compiledCors.None? then None
    else match req.header("access-control-request-method")
      case None => None
      case Some(acrm) => Some(st.compiledCors.value.HandlePreflight(
                                acrm, Or(req.header("origin"), ""),
                                Or(req.header("access-control-request-headers"), "")))
  }

  function Or(o: Option<string>, default: string): string {
    if o.Some? then o.value else default
  }

  function AnswerPreflight(w: World, log: History, r: Cors.PreflightResult): Outcome {
    match r
    case Ok(headers) => SendWithHeaders(w, log, 204, [], headers)
    case Err(refusal) =>
      SendText(w, log, refusal.Answer().0, refusal.Answer().1, "text/plain; charset=utf-8")
  }

  predicate AsksForOpenapi(st: Settings, req: Request) {
    (req.verb.GET? || req.verb.HEAD?) && req.path == "/openapi.json" && st.includeOpenapi
  }

  /** 404 when no method matches the path, else 405 with the methods that do. */
  function NoRoute(w: World, log: History, methods: seq<Verb>): Outcome {
    if methods == [] then SendText(w, log, 404, "Not Found", "text/plain; charset=utf-8")
    else Send(w, log, 405, [("allow", AllowValue(methods)), ("content-type", "text/plain; charset=utf-8")],
              Raw(Ascii("Method Not Allowed")))
  }

  function AllowValue(methods: seq<Verb>): string {
    Join(seq(|methods|, i requires 0 <= i < |methods| => VerbName(methods[i])), ", ")
  }

  /** The argument a path parameter becomes: a catch-all stays text. */
  function PathArgument(w: World, wildcards: set<string>, name: string, value: string): Py {
    w.toPy(if name in wildcards then StrParam(value) else ValueForPathParam(value))
  }

  function PathKwargs(w: World, wildcards: set<string>, params: PathParams): Kwargs {
    if params == [] then map[] else
      var (k, v) := params[|params| - 1];
      PathKwargs(w, wildcards, params[..|params| - 1])[k := PathArgument(w, wildcards, k, v)]
  }

  method FillPathKwargs(w: World, wildcards: set<string>, params: PathParams) returns (kwargs: Kwargs)
    ensures kwargs == PathKwargs(w, wildcards, params)
  {
    kwargs := map[];
    for i := 0 to |params|
      invariant kwargs == PathKwargs(w, wildcards, params[..i])
    {
      var (k, v) := params[i];
      assert params[..i + 1][..i] == params[..i];
      kwargs := kwargs[k := PathArgument(w, wildcards, k, v)];
    }
    assert params[..|params|] == params;
  }

  /** What the mark of a parameter promises: a catch-all is passed as text, any other coerced. */
  function ByMark(w: World, p: Templates.Param, segment: string): Py {
    w.toPy(if Templates.IsWildcard(p.mark) then StrParam(segment) else ValueForPathParam(segment))
  }

  /** No later parameter of the template has the name. */
  predicate LastOfName(ps: seq<Templates.Param>, k: nat)
    requires k < |ps|
  {
    forall l | k < l < |ps| :: ps[l].name != ps[k].name
  }

  lemma {:induction false} PathValue(w: World, wildcards: set<string>, params: PathParams, k: nat)
    requires k < |params| && forall l | k < l < |params| :: params[l].0 != params[k].0
    ensures var kwargs := PathKwargs(w, wildcards, params);
            params[k].0 in kwargs && kwargs[params[k].0] == PathArgument(w, wildcards, params[k].0, params[k].1)
  {
    if k < |params| - 1 {
      PathValue(w, wildcards, params[..|params| - 1], k);
    }
  }

  lemma {:induction false} PathKeys(w: World, wildcards: set<string>, ps: seq<Templates.Param>, segments: seq<string>)
    requires |ps| == |segments|
    ensures PathKwargs(w, wildcards, Labelled(ps, segments)).Keys == set p | p in ps :: p.name
  {
    if ps != [] {
      var n := |ps| - 1;
      assert Labelled(ps, segments)[..n] == Labelled(ps[..n], segments[..n]);
      assert ps == ps[..n] + [ps[n]];
      PathKeys(w, wildcards, ps[..n], segments[..n]);
    }
  }

  /** The dictionary filled from the path has the captured names as keys. The last parameter of a
      name is passed as its mark promises where the scanners tell it apart. */
  lemma PathArgumentsAreParams(w: World, t: string, segments: seq<string>)
    requires Templates.WellFormed(t) && |segments| == |Templates.Params(t)|
    ensures var ps := Templates.Params(t);
            var kwargs := PathKwargs(w, Templates.ParamNames(t, Templates.IsWildcard), Labelled(ps, segments));
            && kwargs.Keys == Templates.CapturedNames(t, Templates.IsParam)
            && (forall k | 0 <= k < |ps| && LastOfName(ps, k) && Templates.ToldApart(t, ps[k]) ::
                  ps[k].name in kwargs && kwargs[ps[k].name] == ByMark(w, ps[k], segments[k]))
  {
    var ps, wildcards := Templates.Params(t), Templates.ParamNames(t, Templates.IsWildcard);
    PathKeys(w, wildcards, ps, segments);
    forall p | p in ps ensures Templates.IsParam(p.mark) {
      Templates.CapturedAtMark(t, p);
    }
    forall k | 0 <= k < |ps| && LastOfName(ps, k) && Templates.ToldApart(t, ps[k])
      ensures var kwargs := PathKwargs(w, wildcards, Labelled(ps, segments));
              ps[k].name in kwargs && kwargs[ps[k].name] == ByMark(w, ps[k], segments[k])
    {
      PathValue(w, wildcards, Labelled(ps, segments), k);
      Templates.WildcardIsTold(t, ps[k]);
    }
  }

  /** The result of the steps that Python exceptions can end. */
  datatype Attempt<T> = Done(log: History, value: T) | Failed(log: History, error: PyErr)

  /** The security header pairs for a response. */
  function SecurityPairs(w: World, st: Settings, req: Request, log: History): Result<HeaderList, PyErr> {
    if st.compiledSecurityHeaders.Some? then Ok(st.compiledSecurityHeaders.value.ResponseHeaderPairs(req.scheme))
    else if st.securityHeaders.Some? then w.configPairs(log, st.securityHeaders.value)
    else Ok([])
  }

  /** The CORS header pairs for a response; none without an Origin header. */
  function CorsPairs(w: World, st: Settings, req: Request, log: History): Result<HeaderList, PyErr> {
    if st.compiledCors.Some? then
      match req.header("origin")
      case Some(origin) => Ok(st.compiledCors.value.ResponseHeaderPairs(origin))
      case None => Ok([])
    else if st.cors.Some? && req.header("origin").Some? then w.configPairs(log, st.cors.value)
    else Ok([])
  }

  /** `merge_config_response_headers`. */
  function MergeHeaders(w: World, st: Settings, req: Request, log: History, mapped: HandlerMap): Result<HandlerMap,
                        PyErr> {
    if mapped.AlreadySent? then Ok(mapped)
    else match SecurityPairs(w, st, req, log)
      case Err(e) => Err(e)
      case Ok(security) =>
        match CorsPairs(w, st, req, log)
        case Err(e) => Err(e)
        case Ok(cors) => Ok(MergeConfig(mapped, security, cors))
  }

  function Deliver(w: World, req: Request, log: History, mapped: Result<HandlerMap, PyErr>): Attempt<()> {
    match mapped
    case Err(e) => Failed(log, e)
    case Ok(response) =>
      var sent := SendMapped(w, log, req.IsHead(), response);
      if sent.raised.None? then Done(sent.log, ()) else Failed(sent.log, sent.raised.value)
  }

  // ---- The synchronous short circuit -----------------------------------------------------------

  /** Call the handler of a trivial route, map, merge and send. */
  function TrivialAttempt(w: World, st: Settings, req: Request, e: RouteEntry, params: PathParams,
                          log: History): Attempt<()> {
    var log := log + [SetTemplate(e.pathTemplate)];
    var log := log + [CallHandler(e.handler, PathKwargs(w, e.wildcardParams, params))];
    match w.answer(log)
    case Err(err) => Failed(log, err)
    case Ok(out) =>
      match w.mapReturn(log, out)
      case Err(err) => Failed(log, err)
      case Ok(mapped) => Deliver(w, req, log, MergeHeaders(w, st, req, log, mapped))
  }

  /** `run_trivial_sync_route`. */
  function RunTrivialSyncRoute(w: World, st: Settings, req: Request, e: RouteEntry, params: PathParams,
                               log: History): Outcome {
    match TrivialAttempt(w, st, req, e, params, log)
    case Done(after, _) => Outcome(after, None)
    case Failed(after, err) => ErrorSync(w, after, req.IsHead(), st.exceptionHandlers, err)
  }

  datatype ShortCircuit = Answered(outcome: Outcome) | Deferred

  predicate HasUncompiledConfig(st: Settings) {
    (st.cors.Some? && st.compiledCors.None?) || (st.securityHeaders.Some? && st.compiledSecurityHeaders.None?)
  }

  /** `try_rsgi_sync_short_circuit`. */
  function TrySync(w: World, p: Services, m: Matcher, snap: FrozenState, compiled: CompiledRouters, req: Request,
                   log: History):
    ShortCircuit
  {
    var st := snap.settings;
    if req.proto == "websocket" then Deferred
    else if req.proto != "http" then Answered(Outcome(log, None))
    else if Preflight(st, req).Some? then Answered(AnswerPreflight(w, log, Preflight(st, req).value))
    else if st.requestMiddleware != [] || st.responseMiddleware != [] then Deferred
    else if AsksForOpenapi(st, req) then Answered(OpenapiSync(w, p, req, log))
    else RouteSync(w, p, m, snap, compiled, req, log)
  }

  function OpenapiSync(w: World, p: Services, req: Request, log: History): Outcome {
    var log := log + [SetTemplate("/openapi.json")];
    if req.IsHead() then SendHeadSimpleSync(w, log, 200, Utf8Len(p.openapi), "application/json; charset=utf-8")
    else SendStr(w, log, 200, p.openapi, "application/json; charset=utf-8")
  }

  function RouteSync(w: World, p: Services, m: Matcher, snap: FrozenState, compiled: CompiledRouters, req: Request,
                     log: History):
    ShortCircuit
  {
    match MatchRoute(m, compiled, req.verb, req.path)
    case None => Answered(Outcome(log, Some(p.methodError)))
    case Some(None) => Answered(NoRoute(w, log, MethodsMatching(m, compiled, req.path)))
    case Some(Some((idx, params))) =>
      if HasUncompiledConfig(snap.settings) then Deferred
      else if idx >= |snap.routes| then Answered(Outcome(log, Some(p.routeIndexError)))
      else if snap.routes[idx].trivialSync then
        Answered(RunTrivialSyncRoute(w, snap.settings, req, snap.routes[idx], params, log))
      else Deferred
  }

  // ---- The full pipeline -----------------------------------------------------------------------

  /** The response middleware in turn; a response already sent ends the loop. */
  function ThroughResponse(w: World, log: History, middleware: seq<Py>, mapped: HandlerMap): Attempt<HandlerMap>
    decreases |middleware|
  {
    if middleware == [] || mapped.AlreadySent? then Done(log, mapped) else
      var log := log + [CallResponseMiddleware(middleware[0], mapped)];
      match w.answer(log)
      case Err(e) => Failed(log, e)
      case Ok(out) =>
        match w.mapReturn(log, out)
        case Err(e) => Failed(log, e)
        case Ok(next) => ThroughResponse(w, log, middleware[1..], next)
  }

  method RunResponseMiddleware(w: World, log: History, middleware: seq<Py>, response: HandlerMap)
    returns (r: Attempt<HandlerMap>)
    ensures r == ThroughResponse(w, log, middleware, response)
  {
    var now, mapped := log, response;
    if middleware != [] && !mapped.AlreadySent? {
      for i := 0 to |middleware|
        invariant !mapped.AlreadySent?
        invariant ThroughResponse(w, now, middleware[i..], mapped) == ThroughResponse(w, log, middleware, response)
      {
        assert middleware[i..][1..] == middleware[i + 1..];
        now := now + [CallResponseMiddleware(middleware[i], mapped)];
        var out := w.answer(now);
        if out.Err? {
          return Failed(now, out.error);
        }
        var next := w.mapReturn(now, out.value);
        if next.Err? {
          return Failed(now, next.error);
        }
        mapped := next.value;
        if mapped.AlreadySent? {
          break;
        }
      }
    }
    return Done(now, mapped);
  }

  /** Map a return value, pass it through the response middleware, merge headers and send. */
  function Finish(w: World, st: Settings, req: Request, log: History, out: Py): Attempt<()> {
    match w.mapReturn(log, out)
    case Err(e) => Failed(log, e)
    case Ok(mapped) =>
      match ThroughResponse(w, log, st.responseMiddleware, mapped)
      case Failed(log, e) => Failed(log, e)
      case Done(log, mapped) =>
        Deliver(w, req, log,
                if st.securityHeaders.Some? || st.cors.Some? then MergeHeaders(w, st, req, log, mapped) else Ok(mapped))
  }

  function End(w: World, st: Settings, req: Request, a: Attempt<()>): Outcome {
    match a
    case Done(log, _) => Outcome(log, None)
    case Failed(log, e) => ErrorFull(w, log, req.IsHead(), st.exceptionHandlers, e)
  }

  /** The request middleware in turn, until one returns something. */
  function ThroughRequest(w: World, log: History, middleware: seq<Py>): Attempt<Option<Py>>
    decreases |middleware|
  {
    if middleware == [] then Done(log, None) else
      var log := log + [CallRequestMiddleware(middleware[0])];
      match w.answer(log)
      case Err(e) => Failed(log, e)
      case Ok(out) => if w.isNone(out) then ThroughRequest(w, log, middleware[1..]) else Done(log, Some(out))
  }

  method RunRequestMiddleware(w: World, log: History, middleware: seq<Py>) returns (r: Attempt<Option<Py>>)
    ensures r == ThroughRequest(w, log, middleware)
  {
    var now := log;
    for i := 0 to |middleware|
      invariant ThroughRequest(w, now, middleware[i..]) == ThroughRequest(w, log, middleware)
    {
      assert middleware[i..][1..] == middleware[i + 1..];
      now := now + [CallRequestMiddleware(middleware[i])];
      var out := w.answer(now);
      if out.Err? {
        return Failed(now, out.error);
      }
      if !w.isNone(out.value) {
        return Done(now, Some(out.value));
      }
    }
    return Done(now, None);
  }

  /** A step that either goes on or has ended the request. */
  datatype Stage<T> = Go(log: History, value: T) | Stop(outcome: Outcome)

  predicate Wants(e: RouteEntry, name: Name) {
    e.handlerVarkw || name in e.handlerParamNames
  }

  function RateStage(w: World, p: Services, req: Request, e: RouteEntry, log: History): Stage<()> {
    if e.rateLimiter.None? || p.denied(log, e, req).None? then Go(log, ()) else
      var (limit, resetSecs) := p.denied(log, e, req).value;
      Stop(SendRateLimited(w, log, limit, resetSecs))
  }

  /** `send_429_rate_limited`. */
  function SendRateLimited(w: World, log: History, limit: nat, resetSecs: nat): Outcome {
    Send(w, log, 429, [("content-type", "application/json; charset=utf-8"),
                       ("ratelimit-limit", Decimal.PrintNat(limit)), ("ratelimit-remaining", "0"),
                       ("ratelimit-reset", Decimal.PrintNat(resetSecs)), ("retry-after", Decimal.PrintNat(resetSecs))],
         Raw(Ascii("{\"detail\":\"Too Many Requests\"}")))
  }

  predicate ReadsBody(e: RouteEntry) {
    e.readJsonBody || e.readFormBody || Wants(e, "body")
  }

  function DeclaredLength(p: Services, req: Request): Option<nat> {
    if req.header("content-length").None? then None else p.readLength(req.header("content-length").value)
  }

  function TooLarge(w: World, log: History): Outcome {
    SendText(w, log, 413, "{\"error\":\"payload too large\"}", "application/json; charset=utf-8")
  }

  /** A body is refused by its declared length before it is read, and by its real one after. */
  function BodyStage(w: World, p: Services, req: Request, e: RouteEntry, log: History): Stage<Bytes> {
    if !ReadsBody(e) then Go(log, [])
    else if DeclaredLength(p, req).Some? && DeclaredLength(p, req).value > p.maxBody then Stop(TooLarge(w, log))
    else
      var log := log + [ReadBody];
      match w.answer(log)
      case Err(err) => Stop(Outcome(log, Some(err)))
      case Ok(o) =>
        if |p.bodyBytes(o)| > p.maxBody then Stop(TooLarge(w, log)) else Go(log, p.bodyBytes(o))
  }

  function AuthStage(w: World, p: Services, req: Request, e: RouteEntry, log: History): Stage<Option<Py>> {
    if !e.requireJwt then Go(log, None)
    else match p.authorize(e, req.header("authorization"), req.header("cookie"))
      case Ok(claims) => Go(log, Some(claims))
      case Err(refusal) => Stop(SendText(w, log, 401, refusal.Message(), "text/plain; charset=utf-8"))
  }

  predicate MayHaveBody(v: Verb) {
    v.POST? || v.PUT? || v.PATCH? || v.DELETE?
  }

  predicate HasJsonBody(e: RouteEntry, req: Request, body: Bytes) {
    e.readJsonBody && !e.readFormBody && MayHaveBody(req.verb) && body != []
  }

  function FormStage(w: World, p: Services, req: Request, e: RouteEntry, body: Bytes, log: History): Stage<(Py, Py)> {
    if !e.readFormBody || !MayHaveBody(req.verb) || body == [] then Go(log, p.noForm)
    else match req.header("content-type")
      case None =>
        Stop(SendText(w, log, 400, "{\"error\":\"missing content-type\"}", "application/json; charset=utf-8"))
      case Some(ct) =>
        match p.parseForm(ct, body)
        case Form(form, files) => Go(log, (form, files))
        case BadForm(status, text) => Stop(SendText(w, log, status, text, "application/json; charset=utf-8"))
  }

  /** The request context, if some factory wants it. */
  function ContextFor(p: Services, req: Request, e: RouteEntry): PyResult {
    if exists d | d in e.dependencies :: d.wantsRequest then p.requestContext(req) else Ok(p.noContext)
  }

  /** The context, then the factories. */
  ghost function DependencyAttempt(w: World, p: Services, req: Request, e: RouteEntry, log: History): Attempt<seq<Py>> {
    match ContextFor(p, req, e)
    case Err(err) => Failed(log, err)
    case Ok(request) =>
      if e.dependencies == [] then Done(log, []) else
        var callbacks := w.callbacks(log);
        var log := log + [RunFactories(e.dependencies)];
        match Run(callbacks, e.dependencies, request, [])
        case Err(err) => Failed(log, err)
        case Ok(results) => Done(log, results)
  }

  /** What the pipeline has gathered for the handler besides the path parameters. */
  datatype Inputs = Inputs(
    query: map<string, string>,
    results: seq<Py>,
    claims: Option<Py>,
    body: Bytes,
    form: (Py, Py))

  function Gathered(p: Services, req: Request, e: RouteEntry, results: seq<Py>, claims: Option<Py>, body: Bytes,
                    form: (Py, Py)): Inputs
  {
    Inputs(if Wants(e, "query") then p.parseQuery(req.queryString) else map[], results, claims, body, form)
  }

  /** The results of the dependencies the handler takes, added to the arguments. */
  function DependencyKwargs(e: RouteEntry, results: seq<Py>, kwargs: Kwargs, n: nat): Kwargs
    requires n <= |results| && n <= |e.dependencies|
  {
    if n == 0 then kwargs else
      var before := DependencyKwargs(e, results, kwargs, n - 1);
      if Wants(e, e.dependencies[n - 1].name) then before[e.dependencies[n - 1].name := results[n - 1]] else before
  }

  method AddDependencyKwargs(e: RouteEntry, results: seq<Py>, start: Kwargs) returns (kwargs: Kwargs)
    requires |results| <= |e.dependencies|
    ensures kwargs == DependencyKwargs(e, results, start, |results|)
  {
    kwargs := start;
    for i := 0 to |e.dependencies|
      invariant kwargs == DependencyKwargs(e, results, start, if i < |results| then i else |results|)
    {
      if i < |results| {
        if e.handlerVarkw || e.dependencies[i].name in e.handlerParamNames {
          kwargs := kwargs[e.dependencies[i].name := results[i]];
        }
      }
    }
  }

  predicate PassesBody(e: RouteEntry, req: Request, body: Bytes) {
    !e.readFormBody && body != [] && !HasJsonBody(e, req, body)
  }

  predicate TakesDependency(e: RouteEntry, results: seq<Py>)
    requires |results| <= |e.dependencies|
  {
    exists i | 0 <= i < |results| :: Wants(e, e.dependencies[i].name)
  }

  predicate UsesKwargs(e: RouteEntry, req: Request, params: PathParams, i: Inputs)
    requires |i.results| <= |e.dependencies|
  {
    || params != [] || i.query != map[] || TakesDependency(e, i.results) || i.claims.Some?
    || HasJsonBody(e, req, i.body) || (e.readFormBody && (Wants(e, "form") || Wants(e, "files")))
    || PassesBody(e, req, i.body) || Wants(e, "protocol")
  }

  /** The arguments that come before the body. */
  function PlainKwargs(w: World, p: Services, e: RouteEntry, params: PathParams, i: Inputs): Kwargs
    requires |i.results| <= |e.dependencies|
  {
    var kw := PathKwargs(w, e.wildcardParams, params);
    var kw := if i.query != map[] then kw["query" := p.queryDict(i.query)] else kw;
    var kw := DependencyKwargs(e, i.results, kw, |i.results|);
    if i.claims.Some? then kw["claims" := i.claims.value] else kw
  }

  function JsonKwargs(e: RouteEntry, kw: Kwargs, value: Py): Kwargs {
    if e.bodyModel.None? then kw["json" := value] else
      var target := if e.bodyParamName == "" then "json" else e.bodyParamName;
      var kw := kw[target := value];
      if target != "json" && e.handlerVarkw then kw["json" := value] else kw
  }

  function BodyKwargs(p: Services, e: RouteEntry, req: Request, kw: Kwargs, i: Inputs): Kwargs {
    var kw :=
      if e.readFormBody then
        var kw := if Wants(e, "form") then kw["form" := i.form.0] else kw;
        if Wants(e, "files") then kw["files" := i.form.1] else kw
      else if PassesBody(e, req, i.body) then kw["body" := p.bytesObject(i.body)] else kw;
    if Wants(e, "protocol") then kw["protocol" := p.protocolObject] else kw
  }

  /** The keyword arguments of the handler, unless the body is not what it should be. */
  function ArgumentStage(w: World, p: Services, req: Request, e: RouteEntry, params: PathParams, i: Inputs,
                         log: History):
    Stage<Kwargs>
    requires |i.results| <= |e.dependencies|
  {
    if !UsesKwargs(e, req, params, i) then Go(log, map[]) else
      var kw := PlainKwargs(w, p, e, params, i);
      if !HasJsonBody(e, req, i.body) then Go(log, BodyKwargs(p, e, req, kw, i))
      else match p.parseJson(e.bodyModel, i.body)
        case Valid(value) => Go(log, BodyKwargs(p, e, req, JsonKwargs(e, kw, value), i))
        case Malformed(text) => Stop(SendText(w, log, 400, text, "application/json; charset=utf-8"))
        case Invalid(text) => Stop(SendText(w, log, 422, text, "application/json; charset=utf-8"))
  }

  /** Call the handler and await what an async one returns. */
  function CallAttempt(w: World, e: RouteEntry, kwargs: Kwargs, log: History): Attempt<Py> {
    var log := log + [CallHandler(e.handler, kwargs)];
    match w.answer(log)
    case Err(err) => Failed(log, err)
    case Ok(res) =>
      if !e.isAsync then Done(log, res)
      else if w.future(res).Some? then Failed(log, w.future(res).value)
      else
        var log := log + [AwaitHandler(res)];
        match w.answer(log)
        case Err(err) => Failed(log, err)
        case Ok(out) => Done(log, out)
  }

  function HandlerAttempt(w: World, st: Settings, req: Request, e: RouteEntry, kwargs: Kwargs,
                          log: History): Attempt<()> {
    match CallAttempt(w, e, kwargs, log)
    case Failed(log, err) => Failed(log, err)
    case Done(log, out) => Finish(w, st, req, log, out)
  }

  function ServeHandler(w: World, p: Services, st: Settings, req: Request, e: RouteEntry, params: PathParams, i: Inputs,
                        log: History): Outcome
    requires |i.results| <= |e.dependencies|
  {
    match ArgumentStage(w, p, req, e, params, i, log)
    case Stop(o) => o
    case Go(log, kwargs) => End(w, st, req, HandlerAttempt(w, st, req, e, kwargs, log))
  }

  lemma {:induction false} RunLength(w: Callbacks, deps: seq<DependencyEntry>, request: Py, outs: seq<Py>)
    requires |outs| <= |deps|
    ensures Run(w, deps, request, outs).Ok? ==> |Run(w, deps, request, outs).value| == |deps|
    decreases |deps| - |outs|
  {
    if |outs| < |deps| {
      var o := Invoke(w, deps[|outs|], ArgsAt(deps, outs, request));
      if o.Ok? {
        RunLength(w, deps, request, outs + [o.value]);
      }
    }
  }

  lemma DependencyResults(w: World, p: Services, req: Request, e: RouteEntry, log: History)
    ensures var a := DependencyAttempt(w, p, req, e, log);
            a.Done? ==> |a.value| == |e.dependencies|
  {
    forall request { RunLength(w.callbacks(log), e.dependencies, request, []); }
  }

  /** The rest of the pipeline once the request is admitted. */
  ghost function ServeAdmitted(w: World, p: Services, st: Settings, req: Request, e: RouteEntry, params: PathParams,
                               body: Bytes, claims: Option<Py>, form: (Py, Py), log: History): Outcome
  {
    DependencyResults(w, p, req, e, log);
    match DependencyAttempt(w, p, req, e, log)
    case Failed(log, err) => ErrorFull(w, log, req.IsHead(), st.exceptionHandlers, err)
    case Done(log, results) =>
      ServeHandler(w, p, st, req, e, params, Gathered(p, req, e, results, claims, body, form), log)
  }

  ghost function ServeWithBody(w: World, p: Services, st: Settings, req: Request, e: RouteEntry, params: PathParams,
                               body: Bytes, log: History): Outcome
  {
    match AuthStage(w, p, req, e, log)
    case Stop(o) => o
    case Go(log, claims) =>
      match FormStage(w, p, req, e, body, log)
      case Stop(o) => o
      case Go(log, form) => ServeAdmitted(w, p, st, req, e, params, body, claims, form, log)
  }

  /** The pipeline of a matched route. */
  ghost function ServeRoute(w: World, p: Services, st: Settings, req: Request, e: RouteEntry, params: PathParams,
                            log: History):
    Outcome
  {
    match RateStage(w, p, req, e, log)
    case Stop(o) => o
    case Go(log, _) =>
      match BodyStage(w, p, req, e, log + [SetTemplate(e.pathTemplate)])
      case Stop(o) => o
      case Go(log, body) => ServeWithBody(w, p, st, req, e, params, body, log)
  }

  ghost function RouteFull(w: World, p: Services, m: Matcher, snap: FrozenState, compiled: CompiledRouters,
                           req: Request,
                           log: History): Outcome
  {
    match MatchRoute(m, compiled, req.verb, req.path)
    case None => Outcome(log, Some(p.methodError))
    case Some(None) => NoRoute(w, log, MethodsMatching(m, compiled, req.path))
    case Some(Some((idx, params))) =>
      if idx >= |snap.routes| then Outcome(log, Some(p.routeIndexError))
      else ServeRoute(w, p, snap.settings, req, snap.routes[idx], params, log)
  }

  function OpenapiFull(w: World, p: Services, req: Request, log: History): Outcome {
    var log := log + [SetTemplate("/openapi.json")];
    if req.IsHead() then SendHeadSimple(w, log, 200, Utf8Len(p.openapi), "application/json; charset=utf-8")
    else SendStr(w, log, 200, p.openapi, "application/json; charset=utf-8")
  }

  /** `run_rsgi`. */
  ghost function RunRsgi(w: World, p: Services, m: Matcher, snap: FrozenState, compiled: CompiledRouters, req: Request,
                         log: History): Outcome
  {
    var st := snap.settings;
    if req.proto == "websocket" then p.websocket(log, req)
    else if req.proto != "http" then Outcome(log, None)
    else if AsksForOpenapi(st, req) then OpenapiFull(w, p, req, log)
    else if Preflight(st, req).Some? then AnswerPreflight(w, log, Preflight(st, req).value)
    else match ThroughRequest(w, log, st.requestMiddleware)
      case Failed(log, e) => ErrorFull(w, log, req.IsHead(), st.exceptionHandlers, e)
      case Done(log, Some(out)) => End(w, st, req, Finish(w, st, req, log, out))
      case Done(log, None) => RouteFull(w, p, m, snap, compiled, req, log)
  }

  /** `handle_rsgi` after admission: the full pipeline only if the short circuit defers. */
  ghost function HandleRsgi(w: World, p: Services, m: Matcher, snap: FrozenState, compiled: CompiledRouters,
                            req: Request,
                            log: History): Outcome
  {
    match TrySync(w, p, m, snap, compiled, req, log)
    case Answered(outcome) => outcome
    case Deferred => RunRsgi(w, p, m, snap, compiled, req, log)
  }

  // ---- What the handler receives of its dependencies -------------------------------------------

  lemma {:induction false} DependencyArgument(e: RouteEntry, results: seq<Py>, kwargs: Kwargs, n: nat, i: nat)
    requires i < n <= |results| && n <= |e.dependencies|
    requires UniqueNames(e.dependencies) && Wants(e, e.dependencies[i].name)
    ensures var r := DependencyKwargs(e, results, kwargs, n);
            e.dependencies[i].name in r && r[e.dependencies[i].name] == results[i]
  {
    if i < n - 1 {
      assert e.dependencies[i].name != e.dependencies[n - 1].name;
      DependencyArgument(e, results, kwargs, n - 1, i);
    }
  }

  lemma {:induction false} OtherArguments(e: RouteEntry, results: seq<Py>, kwargs: Kwargs, n: nat, name: Name)
    requires n <= |results| && n <= |e.dependencies| && name !in NamesOf(e.dependencies)
    ensures var r := DependencyKwargs(e, results, kwargs, n);
            (name in r <==> name in kwargs) && (name in r ==> r[name] == kwargs[name])
  {
    if n > 0 {
      assert e.dependencies[n - 1] in e.dependencies;
      OtherArguments(e, results, kwargs, n - 1, name);
    }
  }
}
