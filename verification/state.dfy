/** The application state of `src/state.rs` and the operations of `src/lib.rs` that change it:
    registration, settings, freezing, and the read-side snapshot that requests use. */
module State {
  import opened Text
  import opened Names
  import opened Injection
  import opened Routing
  import Bucket
  import Cors
  import OpenApi
  import Templates

  // ---- Values ----------------------------------------------------------------------------------

  datatype RouteEntry = RouteEntry(
    handler: Py,
    bodyModel: Option<Py>,
    pathTemplate: string,
    jwtCookie: Option<string>,
    dependencies: seq<DependencyEntry>,
    handlerParamNames: set<Name>,
    bodyParamName: string,
    rateLimiter: Option<Bucket.Config>,
    wildcardParams: set<string>,
    isAsync: bool,
    requireJwt: bool,
    readJsonBody: bool,
    readFormBody: bool,
    handlerVarkw: bool,
    trivialSync: bool,
    hasRateLimit: bool)

  const RESERVED: set<Name> :=
    {"query", "request", "scope", "proto", "protocol", "body", "form", "files", "claims"}

  /** The route can be served without a body, a token, dependencies or a rate limit, and its
      handler takes exactly the path parameters. */
  ghost predicate IsTrivial(e: RouteEntry) {
    && !e.isAsync && !e.requireJwt && !e.readJsonBody && !e.readFormBody
    && e.dependencies == [] && e.rateLimiter.None?
    && !e.handlerVarkw && e.handlerParamNames !! RESERVED
    && e.handlerParamNames == Templates.ParamNames(e.pathTemplate, Templates.IsParam)
  }

  ghost predicate EntryAgrees(e: RouteEntry) {
    && (e.trivialSync <==> IsTrivial(e))
    && (e.hasRateLimit <==> e.rateLimiter.Some?)
    && e.wildcardParams == Templates.ParamNames(e.pathTemplate, Templates.IsWildcard)
  }

  datatype ExceptionHandler = ExceptionHandler(excType: Py, handler: Py, isAsync: bool)

  /** The `Strict-Transport-Security` value and the other security headers in order. */
  datatype CompiledSecurityHeaders = CompiledSecurityHeaders(hsts: Option<string>, others: seq<(string, string)>) {
    function ResponseHeaderPairs(scheme: string): seq<(string, string)> {
      if scheme == "https" && hsts.Some? then [("Strict-Transport-Security", hsts.value)] + others else others
    }
  }

  datatype Settings = Settings(
    includeOpenapi: bool,
    requestMiddleware: seq<Py>,
    responseMiddleware: seq<Py>,
    exceptionHandlers: seq<ExceptionHandler>,
    cors: Option<Py>,
    compiledCors: Option<Cors.CompiledCorsConfig>,
    securityHeaders: Option<Py>,
    compiledSecurityHeaders: Option<CompiledSecurityHeaders>)
  {
    /** A compiled form belongs to a configured object. */
    predicate Agree() {
      (compiledCors.Some? ==> cors.Some?) && (compiledSecurityHeaders.Some? ==> securityHeaders.Some?)
    }
  }

  const DEFAULTS := Settings(true, [], [], [], None, None, None, None)

  /** The immutable view that a request works with. */
  datatype FrozenState = FrozenState(routes: seq<RouteEntry>, compiled: Option<CompiledRouters>, settings: Settings)

  /** The whole state: `live` holds the per-method routers and the masks that registration
      changes. */
  datatype AppValue = AppValue(
    routes: seq<RouteEntry>,
    live: CompiledRouters,
    compiled: Option<CompiledRouters>,
    frozen: bool,
    settings: Settings,
    snapshot: FrozenState,
    document: OpenApi.Document)

  const NO_ROUTERS := CompiledRouters(map[], map[], map[], map[], map[], map[], map[])

  function Initial(includeOpenapi: bool): AppValue {
    var settings := DEFAULTS.(includeOpenapi := includeOpenapi);
    AppValue([], NO_ROUTERS, None, false, settings, FrozenState([], None, DEFAULTS), OpenApi.EMPTY)
  }

  // ---- Operations on values ------------------------------------------------------------------

  function Rebuilt(s: AppValue): AppValue {
    s.(snapshot := FrozenState(s.routes, s.compiled, s.settings))
  }

  /** What `add_route` is given, with what Python reports about the handler and what the token,
      rate limit and schema parsers make of their texts; there is no description if one of its texts
      is broken. */
  datatype Registration = Registration(
    verb: Verb,
    path: string,
    handler: Py,
    isAsync: bool,
    paramNames: set<Name>,
    varkw: bool,
    requireJwt: bool,
    knownAlgorithms: bool,
    jwtSecret: Option<string>,
    keyFits: bool,
    jwtCookie: Option<string>,
    readJsonBody: bool,
    readFormBody: bool,
    dependencies: seq<DependencyEntry>,
    bodyModel: Option<Py>,
    bodyParamName: Option<string>,
    rateLimit: Option<Option<Bucket.Config>>,
    description: Option<OpenApi.Description>)

  datatype RegistrationError =
    | AppFrozen
    | UnknownAlgorithm
    | BodyModesExclusive
    | MissingSecret
    | IncompatibleKey
    | BadDependencies(cause: ScheduleError)
    | BadRateLimit
    | BadDocumentation
    | UnsupportedMethod
    | TemplateConflict

  /** The entry of a registration whose dependencies have been put in order. */
  ghost function EntryFor(reg: Registration, dependencies: seq<DependencyEntry>): (e: RouteEntry)
    ensures EntryAgrees(e)
  {
    var limiter := if reg.rateLimit.Some? then reg.rateLimit.value else None;
    var e := RouteEntry(reg.handler, reg.bodyModel, reg.path, reg.jwtCookie, dependencies, reg.paramNames,
                        if reg.bodyParamName.Some? then reg.bodyParamName.value else "json",
                        limiter, Templates.ParamNames(reg.path, Templates.IsWildcard),
                        reg.isAsync, reg.requireJwt, reg.readJsonBody, reg.readFormBody, reg.varkw,
                        false, limiter.Some?);
    e.(trivialSync := IsTrivial(e))
  }

  /** The checks made before anything is changed. */
  ghost function Checked(reg: Registration): Result<RouteEntry, RegistrationError> {
    CheckedWith(reg, Schedule(reg.dependencies))
  }

  ghost function CheckedWith(reg: Registration, schedule: Result<seq<DependencyEntry>, ScheduleError>):
    Result<RouteEntry, RegistrationError>
  {
    if !reg.knownAlgorithms then Err(UnknownAlgorithm)
    else if reg.readJsonBody && reg.readFormBody then Err(BodyModesExclusive)
    else if reg.requireJwt && reg.jwtSecret.None? then Err(MissingSecret)
    else if reg.requireJwt && !reg.keyFits then Err(IncompatibleKey)
    else match schedule
      case Err(cause) => Err(BadDependencies(cause))
      case Ok(dependencies) =>
        if reg.rateLimit == Some(None) then Err(BadRateLimit)
        else Ok(EntryFor(reg, dependencies))
  }

  /** The checks made after the entry has been appended. */
  function Refused(m: Matcher, live: CompiledRouters, reg: Registration): Option<RegistrationError> {
    if reg.description.None? then Some(BadDocumentation)
    else match live.RouterFor(reg.verb)
      case None => Some(UnsupportedMethod)
      case Some(router) =>
        if m.CanInsert(router.Keys, reg.path) then None else Some(TemplateConflict)
  }

  function MaskOf(c: CompiledRouters, template: string): MethodMask {
    if template in c.allPaths then c.allPaths[template] else 0
  }

  /** The routers and masks once the verb's template has been inserted. */
  function WithRoute(c: CompiledRouters, v: Verb, template: string, idx: nat): CompiledRouters {
    var c := c.(allPaths := c.allPaths[template := InsertMethod(MaskOf(c, template), v)]);
    match v
    case GET => c.(get := c.get[template := idx])
    case HEAD => c.(get := c.get[template := idx])
    case POST => c.(post := c.post[template := idx])
    case PUT => c.(put := c.put[template := idx])
    case PATCH => c.(patch := c.patch[template := idx])
    case DELETE => c.(delete := c.delete[template := idx])
    case OPTIONS => c.(options := c.options[template := idx])
    case Unknown(_) => c
  }

  /** The state once the entry's template has been inserted for the verb. */
  function Added(s: AppValue, v: Verb, entry: RouteEntry): AppValue {
    var routes := s.routes + [entry];
    AppValue(routes, WithRoute(s.live, v, entry.pathTemplate, |s.routes|), None, s.frozen, s.settings,
             FrozenState(routes, None, s.settings), s.document)
  }

  /** The document is written before the verb's router is asked. */
  function Documented(doc: OpenApi.Document, reg: Registration): OpenApi.Document {
    match reg.description
    case None => doc
    case Some(d) => OpenApi.WithOperation(doc, VerbName(reg.verb), reg.path, reg.requireJwt, d)
  }

  ghost function AfterAddRoute(m: Matcher, s: AppValue, reg: Registration): (AppValue, Option<RegistrationError>) {
    if s.frozen then (s, Some(AppFrozen))
    else match Checked(reg)
      case Err(e) => (s, Some(e))
      case Ok(entry) =>
        match Refused(m, s.live, reg)
        case Some(e) => (s.(routes := s.routes + [entry], document := Documented(s.document, reg)), Some(e))
        case None => (Added(s.(document := Documented(s.document, reg)), reg.verb, entry), None)
  }

  function AfterFreeze(s: AppValue): AppValue {
    Rebuilt(s.(frozen := true, compiled := if s.compiled.None? then Some(s.live) else s.compiled))
  }

  /** Promote the tables on the first request that needs them. */
  function AfterCompile(s: AppValue): AppValue {
    if s.compiled.Some? then s else Rebuilt(s.(compiled := Some(s.live)))
  }

  datatype MiddlewarePhase = Request | Response | Both | Other(name: string)

  datatype Setter =
    | SetOpenapiServed(enabled: bool)
    | AddExceptionHandler(entry: ExceptionHandler)
    | SetMiddleware(handler: Option<Py>)
    | AddMiddleware(added: Py, phase: MiddlewarePhase)
    | SetCors(config: Option<Py>)
    | SetSecurityHeaders(headers: Option<Py>)

  /** Which Python objects are a `CORSConfig` or `SecurityHeadersConfig` with readable fields. */
  datatype Configs = Configs(
    readCors: Py -> Option<Cors.CorsConfig>,
    readSecurity: Py -> Option<CompiledSecurityHeaders>)
  {
    function CompiledCors(config: Option<Py>): Option<Cors.CompiledCorsConfig> {
      if config.None? || readCors(config.value).None? then None
      else Some(Cors.FromPy(readCors(config.value).value))
    }

    function CompiledSecurity(config: Option<Py>): Option<CompiledSecurityHeaders> {
      if config.None? then None else readSecurity(config.value)
    }
  }

  function Configured(k: Configs, st: Settings, op: Setter): Settings {
    match op
    case SetOpenapiServed(enabled) => st.(includeOpenapi := enabled)
    case AddExceptionHandler(entry) => st.(exceptionHandlers := st.exceptionHandlers + [entry])
    case SetMiddleware(handler) =>
      st.(requestMiddleware := if handler.Some? then [handler.value] else [])
    case AddMiddleware(added, phase) =>
      st.(requestMiddleware := st.requestMiddleware + (if phase.Request? || phase.Both? then [added] else []),
          responseMiddleware := st.responseMiddleware + (if phase.Response? || phase.Both? then [added] else []))
    case SetCors(config) => st.(cors := config, compiledCors := k.CompiledCors(config))
    case SetSecurityHeaders(headers) =>
      st.(securityHeaders := headers, compiledSecurityHeaders := k.CompiledSecurity(headers))
  }

  /** A setter rebuilds the snapshot, except for a middleware phase that is refused. */
  function AfterSet(k: Configs, s: AppValue, op: Setter): AppValue {
    if op.AddMiddleware? && op.phase.Other? then s
    else Rebuilt(s.(settings := Configured(k, s.settings, op)))
  }

  datatype Op =
    | DoAddRoute(reg: Registration)
    | DoFreeze
    | DoEnsureCompiled
    | DoSet(setter: Setter)

  ghost function Apply(m: Matcher, k: Configs, s: AppValue, op: Op): AppValue {
    match op
    case DoAddRoute(reg) => AfterAddRoute(m, s, reg).0
    case DoFreeze => AfterFreeze(s)
    case DoEnsureCompiled => AfterCompile(s)
    case DoSet(setter) => AfterSet(k, s, setter)
  }

  ghost function After(m: Matcher, k: Configs, s: AppValue, ops: seq<Op>): AppValue
    decreases |ops|
  {
    if ops == [] then s else After(m, k, Apply(m, k, s, ops[0]), ops[1..])
  }

  // ---- Invariant -------------------------------------------------------------------------------

  /** Every registered template leads to an entry in range that has this template. */
  ghost predicate Indexed(c: CompiledRouters, routes: seq<RouteEntry>) {
    forall v: Verb, t: string | c.Has(v, t) :: c.IndexOf(v, t) < |routes| && routes[c.IndexOf(v, t)].pathTemplate == t
  }

  /** Only templates that matchit can read have been inserted. */
  ghost predicate TemplatesAccepted(c: CompiledRouters) {
    forall v: Verb, t: string | c.Has(v, t) :: Templates.WellFormed(t)
  }

  ghost predicate Inv(s: AppValue) {
    && (s.compiled.Some? ==> s.compiled.value == s.live)
    && (s.frozen ==> s.compiled.Some?)
    && s.snapshot.compiled == s.compiled
    && s.snapshot.routes <= s.routes
    && Indexed(s.live, s.snapshot.routes)
    && s.live.MasksAgree()
    && TemplatesAccepted(s.live)
    && (forall e | e in s.routes :: EntryAgrees(e))
    && s.settings.Agree() && s.snapshot.settings.Agree()
  }

  // ---- What registration does to the tables ----------------------------------------------------

  predicate SameRouter(u: Verb, v: Verb) {
    u == v || (u in {GET, HEAD} && v in {GET, HEAD})
  }

  /** The new route is found through its verb's router only; all else is as before. */
  lemma WithRouteHas(c: CompiledRouters, v: Verb, template: string, idx: nat, u: Verb, t: string)
    requires !v.Unknown?
    ensures var r := WithRoute(c, v, template, idx);
            && (r.Has(u, t) <==> c.Has(u, t) || (t == template && SameRouter(u, v)))
            && (r.Has(u, t) ==> r.IndexOf(u, t) == if t == template && SameRouter(u, v) then idx else c.IndexOf(u, t))
  {}

  lemma WithRouteMasks(c: CompiledRouters, v: Verb, template: string, idx: nat)
    ensures var r := WithRoute(c, v, template, idx);
            r.allPaths == c.allPaths[template := InsertMethod(MaskOf(c, template), v)]
  {}

  lemma NoMethodAllowed(u: Verb)
    ensures !Allows(0, u)
  {}

  lemma MaskAllows(c: CompiledRouters, v: Verb, template: string, idx: nat, u: Verb, t: string)
    requires !v.Unknown?
    ensures var r := WithRoute(c, v, template, idx);
            && (t in r.allPaths <==> t in c.allPaths || t == template)
            && (t in r.allPaths ==>
                  (Allows(r.allPaths[t], u) <==>
                   (t in c.allPaths && Allows(c.allPaths[t], u)) || (t == template && (u == v || (v.GET? && u.HEAD?)))))
  {
    WithRouteMasks(c, v, template, idx);
    InsertAllows(MaskOf(c, template), v, u);
    NoMethodAllowed(u);
  }

  /** Mask and routers agree about one verb and template. */
  predicate AgreeAt(c: CompiledRouters, u: Verb, t: string) {
    && (c.Has(u, t) ==> t in c.allPaths)
    && (t in c.allPaths && Allows(c.allPaths[t], u) ==> c.Has(u, t))
    && (t in c.allPaths && !u.GET? && c.Has(u, t) ==> Allows(c.allPaths[t], u))
  }

  /** The mask of a template after the insertion, verb by verb. */
  lemma MaskAfter(c: CompiledRouters, v: Verb, template: string, idx: nat, u: Verb, t: string)
    requires AgreeAt(c, u, t) && !v.Unknown?
    ensures AgreeAt(WithRoute(c, v, template, idx), u, t)
  {
    MaskAllows(c, v, template, idx, u, t);
    WithRouteHas(c, v, template, idx, u, t);
  }

  lemma MaskHasMethod(c: CompiledRouters, v: Verb, template: string, idx: nat, t: string)
    requires c.MasksAgree() && !v.Unknown? && t in WithRoute(c, v, template, idx).allPaths
    ensures exists u: Verb :: WithRoute(c, v, template, idx).Has(u, t)
  {
    WithRouteMasks(c, v, template, idx);
    WithRouteHas(c, v, template, idx, v, t);
    if t != template {
      var u: Verb :| c.Has(u, t);
      WithRouteHas(c, v, template, idx, u, t);
    }
  }

  lemma WithRouteKeepsMasks(c: CompiledRouters, v: Verb, template: string, idx: nat)
    requires c.MasksAgree() && !v.Unknown?
    ensures WithRoute(c, v, template, idx).MasksAgree()
  {
    forall u: Verb, t: string ensures AgreeAt(WithRoute(c, v, template, idx), u, t) {
      AgreeOnOne(c, u, t);
      MaskAfter(c, v, template, idx, u, t);
    }
    forall t | t in WithRoute(c, v, template, idx).allPaths
      ensures exists u: Verb :: WithRoute(c, v, template, idx).Has(u, t)
    {
      MaskHasMethod(c, v, template, idx, t);
    }
    AgreeOnAll(WithRoute(c, v, template, idx));
  }

  lemma AgreeOnOne(c: CompiledRouters, u: Verb, t: string)
    requires c.MasksAgree()
    ensures AgreeAt(c, u, t)
  {}

  lemma AgreeOnAll(c: CompiledRouters)
    requires forall u: Verb, t: string :: AgreeAt(c, u, t)
    requires forall t | t in c.allPaths :: exists u: Verb :: c.Has(u, t)
    ensures c.MasksAgree()
  {
    forall u: Verb, t: string ensures c.Has(u, t) ==> t in c.allPaths {
      assert AgreeAt(c, u, t);
    }
    forall t, u: Verb | t in c.allPaths
      ensures Allows(c.allPaths[t], u) ==> c.Has(u, t)
      ensures !u.GET? && c.Has(u, t) ==> Allows(c.allPaths[t], u)
    {
      assert AgreeAt(c, u, t);
    }
  }

  lemma WithRouteKeepsIndexes(c: CompiledRouters, routes: seq<RouteEntry>, v: Verb, e: RouteEntry, all: seq<RouteEntry>)
    requires Indexed(c, routes) && routes <= all && !v.Unknown?
    ensures Indexed(WithRoute(c, v, e.pathTemplate, |all|), all + [e])
  {
    var r := WithRoute(c, v, e.pathTemplate, |all|);
    forall u: Verb, t: string | r.Has(u, t)
      ensures r.IndexOf(u, t) < |all + [e]| && (all + [e])[r.IndexOf(u, t)].pathTemplate == t
    {
      WithRouteHas(c, v, e.pathTemplate, |all|, u, t);
    }
  }

  lemma WithRouteKeepsTemplates(c: CompiledRouters, v: Verb, template: string, idx: nat)
    requires TemplatesAccepted(c) && !v.Unknown? && Templates.WellFormed(template)
    ensures TemplatesAccepted(WithRoute(c, v, template, idx))
  {
    forall u: Verb, t: string | WithRoute(c, v, template, idx).Has(u, t) ensures Templates.WellFormed(t) {
      WithRouteHas(c, v, template, idx, u, t);
    }
  }

  // ---- The invariant over every run ------------------------------------------------------------

  lemma CheckedEntry(reg: Registration)
    requires Checked(reg).Ok?
    ensures Checked(reg).value.pathTemplate == reg.path && EntryAgrees(Checked(reg).value)
  {}

  lemma NotRefused(m: Matcher, live: CompiledRouters, reg: Registration)
    ensures Refused(m, live, reg).None? ==>
              !reg.verb.Unknown? && !live.Has(reg.verb, reg.path) && Templates.WellFormed(reg.path)
  {}

  /** The three outcomes of a registration. */
  lemma AddRouteOutcome(m: Matcher, s: AppValue, reg: Registration) returns (e: Option<RouteEntry>)
    ensures var (after, failed) := AfterAddRoute(m, s, reg);
            if failed.None? then
              && e.Some? && Checked(reg) == Ok(e.value)
              && after == Added(s.(document := Documented(s.document, reg)), reg.verb, e.value)
              && !s.frozen && !reg.verb.Unknown? && !s.live.Has(reg.verb, reg.path) && Templates.WellFormed(reg.path)
            else after == s || (e.Some? && after == s.(routes := s.routes + [e.value], document := after.document))
    ensures e.Some? ==> EntryAgrees(e.value) && e.value.pathTemplate == reg.path
  {
    e := None;
    NotRefused(m, s.live, reg);
    if !s.frozen && Checked(reg).Ok? {
      CheckedEntry(reg);
      e := Some(Checked(reg).value);
    }
  }

  lemma PushedKeepsInv(s: AppValue, e: RouteEntry)
    requires Inv(s) && EntryAgrees(e)
    ensures Inv(s.(routes := s.routes + [e]))
  {}

  lemma AddedKeepsInv(s: AppValue, v: Verb, e: RouteEntry)
    requires Inv(s) && EntryAgrees(e) && !v.Unknown? && !s.frozen && Templates.WellFormed(e.pathTemplate)
    ensures Inv(Added(s, v, e))
  {
    WithRouteKeepsTemplates(s.live, v, e.pathTemplate, |s.routes|);
    WithRouteKeepsMasks(s.live, v, e.pathTemplate, |s.routes|);
    WithRouteKeepsIndexes(s.live, s.snapshot.routes, v, e, s.routes);
    PushedKeepsInv(s, e);
  }

  lemma AddRouteKeepsInv(m: Matcher, s: AppValue, reg: Registration)
    requires Inv(s)
    ensures Inv(AfterAddRoute(m, s, reg).0)
  {
    var e := AddRouteOutcome(m, s, reg);
    var after := AfterAddRoute(m, s, reg).0;
    if e.Some? {
      PushedKeepsInv(s, e.value);
      if AfterAddRoute(m, s, reg).1.None? {
        AddedKeepsInv(s, reg.verb, e.value);
      }
    }
  }

  lemma IndexedInLonger(c: CompiledRouters, routes: seq<RouteEntry>, all: seq<RouteEntry>)
    requires Indexed(c, routes) && routes <= all
    ensures Indexed(c, all)
  {}

  lemma ConfiguredAgrees(k: Configs, st: Settings, op: Setter)
    requires st.Agree()
    ensures Configured(k, st, op).Agree()
  {}

  lemma StepKeepsInv(m: Matcher, k: Configs, s: AppValue, op: Op)
    requires Inv(s)
    ensures Inv(Apply(m, k, s, op))
  {
    IndexedInLonger(s.live, s.snapshot.routes, s.routes);
    match op {
      case DoAddRoute(reg) => AddRouteKeepsInv(m, s, reg);
      case DoSet(setter) => ConfiguredAgrees(k, s.settings, setter);
      case _ =>
    }
  }

  /** Whatever sequence of registrations, failed registrations, settings, freezing and automatic
      compilation has run, the compiled tables are the live ones, the snapshot holds them, and
      every index they return is in range of the snapshot's own routes and names the entry with
      that template. */
  lemma {:induction false} InvariantHoldsInEveryRun(m: Matcher, k: Configs, includeOpenapi: bool, ops: seq<Op>)
    ensures Inv(After(m, k, Initial(includeOpenapi), ops))
  {
    KeptFrom(m, k, Initial(includeOpenapi), ops);
  }

  lemma {:induction false} KeptFrom(m: Matcher, k: Configs, s: AppValue, ops: seq<Op>)
    requires Inv(s)
    ensures Inv(After(m, k, s, ops))
    decreases |ops|
  {
    if ops != [] {
      StepKeepsInv(m, k, s, ops[0]);
      KeptFrom(m, k, Apply(m, k, s, ops[0]), ops[1..]);
    }
  }

  // ---- Matching --------------------------------------------------------------------------------

  /** `match_route`: through the compiled tables when there are any, else through the live ones. */
  function MatchIn(m: Matcher, s: AppValue, v: Verb, path: string): Option<Option<(nat, PathParams)>> {
    MatchRoute(m, if s.compiled.Some? then s.compiled.value else s.live, v, path)
  }

  /** The tables a request matches against: those of its snapshot, compiled now if need be. */
  function TablesFor(s: AppValue): CompiledRouters {
    if s.snapshot.compiled.Some? then s.snapshot.compiled.value else AfterCompile(s).compiled.value
  }

  /** Matching gives the same result with and without compiled tables, and a match is an entry of
      the request's own snapshot, whose template matches the path. */
  lemma MatchingIsTheSameCompiled(m: Matcher, s: AppValue, v: Verb, path: string)
    requires Inv(s)
    ensures MatchIn(m, s.(compiled := None), v, path) == MatchIn(m, s, v, path)
            == MatchIn(m, AfterCompile(s), v, path) == MatchRoute(m, TablesFor(s), v, path)
    ensures var r := MatchIn(m, s, v, path);
            r.Some? && r.value.Some? ==>
              && r.value.value.0 < |s.snapshot.routes|
              && m.matches(s.snapshot.routes[r.value.value.0].pathTemplate, path)
              && EntryAgrees(s.snapshot.routes[r.value.value.0])
              && Templates.WellFormed(s.snapshot.routes[r.value.value.0].pathTemplate)
              && r.value.value.1 == m.Capture(s.snapshot.routes[r.value.value.0].pathTemplate, path)
  {
    var router := s.live.RouterFor(v);
    if router.Some? && m.At(router.value.Keys, path).Some? {
      var t := m.At(router.value.Keys, path).value;
      assert s.live.Has(v, t);
      var e := s.snapshot.routes[s.live.IndexOf(v, t)];
      assert e in s.snapshot.routes && e in s.routes;
    }
  }

  // ---- Registrations are permanent -------------------------------------------------------------

  /** The entry a verb's router holds for a template. */
  ghost function RouteAt(s: AppValue, v: Verb, t: string): Option<RouteEntry>
    requires Inv(s)
  {
    if s.live.Has(v, t) then Some(s.snapshot.routes[s.live.IndexOf(v, t)]) else None
  }

  lemma AddedIndexes(s: AppValue, w: Verb, e: RouteEntry, v: Verb, t: string)
    requires !w.Unknown?
    ensures var live := Added(s, w, e).live;
            if t == e.pathTemplate && SameRouter(v, w) then live.Has(v, t) && live.IndexOf(v, t) == |s.routes|
            else live.Has(v, t) == s.live.Has(v, t)
                 && (live.Has(v, t) ==> live.IndexOf(v, t) == s.live.IndexOf(v, t))
  {
    WithRouteHas(s.live, w, e.pathTemplate, |s.routes|, v, t);
  }

  lemma HasSharesRouter(c: CompiledRouters, u: Verb, v: Verb, t: string)
    requires SameRouter(u, v)
    ensures c.Has(u, t) == c.Has(v, t)
  {}

  /** Registration keeps the index of every registered template; a new one gets a new index. */
  lemma AddRouteKeepsIndexes(m: Matcher, s: AppValue, reg: Registration, v: Verb, t: string)
    ensures var live := AfterAddRoute(m, s, reg).0.live;
            && (s.live.Has(v, t) ==> live.Has(v, t) && live.IndexOf(v, t) == s.live.IndexOf(v, t))
            && (live.Has(v, t) && !s.live.Has(v, t) ==> live.IndexOf(v, t) == |s.routes|)
  {
    var e := AddRouteOutcome(m, s, reg);
    if AfterAddRoute(m, s, reg).1.None? {
      AddedIndexes(s, reg.verb, e.value, v, t);
      if SameRouter(v, reg.verb) {
        HasSharesRouter(s.live, v, reg.verb, reg.path);
      }
    }
  }

  /** A registration that succeeds installs its entry for its verb, which had none. */
  lemma RegisteredRouteIsFound(m: Matcher, s: AppValue, reg: Registration)
    requires Inv(s) && AfterAddRoute(m, s, reg).1.None?
    ensures Checked(reg).Ok? && !s.live.Has(reg.verb, reg.path)
    ensures Inv(AfterAddRoute(m, s, reg).0)
    ensures RouteAt(AfterAddRoute(m, s, reg).0, reg.verb, reg.path) == Some(Checked(reg).value)
  {
    var e := AddRouteOutcome(m, s, reg);
    AddedKeepsInv(s, reg.verb, e.value);
    AddedIndexes(s, reg.verb, e.value, reg.verb, reg.path);
  }

  lemma AddRouteKeepsRoute(m: Matcher, s: AppValue, reg: Registration, v: Verb, t: string)
    requires Inv(s) && s.live.Has(v, t)
    ensures Inv(AfterAddRoute(m, s, reg).0) && RouteAt(AfterAddRoute(m, s, reg).0, v, t) == RouteAt(s, v, t)
  {
    AddRouteKeepsInv(m, s, reg);
    AddRouteKeepsIndexes(m, s, reg, v, t);
    var e := AddRouteOutcome(m, s, reg);
    var after := AfterAddRoute(m, s, reg).0;
    assert s.snapshot.routes <= after.snapshot.routes;
  }

  lemma StepKeepsRoute(m: Matcher, k: Configs, s: AppValue, op: Op, v: Verb, t: string)
    requires Inv(s) && s.live.Has(v, t)
    ensures Inv(Apply(m, k, s, op)) && RouteAt(Apply(m, k, s, op), v, t) == RouteAt(s, v, t)
  {
    if op.DoAddRoute? {
      AddRouteKeepsRoute(m, s, op.reg, v, t);
    } else {
      StepKeepsInv(m, k, s, op);
    }
  }

  /** What is registered stays registered with the same entry, whatever happens afterwards. */
  lemma {:induction false} RegistrationsStay(m: Matcher, k: Configs, s: AppValue, ops: seq<Op>, v: Verb, t: string)
    requires Inv(s) && s.live.Has(v, t)
    ensures Inv(After(m, k, s, ops)) && RouteAt(After(m, k, s, ops), v, t) == RouteAt(s, v, t)
    decreases |ops|
  {
    if ops != [] {
      StepKeepsRoute(m, k, s, ops[0], v, t);
      RegistrationsStay(m, k, Apply(m, k, s, ops[0]), ops[1..], v, t);
    }
  }

  /** The order in which dependencies are declared is immaterial: the entry built is the same, and
      so is everything a request can observe of it. */
  lemma DeclarationOrderIsImmaterial(reg: Registration, permuted: seq<DependencyEntry>)
    requires multiset(reg.dependencies) == multiset(permuted)
    ensures Checked(reg.(dependencies := permuted)) == Checked(reg)
  {
    ScheduleIgnoresDeclarationOrder(reg.dependencies, permuted);
    ChecksIgnoreDeclaration(reg, permuted, Schedule(permuted));
  }

  lemma ChecksIgnoreDeclaration(reg: Registration, declared: seq<DependencyEntry>,
                                schedule: Result<seq<DependencyEntry>, ScheduleError>)
    ensures CheckedWith(reg.(dependencies := declared), schedule) == CheckedWith(reg, schedule)
  {}

  /** No router leads to the entry. */
  ghost predicate Orphan(s: AppValue, k: nat) {
    k < |s.routes| && forall v: Verb, t: string | s.live.Has(v, t) :: s.live.IndexOf(v, t) != k
  }

  /** A failed registration leaves tables and snapshot as they were; at most it leaves an orphan. What
      it does to the document is the subject of `Documents`. */
  lemma FailedRegistrationKeepsTables(m: Matcher, s: AppValue, reg: Registration)
    requires Inv(s) && AfterAddRoute(m, s, reg).1.Some?
    ensures var after := AfterAddRoute(m, s, reg).0;
            && after.snapshot == s.snapshot && after.live == s.live && after.compiled == s.compiled
            && (after.routes == s.routes || (|after.routes| == |s.routes| + 1 && Orphan(after, |s.routes|)))
  {}

  lemma AddRouteKeepsOrphan(m: Matcher, s: AppValue, reg: Registration, orphan: nat)
    requires Orphan(s, orphan)
    ensures Orphan(AfterAddRoute(m, s, reg).0, orphan)
  {
    var e := AddRouteOutcome(m, s, reg);
    var live := AfterAddRoute(m, s, reg).0.live;
    forall v: Verb, t: string | live.Has(v, t) ensures live.IndexOf(v, t) != orphan {
      AddRouteKeepsIndexes(m, s, reg, v, t);
    }
  }

  lemma StepKeepsOrphan(m: Matcher, k: Configs, s: AppValue, op: Op, orphan: nat)
    requires Orphan(s, orphan)
    ensures Orphan(Apply(m, k, s, op), orphan)
  {
    if op.DoAddRoute? {
      AddRouteKeepsOrphan(m, s, op.reg, orphan);
    }
  }

  lemma {:induction false} OrphansAreNeverServed(m: Matcher, k: Configs, s: AppValue, ops: seq<Op>, orphan: nat)
    requires Orphan(s, orphan)
    ensures Orphan(After(m, k, s, ops), orphan)
    decreases |ops|
  {
    if ops != [] {
      StepKeepsOrphan(m, k, s, ops[0], orphan);
      OrphansAreNeverServed(m, k, Apply(m, k, s, ops[0]), ops[1..], orphan);
    }
  }

  // ---- When the snapshot's settings are current ------------------------------------------------

  /** The operation replaced the snapshot. */
  ghost predicate Published(m: Matcher, s: AppValue, op: Op) {
    match op
    case DoAddRoute(reg) => AfterAddRoute(m, s, reg).1.None?
    case DoFreeze => true
    case DoEnsureCompiled => s.compiled.None?
    case DoSet(setter) => !(setter.AddMiddleware? && setter.phase.Other?)
  }

  ghost predicate EverPublished(m: Matcher, k: Configs, s: AppValue, ops: seq<Op>)
    decreases |ops|
  {
    ops != [] && (Published(m, s, ops[0]) || EverPublished(m, k, Apply(m, k, s, ops[0]), ops[1..]))
  }

  lemma StepPublishes(m: Matcher, k: Configs, s: AppValue, op: Op)
    ensures var next := Apply(m, k, s, op);
            if Published(m, s, op) then next.snapshot.settings == next.settings
            else next.snapshot.settings == s.snapshot.settings && next.settings == s.settings
  {}

  lemma {:induction false} CurrentFrom(m: Matcher, k: Configs, s: AppValue, ops: seq<Op>)
    ensures var after := After(m, k, s, ops);
            if s.snapshot.settings == s.settings || EverPublished(m, k, s, ops)
            then after.snapshot.settings == after.settings
            else after.snapshot.settings == s.snapshot.settings && after.settings == s.settings
    decreases |ops|
  {
    if ops != [] {
      StepPublishes(m, k, s, ops[0]);
      CurrentFrom(m, k, Apply(m, k, s, ops[0]), ops[1..]);
    }
  }

  /** An application created without an OpenAPI route serves one until something rebuilds the
      snapshot: the constructor does not. In all other states the snapshot's settings are the
      current ones. */
  lemma SnapshotIsCurrentExactly(m: Matcher, k: Configs, includeOpenapi: bool, ops: seq<Op>)
    ensures var s := After(m, k, Initial(includeOpenapi), ops);
            s.snapshot.settings == s.settings
            <==> includeOpenapi || EverPublished(m, k, Initial(includeOpenapi), ops)
  {
    CurrentFrom(m, k, Initial(includeOpenapi), ops);
  }

  // ---- Methods for the Allow header --------------------------------------------------------------

  ghost predicate RegistersHead(op: Op) {
    op.DoAddRoute? && op.reg.verb.HEAD?
  }

  lemma AddedKeepsHeadWithGet(s: AppValue, v: Verb, e: RouteEntry)
    requires HeadOnlyWithGet(s.live) && s.live.MasksAgree() && !v.HEAD? && !v.Unknown?
    ensures HeadOnlyWithGet(Added(s, v, e).live)
  {
    var live := Added(s, v, e).live;
    WithRouteMasks(s.live, v, e.pathTemplate, |s.routes|);
    forall t | t in live.allPaths && live.Has(GET, t) ensures Allows(live.allPaths[t], GET) {
      AddedIndexes(s, v, e, GET, t);
      InsertAllows(MaskOf(s.live, e.pathTemplate), v, GET);
    }
  }

  lemma StepKeepsHeadWithGet(m: Matcher, k: Configs, s: AppValue, op: Op)
    requires Inv(s) && HeadOnlyWithGet(s.live) && !RegistersHead(op)
    ensures HeadOnlyWithGet(Apply(m, k, s, op).live)
  {
    if op.DoAddRoute? {
      var e := AddRouteOutcome(m, s, op.reg);
      if AfterAddRoute(m, s, op.reg).1.None? {
        AddedKeepsHeadWithGet(s, op.reg.verb, e.value);
      }
    }
  }

  /** With the methods the decorators expose, HEAD is only ever served along with GET. */
  lemma {:induction false} HeadComesWithGet(m: Matcher, k: Configs, s: AppValue, ops: seq<Op>)
    requires Inv(s) && HeadOnlyWithGet(s.live)
    requires forall op | op in ops :: !RegistersHead(op)
    ensures HeadOnlyWithGet(After(m, k, s, ops).live)
    decreases |ops|
  {
    if ops != [] {
      StepKeepsInv(m, k, s, ops[0]);
      StepKeepsHeadWithGet(m, k, s, ops[0]);
      HeadComesWithGet(m, k, Apply(m, k, s, ops[0]), ops[1..]);
    }
  }

  // ---- A reachable table whose Allow header is incomplete ----------------------------------------

  /** A route with nothing but a handler. */
  function Plain(v: Verb, path: string): Registration {
    Registration(v, path, 0, false, {}, false, false, true, None, false, None, false, false, [], None, None, None,
                 Some(OpenApi.Description("", None, [], [])))
  }

  /** `/a/:id` matches any one segment after `/a/`; a literal template comes first. */
  const SEGMENT_AFTER_A := Matcher(
    (t: string, path: string) => t == path || (t == "/a/:id" && |path| > 3 && path[..3] == "/a/" && '/' !in path[3..]),
    (t: string) => if t == "/a/:id" then 0 else 1,
    (t: string, path: string, k: nat) => if |path| > 3 then path[3..] else "",
    (ts: set<string>, t: string) => false)

  lemma NothingToSchedule()
    ensures Schedule([]) == Ok([])
  {
    ScheduleFailsExactly([]);
    forall path ensures !GraphOf([]).IsCycle(path) {}
    PrerequisitesComeFirst([]);
    SomeElement(Schedule([]).value);
  }

  lemma PlainIsAdded(m: Matcher, s: AppValue, v: Verb, path: string) returns (e: RouteEntry, doc: OpenApi.Document)
    requires !s.frozen && s.live.RouterFor(v).Some? && m.CanInsert(s.live.RouterFor(v).value.Keys, path)
    ensures e.pathTemplate == path
    ensures AfterAddRoute(m, s, Plain(v, path)) == (Added(s.(document := doc), v, e), None)
  {
    NothingToSchedule();
    e, doc := EntryFor(Plain(v, path), []), Documented(s.document, Plain(v, path));
    assert Checked(Plain(v, path)) == Ok(e);
    assert Refused(m, s.live, Plain(v, path)) == None;
  }

  lemma TwoSteps(m: Matcher, k: Configs, s: AppValue, a: Op, b: Op)
    ensures After(m, k, s, [a, b]) == Apply(m, k, Apply(m, k, s, a), b)
  {
    var first := Apply(m, k, s, a);
    assert [a, b][1..] == [b] && [b][1..] == [];
    assert After(m, k, s, [a, b]) == After(m, k, first, [b]);
    assert After(m, k, first, [b]) == After(m, k, Apply(m, k, first, b), []);
  }

  /** The tables after the two registrations. */
  lemma OverlappingTables(s0: AppValue, e1: RouteEntry, e2: RouteEntry)
    requires s0.live == NO_ROUTERS && e1.pathTemplate == "/a/:id" && e2.pathTemplate == "/a/static"
    ensures var live := Added(Added(s0, GET, e1), POST, e2).live;
            && live.get.Keys == {"/a/:id"} && live.post.Keys == {"/a/static"} && live.put == map[]
            && live.allPaths.Keys == {"/a/:id", "/a/static"} && !Allows(live.allPaths["/a/static"], GET)
  {
    var c := WithRoute(NO_ROUTERS, GET, "/a/:id", |s0.routes|);
    WithRouteMasks(NO_ROUTERS, GET, "/a/:id", |s0.routes|);
    WithRouteMasks(c, POST, "/a/static", |s0.routes| + 1);
    assert "/a/:id" != "/a/static";
    InsertAllows(0, POST, GET);
    NoMethodAllowed(GET);
  }

  lemma BothMatch(m: Matcher)
    requires m == SEGMENT_AFTER_A
    ensures m.matches("/a/:id", "/a/static") && m.matches("/a/static", "/a/static")
    ensures m.Prefers("/a/static", "/a/:id")
  {
    assert "/a/static"[..3] == "/a/" && "/a/static"[3..] == "static";
    assert "/a/:id"[3] != "/a/static"[3];
  }

  lemma OverlapIn(m: Matcher, s: AppValue)
    requires m == SEGMENT_AFTER_A && s.live.MasksAgree()
    requires s.live.get.Keys == {"/a/:id"} && s.live.post.Keys == {"/a/static"} && s.live.put == map[]
    requires s.live.allPaths.Keys == {"/a/:id", "/a/static"} && !Allows(s.live.allPaths["/a/static"], GET)
    ensures MatchRoute(m, s.live, PUT, "/a/static") == Some(None)
    ensures s.live.Serves(m, GET, "/a/static") && GET !in MethodsMatching(m, s.live, "/a/static")
  {
    BothMatch(m);
    OverlapHidesMethod(m, s.live);
  }

  /** Where two registrations with overlapping templates lead. */
  ghost function OverlapRun(k: Configs, includeOpenapi: bool): (s: AppValue)
    ensures Inv(s)
  {
    var ops := [DoAddRoute(Plain(GET, "/a/:id")), DoAddRoute(Plain(POST, "/a/static"))];
    InvariantHoldsInEveryRun(SEGMENT_AFTER_A, k, includeOpenapi, ops);
    After(SEGMENT_AFTER_A, k, Initial(includeOpenapi), ops)
  }

  lemma OverlapTemplates()
    ensures Templates.WellFormed("/a/:id") && Templates.WellFormed("/a/static")
  {
    Templates.LastSegment("/a/", ':', "id");
    Templates.NoParams("/a/static");
    assert "/a/" + [':'] + "id" == "/a/:id";
  }

  lemma OverlapRunTables(k: Configs, includeOpenapi: bool)
    ensures var live := OverlapRun(k, includeOpenapi).live;
            && live.get.Keys == {"/a/:id"} && live.post.Keys == {"/a/static"} && live.put == map[]
            && live.allPaths.Keys == {"/a/:id", "/a/static"} && !Allows(live.allPaths["/a/static"], GET)
  {
    var m, s0 := SEGMENT_AFTER_A, Initial(includeOpenapi);
    OverlapTemplates();
    var e1, d1 := PlainIsAdded(m, s0, GET, "/a/:id");
    var s1 := Added(s0.(document := d1), GET, e1);
    var e2, d2 := PlainIsAdded(m, s1, POST, "/a/static");
    TwoSteps(m, k, s0, DoAddRoute(Plain(GET, "/a/:id")), DoAddRoute(Plain(POST, "/a/static")));
    OverlappingTables(s0, e1, e2);
  }

  /** Registering GET on `/a/:id` and POST on `/a/static` is all it takes: then a PUT of
      `/a/static` is answered 405 with an Allow header that leaves out GET, which matches. */
  lemma OverlapIsReachable(k: Configs, includeOpenapi: bool)
    ensures var m := SEGMENT_AFTER_A;
            var s := After(m, k, Initial(includeOpenapi),
                           [DoAddRoute(Plain(GET, "/a/:id")), DoAddRoute(Plain(POST, "/a/static"))]);
            && Inv(s)
            && MatchRoute(m, s.live, PUT, "/a/static") == Some(None)
            && s.live.Serves(m, GET, "/a/static")
            && GET !in MethodsMatching(m, s.live, "/a/static")
  {
    OverlapRunTables(k, includeOpenapi);
    OverlapIn(SEGMENT_AFTER_A, OverlapRun(k, includeOpenapi));
  }

  // ---- The object ------------------------------------------------------------------------------

  class AppState {
    var routes: seq<RouteEntry>
    var get: Router<nat>
    var post: Router<nat>
    var put: Router<nat>
    var patch: Router<nat>
    var delete: Router<nat>
    var options: Router<nat>
    var pathMethodMasks: Router<MethodMask>
    var compiled: Option<CompiledRouters>
    var frozen: bool
    var settings: Settings
    var snapshot: FrozenState
    var document: OpenApi.Document

    ghost function Value(): AppValue
      reads this
    {
      AppValue(routes, CompiledRouters(get, post, put, patch, delete, options, pathMethodMasks),
               compiled, frozen, settings, snapshot, document)
    }

    constructor (includeOpenapi: bool)
      ensures Value() == Initial(includeOpenapi)
    {
      routes := [];
      get, post, put, patch, delete, options := map[], map[], map[], map[], map[], map[];
      pathMethodMasks := map[];
      compiled := None;
      frozen := false;
      settings := DEFAULTS.(includeOpenapi := includeOpenapi);
      snapshot := FrozenState([], None, DEFAULTS);
      document := OpenApi.EMPTY;
    }

    method RebuildSnapshot()
      modifies this`snapshot
      ensures Value() == Rebuilt(old(Value()))
    {
      snapshot := FrozenState(routes, compiled, settings);
    }

    /** Copy the routers; the templates with their masks are inserted one by one. */
    method SnapshotRouters() returns (c: CompiledRouters)
      ensures c == Value().live
    {
      var allPaths: Router<MethodMask> := map[];
      var rest := pathMethodMasks.Keys;
      while rest != {}
        invariant rest <= pathMethodMasks.Keys
        invariant allPaths == map t | t in pathMethodMasks.Keys - rest :: pathMethodMasks[t]
        decreases |rest|
      {
        var path :| path in rest;
        allPaths := allPaths[path := pathMethodMasks[path]];
        rest := rest - {path};
      }
      assert allPaths == pathMethodMasks;
      c := CompiledRouters(get, post, put, patch, delete, options, allPaths);
    }

    method InsertRoute(m: Matcher, verb: Verb, path: string, idx: nat) returns (refused: Option<RegistrationError>)
      modifies this`get, this`post, this`put, this`patch, this`delete, this`options
      ensures var live := old(Value()).live;
              if live.RouterFor(verb).None? then
                refused == Some(UnsupportedMethod) && Value() == old(Value())
              else if !m.CanInsert(live.RouterFor(verb).value.Keys, path) then
                refused == Some(TemplateConflict) && Value() == old(Value())
              else
                refused == None && Value() == old(Value()).(
                  live := WithRoute(live, verb, path, idx).(allPaths := live.allPaths))
    {
      refused := Some(TemplateConflict);
      match verb {
        case Unknown(_) =>
          refused := Some(UnsupportedMethod);
        case POST =>
          if m.CanInsert(post.Keys, path) { post, refused := post[path := idx], None; }
        case PUT =>
          if m.CanInsert(put.Keys, path) { put, refused := put[path := idx], None; }
        case PATCH =>
          if m.CanInsert(patch.Keys, path) { patch, refused := patch[path := idx], None; }
        case DELETE =>
          if m.CanInsert(delete.Keys, path) { delete, refused := delete[path := idx], None; }
        case OPTIONS =>
          if m.CanInsert(options.Keys, path) { options, refused := options[path := idx], None; }
        case _ =>
          if m.CanInsert(get.Keys, path) { get, refused := get[path := idx], None; }
      }
    }

    /** The entry `add_route` builds once the dependencies are in order. */
    static method NewEntry(reg: Registration, dependencies: seq<DependencyEntry>) returns (e: RouteEntry)
      ensures e == EntryFor(reg, dependencies)
    {
      var limiter := if reg.rateLimit.Some? then reg.rateLimit.value else None;
      var pathParams := Templates.AllPathParamNames(reg.path);
      var wildcards := Templates.WildcardParamNames(reg.path);
      assert pathParams == Templates.ParamNames(reg.path, Templates.IsParam);
      assert wildcards == Templates.ParamNames(reg.path, Templates.IsWildcard);
      var hasReserved := reg.paramNames * RESERVED != {};
      var paramsCompatible := !reg.varkw && !hasReserved && reg.paramNames == pathParams;
      var trivialSync := !reg.isAsync && !reg.requireJwt && !reg.readJsonBody && !reg.readFormBody
                         && dependencies == [] && paramsCompatible && limiter.None?;
      var bodyParamName := if reg.bodyParamName.Some? then reg.bodyParamName.value else "json";
      e := RouteEntry(reg.handler, reg.bodyModel, reg.path, reg.jwtCookie, dependencies, reg.paramNames,
                      bodyParamName, limiter, wildcards, reg.isAsync, reg.requireJwt, reg.readJsonBody,
                      reg.readFormBody, reg.varkw, trivialSync, limiter.Some?);
    }

    /** The checks of `add_route` before it takes the write lock. */
    static method CheckRegistration(reg: Registration) returns (r: Result<RouteEntry, RegistrationError>)
      ensures r == Checked(reg)
    {
      if !reg.knownAlgorithms {
        return Err(UnknownAlgorithm);
      }
      if reg.readJsonBody && reg.readFormBody {
        return Err(BodyModesExclusive);
      }
      if reg.requireJwt && reg.jwtSecret.None? {
        return Err(MissingSecret);
      }
      if reg.requireJwt && !reg.keyFits {
        return Err(IncompatibleKey);
      }
      var ordered := ReorderDependencies(reg.dependencies);
      if ordered.Err? {
        return Err(BadDependencies(ordered.error));
      }
      if reg.rateLimit == Some(None) {
        return Err(BadRateLimit);
      }
      var e := NewEntry(reg, ordered.value);
      r := Ok(e);
    }

    /** Record the method of an inserted template; the compiled tables are out of date now. */
    method Publish(verb: Verb, path: string)
      modifies this
      ensures Value() == Rebuilt(old(Value()).(
                live := old(Value()).live.(allPaths := old(pathMethodMasks)[
                  path := InsertMethod(MaskOf(old(Value()).live, path), verb)]),
                compiled := None))
    {
      var mask := if path in pathMethodMasks then pathMethodMasks[path] else 0;
      pathMethodMasks := pathMethodMasks[path := InsertMethod(mask, verb)];
      compiled := None;
      RebuildSnapshot();
    }

    /** The part of `add_route` under the write lock. */
    method AppendRoute(m: Matcher, reg: Registration, entry: RouteEntry) returns (failed: Option<RegistrationError>)
      requires entry.pathTemplate == reg.path
      modifies this
      ensures failed == Refused(m, old(Value()).live, reg)
      ensures var before := old(Value()).(document := Documented(old(document), reg));
              Value() == if failed.Some? then before.(routes := old(routes) + [entry])
                         else Added(before, reg.verb, entry)
    {
      var idx := |routes|;
      routes := routes + [entry];
      if reg.description.None? {
        return Some(BadDocumentation);
      }
      document := OpenApi.OpenapiAddPath(document, VerbName(reg.verb), reg.path, reg.requireJwt, reg.description.value);
      failed := InsertRoute(m, reg.verb, reg.path, idx);
      NotRefused(m, old(Value()).live, reg);
      if failed.Some? {
        return;
      }
      WithRouteMasks(old(Value()).live, reg.verb, reg.path, idx);
      Publish(reg.verb, reg.path);
    }

    method AddRoute(m: Matcher, reg: Registration) returns (failed: Option<RegistrationError>)
      modifies this
      ensures (Value(), failed) == AfterAddRoute(m, old(Value()), reg)
    {
      if frozen {
        return Some(AppFrozen);
      }
      var checked := CheckRegistration(reg);
      if checked.Err? {
        return Some(checked.error);
      }
      CheckedEntry(reg);
      failed := AppendRoute(m, reg, checked.value);
    }

    method Freeze()
      modifies this
      ensures Value() == AfterFreeze(old(Value()))
    {
      frozen := true;
      if compiled.None? {
        var c := SnapshotRouters();
        compiled := Some(c);
      }
      RebuildSnapshot();
    }

    /** `ensure_compiled_snapshot`. */
    method EnsureCompiled() returns (c: CompiledRouters)
      modifies this
      ensures Value() == AfterCompile(old(Value())) && Value().compiled == Some(c)
    {
      if compiled.None? {
        c := SnapshotRouters();
        compiled := Some(c);
        RebuildSnapshot();
      }
      c := compiled.value;
    }

    /** The setters; a middleware phase that is none of the three is an error. */
    method Set(k: Configs, op: Setter) returns (ok: bool)
      modifies this
      ensures Value() == AfterSet(k, old(Value()), op)
      ensures ok <==> !(op.AddMiddleware? && op.phase.Other?)
    {
      match op {
        case SetOpenapiServed(enabled) =>
          settings := settings.(includeOpenapi := enabled);
        case AddExceptionHandler(entry) =>
          settings := settings.(exceptionHandlers := settings.exceptionHandlers + [entry]);
        case SetMiddleware(handler) =>
          settings := settings.(requestMiddleware := if handler.Some? then [handler.value] else []);
        case AddMiddleware(added, phase) =>
          if phase.Request? || phase.Both? {
            settings := settings.(requestMiddleware := settings.requestMiddleware + [added]);
          }
          if phase.Response? || phase.Both? {
            settings := settings.(responseMiddleware := settings.responseMiddleware + [added]);
          }
          if phase.Other? {
            return false;
          }
        case SetCors(config) =>
          settings := settings.(cors := config, compiledCors := k.CompiledCors(config));
        case SetSecurityHeaders(headers) =>
          settings := settings.(securityHeaders := headers, compiledSecurityHeaders := k.CompiledSecurity(headers));
      }
      RebuildSnapshot();
      return true;
    }
  }
}
