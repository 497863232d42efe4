/** What the setters of the application come to over a whole run. */
module Configuration {
  import opened Text
  import opened Injection
  import opened Routing
  import opened State
  import Cors

  // ---- What a sequence of operations asks for ---------------------------------------------------

  function HandlersIn(ops: seq<Op>): seq<ExceptionHandler> {
    if ops == [] then [] else
      match ops[0]
      case DoSet(AddExceptionHandler(entry)) => [entry] + HandlersIn(ops[1..])
      case _ => HandlersIn(ops[1..])
  }

  function ResponseMiddlewareIn(ops: seq<Op>): seq<Py> {
    if ops == [] then [] else
      match ops[0]
      case DoSet(AddMiddleware(added, Response)) => [added] + ResponseMiddlewareIn(ops[1..])
      case DoSet(AddMiddleware(added, Both)) => [added] + ResponseMiddlewareIn(ops[1..])
      case _ => ResponseMiddlewareIn(ops[1..])
  }

  /** Setting the middleware replaces what was added before. */
  function RequestMiddlewareIn(before: seq<Py>, ops: seq<Op>): seq<Py>
    decreases |ops|
  {
    if ops == [] then before else
      match ops[0]
      case DoSet(SetMiddleware(None)) => RequestMiddlewareIn([], ops[1..])
      case DoSet(SetMiddleware(Some(handler))) => RequestMiddlewareIn([handler], ops[1..])
      case DoSet(AddMiddleware(added, Request)) => RequestMiddlewareIn(before + [added], ops[1..])
      case DoSet(AddMiddleware(added, Both)) => RequestMiddlewareIn(before + [added], ops[1..])
      case _ => RequestMiddlewareIn(before, ops[1..])
  }

  function FlagAfter(before: bool, op: Op): bool {
    match op
    case DoSet(SetOpenapiServed(enabled)) => enabled
    case _ => before
  }

  function LastFlag(before: bool, ops: seq<Op>): bool
    decreases |ops|
  {
    if ops == [] then before else LastFlag(FlagAfter(before, ops[0]), ops[1..])
  }

  function CorsAfter(before: Option<Py>, op: Op): Option<Py> {
    match op
    case DoSet(SetCors(config)) => config
    case _ => before
  }

  function LastCors(before: Option<Py>, ops: seq<Op>): Option<Py>
    decreases |ops|
  {
    if ops == [] then before else LastCors(CorsAfter(before, ops[0]), ops[1..])
  }

  function SecurityAfter(before: Option<Py>, op: Op): Option<Py> {
    match op
    case DoSet(SetSecurityHeaders(headers)) => headers
    case _ => before
  }

  function LastSecurity(before: Option<Py>, ops: seq<Op>): Option<Py>
    decreases |ops|
  {
    if ops == [] then before else LastSecurity(SecurityAfter(before, ops[0]), ops[1..])
  }

  // ---- One operation ------------------------------------------------------------------------------

  lemma RegistrationKeepsSettings(m: Matcher, s: AppValue, reg: Registration)
    ensures AfterAddRoute(m, s, reg).0.settings == s.settings
  {
    var e := AddRouteOutcome(m, s, reg);
  }

  lemma OtherOperationsKeepSettings(m: Matcher, k: Configs, s: AppValue, op: Op)
    ensures !op.DoSet? ==> Apply(m, k, s, op).settings == s.settings
  {
    if op.DoAddRoute? {
      RegistrationKeepsSettings(m, s, op.reg);
    }
  }

  /** A compiled form belongs to the object configured last, if that is of the right class. */
  ghost predicate Compiled(k: Configs, st: Settings) {
    && st.compiledCors == (if st.cors.Some? && k.readCors(st.cors.value).Some?
                           then Some(Cors.FromPy(k.readCors(st.cors.value).value)) else None)
    && st.compiledSecurityHeaders
       == (if st.securityHeaders.Some? then k.readSecurity(st.securityHeaders.value) else None)
  }

  lemma SetterCompiles(k: Configs, st: Settings, op: Setter)
    requires Compiled(k, st)
    ensures Compiled(k, Configured(k, st, op))
  {}

  // ---- Runs ---------------------------------------------------------------------------------------

  lemma {:induction false} HandlersAre(m: Matcher, k: Configs, s: AppValue, ops: seq<Op>)
    ensures After(m, k, s, ops).settings.exceptionHandlers == s.settings.exceptionHandlers + HandlersIn(ops)
    decreases |ops|
  {
    if ops != [] {
      OtherOperationsKeepSettings(m, k, s, ops[0]);
      HandlersAre(m, k, Apply(m, k, s, ops[0]), ops[1..]);
    }
  }

  lemma {:induction false} ResponseMiddlewareIs(m: Matcher, k: Configs, s: AppValue, ops: seq<Op>)
    ensures After(m, k, s, ops).settings.responseMiddleware
            == s.settings.responseMiddleware + ResponseMiddlewareIn(ops)
    decreases |ops|
  {
    if ops != [] {
      OtherOperationsKeepSettings(m, k, s, ops[0]);
      ResponseMiddlewareIs(m, k, Apply(m, k, s, ops[0]), ops[1..]);
    }
  }

  lemma {:induction false} RequestMiddlewareIs(m: Matcher, k: Configs, s: AppValue, ops: seq<Op>)
    ensures After(m, k, s, ops).settings.requestMiddleware == RequestMiddlewareIn(s.settings.requestMiddleware, ops)
    decreases |ops|
  {
    if ops != [] {
      OtherOperationsKeepSettings(m, k, s, ops[0]);
      assert s.settings.requestMiddleware + [] == s.settings.requestMiddleware;
      RequestMiddlewareIs(m, k, Apply(m, k, s, ops[0]), ops[1..]);
    }
  }

  lemma FlagNext(m: Matcher, k: Configs, s: AppValue, op: Op)
    ensures Apply(m, k, s, op).settings.includeOpenapi == FlagAfter(s.settings.includeOpenapi, op)
  {
    OtherOperationsKeepSettings(m, k, s, op);
  }

  lemma {:induction false} FlagIs(m: Matcher, k: Configs, s: AppValue, ops: seq<Op>)
    ensures After(m, k, s, ops).settings.includeOpenapi == LastFlag(s.settings.includeOpenapi, ops)
    decreases |ops|
  {
    if ops != [] {
      FlagNext(m, k, s, ops[0]);
      FlagIs(m, k, Apply(m, k, s, ops[0]), ops[1..]);
    }
  }

  lemma CorsNext(m: Matcher, k: Configs, s: AppValue, op: Op)
    ensures Apply(m, k, s, op).settings.cors == CorsAfter(s.settings.cors, op)
  {
    OtherOperationsKeepSettings(m, k, s, op);
  }

  lemma {:induction false} CorsIs(m: Matcher, k: Configs, s: AppValue, ops: seq<Op>)
    ensures After(m, k, s, ops).settings.cors == LastCors(s.settings.cors, ops)
    decreases |ops|
  {
    if ops != [] {
      CorsNext(m, k, s, ops[0]);
      CorsIs(m, k, Apply(m, k, s, ops[0]), ops[1..]);
    }
  }

  lemma SecurityNext(m: Matcher, k: Configs, s: AppValue, op: Op)
    ensures Apply(m, k, s, op).settings.securityHeaders == SecurityAfter(s.settings.securityHeaders, op)
  {
    OtherOperationsKeepSettings(m, k, s, op);
  }

  lemma {:induction false} SecurityIs(m: Matcher, k: Configs, s: AppValue, ops: seq<Op>)
    ensures After(m, k, s, ops).settings.securityHeaders == LastSecurity(s.settings.securityHeaders, ops)
    decreases |ops|
  {
    if ops != [] {
      SecurityNext(m, k, s, ops[0]);
      SecurityIs(m, k, Apply(m, k, s, ops[0]), ops[1..]);
    }
  }

  lemma {:induction false} StaysCompiled(m: Matcher, k: Configs, s: AppValue, ops: seq<Op>)
    requires Compiled(k, s.settings)
    ensures Compiled(k, After(m, k, s, ops).settings)
    decreases |ops|
  {
    if ops != [] {
      OtherOperationsKeepSettings(m, k, s, ops[0]);
      if ops[0].DoSet? {
        SetterCompiles(k, s.settings, ops[0].setter);
      }
      StaysCompiled(m, k, Apply(m, k, s, ops[0]), ops[1..]);
    }
  }

  ghost predicate AreAsked(k: Configs, includeOpenapi: bool, ops: seq<Op>, st: Settings) {
    && st.exceptionHandlers == HandlersIn(ops)
    && st.requestMiddleware == RequestMiddlewareIn([], ops)
    && st.responseMiddleware == ResponseMiddlewareIn(ops)
    && st.includeOpenapi == LastFlag(includeOpenapi, ops)
    && st.cors == LastCors(None, ops) && st.securityHeaders == LastSecurity(None, ops)
    && Compiled(k, st)
  }

  lemma SettingsFrom(m: Matcher, k: Configs, s: AppValue, ops: seq<Op>)
    requires var st := s.settings;
             && st.exceptionHandlers == [] && st.requestMiddleware == [] && st.responseMiddleware == []
             && st.cors == None && st.securityHeaders == None && Compiled(k, st)
    ensures AreAsked(k, s.settings.includeOpenapi, ops, After(m, k, s, ops).settings)
  {
    HandlersAre(m, k, s, ops);
    ResponseMiddlewareIs(m, k, s, ops);
    RequestMiddlewareIs(m, k, s, ops);
    FlagIs(m, k, s, ops);
    CorsIs(m, k, s, ops);
    SecurityIs(m, k, s, ops);
    StaysCompiled(m, k, s, ops);
    assert [] + HandlersIn(ops) == HandlersIn(ops) && [] + ResponseMiddlewareIn(ops) == ResponseMiddlewareIn(ops);
  }

  /** The settings after any run: exception handlers and response middleware in the order in which
      they were added, request middleware added since it was last set, flag and configurations as
      they were last set, with the compiled forms of exactly these. */
  lemma SettingsAre(m: Matcher, k: Configs, includeOpenapi: bool, ops: seq<Op>)
    ensures AreAsked(k, includeOpenapi, ops, After(m, k, Initial(includeOpenapi), ops).settings)
  {
    SettingsFrom(m, k, Initial(includeOpenapi), ops);
  }
}
