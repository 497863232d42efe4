/** What holds of the two dispatchers: the synchronous short circuit cannot be told from the full
    pipeline, every request is answered once, and a handler only runs for an admitted request. */
module ShortCircuits {
  import opened Text
  import opened Names
  import opened Injection
  import opened Headers
  import opened Params
  import opened Protocol
  import opened Routing
  import opened State
  import opened Dispatch
  import Templates

  // ---- A trivial route in the full pipeline ----------------------------------------------------

  lemma TrivialWantsNothing(e: RouteEntry, name: Name)
    requires IsTrivial(e) && name in RESERVED
    ensures !Wants(e, name)
  {}

  lemma TrivialIsAdmitted(w: World, p: Services, st: Settings, req: Request, e: RouteEntry, params: PathParams,
                          log: History)
    requires IsTrivial(e)
    ensures ServeRoute(w, p, st, req, e, params, log)
            == ServeAdmitted(w, p, st, req, e, params, [], None, p.noForm, log + [SetTemplate(e.pathTemplate)])
  {
    TrivialWantsNothing(e, "body");
  }

  lemma TrivialNeedsNothing(w: World, p: Services, st: Settings, req: Request, e: RouteEntry, params: PathParams,
                            log: History)
    requires IsTrivial(e)
    ensures ServeAdmitted(w, p, st, req, e, params, [], None, p.noForm, log)
            == ServeHandler(w, p, st, req, e, params, Inputs(map[], [], None, [], p.noForm), log)
  {
    TrivialWantsNothing(e, "query");
  }

  lemma TrivialArguments(w: World, p: Services, req: Request, e: RouteEntry, params: PathParams, log: History)
    requires IsTrivial(e)
    ensures ArgumentStage(w, p, req, e, params, Inputs(map[], [], None, [], p.noForm), log)
            == Go(log, PathKwargs(w, e.wildcardParams, params))
  {
    TrivialWantsNothing(e, "protocol");
  }

  /** The final arguments of the handler of a trivial route are those of the path and nothing else,
      each as its mark promises where it is the last of its name and the scanners tell it apart. Its
      handler takes the names that the scanners find, and these are the names it is called with if
      and only if every parameter name consists of letters, digits and underscores. */
  lemma TrivialHandlerGetsParams(w: World, p: Services, req: Request, e: RouteEntry, segments: seq<string>,
                                 log: History)
    requires IsTrivial(e) && EntryAgrees(e) && Templates.WellFormed(e.pathTemplate)
    requires |segments| == |Templates.Params(e.pathTemplate)|
    ensures var ps := Templates.Params(e.pathTemplate);
            var nothing := Inputs(map[], [], None, [], p.noForm);
            var stage := ArgumentStage(w, p, req, e, Labelled(ps, segments), nothing, log);
            && stage.Go?
            && stage.value.Keys == Templates.CapturedNames(e.pathTemplate, Templates.IsParam)
            && (forall k | 0 <= k < |ps| && LastOfName(ps, k) && Templates.ToldApart(e.pathTemplate, ps[k]) ::
                  ps[k].name in stage.value && stage.value[ps[k].name] == ByMark(w, ps[k], segments[k]))
            && (stage.value.Keys == e.handlerParamNames <==> forall q | q in ps :: Templates.IsPlain(q.name))
  {
    TrivialArguments(w, p, req, e, Labelled(Templates.Params(e.pathTemplate), segments), log);
    PathArgumentsAreParams(w, e.pathTemplate, segments);
    Templates.ScansCapturedExactly(e.pathTemplate, Templates.IsParam);
    forall q | q in Templates.Params(e.pathTemplate) ensures Templates.IsParam(q.mark) {
      Templates.CapturedAtMark(e.pathTemplate, q);
    }
  }

  /** With nothing configured there is nothing to merge. */
  lemma NothingToMerge(w: World, st: Settings, req: Request, log: History, mapped: HandlerMap)
    requires st.Agree() && st.securityHeaders.None? && st.cors.None?
    ensures MergeHeaders(w, st, req, log, mapped) == Ok(mapped)
  {}

  lemma TrivialFinish(w: World, st: Settings, req: Request, log: History, out: Py)
    requires st.Agree() && st.responseMiddleware == []
    ensures Finish(w, st, req, log, out)
            == match w.mapReturn(log, out)
               case Err(err) => Failed(log, err)
               case Ok(mapped) => Deliver(w, req, log, MergeHeaders(w, st, req, log, mapped))
  {
    if w.mapReturn(log, out).Ok? && st.securityHeaders.None? && st.cors.None? {
      NothingToMerge(w, st, req, log, w.mapReturn(log, out).value);
    }
  }

  /** The full pipeline does to a trivial route just what the short circuit does, up to how errors
      are reported. */
  lemma TrivialRouteInFull(w: World, p: Services, st: Settings, req: Request, e: RouteEntry, params: PathParams,
                           log: History)
    requires IsTrivial(e) && st.Agree() && st.responseMiddleware == []
    ensures ServeRoute(w, p, st, req, e, params, log) == End(w, st, req, TrivialAttempt(w, st, req, e, params, log))
  {
    var kwargs := PathKwargs(w, e.wildcardParams, params);
    var at := log + [SetTemplate(e.pathTemplate)];
    TrivialIsAdmitted(w, p, st, req, e, params, log);
    TrivialNeedsNothing(w, p, st, req, e, params, at);
    TrivialArguments(w, p, req, e, params, at);
    var called := at + [CallHandler(e.handler, kwargs)];
    if w.answer(called).Ok? {
      TrivialFinish(w, st, req, called, w.answer(called).value);
    }
  }

  // ---- The short circuit is invisible ----------------------------------------------------------

  /** The error paths agree about anything that could go wrong here: no exception handler is
      registered, or the protocol takes every response and the only handler is not async. */
  ghost predicate ErrorsAgree(w: World, handlers: seq<ExceptionHandler>) {
    handlers == [] || (Reliable(w) && OneSyncHandler(handlers))
  }

  /** The request does not reach the error path of a trivial route. */
  ghost predicate Returns(w: World, m: Matcher, snap: FrozenState, compiled: CompiledRouters, req: Request,
                          log: History) {
    match MatchRoute(m, compiled, req.verb, req.path)
    case Some(Some((idx, params))) =>
      idx < |snap.routes| ==> TrivialAttempt(w, snap.settings, req, snap.routes[idx], params, log).Done?
    case _ => true
  }

  lemma EndsAgree(w: World, st: Settings, req: Request, a: Attempt<()>)
    requires a.Done? || ErrorsAgree(w, st.exceptionHandlers)
    ensures End(w, st, req, a)
            == match a
               case Done(after, _) => Outcome(after, None)
               case Failed(after, err) => ErrorSync(w, after, req.IsHead(), st.exceptionHandlers, err)
  {
    if a.Failed? {
      if st.exceptionHandlers == [] {
        NoHandlersAgree(w, a.log, req.IsHead(), a.error);
      } else {
        OneSyncHandlerAgrees(w, a.log, req.IsHead(), st.exceptionHandlers, a.error);
      }
    }
  }

  lemma RoutesAgree(w: World, p: Services, m: Matcher, snap: FrozenState, compiled: CompiledRouters, req: Request,
                    log: History)
    requires snap.settings.Agree() && snap.settings.responseMiddleware == []
    requires forall e | e in snap.routes :: EntryAgrees(e)
    requires ErrorsAgree(w, snap.settings.exceptionHandlers) || Returns(w, m, snap, compiled, req, log)
    ensures RouteSync(w, p, m, snap, compiled, req, log).Answered? ==>
              RouteSync(w, p, m, snap, compiled, req, log).outcome == RouteFull(w, p, m, snap, compiled, req, log)
  {
    var matched := MatchRoute(m, compiled, req.verb, req.path);
    if matched.Some? && matched.value.Some? {
      var (idx, params) := matched.value.value;
      if idx < |snap.routes| && snap.routes[idx].trivialSync {
        var e, st := snap.routes[idx], snap.settings;
        assert EntryAgrees(e);
        TrivialRouteInFull(w, p, st, req, e, params, log);
        EndsAgree(w, st, req, TrivialAttempt(w, st, req, e, params, log));
      }
    }
  }

  lemma OpenapiAgrees(w: World, p: Services, req: Request, log: History)
    ensures OpenapiSync(w, p, req, log) == OpenapiFull(w, p, req, log)
  {
    SameHeadSimple(w, log + [SetTemplate("/openapi.json")], 200, Utf8Len(p.openapi), "application/json; charset=utf-8");
  }

  /** In every state the application can reach, whenever the short circuit answers a request, it
      does to the outside world exactly what the full pipeline would have done: the same calls, the
      same responses in the same order, the same error to the server. The condition is about
      exception handlers only, and nothing is required of routes that return. */
  lemma ShortCircuitIsInvisible(w: World, p: Services, m: Matcher, s: AppValue, req: Request, log: History)
    requires Inv(s)
    requires ErrorsAgree(w, s.snapshot.settings.exceptionHandlers) || Returns(w, m, s.snapshot, TablesFor(s), req, log)
    ensures Invisible(w, p, m, s, req, log)
  {
    var snap, st := s.snapshot, s.snapshot.settings;
    OpenapiAgrees(w, p, req, log);
    if st.requestMiddleware == [] && st.responseMiddleware == [] {
      forall e | e in snap.routes ensures EntryAgrees(e) {
        assert e in s.routes;
      }
      RoutesAgree(w, p, m, snap, TablesFor(s), req, log);
    }
  }

  /** Over a whole run of the application. */
  lemma ShortCircuitIsInvisibleInEveryRun(w: World, p: Services, m: Matcher, k: Configs, includeOpenapi: bool,
                                          ops: seq<Op>, req: Request, log: History)
    requires var s := After(m, k, Initial(includeOpenapi), ops);
             ErrorsAgree(w, s.snapshot.settings.exceptionHandlers) || Returns(w, m, s.snapshot, TablesFor(s), req, log)
    ensures Invisible(w, p, m, After(m, k, Initial(includeOpenapi), ops), req, log)
  {
    InvariantHoldsInEveryRun(m, k, includeOpenapi, ops);
    ShortCircuitIsInvisible(w, p, m, After(m, k, Initial(includeOpenapi), ops), req, log);
  }

  // ---- Exactly when ------------------------------------------------------------------------------

  ghost predicate Invisible(w: World, p: Services, m: Matcher, s: AppValue, req: Request, log: History) {
    HandleRsgi(w, p, m, s.snapshot, TablesFor(s), req, log) == RunRsgi(w, p, m, s.snapshot, TablesFor(s), req, log)
  }

  /** The route an HTTP request is matched to, if the short circuit runs it. */
  function TrivialRoute(m: Matcher, s: AppValue, req: Request): Option<(RouteEntry, PathParams)> {
    var st := s.snapshot.settings;
    if req.proto != "http" || Preflight(st, req).Some? || AsksForOpenapi(st, req) || HasUncompiledConfig(st)
       || st.requestMiddleware != [] || st.responseMiddleware != []
    then None
    else match MatchRoute(m, TablesFor(s), req.verb, req.path)
      case Some(Some((idx, params))) =>
        if idx < |s.snapshot.routes| && s.snapshot.routes[idx].trivialSync
        then Some((s.snapshot.routes[idx], params)) else None
      case _ => None
  }

  /** When the handler of a trivial route fails, each dispatcher is left with its own error path. */
  lemma FailedRouteUsesErrorPaths(w: World, p: Services, m: Matcher, s: AppValue, req: Request, log: History)
    requires Inv(s) && TrivialRoute(m, s, req).Some?
    requires var (e, params) := TrivialRoute(m, s, req).value;
             TrivialAttempt(w, s.snapshot.settings, req, e, params, log).Failed?
    ensures var (e, params) := TrivialRoute(m, s, req).value;
            var st := s.snapshot.settings;
            var a := TrivialAttempt(w, st, req, e, params, log);
            && HandleRsgi(w, p, m, s.snapshot, TablesFor(s), req, log)
               == ErrorSync(w, a.log, req.IsHead(), st.exceptionHandlers, a.error)
            && RunRsgi(w, p, m, s.snapshot, TablesFor(s), req, log)
               == ErrorFull(w, a.log, req.IsHead(), st.exceptionHandlers, a.error)
  {
    var (e, params) := TrivialRoute(m, s, req).value;
    assert e in s.routes && EntryAgrees(e);
    TrivialRouteInFull(w, p, s.snapshot.settings, req, e, params, log);
  }

  /** Where the handler raises, an async exception handler gives the short circuit away. */
  lemma AsyncHandlerIsVisible(p: Services, m: Matcher, s: AppValue, req: Request)
    requires Inv(s) && TrivialRoute(m, s, req).Some?
    requires exists h :: h in s.snapshot.settings.exceptionHandlers && h.isAsync
    ensures !Invisible(Failing(PLAIN), p, m, s, req, [])
  {
    var w := Failing(PLAIN);
    var (e, params) := TrivialRoute(m, s, req).value;
    var a := TrivialAttempt(w, s.snapshot.settings, req, e, params, []);
    FailedRouteUsesErrorPaths(w, p, m, s, req, []);
    AsyncHandlerDisagrees(PLAIN, a.log, req.IsHead(), s.snapshot.settings.exceptionHandlers, a.error);
  }

  /** Where nothing returned can be mapped, a second exception handler does. */
  lemma TwoHandlersAreVisible(p: Services, m: Matcher, s: AppValue, req: Request)
    requires Inv(s) && TrivialRoute(m, s, req).Some?
    requires |s.snapshot.settings.exceptionHandlers| >= 2
    requires forall h | h in s.snapshot.settings.exceptionHandlers :: !h.isAsync
    ensures !Invisible(Unusable(PLAIN), p, m, s, req, [])
  {
    var w := Unusable(PLAIN);
    var (e, params) := TrivialRoute(m, s, req).value;
    var a := TrivialAttempt(w, s.snapshot.settings, req, e, params, []);
    FailedRouteUsesErrorPaths(w, p, m, s, req, []);
    TwoHandlersDisagree(PLAIN, a.log, req.IsHead(), s.snapshot.settings.exceptionHandlers, a.error);
  }

  /** A request that the short circuit runs itself is treated alike by both dispatchers, in every
      world whose protocol object takes every response, if and only if at most one exception handler
      is registered and it is not async. */
  lemma ShortCircuitIsInvisibleExactly(p: Services, m: Matcher, s: AppValue, req: Request)
    requires Inv(s) && TrivialRoute(m, s, req).Some?
    ensures (forall w: World, log: History | Reliable(w) :: Invisible(w, p, m, s, req, log))
            <==> OneSyncHandler(s.snapshot.settings.exceptionHandlers)
  {
    var handlers := s.snapshot.settings.exceptionHandlers;
    if OneSyncHandler(handlers) {
      forall w: World, log: History | Reliable(w) ensures Invisible(w, p, m, s, req, log) {
        ShortCircuitIsInvisible(w, p, m, s, req, log);
      }
    } else {
      MatchingIsReliable(PLAIN);
      if exists h :: h in handlers && h.isAsync {
        AsyncHandlerIsVisible(p, m, s, req);
      } else {
        TwoHandlersAreVisible(p, m, s, req);
      }
    }
  }

  // ---- The OpenAPI route -------------------------------------------------------------------------

  /** A GET of the document is answered with it if the application's flag is set, and also, with the
      flag never set, until something rebuilds the snapshot; otherwise it is routed like any other
      path. */
  lemma DocumentIsServedExactly(w: World, p: Services, m: Matcher, k: Configs, includeOpenapi: bool, ops: seq<Op>,
                                req: Request, log: History)
    requires req.proto == "http" && req.verb.GET? && req.path == "/openapi.json"
    ensures var s := After(m, k, Initial(includeOpenapi), ops);
            var outcome := HandleRsgi(w, p, m, s.snapshot, TablesFor(s), req, log);
            if s.settings.includeOpenapi || (!includeOpenapi && !EverPublished(m, k, Initial(includeOpenapi), ops))
            then AsksForOpenapi(s.snapshot.settings, req) && outcome == OpenapiFull(w, p, req, log)
            else !AsksForOpenapi(s.snapshot.settings, req)
  {
    var s0 := Initial(includeOpenapi);
    CurrentFrom(m, k, s0, ops);
    OpenapiAgrees(w, p, req, log);
  }
}
