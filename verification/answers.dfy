/** Every request is answered once, and the handler of a route runs at most once and only for a
    request that passed every guard. */
module Answers {
  import opened Text
  import opened Injection
  import opened Headers
  import opened Protocol
  import opened Routing
  import opened State
  import opened Dispatch

  function Responses(log: History): nat {
    if log == [] then 0
    else Responses(log[..|log| - 1]) + if log[|log| - 1].Respond? then 1 else 0
  }

  function HandlerCalls(log: History): nat {
    if log == [] then 0
    else HandlerCalls(log[..|log| - 1]) + if log[|log| - 1].CallHandler? then 1 else 0
  }

  lemma Counts(log: History, e: Event)
    ensures Responses(log + [e]) == Responses(log) + if e.Respond? then 1 else 0
    ensures HandlerCalls(log + [e]) == HandlerCalls(log) + if e.CallHandler? then 1 else 0
  {
    assert (log + [e])[..|log|] == log;
  }

  /** Nothing was responded or handled on the way. */
  ghost predicate Quiet(before: History, after: History) {
    before <= after && Responses(after) == Responses(before) && HandlerCalls(after) == HandlerCalls(before)
  }

  /** No return value says that the response has already been sent. */
  ghost predicate Speaks(w: World) {
    forall log, out :: w.mapReturn(log, out) != Ok(AlreadySent)
  }

  /** One response if no error is raised to the server and none otherwise; a return value that
      says the response has been sent takes its place. */
  ghost predicate AnswersOnce(w: World, before: History, after: History, raised: bool, calls: nat) {
    && before <= after
    && Responses(after) <= Responses(before) + (if raised then 0 else 1)
    && (Speaks(w) ==> Responses(after) == Responses(before) + (if raised then 0 else 1))
    && HandlerCalls(after) == HandlerCalls(before) + calls
  }

  ghost predicate Once(w: World, before: History, o: Outcome, calls: nat) {
    AnswersOnce(w, before, o.log, o.raised.Some?, calls)
  }

  lemma SendsOnce(w: World, log: History, status: int, headers: HeaderList, sent: Sent)
    requires Reliable(w)
    ensures var o := Send(w, log, status, headers, sent);
            o.raised.None? && Once(w, log, o, 0) && Responses(o.log) == Responses(log) + 1
  {
    Counts(log, Respond(status, headers, sent));
  }

  lemma SendsMapped(w: World, log: History, isHead: bool, mapped: HandlerMap)
    requires Reliable(w) && (Speaks(w) ==> !mapped.AlreadySent?)
    ensures SendMapped(w, log, isHead, mapped).raised.None? && Once(w, log, SendMapped(w, log, isHead, mapped), 0)
  {
    if !mapped.AlreadySent? {
      var o := SendMapped(w, log, isHead, mapped);
      var e := o.log[|log|];
      Counts(log, e);
    }
  }

  lemma SendsProblem(w: World, log: History, err: PyErr)
    requires Reliable(w)
    ensures Once(w, log, SendProblem(w, log, err), 0)
  {
    if w.httpException(err).Ok? {
      var o := SendProblem(w, log, err);
      Counts(log, o.log[|log|]);
    }
  }

  lemma {:induction false} WillingIsQuiet(w: World, log: History, handlers: seq<ExceptionHandler>, err: PyErr)
    ensures Quiet(log, FirstWilling(w, log, handlers, err).0)
    decreases |handlers|
  {
    if handlers != [] {
      var h, rest := handlers[|handlers| - 1], handlers[..|handlers| - 1];
      var e := CallExceptionHandler(h.handler, err);
      Counts(log, e);
      WillingIsQuiet(w, log, rest, err);
      WillingIsQuiet(w, log + [e], rest, err);
    }
  }

  lemma HandledOnce(w: World, log: History, isHead: bool, res: Py, err: PyErr)
    requires Reliable(w)
    ensures Once(w, log, SendHandled(w, log, isHead, res, err), 0)
  {
    match w.mapReturn(log, res) {
      case Err(_) => SendsProblem(w, log, err);
      case Ok(mapped) => SendsMapped(w, log, isHead, mapped);
    }
  }

  lemma AwaitedOnce(w: World, log: History, isHead: bool, res: Py, err: PyErr)
    requires Reliable(w)
    ensures Once(w, log, SendAwaited(w, log, isHead, res, err), 0)
  {
    var now := log + [AwaitExceptionHandler(res)];
    Counts(log, AwaitExceptionHandler(res));
    match w.answer(now) {
      case Ok(awaited) => HandledOnce(w, now, isHead, awaited, err);
      case Err(e) => SendTextOnce(w, now, 500, w.errorBody(e), "application/json; charset=utf-8");
    }
  }

  /** The asynchronous error path. */
  lemma ErrorAnswersOnce(w: World, log: History, isHead: bool, handlers: seq<ExceptionHandler>, err: PyErr)
    requires Reliable(w)
    ensures Once(w, log, ErrorFull(w, log, isHead, handlers, err), 0)
  {
    WillingIsQuiet(w, log, handlers, err);
    var (now, found) := FirstWilling(w, log, handlers, err);
    match found {
      case None => SendsProblem(w, now, err);
      case Some((res, _)) =>
        HandledOnce(w, now, isHead, res, err);
        AwaitedOnce(w, now, isHead, res, err);
    }
  }

  lemma {:induction false} HandlersTriedOnce(w: World, log: History, isHead: bool, handlers: seq<ExceptionHandler>,
                                             err: PyErr)
    requires Reliable(w)
    ensures match TryHandlersSync(w, log, isHead, handlers, err)
            case Responded(o) => Once(w, log, o, 0)
            case NotHandled(after) => Quiet(log, after)
    decreases |handlers|
  {
    if handlers != [] {
      var h, rest := handlers[|handlers| - 1], handlers[..|handlers| - 1];
      var e := CallExceptionHandler(h.handler, err);
      Counts(log, e);
      HandlersTriedOnce(w, log, isHead, rest, err);
      HandlersTriedOnce(w, log + [e], isHead, rest, err);
      if w.answer(log + [e]).Ok? && w.mapReturn(log + [e], w.answer(log + [e]).value).Ok? {
        SendsMapped(w, log + [e], isHead, w.mapReturn(log + [e], w.answer(log + [e]).value).value);
      }
    }
  }

  /** The synchronous error path, whatever handlers are registered. */
  lemma ErrorSyncAnswersOnce(w: World, log: History, isHead: bool, handlers: seq<ExceptionHandler>, err: PyErr)
    requires Reliable(w)
    ensures Once(w, log, ErrorSync(w, log, isHead, handlers, err), 0)
  {
    HandlersTriedOnce(w, log, isHead, handlers, err);
    match TryHandlersSync(w, log, isHead, handlers, err) {
      case Responded(_) =>
      case NotHandled(after) => SendsProblem(w, after, err);
    }
  }

  // ---- Attempts and stages ---------------------------------------------------------------------

  /** A finished attempt has responded, a failed one has not. */
  ghost predicate Good(w: World, before: History, a: Attempt<()>, calls: nat) {
    AnswersOnce(w, before, a.log, a.Failed?, calls)
  }

  lemma {:induction false} MiddlewareIsQuiet(w: World, log: History, middleware: seq<Py>, mapped: HandlerMap)
    requires Speaks(w) ==> !mapped.AlreadySent?
    ensures var a := ThroughResponse(w, log, middleware, mapped);
            Quiet(log, a.log) && (Speaks(w) && a.Done? ==> !a.value.AlreadySent?)
    decreases |middleware|
  {
    if middleware != [] && !mapped.AlreadySent? {
      var now := log + [CallResponseMiddleware(middleware[0], mapped)];
      Counts(log, CallResponseMiddleware(middleware[0], mapped));
      if w.answer(now).Ok? && w.mapReturn(now, w.answer(now).value).Ok? {
        MiddlewareIsQuiet(w, now, middleware[1..], w.mapReturn(now, w.answer(now).value).value);
      }
    }
  }

  lemma {:induction false} RequestMiddlewareIsQuiet(w: World, log: History, middleware: seq<Py>)
    ensures Quiet(log, ThroughRequest(w, log, middleware).log)
    decreases |middleware|
  {
    if middleware != [] {
      Counts(log, CallRequestMiddleware(middleware[0]));
      RequestMiddlewareIsQuiet(w, log + [CallRequestMiddleware(middleware[0])], middleware[1..]);
    }
  }

  lemma DeliverIsGood(w: World, st: Settings, req: Request, log: History, mapped: HandlerMap,
                      merged: Result<HandlerMap, PyErr>)
    requires Reliable(w) && (Speaks(w) ==> !mapped.AlreadySent?)
    requires merged == Ok(mapped) || merged == MergeHeaders(w, st, req, log, mapped)
    ensures Good(w, log, Deliver(w, req, log, merged), 0)
  {
    if merged.Ok? {
      SendsMapped(w, log, req.IsHead(), merged.value);
    }
  }

  lemma FinishIsGood(w: World, st: Settings, req: Request, log: History, out: Py)
    requires Reliable(w)
    ensures Good(w, log, Finish(w, st, req, log, out), 0)
  {
    if w.mapReturn(log, out).Ok? {
      var mapped := w.mapReturn(log, out).value;
      MiddlewareIsQuiet(w, log, st.responseMiddleware, mapped);
      var a := ThroughResponse(w, log, st.responseMiddleware, mapped);
      if a.Done? {
        DeliverIsGood(w, st, req, a.log, a.value,
                      if st.securityHeaders.Some? || st.cors.Some? then MergeHeaders(w, st, req, a.log, a.value)
                      else Ok(a.value));
      }
    }
  }

  lemma EndIsOnce(w: World, st: Settings, req: Request, before: History, a: Attempt<()>, calls: nat)
    requires Reliable(w) && Good(w, before, a, calls)
    ensures Once(w, before, End(w, st, req, a), calls)
  {
    if a.Failed? {
      ErrorAnswersOnce(w, a.log, req.IsHead(), st.exceptionHandlers, a.error);
    }
  }

  /** Calling and awaiting the handler is one call and no response. */
  lemma CallIsOneCall(w: World, e: RouteEntry, kwargs: Kwargs, log: History)
    ensures var after := CallAttempt(w, e, kwargs, log).log;
            log <= after && Responses(after) == Responses(log) && HandlerCalls(after) == HandlerCalls(log) + 1
  {
    var called := log + [CallHandler(e.handler, kwargs)];
    Counts(log, CallHandler(e.handler, kwargs));
    if w.answer(called).Ok? {
      Counts(called, AwaitHandler(w.answer(called).value));
    }
  }

  lemma HandlerIsGood(w: World, st: Settings, req: Request, e: RouteEntry, kwargs: Kwargs, log: History)
    requires Reliable(w)
    ensures Good(w, log, HandlerAttempt(w, st, req, e, kwargs, log), 1)
  {
    CallIsOneCall(w, e, kwargs, log);
    match CallAttempt(w, e, kwargs, log) {
      case Failed(_, _) =>
      case Done(now, out) => FinishIsGood(w, st, req, now, out);
    }
  }

  /** A stage that goes on is quiet; one that stops has answered without calling the handler. */
  ghost predicate Sound<T>(w: World, before: History, s: Stage<T>) {
    match s
    case Go(log, _) => Quiet(before, log)
    case Stop(o) => Once(w, before, o, 0)
  }

  lemma SendTextOnce(w: World, log: History, status: int, text: string, contentType: string)
    requires Reliable(w)
    ensures Once(w, log, SendText(w, log, status, text, contentType), 0)
  {
    SendsOnce(w, log, status, [("content-type", contentType)], if text == "" then NoBody else Str(text));
  }

  lemma BodyIsSound(w: World, p: Services, req: Request, e: RouteEntry, log: History)
    requires Reliable(w)
    ensures Sound(w, log, BodyStage(w, p, req, e, log))
  {
    Counts(log, ReadBody);
    SendTextOnce(w, log, 413, "{\"error\":\"payload too large\"}", "application/json; charset=utf-8");
    SendTextOnce(w, log + [ReadBody], 413, "{\"error\":\"payload too large\"}", "application/json; charset=utf-8");
  }

  lemma RateIsSound(w: World, p: Services, req: Request, e: RouteEntry, log: History)
    requires Reliable(w)
    ensures Sound(w, log, RateStage(w, p, req, e, log))
  {
    var s := RateStage(w, p, req, e, log);
    if s.Stop? {
      Counts(log, s.outcome.log[|log|]);
    }
  }

  lemma AuthIsSound(w: World, p: Services, req: Request, e: RouteEntry, log: History)
    requires Reliable(w)
    ensures Sound(w, log, AuthStage(w, p, req, e, log))
  {
    SendTextOnce(w, log, 401, Unauthorized.Message(), "text/plain; charset=utf-8");
    SendTextOnce(w, log, 401, Expired.Message(), "text/plain; charset=utf-8");
  }

  lemma FormIsSound(w: World, p: Services, req: Request, e: RouteEntry, body: Bytes, log: History)
    requires Reliable(w)
    ensures Sound(w, log, FormStage(w, p, req, e, body, log))
  {
    SendTextOnce(w, log, 400, "{\"error\":\"missing content-type\"}", "application/json; charset=utf-8");
    if req.header("content-type").Some? {
      match p.parseForm(req.header("content-type").value, body) {
        case BadForm(status, text) => SendTextOnce(w, log, status, text, "application/json; charset=utf-8");
        case _ =>
      }
    }
  }

  lemma ArgumentsAreSound(w: World, p: Services, req: Request, e: RouteEntry, params: PathParams, i: Inputs,
                          log: History)
    requires Reliable(w) && |i.results| <= |e.dependencies|
    ensures Sound(w, log, ArgumentStage(w, p, req, e, params, i, log))
  {
    match p.parseJson(e.bodyModel, i.body) {
      case Valid(_) =>
      case Malformed(text) => SendTextOnce(w, log, 400, text, "application/json; charset=utf-8");
      case Invalid(text) => SendTextOnce(w, log, 422, text, "application/json; charset=utf-8");
    }
  }

  lemma DependenciesAreQuiet(w: World, p: Services, req: Request, e: RouteEntry, log: History)
    ensures Quiet(log, DependencyAttempt(w, p, req, e, log).log)
  {
    Counts(log, RunFactories(e.dependencies));
  }

  lemma ServedOnce(w: World, p: Services, st: Settings, req: Request, e: RouteEntry, params: PathParams, i: Inputs,
                   log: History)
    returns (calls: nat)
    requires Reliable(w) && |i.results| <= |e.dependencies|
    ensures calls <= 1 && Once(w, log, ServeHandler(w, p, st, req, e, params, i, log), calls)
  {
    ArgumentsAreSound(w, p, req, e, params, i, log);
    match ArgumentStage(w, p, req, e, params, i, log) {
      case Stop(_) => calls := 0;
      case Go(now, kwargs) =>
        HandlerIsGood(w, st, req, e, kwargs, now);
        EndIsOnce(w, st, req, now, HandlerAttempt(w, st, req, e, kwargs, now), 1);
        calls := 1;
    }
  }

  lemma AdmittedOnce(w: World, p: Services, st: Settings, req: Request, e: RouteEntry, params: PathParams,
                     body: Bytes, claims: Option<Py>, form: (Py, Py), log: History) returns (calls: nat)
    requires Reliable(w)
    ensures calls <= 1 && Once(w, log, ServeAdmitted(w, p, st, req, e, params, body, claims, form, log), calls)
  {
    DependencyResults(w, p, req, e, log);
    DependenciesAreQuiet(w, p, req, e, log);
    match DependencyAttempt(w, p, req, e, log) {
      case Failed(now, err) =>
        ErrorAnswersOnce(w, now, req.IsHead(), st.exceptionHandlers, err);
        calls := 0;
      case Done(now, results) =>
        calls := ServedOnce(w, p, st, req, e, params, Gathered(p, req, e, results, claims, body, form), now);
    }
  }

  /** The declared body size is within the bound, and so is the body that was read. */
  predicate BodyFits(w: World, p: Services, req: Request, e: RouteEntry, log: History) {
    && (DeclaredLength(p, req).Some? ==> DeclaredLength(p, req).value <= p.maxBody)
    && var body := w.answer(log + [SetTemplate(e.pathTemplate)] + [ReadBody]);
    && body.Ok? && |p.bodyBytes(body.value)| <= p.maxBody
  }

  /** The request passed the route's rate limit, token check and body bound. */
  predicate PassesGuards(w: World, p: Services, req: Request, e: RouteEntry, log: History) {
    && (e.rateLimiter.Some? ==> p.denied(log, e, req).None?)
    && (e.requireJwt ==> p.authorize(e, req.header("authorization"), req.header("cookie")).Ok?)
    && (ReadsBody(e) ==> BodyFits(w, p, req, e, log))
  }

  lemma BodyServedOnce(w: World, p: Services, st: Settings, req: Request, e: RouteEntry, params: PathParams,
                       body: Bytes, log: History) returns (calls: nat)
    requires Reliable(w)
    ensures calls <= 1 && Once(w, log, ServeWithBody(w, p, st, req, e, params, body, log), calls)
    ensures calls == 1 && e.requireJwt ==> p.authorize(e, req.header("authorization"), req.header("cookie")).Ok?
  {
    calls := 0;
    AuthIsSound(w, p, req, e, log);
    match AuthStage(w, p, req, e, log) {
      case Stop(_) =>
      case Go(now, claims) =>
        FormIsSound(w, p, req, e, body, now);
        match FormStage(w, p, req, e, body, now) {
          case Stop(_) =>
          case Go(_, form) => calls := AdmittedOnce(w, p, st, req, e, params, body, claims, form, now);
        }
    }
  }

  lemma RouteServedOnce(w: World, p: Services, st: Settings, req: Request, e: RouteEntry, params: PathParams,
                        log: History)
    returns (calls: nat)
    requires Reliable(w)
    ensures calls <= 1 && Once(w, log, ServeRoute(w, p, st, req, e, params, log), calls)
    ensures calls == 1 ==> PassesGuards(w, p, req, e, log)
  {
    calls := 0;
    RateIsSound(w, p, req, e, log);
    if RateStage(w, p, req, e, log).Go? {
      var at := log + [SetTemplate(e.pathTemplate)];
      Counts(log, SetTemplate(e.pathTemplate));
      BodyIsSound(w, p, req, e, at);
      match BodyStage(w, p, req, e, at) {
        case Stop(_) =>
        case Go(read, body) => calls := BodyServedOnce(w, p, st, req, e, params, body, read);
      }
    }
  }

  /** The route an HTTP request is matched to, if there is one in range. */
  function Matched(m: Matcher, snap: FrozenState, compiled: CompiledRouters, req: Request): Option<RouteEntry> {
    match MatchRoute(m, compiled, req.verb, req.path)
    case Some(Some((idx, _))) => if idx < |snap.routes| then Some(snap.routes[idx]) else None
    case _ => None
  }

  lemma NoRouteOnce(w: World, log: History, methods: seq<Verb>)
    requires Reliable(w)
    ensures Once(w, log, NoRoute(w, log, methods), 0)
  {
    Counts(log, NoRoute(w, log, methods).log[|log|]);
  }

  /** The routing halves of both dispatchers. */
  lemma UnmatchedInBoth(w: World, p: Services, m: Matcher, s: AppValue, req: Request, log: History)
    requires Inv(s) && MatchRoute(m, s.live, req.verb, req.path) == Some(None)
    ensures var refused := NoRoute(w, log, MethodsMatching(m, s.live, req.path));
            && RouteFull(w, p, m, s.snapshot, TablesFor(s), req, log) == refused
            && RouteSync(w, p, m, s.snapshot, TablesFor(s), req, log) == Answered(refused)
  {
    assert TablesFor(s) == s.live;
  }

  lemma UnmatchedIsRouted(w: World, p: Services, m: Matcher, s: AppValue, req: Request, log: History)
    requires Inv(s) && MatchRoute(m, s.live, req.verb, req.path) == Some(None)
    requires req.proto == "http" && !AsksForOpenapi(s.snapshot.settings, req)
    requires Preflight(s.snapshot.settings, req).None?
    requires var through := ThroughRequest(w, log, s.snapshot.settings.requestMiddleware);
             through.Done? && through.value.None?
    ensures var now := ThroughRequest(w, log, s.snapshot.settings.requestMiddleware).log;
            HandleRsgi(w, p, m, s.snapshot, TablesFor(s), req, log)
            == NoRoute(w, now, MethodsMatching(m, s.live, req.path))
  {
    UnmatchedInBoth(w, p, m, s, req, log);
    UnmatchedInBoth(w, p, m, s, req, ThroughRequest(w, log, s.snapshot.settings.requestMiddleware).log);
  }

  /** An HTTP request with a known method and no route, which is neither for the document nor a
      preflight nor answered by request middleware: one response, after what the middleware did,
      404 exactly if no method matches the path, else 405 with an Allow header listing methods that
      all match, the requested one not among them. */
  lemma UnmatchedIsRefused(w: World, p: Services, m: Matcher, s: AppValue, req: Request, log: History)
    requires Inv(s) && MatchRoute(m, s.live, req.verb, req.path) == Some(None)
    requires req.proto == "http" && !AsksForOpenapi(s.snapshot.settings, req)
    requires Preflight(s.snapshot.settings, req).None?
    requires var through := ThroughRequest(w, log, s.snapshot.settings.requestMiddleware);
             through.Done? && through.value.None?
    ensures var methods := MethodsMatching(m, s.live, req.path);
            var now := ThroughRequest(w, log, s.snapshot.settings.requestMiddleware).log;
            && (forall v | v in methods :: s.live.Serves(m, v, req.path) && v != req.verb)
            && HandleRsgi(w, p, m, s.snapshot, TablesFor(s), req, log)
               == if forall u :: !s.live.Serves(m, u, req.path)
                  then Send(w, now, 404, [("content-type", "text/plain; charset=utf-8")], Str("Not Found"))
                  else Send(w, now, 405,
                            [("allow", AllowValue(methods)), ("content-type", "text/plain; charset=utf-8")],
                            Raw(Ascii("Method Not Allowed")))
  {
    NotFoundExactly(m, s.live, req.verb, req.path);
    forall v | v in MethodsMatching(m, s.live, req.path) ensures s.live.Serves(m, v, req.path) {
      AllowedMethodsMatch(m, s.live, req.path, v);
    }
    UnmatchedIsRouted(w, p, m, s, req, log);
  }

  /** What a response carries in the three places where the answer to a HEAD request can be made: a
      response made from a return value never has a body; a refusal for want of a route always has
      one, and the end of the error paths has one unless its text is empty. */
  lemma HeadBodyExactly(w: World, log: History, methods: seq<Verb>, mapped: HandlerMap, err: PyErr)
    ensures !mapped.AlreadySent? ==> SendMapped(w, log, true, mapped).log[|log|].sent == NoBody
    ensures NoRoute(w, log, methods).log[|log|].sent != NoBody
    ensures w.httpException(err).Ok? ==>
              (SendProblem(w, log, err).log[|log|].sent == NoBody
               <==> match w.httpException(err).value
                    case Some(problem) => problem.body == []
                    case None => w.errorBody(err) == "")
  {
    if !mapped.AlreadySent? {
      HeadSends(w, log, mapped);
    }
  }

  lemma OpenapiOnce(w: World, p: Services, req: Request, log: History)
    requires Reliable(w)
    ensures Once(w, log, OpenapiFull(w, p, req, log), 0)
  {
    var at := log + [SetTemplate("/openapi.json")];
    Counts(log, SetTemplate("/openapi.json"));
    Counts(at, OpenapiFull(w, p, req, log).log[|at|]);
  }

  lemma PreflightOnce(w: World, log: History, st: Settings, req: Request)
    requires Reliable(w) && Preflight(st, req).Some?
    ensures Once(w, log, AnswerPreflight(w, log, Preflight(st, req).value), 0)
  {
    Counts(log, AnswerPreflight(w, log, Preflight(st, req).value).log[|log|]);
  }

  lemma RoutedOnce(w: World, p: Services, m: Matcher, snap: FrozenState, compiled: CompiledRouters, req: Request,
                   log: History)
    returns (calls: nat)
    requires Reliable(w)
    ensures calls <= 1 && Once(w, log, RouteFull(w, p, m, snap, compiled, req, log), calls)
    ensures calls == 1 ==>
              Matched(m, snap, compiled, req).Some?
              && PassesGuards(w, p, req, Matched(m, snap, compiled, req).value, log)
  {
    calls := 0;
    NoRouteOnce(w, log, MethodsMatching(m, compiled, req.path));
    match MatchRoute(m, compiled, req.verb, req.path) {
      case Some(Some((idx, params))) =>
        if idx < |snap.routes| {
          calls := RouteServedOnce(w, p, snap.settings, req, snap.routes[idx], params, log);
        }
      case _ =>
    }
  }

  /** The full pipeline answers an HTTP request once and calls the handler at most once, after the
      guards. */
  lemma PipelineAnswersOnce(w: World, p: Services, m: Matcher, snap: FrozenState, compiled: CompiledRouters,
                            req: Request, log: History) returns (calls: nat)
    requires Reliable(w) && req.proto == "http"
    ensures calls <= 1 && Once(w, log, RunRsgi(w, p, m, snap, compiled, req, log), calls)
    ensures calls == 1 ==>
              && Matched(m, snap, compiled, req).Some?
              && PassesGuards(w, p, req, Matched(m, snap, compiled, req).value,
                              ThroughRequest(w, log, snap.settings.requestMiddleware).log)
  {
    calls := 0;
    var st := snap.settings;
    if AsksForOpenapi(st, req) {
      OpenapiOnce(w, p, req, log);
    } else if Preflight(st, req).Some? {
      PreflightOnce(w, log, st, req);
    } else {
      RequestMiddlewareIsQuiet(w, log, st.requestMiddleware);
      match ThroughRequest(w, log, st.requestMiddleware) {
        case Failed(now, e) =>
          ErrorAnswersOnce(w, now, req.IsHead(), st.exceptionHandlers, e);
        case Done(now, Some(out)) =>
          FinishIsGood(w, st, req, now, out);
          EndIsOnce(w, st, req, now, Finish(w, st, req, now, out), 0);
        case Done(now, None) =>
          calls := RoutedOnce(w, p, m, snap, compiled, req, now);
      }
    }
  }

  // ---- The short circuit -------------------------------------------------------------------------

  lemma TrivialIsGood(w: World, st: Settings, req: Request, e: RouteEntry, params: PathParams, log: History)
    requires Reliable(w)
    ensures Good(w, log, TrivialAttempt(w, st, req, e, params, log), 1)
  {
    var at := log + [SetTemplate(e.pathTemplate)];
    var call := CallHandler(e.handler, PathKwargs(w, e.wildcardParams, params));
    var called := at + [call];
    Counts(log, SetTemplate(e.pathTemplate));
    Counts(at, call);
    if w.answer(called).Ok? && w.mapReturn(called, w.answer(called).value).Ok? {
      var mapped := w.mapReturn(called, w.answer(called).value).value;
      DeliverIsGood(w, st, req, called, mapped, MergeHeaders(w, st, req, called, mapped));
    }
  }

  lemma TrivialAnswersOnce(w: World, st: Settings, req: Request, e: RouteEntry, params: PathParams, log: History)
    requires Reliable(w)
    ensures Once(w, log, RunTrivialSyncRoute(w, st, req, e, params, log), 1)
  {
    var a := TrivialAttempt(w, st, req, e, params, log);
    TrivialIsGood(w, st, req, e, params, log);
    if a.Failed? {
      ErrorSyncAnswersOnce(w, a.log, req.IsHead(), st.exceptionHandlers, a.error);
    }
  }

  lemma OpenapiSyncOnce(w: World, p: Services, req: Request, log: History)
    requires Reliable(w)
    ensures Once(w, log, OpenapiSync(w, p, req, log), 0)
  {
    var at := log + [SetTemplate("/openapi.json")];
    Counts(log, SetTemplate("/openapi.json"));
    Counts(at, OpenapiSync(w, p, req, log).log[|at|]);
  }

  lemma TrivialPassesGuards(w: World, p: Services, req: Request, e: RouteEntry, log: History)
    requires IsTrivial(e)
    ensures PassesGuards(w, p, req, e, log)
  {
    assert "body" in RESERVED;
  }

  lemma SyncRoutedOnce(w: World, p: Services, m: Matcher, snap: FrozenState, compiled: CompiledRouters, req: Request,
                       log: History) returns (calls: nat)
    requires Reliable(w) && forall e | e in snap.routes :: EntryAgrees(e)
    requires RouteSync(w, p, m, snap, compiled, req, log).Answered?
    ensures calls <= 1 && Once(w, log, RouteSync(w, p, m, snap, compiled, req, log).outcome, calls)
    ensures calls == 1 ==>
              Matched(m, snap, compiled, req).Some?
              && PassesGuards(w, p, req, Matched(m, snap, compiled, req).value, log)
  {
    calls := 0;
    NoRouteOnce(w, log, MethodsMatching(m, compiled, req.path));
    match MatchRoute(m, compiled, req.verb, req.path) {
      case Some(Some((idx, params))) =>
        if idx < |snap.routes| {
          var e := snap.routes[idx];
          assert EntryAgrees(e);
          TrivialAnswersOnce(w, snap.settings, req, e, params, log);
          TrivialPassesGuards(w, p, req, e, log);
          calls := 1;
        }
      case _ =>
    }
  }

  lemma SyncAnswersOnce(w: World, p: Services, m: Matcher, snap: FrozenState, compiled: CompiledRouters, req: Request,
                        log: History) returns (calls: nat)
    requires Reliable(w) && req.proto == "http" && forall e | e in snap.routes :: EntryAgrees(e)
    requires TrySync(w, p, m, snap, compiled, req, log).Answered?
    ensures calls <= 1 && Once(w, log, TrySync(w, p, m, snap, compiled, req, log).outcome, calls)
    ensures calls == 1 ==>
              && snap.settings.requestMiddleware == [] && Matched(m, snap, compiled, req).Some?
              && PassesGuards(w, p, req, Matched(m, snap, compiled, req).value, log)
  {
    calls := 0;
    var st := snap.settings;
    if Preflight(st, req).Some? {
      PreflightOnce(w, log, st, req);
    } else if AsksForOpenapi(st, req) {
      OpenapiSyncOnce(w, p, req, log);
    } else {
      calls := SyncRoutedOnce(w, p, m, snap, compiled, req, log);
    }
  }

  /** In every state satisfying the application's invariant and whatever exception handlers are
      registered: with a protocol object that takes every response, an HTTP request that ends
      without an error to the server has been answered exactly once (at most once where a return
      value may say that it has been answered already), and one that ends with an error has not
      been answered. The handler has been called at most once, and if it has, a route matched and
      the request, as the request middleware left it, passed the route's guards. */
  lemma EveryRequestIsAnsweredOnce(w: World, p: Services, m: Matcher, s: AppValue, req: Request, log: History)
    returns (calls: nat)
    requires Inv(s) && Reliable(w) && req.proto == "http"
    ensures calls <= 1 && Once(w, log, HandleRsgi(w, p, m, s.snapshot, TablesFor(s), req, log), calls)
    ensures calls == 1 ==>
              && Matched(m, s.snapshot, TablesFor(s), req).Some?
              && PassesGuards(w, p, req, Matched(m, s.snapshot, TablesFor(s), req).value,
                              ThroughRequest(w, log, s.snapshot.settings.requestMiddleware).log)
  {
    var snap, compiled := s.snapshot, TablesFor(s);
    if TrySync(w, p, m, snap, compiled, req, log).Answered? {
      forall e | e in snap.routes ensures EntryAgrees(e) {
        assert e in s.routes;
      }
      calls := SyncAnswersOnce(w, p, m, snap, compiled, req, log);
    } else {
      calls := PipelineAnswersOnce(w, p, m, snap, compiled, req, log);
    }
  }
}
