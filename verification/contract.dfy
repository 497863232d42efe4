/** What goes over the wire, with its statuses, headers and texts, and who gets to call a handler. */
module Contract {
  import opened Text
  import opened Names
  import opened Injection
  import opened Headers
  import opened Protocol
  import opened Routing
  import opened State
  import opened Dispatch
  import opened Answers
  import opened Registered
  import Arguments
  import Bucket
  import Cors
  import Grants
  import Decimal
  import Pipeline
  import ShortCircuits
  import Traces

  const JSON := "application/json; charset=utf-8"
  const PLAIN_TEXT := "text/plain; charset=utf-8"

  // ---- Configured headers ------------------------------------------------------------------------

  /** The CORS headers for the request's origin, from the compiled configuration or else from the
      configured object. */
  ghost predicate IsCorsList(w: World, st: Settings, req: Request, log: History, list: HeaderList) {
    if req.header("origin").None? then list == []
    else if st.compiledCors.Some? then list == st.compiledCors.value.ResponseHeaderPairs(req.header("origin").value)
    else if st.cors.Some? then w.configPairs(log, st.cors.value) == Ok(list)
    else list == []
  }

  /** The security headers, likewise; only HTTPS gets the transport one. */
  ghost predicate IsSecurityList(w: World, st: Settings, req: Request, log: History, list: HeaderList) {
    match st.compiledSecurityHeaders
    case Some(CompiledSecurityHeaders(hsts, others)) =>
      if req.scheme == "https" && hsts.Some? then list == [("Strict-Transport-Security", hsts.value)] + others
      else list == others
    case None =>
      if st.securityHeaders.Some? then w.configPairs(log, st.securityHeaders.value) == Ok(list) else list == []
  }

  ghost predicate IsMerged(mapped: HandlerMap, security: HeaderList, cors: HeaderList, r: HandlerMap, name: string)
    requires !mapped.AlreadySent?
  {
    && !r.AlreadySent? && r.status == mapped.status && r.body == mapped.body
    && var before, after := HeadersOf(mapped), HeadersOf(r);
       if HasName(cors, name) then Count(after, name) == 1 && LastValue(after, name) == LastValue(cors, name)
       else if HasName(before, name) then
         Count(after, name) == Count(before, name) && LastValue(after, name) == LastValue(before, name)
       else
         Count(after, name) == (if HasName(security, name) then 1 else 0)
         && LastValue(after, name) == FirstValue(security, name)
  }

  lemma CorsListIs(w: World, st: Settings, req: Request, log: History)
    requires CorsPairs(w, st, req, log).Ok?
    ensures IsCorsList(w, st, req, log, CorsPairs(w, st, req, log).value)
  {}

  lemma SecurityListIs(w: World, st: Settings, req: Request, log: History)
    requires SecurityPairs(w, st, req, log).Ok?
    ensures IsSecurityList(w, st, req, log, SecurityPairs(w, st, req, log).value)
  {}

  lemma MergedIs(mapped: HandlerMap, security: HeaderList, cors: HeaderList, name: string)
    requires !mapped.AlreadySent?
    ensures IsMerged(mapped, security, cors, MergeConfig(mapped, security, cors), name)
  {
    MergeConfigHeaders(mapped, security, cors);
    MergePerName(mapped, security, cors, name);
  }

  /** Merging keeps status and body. Header by header, a CORS header replaces what the handler set, any
      other header of the handler stays, and a security header is added only where both lack it. */
  lemma MergedPerName(w: World, st: Settings, req: Request, log: History, mapped: HandlerMap, name: string)
    returns (cors: HeaderList, security: HeaderList)
    requires !mapped.AlreadySent? && MergeHeaders(w, st, req, log, mapped).Ok?
    ensures IsCorsList(w, st, req, log, cors) && IsSecurityList(w, st, req, log, security)
    ensures IsMerged(mapped, security, cors, MergeHeaders(w, st, req, log, mapped).value, name)
  {
    security, cors := SecurityPairs(w, st, req, log).value, CorsPairs(w, st, req, log).value;
    CorsListIs(w, st, req, log);
    SecurityListIs(w, st, req, log);
    MergedIs(mapped, security, cors, name);
  }

  // ---- The Allow header ----------------------------------------------------------------------------

  /** The method a name stands for. */
  function VerbOf(name: string): Verb {
    match name
    case "GET" => GET
    case "HEAD" => HEAD
    case "POST" => POST
    case "PUT" => PUT
    case "PATCH" => PATCH
    case "DELETE" => DELETE
    case "OPTIONS" => OPTIONS
    case _ => Unknown(name)
  }

  function VerbsOf(names: seq<string>): seq<Verb> {
    seq(|names|, i requires 0 <= i < |names| => VerbOf(names[i]))
  }

  const LIST_SEPARATOR: char -> bool := c => c == ',' || c == ' '

  lemma NameIsWord(v: Verb)
    requires !v.Unknown?
    ensures VerbOf(VerbName(v)) == v && Grants.IsWord(VerbName(v), LIST_SEPARATOR)
  {
    var name := VerbName(v);
    forall i | 0 <= i < |name| ensures !LIST_SEPARATOR(name[i]) {}
  }

  /** The value of an Allow header is read back, word by word, as the methods it was written for. */
  lemma AllowReadsBack(methods: seq<Verb>)
    requires forall v | v in methods :: !v.Unknown?
    ensures VerbsOf(Cors.Pieces(AllowValue(methods), LIST_SEPARATOR)) == methods
  {
    var names := seq(|methods|, i requires 0 <= i < |methods| => VerbName(methods[i]));
    forall i | 0 <= i < |methods|
      ensures VerbOf(names[i]) == methods[i] && Grants.IsWord(names[i], LIST_SEPARATOR)
    {
      assert methods[i] in methods;
      NameIsWord(methods[i]);
    }
    Grants.ListReadsBack(names, LIST_SEPARATOR);
  }

  // ---- Answers without a handler -------------------------------------------------------------------

  /** The document is sent as it is, to HEAD only its length. */
  lemma DocumentIsSent(w: World, p: Services, m: Matcher, s: AppValue, req: Request, log: History)
    requires Inv(s) && req.proto == "http" && (req.verb.GET? || req.verb.HEAD?)
    requires req.path == "/openapi.json" && s.snapshot.settings.includeOpenapi
    ensures var at := log + [SetTemplate("/openapi.json")];
            HandleRsgi(w, p, m, s.snapshot, TablesFor(s), req, log)
            == if req.verb.GET? then Send(w, at, 200, [("content-type", JSON)], Str(p.openapi))
               else Send(w, at, 200, [("content-type", JSON),
                                      ("content-length", Decimal.PrintNat(Utf8Len(p.openapi)))], NoBody)
  {
    var at := log + [SetTemplate("/openapi.json")];
    ShortCircuits.OpenapiAgrees(w, p, req, log);
    SameHeadSimple(w, at, 200, Utf8Len(p.openapi), JSON);
    HeadOfDocument(w, p, at);
  }

  lemma HeadOfDocument(w: World, p: Services, at: History)
    ensures SendHeadSimpleSync(w, at, 200, Utf8Len(p.openapi), JSON)
            == Send(w, at, 200, [("content-type", JSON),
                                 ("content-length", Decimal.PrintNat(Utf8Len(p.openapi)))], NoBody)
  {
    assert Decimal.PrintNat(0) == "0";
  }

  lemma PreflightIs(st: Settings, req: Request)
    requires req.verb.OPTIONS? && st.compiledCors.Some? && req.header("access-control-request-method").Some?
    ensures var origin := req.header("origin");
            var headers := req.header("access-control-request-headers");
            Preflight(st, req)
            == Some(st.compiledCors.value.HandlePreflight(req.header("access-control-request-method").value,
                                                          if origin.Some? then origin.value else "",
                                                          if headers.Some? then headers.value else ""))
  {}

  lemma PreflightFirst(w: World, p: Services, m: Matcher, s: AppValue, req: Request, log: History)
    requires req.proto == "http" && Preflight(s.snapshot.settings, req).Some?
    ensures HandleRsgi(w, p, m, s.snapshot, TablesFor(s), req, log)
            == AnswerPreflight(w, log, Preflight(s.snapshot.settings, req).value)
  {}

  /** The answer to a preflight. */
  function PreflightAnswer(w: World, log: History, r: Cors.PreflightResult): Outcome {
    match r
    case Ok(list) => Send(w, log, 204, WireHeaders(list), NoBody)
    case Err(MethodRefused) => Send(w, log, 400, [("content-type", PLAIN_TEXT)], Str("Disallowed CORS method"))
    case Err(OriginRefused) => Send(w, log, 400, [("content-type", PLAIN_TEXT)], Str("CORS origin not allowed"))
    case Err(HeadersRefused) =>
      Send(w, log, 400, [("content-type", PLAIN_TEXT)], Str("Disallowed CORS request headers"))
  }

  lemma PreflightAnswered(w: World, log: History, r: Cors.PreflightResult)
    ensures AnswerPreflight(w, log, r) == PreflightAnswer(w, log, r)
  {}

  /** A CORS preflight is answered by the compiled configuration, and nothing else happens. */
  lemma PreflightIsSent(w: World, p: Services, m: Matcher, s: AppValue, req: Request, log: History)
    requires req.proto == "http" && req.verb.OPTIONS? && s.snapshot.settings.compiledCors.Some?
    requires req.header("access-control-request-method").Some?
    ensures var origin := req.header("origin");
            var headers := req.header("access-control-request-headers");
            var r := s.snapshot.settings.compiledCors.value.HandlePreflight(
                       req.header("access-control-request-method").value,
                       if origin.Some? then origin.value else "",
                       if headers.Some? then headers.value else "");
            HandleRsgi(w, p, m, s.snapshot, TablesFor(s), req, log) == PreflightAnswer(w, log, r)
  {
    PreflightIs(s.snapshot.settings, req);
    PreflightFirst(w, p, m, s, req, log);
    PreflightAnswered(w, log, Preflight(s.snapshot.settings, req).value);
  }

  lemma UnknownMethodSync(w: World, p: Services, m: Matcher, snap: FrozenState, tables: CompiledRouters,
                          req: Request, log: History)
    requires MatchRoute(m, tables, req.verb, req.path).None?
    ensures RouteSync(w, p, m, snap, tables, req, log) == Answered(Outcome(log, Some(p.methodError)))
  {}

  lemma UnknownMethodFull(w: World, p: Services, m: Matcher, snap: FrozenState, tables: CompiledRouters,
                          req: Request, log: History)
    requires MatchRoute(m, tables, req.verb, req.path).None?
    ensures RouteFull(w, p, m, snap, tables, req, log) == Outcome(log, Some(p.methodError))
  {}

  /** A method that no router knows is an error to the server. */
  lemma UnknownMethodIsRaised(w: World, p: Services, m: Matcher, s: AppValue, req: Request, log: History)
    requires req.proto == "http" && req.verb.Unknown?
    requires s.snapshot.settings.requestMiddleware == []
    ensures HandleRsgi(w, p, m, s.snapshot, TablesFor(s), req, log) == Outcome(log, Some(p.methodError))
  {
    UnknownMethodSync(w, p, m, s.snapshot, TablesFor(s), req, log);
    UnknownMethodFull(w, p, m, s.snapshot, TablesFor(s), req, log);
  }

  // ---- What a route asks of a request --------------------------------------------------------------

  predicate AsksForBody(e: RouteEntry) {
    e.readJsonBody || e.readFormBody || e.handlerVarkw || "body" in e.handlerParamNames
  }

  predicate DeclaresTooMuch(p: Services, req: Request) {
    var length := req.header("content-length");
    length.Some? && p.readLength(length.value).Some? && p.readLength(length.value).value > p.maxBody
  }

  predicate IsLimited(p: Services, req: Request, e: RouteEntry, log: History) {
    e.rateLimiter.Some? && p.denied(log, e, req).Some?
  }

  /** 429 with the limit and the seconds to wait, before anything else is done. */
  lemma LimitedIsRefused(w: World, p: Services, st: Settings, req: Request, e: RouteEntry, params: PathParams,
                         log: History)
    requires IsLimited(p, req, e, log)
    ensures var (limit, seconds) := p.denied(log, e, req).value;
            ServeRoute(w, p, st, req, e, params, log)
            == Send(w, log, 429, [("content-type", JSON), ("ratelimit-limit", Decimal.PrintNat(limit)),
                                  ("ratelimit-remaining", "0"), ("ratelimit-reset", Decimal.PrintNat(seconds)),
                                  ("retry-after", Decimal.PrintNat(seconds))],
                    Raw(Ascii("{\"detail\":\"Too Many Requests\"}")))
  {}

  function PayloadTooLarge(w: World, log: History): Outcome {
    Send(w, log, 413, [("content-type", JSON)], Str("{\"error\":\"payload too large\"}"))
  }

  /** 413 for a body that declares too much, without reading it. */
  lemma DeclaredTooLargeIsRefused(w: World, p: Services, st: Settings, req: Request, e: RouteEntry,
                                  params: PathParams, log: History)
    requires !IsLimited(p, req, e, log) && AsksForBody(e) && DeclaresTooMuch(p, req)
    ensures ServeRoute(w, p, st, req, e, params, log) == PayloadTooLarge(w, log + [SetTemplate(e.pathTemplate)])
  {}

  /** The body is read: an error of the server's is raised, and one that is too long gets 413. */
  lemma ReadTooLargeIsRefused(w: World, p: Services, st: Settings, req: Request, e: RouteEntry,
                              params: PathParams, log: History)
    requires !IsLimited(p, req, e, log) && AsksForBody(e) && !DeclaresTooMuch(p, req)
    ensures var now := log + [SetTemplate(e.pathTemplate)] + [ReadBody];
            && (w.answer(now).Err? ==>
                  ServeRoute(w, p, st, req, e, params, log) == Outcome(now, Some(w.answer(now).error)))
            && (w.answer(now).Ok? && |p.bodyBytes(w.answer(now).value)| > p.maxBody ==>
                  ServeRoute(w, p, st, req, e, params, log) == PayloadTooLarge(w, now))
  {}

  /** The route has read the body it asks for, if it asks for one. */
  predicate HasRead(w: World, p: Services, req: Request, e: RouteEntry, log: History, now: History, body: Bytes) {
    var at := log + [SetTemplate(e.pathTemplate)];
    if !AsksForBody(e) then now == at && body == []
    else
      && !DeclaresTooMuch(p, req) && now == at + [ReadBody]
      && w.answer(now).Ok? && body == p.bodyBytes(w.answer(now).value) && |body| <= p.maxBody
  }

  /** 401 for a token that is not accepted. */
  lemma UnauthorizedIsRefused(w: World, p: Services, st: Settings, req: Request, e: RouteEntry, params: PathParams,
                              log: History, now: History, body: Bytes)
    requires !IsLimited(p, req, e, log) && HasRead(w, p, req, e, log, now, body) && e.requireJwt
    requires p.authorize(e, req.header("authorization"), req.header("cookie")).Err?
    ensures var refusal := p.authorize(e, req.header("authorization"), req.header("cookie")).error;
            ServeRoute(w, p, st, req, e, params, log)
            == Send(w, now, 401, [("content-type", PLAIN_TEXT)],
                    Str(if refusal.Expired? then "Expired" else "Unauthorized"))
  {}

  /** The token is accepted if the route demands one. */
  predicate HasClaims(p: Services, req: Request, e: RouteEntry, claims: Option<Py>) {
    if e.requireJwt then
      claims.Some? && p.authorize(e, req.header("authorization"), req.header("cookie")) == Ok(claims.value)
    else claims.None?
  }

  predicate SendsBody(req: Request, body: Bytes) {
    (req.verb.POST? || req.verb.PUT? || req.verb.PATCH? || req.verb.DELETE?) && body != []
  }

  /** 400, or the parser's own status, for a form that cannot be read. */
  lemma BadFormIsRefused(w: World, p: Services, st: Settings, req: Request, e: RouteEntry, params: PathParams,
                         log: History, now: History, body: Bytes, claims: Option<Py>)
    requires !IsLimited(p, req, e, log) && HasRead(w, p, req, e, log, now, body) && HasClaims(p, req, e, claims)
    requires e.readFormBody && SendsBody(req, body)
    ensures var contentType, o := req.header("content-type"), ServeRoute(w, p, st, req, e, params, log);
            match contentType
            case None => o == Send(w, now, 400, [("content-type", JSON)], Str("{\"error\":\"missing content-type\"}"))
            case Some(ct) =>
              match p.parseForm(ct, body)
              case BadForm(status, text) =>
                o == Send(w, now, status, [("content-type", JSON)], if text == "" then NoBody else Str(text))
              case Form(_, _) => true
  {}

  /** The form is parsed if the route reads one and the request has a body. */
  predicate HasForm(p: Services, req: Request, e: RouteEntry, body: Bytes, form: (Py, Py)) {
    if e.readFormBody && SendsBody(req, body) then
      && req.header("content-type").Some?
      && p.parseForm(req.header("content-type").value, body) == Form(form.0, form.1)
    else form == p.noForm
  }

  /** What passes all of these is admitted: the factories run, and the handler with their results. */
  lemma PassingIsAdmitted(w: World, p: Services, st: Settings, req: Request, e: RouteEntry, params: PathParams,
                          log: History, now: History, body: Bytes, claims: Option<Py>, form: (Py, Py))
    requires !IsLimited(p, req, e, log) && HasRead(w, p, req, e, log, now, body) && HasClaims(p, req, e, claims)
    requires HasForm(p, req, e, body, form)
    ensures ServeRoute(w, p, st, req, e, params, log)
            == ServeAdmitted(w, p, st, req, e, params, body, claims, form, now)
  {}

  /** 400 for JSON that cannot be parsed, 422 for what the body model refuses. */
  lemma BadJsonIsRefused(w: World, p: Services, req: Request, e: RouteEntry, params: PathParams, i: Inputs,
                         log: History)
    requires |i.results| <= |e.dependencies|
    requires e.readJsonBody && !e.readFormBody && SendsBody(req, i.body)
    ensures var stage := ArgumentStage(w, p, req, e, params, i, log);
            match p.parseJson(e.bodyModel, i.body)
            case Valid(_) => stage.Go? && stage.log == log
            case Malformed(text) =>
              stage == Stop(Send(w, log, 400, [("content-type", JSON)], if text == "" then NoBody else Str(text)))
            case Invalid(text) =>
              stage == Stop(Send(w, log, 422, [("content-type", JSON)], if text == "" then NoBody else Str(text)))
  {}

  // ---- Factories ---------------------------------------------------------------------------------

  /** The factories are run with the request context if one of them wants it; if it cannot be made, or
      one of them fails, the error is that of the attempt. */
  lemma FactoriesAreRun(w: World, p: Services, req: Request, e: RouteEntry, log: History)
    ensures var a := DependencyAttempt(w, p, req, e, log);
            var wanted := exists d :: d in e.dependencies && d.wantsRequest;
            var now := log + [RunFactories(e.dependencies)];
            if wanted && p.requestContext(req).Err? then a == Failed(log, p.requestContext(req).error)
            else if e.dependencies == [] then a == Done(log, [])
            else
              var context := if wanted then p.requestContext(req).value else p.noContext;
              match Run(w.callbacks(log), e.dependencies, context, [])
              case Ok(results) => a == Done(now, results)
              case Err(err) => a == Failed(now, err)
  {}

  // ---- Arguments ---------------------------------------------------------------------------------

  /** The handler has a parameter of that name or takes arbitrary keywords. */
  predicate Takes(e: RouteEntry, name: Name) {
    e.handlerVarkw || name in e.handlerParamNames
  }

  /** JSON is passed to handlers of routes that read it and no form, for the methods that have a body;
      raw bytes are passed in all other cases in which there is a body and no form is read. */
  lemma BodiesArePassed(e: RouteEntry, req: Request, body: Bytes)
    ensures HasJsonBody(e, req, body) <==> e.readJsonBody && !e.readFormBody && SendsBody(req, body)
    ensures PassesBody(e, req, body) <==>
            !e.readFormBody && body != [] && !(e.readJsonBody && SendsBody(req, body))
  {}

  /** The names that the body, the form, the claims and the protocol object are passed under, with
      their values. */
  lemma LaterArgumentsAre(p: Services, e: RouteEntry, req: Request, i: Inputs, json: Py, name: Name)
    requires e.readJsonBody && !e.readFormBody && SendsBody(req, i.body) ==>
               p.parseJson(e.bodyModel, i.body) == Valid(json)
    requires name in {"claims", "form", "files", "body", "protocol"} && name !in Arguments.JsonNames(e)
    ensures Arguments.WrittenLater(e, req, i, name) <==>
            match name
            case "claims" => i.claims.Some?
            case "form" => e.readFormBody && Takes(e, name)
            case "files" => e.readFormBody && Takes(e, name)
            case "body" => !e.readFormBody && i.body != [] && !(e.readJsonBody && SendsBody(req, i.body))
            case _ => Takes(e, name)
    ensures Arguments.WrittenLater(e, req, i, name) ==>
              Arguments.LaterValue(p, e, req, i, json, name)
              == match name
                 case "claims" => i.claims.value
                 case "form" => i.form.0
                 case "files" => i.form.1
                 case "body" => p.bytesObject(i.body)
                 case _ => p.protocolObject
  {
    assert |"claims"| == |"form"| + 2;
  }

  /** The names of a JSON body: `json`, or the parameter of the body model, which takes `json` too if
      the handler takes arbitrary keywords. */
  lemma JsonNamesAre(e: RouteEntry, name: Name)
    ensures name in Arguments.JsonNames(e) <==>
            var model := if e.bodyParamName == "" then "json" else e.bodyParamName;
            if e.bodyModel.None? then name == "json" else name == model || (e.handlerVarkw && name == "json")
  {}

  /** The parsed query is passed as `query` to a handler that takes it, if there is one and no dependency
      and no body goes by that name. */
  lemma QueryIsPassed(w: World, p: Services, req: Request, e: RouteEntry, params: PathParams, results: seq<Py>,
                      claims: Option<Py>, body: Bytes, form: (Py, Py), log: History)
    requires |results| <= |e.dependencies|
    requires Takes(e, "query") && p.parseQuery(req.queryString) != map[]
    requires "query" !in NamesOf(e.dependencies) && "query" !in Arguments.JsonNames(e)
    ensures var stage := ArgumentStage(w, p, req, e, params, Gathered(p, req, e, results, claims, body, form), log);
            stage.Go? ==>
              "query" in stage.value && stage.value["query"] == p.queryDict(p.parseQuery(req.queryString))
  {
    var i := Gathered(p, req, e, results, claims, body, form);
    if ArgumentStage(w, p, req, e, params, i, log).Go? {
      Arguments.ArgumentsByName(w, p, req, e, params, i, log, "query");
      var kw := PathKwargs(w, e.wildcardParams, params)["query" := p.queryDict(i.query)];
      OtherArguments(e, results, kw, |results|, "query");
      NotWrittenLater(e, req, i);
    }
  }

  lemma NotWrittenLater(e: RouteEntry, req: Request, i: Inputs)
    requires "query" !in Arguments.JsonNames(e)
    ensures !Arguments.WrittenLater(e, req, i, "query")
  {
    assert |"query"| == 5 && |"form"| == 4 && |"body"| == 4 && |"claims"| == 6 && |"protocol"| == 8;
    assert "query"[0] != "files"[0];
  }

  // ---- From registration to the call ---------------------------------------------------------------

  /** The request is for the template, through the router of the verb it was registered for. */
  ghost predicate IsFor(m: Matcher, s: AppValue, reg: Registration, req: Request) {
    && req.proto == "http" && SameRouter(req.verb, reg.verb)
    && TemplatesFor(s.live, req.verb).Some?
    && m.At(TemplatesFor(s.live, req.verb).value, req.path) == Some(reg.path)
  }

  /** Such a request is matched to the route that was registered. */
  lemma MatchedIsRegistered(m: Matcher, s: AppValue, reg: Registration, req: Request)
    requires Inv(s) && s.live.Has(reg.verb, reg.path) && IsFor(m, s, reg, req)
    ensures Matched(m, s.snapshot, TablesFor(s), req) == RouteAt(s, reg.verb, reg.path)
  {
    SharesRouter(s.live, req.verb, reg.verb);
    MatchedAt(m, s, req, reg.path);
  }

  lemma SharesRouter(c: CompiledRouters, u: Verb, v: Verb)
    requires SameRouter(u, v)
    ensures c.RouterFor(u) == c.RouterFor(v)
  {}

  /** The entry of a matched template. */
  lemma MatchedAt(m: Matcher, s: AppValue, req: Request, t: string)
    requires Inv(s) && TemplatesFor(s.live, req.verb).Some?
    requires m.At(TemplatesFor(s.live, req.verb).value, req.path) == Some(t)
    ensures Matched(m, s.snapshot, TablesFor(s), req) == RouteAt(s, req.verb, t)
  {
    assert TablesFor(s) == s.live;
    assert s.live.Has(req.verb, t);
    RouteOf(m, s.live, req.verb, req.path, t);
  }

  lemma RouteOf(m: Matcher, c: CompiledRouters, v: Verb, path: string, t: string)
    requires TemplatesFor(c, v).Some? && m.At(TemplatesFor(c, v).value, path) == Some(t)
    ensures c.Has(v, t) && MatchRoute(m, c, v, path) == Some(Some((c.IndexOf(v, t), m.Capture(t, path))))
  {
    assert c.RouterFor(v).Some? && c.RouterFor(v).value.Keys == TemplatesFor(c, v).value;
  }

  /** Whatever happens after a registration, a request for its route calls its handler and no other. */
  lemma OnlyItsHandlerIsCalled(w: World, p: Services, m: Matcher, k: Configs, s: AppValue, reg: Registration,
                               ops: seq<Op>, req: Request, log: History, i: nat)
    requires Inv(s) && AfterAddRoute(m, s, reg).1.None?
    requires IsFor(m, After(m, k, AfterAddRoute(m, s, reg).0, ops), reg, req)
    requires var now := After(m, k, AfterAddRoute(m, s, reg).0, ops);
             var after := HandleRsgi(w, p, m, now.snapshot, TablesFor(now), req, log).log;
             |log| <= i < |after| && after[i].CallHandler?
    ensures var now := After(m, k, AfterAddRoute(m, s, reg).0, ops);
            HandleRsgi(w, p, m, now.snapshot, TablesFor(now), req, log).log[i].handler == reg.handler
  {
    var now := After(m, k, AfterAddRoute(m, s, reg).0, ops);
    RegisteredRouteReflects(m, k, s, reg, ops);
    MatchedIsRegistered(m, now, reg, req);
    Pipeline.EveryEventIsDue(w, p, m, now, req, log);
    CalledIsMatched(w, p, m, now, req, log, i);
  }

  /** Only the handler of the matched route is ever called. */
  lemma CalledIsMatched(w: World, p: Services, m: Matcher, s: AppValue, req: Request, log: History, i: nat)
    requires Inv(s) && req.proto == "http"
    requires var after := HandleRsgi(w, p, m, s.snapshot, TablesFor(s), req, log).log;
             |log| <= i < |after| && after[i].CallHandler?
    ensures var after := HandleRsgi(w, p, m, s.snapshot, TablesFor(s), req, log).log;
            var route := Matched(m, s.snapshot, TablesFor(s), req);
            route.Some? && after[i].handler == route.value.handler
  {
    Pipeline.EveryEventIsDue(w, p, m, s, req, log);
    var c := Pipeline.ContextOf(w, p, m, s, req, log);
    var after := HandleRsgi(w, p, m, s.snapshot, TablesFor(s), req, log).log;
    DueCallIsMatched(c, log, after[..i], after[i]);
  }

  lemma DueCallIsMatched(c: Traces.Context, base: History, past: History, e: Event)
    requires e.CallHandler? && Traces.Due(c, base, past, e)
    ensures c.route.Some? && e.handler == c.route.value.handler
  {}

  /** And it calls it only if the registration's own demands are met: the token is accepted if one was
      demanded, the limiter does not refuse if a limit was set, and the body fits if one is read. */
  lemma RegistrationIsEnforced(w: World, p: Services, m: Matcher, k: Configs, s: AppValue, reg: Registration,
                               ops: seq<Op>, req: Request, log: History)
    requires Inv(s) && AfterAddRoute(m, s, reg).1.None? && Reliable(w)
    requires IsFor(m, After(m, k, AfterAddRoute(m, s, reg).0, ops), reg, req)
    requires var now := After(m, k, AfterAddRoute(m, s, reg).0, ops);
             HandlerCalls(HandleRsgi(w, p, m, now.snapshot, TablesFor(now), req, log).log) > HandlerCalls(log)
    ensures var now := After(m, k, AfterAddRoute(m, s, reg).0, ops);
            var at := ThroughRequest(w, log, now.snapshot.settings.requestMiddleware).log;
            exists e :: Reflects(reg, e) && Enforces(w, p, reg, req, e, at)
  {
    var now := After(m, k, AfterAddRoute(m, s, reg).0, ops);
    RegisteredRouteReflects(m, k, s, reg, ops);
    MatchedIsRegistered(m, now, reg, req);
    var calls := EveryRequestIsAnsweredOnce(w, p, m, now, req, log);
    var e := RouteAt(now, reg.verb, reg.path).value;
    GuardsEnforce(w, p, reg, req, e, ThroughRequest(w, log, now.snapshot.settings.requestMiddleware).log);
  }

  /** The demands of a registration, met by a request. */
  predicate Enforces(w: World, p: Services, reg: Registration, req: Request, e: RouteEntry, log: History) {
    && (reg.requireJwt ==> p.authorize(e, req.header("authorization"), req.header("cookie")).Ok?)
    && (reg.rateLimit.Some? ==> p.denied(log, e, req).None?)
    && (reg.readJsonBody || reg.readFormBody ==> !DeclaresTooMuch(p, req) && ReadsWithin(w, p, e, log))
  }

  predicate ReadsWithin(w: World, p: Services, e: RouteEntry, log: History) {
    var read := w.answer(log + [SetTemplate(e.pathTemplate)] + [ReadBody]);
    read.Ok? && |p.bodyBytes(read.value)| <= p.maxBody
  }

  lemma GuardsEnforce(w: World, p: Services, reg: Registration, req: Request, e: RouteEntry, log: History)
    requires Reflects(reg, e) && PassesGuards(w, p, req, e, log)
    ensures Enforces(w, p, reg, req, e, log)
  {}
}
