/** Every event of every request follows the rules of `Traces`. */
module Pipeline {
  import opened Text
  import opened Injection
  import opened Headers
  import opened Protocol
  import opened Routing
  import opened State
  import opened Dispatch
  import opened Traces
  import Answers
  import ShortCircuits
  import Cors

  // ---- How a request ends ------------------------------------------------------------------------

  /** Events after which no return value is due. */
  predicate IsLast(e: Event) {
    e.Respond? || e.CallExceptionHandler? || e.AwaitExceptionHandler?
  }

  ghost predicate EndsIn(log: History, after: History) {
    log <= after && (after == log || IsLast(after[|after| - 1]))
  }

  /** The request would end without an error although its last response has not been taken. */
  ghost predicate Silent(w: World, o: Outcome) {
    o.log != [] && o.log[|o.log| - 1].Respond? && w.accepts(o.log).Some? && o.raised.None?
  }

  lemma HandledSpeaks(w: World, log: History, isHead: bool, res: Py, err: PyErr)
    requires log != [] && !log[|log| - 1].Respond?
    ensures !Silent(w, SendHandled(w, log, isHead, res, err))
  {}

  lemma AwaitedSpeaks(w: World, log: History, isHead: bool, res: Py, err: PyErr)
    ensures !Silent(w, SendAwaited(w, log, isHead, res, err))
  {
    var now := log + [AwaitExceptionHandler(res)];
    if w.answer(now).Ok? {
      HandledSpeaks(w, now, isHead, w.answer(now).value, err);
    }
  }

  lemma {:induction false} WillingIsCall(w: World, log: History, handlers: seq<ExceptionHandler>, err: PyErr)
    ensures var (after, found) := FirstWilling(w, log, handlers, err);
            found.Some? ==> after != [] && after[|after| - 1].CallExceptionHandler?
    decreases |handlers|
  {
    if handlers != [] {
      var h, rest := handlers[|handlers| - 1], handlers[..|handlers| - 1];
      WillingIsCall(w, log, rest, err);
      WillingIsCall(w, log + [CallExceptionHandler(h.handler, err)], rest, err);
    }
  }

  lemma ErrorFullSpeaks(w: World, log: History, isHead: bool, handlers: seq<ExceptionHandler>, err: PyErr)
    ensures !Silent(w, ErrorFull(w, log, isHead, handlers, err))
  {
    WillingIsCall(w, log, handlers, err);
    var (now, found) := FirstWilling(w, log, handlers, err);
    if found.Some? {
      HandledSpeaks(w, now, isHead, found.value.0, err);
      AwaitedSpeaks(w, now, isHead, found.value.0, err);
    }
  }

  lemma {:induction false} TriedSpeaks(w: World, log: History, isHead: bool, handlers: seq<ExceptionHandler>,
                                       err: PyErr)
    ensures var r := TryHandlersSync(w, log, isHead, handlers, err);
            r.Responded? ==> !Silent(w, r.outcome)
    decreases |handlers|
  {
    if handlers != [] {
      var h, rest := handlers[|handlers| - 1], handlers[..|handlers| - 1];
      TriedSpeaks(w, log, isHead, rest, err);
      TriedSpeaks(w, log + [CallExceptionHandler(h.handler, err)], isHead, rest, err);
    }
  }

  lemma ErrorSyncSpeaks(w: World, log: History, isHead: bool, handlers: seq<ExceptionHandler>, err: PyErr)
    ensures !Silent(w, ErrorSync(w, log, isHead, handlers, err))
  {
    TriedSpeaks(w, log, isHead, handlers, err);
  }

  lemma LastMayEnd(c: Context, base: History, log: History, after: History)
    requires EndsIn(log, after) && MayEnd(c, base, log)
    ensures MayEnd(c, base, after)
  {}

  lemma SendEnds(w: World, log: History, status: int, headers: HeaderList, sent: Sent)
    ensures EndsIn(log, Send(w, log, status, headers, sent).log)
  {}

  lemma MappedEnds(w: World, log: History, isHead: bool, mapped: HandlerMap)
    ensures EndsIn(log, SendMapped(w, log, isHead, mapped).log)
  {}

  lemma HandledEnds(w: World, log: History, isHead: bool, res: Py, err: PyErr)
    ensures EndsIn(log, SendHandled(w, log, isHead, res, err).log)
  {
    if w.mapReturn(log, res).Ok? {
      MappedEnds(w, log, isHead, w.mapReturn(log, res).value);
    }
  }

  lemma {:induction false} WillingEnds(w: World, log: History, handlers: seq<ExceptionHandler>, err: PyErr)
    ensures EndsIn(log, FirstWilling(w, log, handlers, err).0)
    decreases |handlers|
  {
    if handlers != [] {
      var h, rest := handlers[|handlers| - 1], handlers[..|handlers| - 1];
      if !w.isInstance(err, h.excType) {
        WillingEnds(w, log, rest, err);
      } else if w.answer(log + [CallExceptionHandler(h.handler, err)]).Err? {
        WillingEnds(w, log + [CallExceptionHandler(h.handler, err)], rest, err);
      }
    }
  }

  lemma EndsInTurn(log: History, now: History, after: History)
    requires EndsIn(log, now) && EndsIn(now, after)
    ensures EndsIn(log, after)
  {}

  lemma AwaitedEnds(w: World, log: History, isHead: bool, res: Py, err: PyErr)
    ensures EndsIn(log, SendAwaited(w, log, isHead, res, err).log)
  {
    var now := log + [AwaitExceptionHandler(res)];
    if w.answer(now).Ok? {
      HandledEnds(w, now, isHead, w.answer(now).value, err);
    }
    EndsInTurn(log, now, SendAwaited(w, log, isHead, res, err).log);
  }

  lemma ErrorFullEnds(w: World, log: History, isHead: bool, handlers: seq<ExceptionHandler>, err: PyErr)
    ensures EndsIn(log, ErrorFull(w, log, isHead, handlers, err).log)
  {
    WillingEnds(w, log, handlers, err);
    var (now, found) := FirstWilling(w, log, handlers, err);
    if found.Some? {
      HandledEnds(w, now, isHead, found.value.0, err);
      AwaitedEnds(w, now, isHead, found.value.0, err);
    }
    EndsInTurn(log, now, ErrorFull(w, log, isHead, handlers, err).log);
  }

  lemma {:induction false} TriedEnds(w: World, log: History, isHead: bool, handlers: seq<ExceptionHandler>,
                                     err: PyErr)
    ensures match TryHandlersSync(w, log, isHead, handlers, err)
            case Responded(outcome) => EndsIn(log, outcome.log)
            case NotHandled(after) => EndsIn(log, after)
    decreases |handlers|
  {
    if handlers != [] {
      var h, rest := handlers[|handlers| - 1], handlers[..|handlers| - 1];
      var now := log + [CallExceptionHandler(h.handler, err)];
      if !w.isInstance(err, h.excType) || h.isAsync {
        TriedEnds(w, log, isHead, rest, err);
      } else if w.answer(now).Ok? && w.mapReturn(now, w.answer(now).value).Ok? {
        MappedEnds(w, now, isHead, w.mapReturn(now, w.answer(now).value).value);
      } else {
        TriedEnds(w, now, isHead, rest, err);
      }
    }
  }

  lemma ErrorSyncEnds(w: World, log: History, isHead: bool, handlers: seq<ExceptionHandler>, err: PyErr)
    ensures EndsIn(log, ErrorSync(w, log, isHead, handlers, err).log)
  {
    TriedEnds(w, log, isHead, handlers, err);
  }

  // ---- From the return value on ------------------------------------------------------------------

  /** No exception handler has been asked and an error may be reported. */
  ghost predicate Faulty(c: Context, base: History, log: History, err: PyErr) {
    Since(base, log, EXCEPTION_CALL) == 0 && ErrorDue(c, base, log, err)
  }

  lemma MappedErrorIsDue(c: Context, base: History, log: History, err: PyErr)
    requires |log| > |base| && Mapped(c, log) == Some(Err(err))
    ensures ErrorDue(c, base, log, err) && MayEnd(c, base, log)
  {}

  /** A return value that is due. */
  ghost predicate HasReturned(c: Context, base: History, log: History, mapped: HandlerMap) {
    && base <= log && |log| > |base| && Mapped(c, log) == Some(Ok(mapped))
    && 0 <= Since(base, log, RESPONSE_CALL) <= |c.st.responseMiddleware|
    && Since(base, log, EXCEPTION_CALL) == 0
  }

  /** Where the response middleware leaves it. */
  ghost predicate Through(c: Context, base: History, log: History, a: Attempt<HandlerMap>) {
    && Orderly(c, base, log, a.log) && base <= a.log && |a.log| > |base|
    && Since(base, a.log, EXCEPTION_CALL) == 0
    && (a.Done? ==> HasReturned(c, base, a.log, a.value)
                    && (a.value.AlreadySent? || Since(base, a.log, RESPONSE_CALL) == |c.st.responseMiddleware|))
    && (a.Failed? ==> Mapped(c, a.log) == Some(Err(a.error)))
  }

  lemma ThroughOn(c: Context, base: History, log: History, now: History, a: Attempt<HandlerMap>)
    requires Orderly(c, base, log, now) && Through(c, base, now, a)
    ensures Through(c, base, log, a)
  {
    OrderlyOn(c, base, log, now, a.log);
  }

  /** The next response middleware is called. */
  lemma NextIsCalled(c: Context, base: History, log: History, mapped: HandlerMap, k: nat)
    requires HasReturned(c, base, log, mapped) && !mapped.AlreadySent?
    requires k == Since(base, log, RESPONSE_CALL) < |c.st.responseMiddleware|
    ensures var now := log + [CallResponseMiddleware(c.st.responseMiddleware[k], mapped)];
            && Orderly(c, base, log, now) && base <= now
            && Since(base, now, RESPONSE_CALL) == k + 1 && Since(base, now, EXCEPTION_CALL) == 0
  {
    var e := CallResponseMiddleware(c.st.responseMiddleware[k], mapped);
    OneEvent(c, base, log, e);
    Snoc(c, base, log, e);
  }

  /** What the call came to: a further return value, or an error. */
  lemma CallReturned(c: Context, base: History, log: History, mapped: HandlerMap, k: nat)
    requires HasReturned(c, base, log, mapped) && !mapped.AlreadySent?
    requires k == Since(base, log, RESPONSE_CALL) < |c.st.responseMiddleware|
    ensures var now := log + [CallResponseMiddleware(c.st.responseMiddleware[k], mapped)];
            match c.w.answer(now)
            case Err(err) => Through(c, base, now, Failed(now, err))
            case Ok(out) =>
              match c.w.mapReturn(now, out)
              case Err(err) => Through(c, base, now, Failed(now, err))
              case Ok(next) => HasReturned(c, base, now, next)
  {
    NextIsCalled(c, base, log, mapped, k);
  }

  lemma {:induction false} ThroughOrderly(c: Context, base: History, log: History, mapped: HandlerMap, k: nat)
    requires HasReturned(c, base, log, mapped) && k == Since(base, log, RESPONSE_CALL)
    ensures Through(c, base, log, ThroughResponse(c.w, log, c.st.responseMiddleware[k..], mapped))
    decreases |c.st.responseMiddleware| - k
  {
    var middleware := c.st.responseMiddleware;
    if k < |middleware| && !mapped.AlreadySent? {
      NextIsCalled(c, base, log, mapped, k);
      CallReturned(c, base, log, mapped, k);
      var now := log + [CallResponseMiddleware(middleware[k], mapped)];
      OneMoreThrough(c, log, mapped, k);
      if c.w.answer(now).Ok? && c.w.mapReturn(now, c.w.answer(now).value).Ok? {
        ThroughOrderly(c, base, now, c.w.mapReturn(now, c.w.answer(now).value).value, k + 1);
      }
      ThroughOn(c, base, log, now, ThroughResponse(c.w, log, middleware[k..], mapped));
    }
  }

  lemma OneMoreThrough(c: Context, log: History, mapped: HandlerMap, k: nat)
    requires k < |c.st.responseMiddleware| && !mapped.AlreadySent?
    ensures var middleware := c.st.responseMiddleware;
            var now := log + [CallResponseMiddleware(middleware[k], mapped)];
            ThroughResponse(c.w, log, middleware[k..], mapped)
            == match c.w.answer(now)
               case Err(err) => Failed(now, err)
               case Ok(out) =>
                 match c.w.mapReturn(now, out)
                 case Err(err) => Failed(now, err)
                 case Ok(next) => ThroughResponse(c.w, now, middleware[k + 1..], next)
  {
    var middleware := c.st.responseMiddleware;
    assert middleware[k..][0] == middleware[k] && middleware[k..][1..] == middleware[k + 1..];
  }

  /** How an attempt to answer leaves the request. */
  ghost predicate Attempted(c: Context, base: History, log: History, a: Attempt<()>) {
    && Orderly(c, base, log, a.log) && base <= a.log && MayEnd(c, base, a.log)
    && (a.Failed? ==> Faulty(c, base, a.log, a.error))
    && (a.Done? ==> !Silent(c.w, Outcome(a.log, None)))
  }

  lemma AttemptedOn(c: Context, base: History, log: History, now: History, a: Attempt<()>)
    requires Orderly(c, base, log, now) && Attempted(c, base, now, a)
    ensures Attempted(c, base, log, a)
  {
    OrderlyOn(c, base, log, now, a.log);
  }

  lemma RespondedMayEnd(c: Context, base: History, log: History, mapped: HandlerMap)
    requires base <= log && !mapped.AlreadySent?
    ensures var sent := SendMapped(c.w, log, c.req.IsHead(), mapped);
            MayEnd(c, base, sent.log) && Since(base, sent.log, EXCEPTION_CALL) == Since(base, log, EXCEPTION_CALL)
  {
    MappedSends(c, log, mapped);
    var sent := SendMapped(c.w, log, c.req.IsHead(), mapped);
    assert sent.log == log + [sent.log[|log|]];
    Snoc(c, base, log, sent.log[|log|]);
  }

  /** The merged response is sent, or merging it has failed. */
  lemma DeliverOrderly(c: Context, base: History, log: History, mapped: HandlerMap)
    requires HasReturned(c, base, log, mapped)
    requires mapped.AlreadySent? || Since(base, log, RESPONSE_CALL) == |c.st.responseMiddleware|
    ensures Attempted(c, base, log, Deliver(c.w, c.req, log, MergeHeaders(c.w, c.st, c.req, log, mapped)))
  {
    var merged := MergeHeaders(c.w, c.st, c.req, log, mapped);
    if merged.Ok? && !mapped.AlreadySent? {
      SentOrderly(c, base, log, merged.value);
      RespondedMayEnd(c, base, log, merged.value);
      if SendMapped(c.w, log, c.req.IsHead(), merged.value).raised.Some? {
        RefusedIsDue(c, base, log, merged.value);
      }
    }
  }

  lemma MergedAlways(c: Context, log: History, mapped: HandlerMap)
    requires c.st.Agree()
    ensures (if c.st.securityHeaders.Some? || c.st.cors.Some? then MergeHeaders(c.w, c.st, c.req, log, mapped)
             else Ok(mapped))
            == MergeHeaders(c.w, c.st, c.req, log, mapped)
  {
    if c.st.securityHeaders.None? && c.st.cors.None? {
      ShortCircuits.NothingToMerge(c.w, c.st, c.req, log, mapped);
    }
  }

  lemma FinishOrderly(c: Context, base: History, log: History, out: Py)
    requires base <= log && |log| > |base| && Returned(c, log) == Some(Ok(out)) && c.st.Agree()
    requires Since(base, log, RESPONSE_CALL) == Since(base, log, EXCEPTION_CALL) == 0
    ensures Attempted(c, base, log, Finish(c.w, c.st, c.req, log, out))
  {
    match c.w.mapReturn(log, out) {
      case Err(err) => MappedErrorIsDue(c, base, log, err);
      case Ok(mapped) =>
        ThroughOrderly(c, base, log, mapped, 0);
        assert c.st.responseMiddleware[0..] == c.st.responseMiddleware;
        match ThroughResponse(c.w, log, c.st.responseMiddleware, mapped) {
          case Failed(now, err) => MappedErrorIsDue(c, base, now, err);
          case Done(now, last) =>
            MergedAlways(c, now, last);
            DeliverOrderly(c, base, now, last);
            AttemptedOn(c, base, log, now, Deliver(c.w, c.req, now, MergeHeaders(c.w, c.st, c.req, now, last)));
        }
    }
  }

  /** A request that is orderly to its end. */
  ghost predicate Ended(c: Context, base: History, log: History, o: Outcome) {
    Orderly(c, base, log, o.log) && MayEnd(c, base, o.log) && !Silent(c.w, o)
  }

  lemma EndedOn(c: Context, base: History, log: History, now: History, o: Outcome)
    requires Orderly(c, base, log, now) && Ended(c, base, now, o)
    ensures Ended(c, base, log, o)
  {
    OrderlyOn(c, base, log, now, o.log);
  }

  lemma FaultEnds(c: Context, base: History, log: History, err: PyErr)
    requires base <= log && Faulty(c, base, log, err) && MayEnd(c, base, log)
    ensures !c.sync ==> Ended(c, base, log, ErrorFull(c.w, log, c.req.IsHead(), c.st.exceptionHandlers, err))
    ensures c.sync ==> Ended(c, base, log, ErrorSync(c.w, log, c.req.IsHead(), c.st.exceptionHandlers, err))
  {
    var handlers := c.st.exceptionHandlers;
    ErrorSyncSpeaks(c.w, log, c.req.IsHead(), handlers, err);
    ErrorFullSpeaks(c.w, log, c.req.IsHead(), handlers, err);
    if c.sync {
      ErrorSyncOrderly(c, base, log, err);
      ErrorSyncEnds(c.w, log, c.req.IsHead(), handlers, err);
      LastMayEnd(c, base, log, ErrorSync(c.w, log, c.req.IsHead(), handlers, err).log);
    } else {
      ErrorFullOrderly(c, base, log, err);
      ErrorFullEnds(c.w, log, c.req.IsHead(), handlers, err);
      LastMayEnd(c, base, log, ErrorFull(c.w, log, c.req.IsHead(), handlers, err).log);
    }
  }

  lemma AttemptEnds(c: Context, base: History, log: History, a: Attempt<()>)
    requires !c.sync && Attempted(c, base, log, a)
    ensures Ended(c, base, log, End(c.w, c.st, c.req, a))
  {
    if a.Failed? {
      FaultEnds(c, base, a.log, a.error);
      EndedOn(c, base, log, a.log, End(c.w, c.st, c.req, a));
    }
  }

  // ---- Before there is a return value --------------------------------------------------------------

  /** Nothing is due yet: any step that prepares the call may follow, and the handler has not been
      called. */
  ghost predicate Open(c: Context, base: History, log: History) {
    && base <= log && (|log| > |base| ==> Mapped(c, log).None?)
    && Since(base, log, HANDLER_CALL) == Since(base, log, RESPONSE_CALL) == Since(base, log, EXCEPTION_CALL) == 0
    && forall e | Prepares(c, base, log, e) :: Due(c, base, log, e)
  }

  lemma StartsOpen(c: Context, base: History)
    ensures Open(c, base, base)
  {}

  /** Steps that leave nothing due. */
  lemma StepKeepsOpen(c: Context, base: History, log: History, e: Event)
    requires Open(c, base, log) && (e.SetTemplate? || e.ReadBody?)
    ensures Orderly(c, base, log, log + [e]) && Open(c, base, log + [e])
  {
    OneEvent(c, base, log, e);
    Snoc(c, base, log, e);
  }

  lemma OpenMaySend(c: Context, base: History, log: History, status: int, headers: HeaderList, sent: Sent)
    requires Open(c, base, log)
    ensures Ended(c, base, log, Send(c.w, log, status, headers, sent))
  {
    OneEvent(c, base, log, Respond(status, headers, sent));
  }

  lemma OpenMayFail(c: Context, base: History, log: History, err: PyErr)
    requires Open(c, base, log)
    ensures Faulty(c, base, log, err) && MayEnd(c, base, log)
  {
    forall e | Handles(c, base, log, err, e) ensures Due(c, base, log, e) {
      assert Prepares(c, base, log, e);
    }
  }

  /** A stage that goes on leaves nothing due; one that stops has ended the request. */
  ghost predicate Staged<T>(c: Context, base: History, log: History, s: Stage<T>) {
    match s
    case Go(now, _) => Orderly(c, base, log, now) && Open(c, base, now)
    case Stop(o) => Ended(c, base, log, o)
  }

  lemma BodyStaged(c: Context, base: History, log: History, e: RouteEntry)
    requires Open(c, base, log)
    ensures Staged(c, base, log, BodyStage(c.w, c.p, c.req, e, log))
  {
    var now := log + [ReadBody];
    StepKeepsOpen(c, base, log, ReadBody);
    BodyRefused(c, base, log);
    BodyRefused(c, base, now);
    if c.w.answer(now).Ok? && |c.p.bodyBytes(c.w.answer(now).value)| > c.p.maxBody {
      EndedOn(c, base, log, now, TooLarge(c.w, now));
    }
  }

  lemma BodyRefused(c: Context, base: History, log: History)
    requires Open(c, base, log)
    ensures Ended(c, base, log, TooLarge(c.w, log))
  {
    OpenMaySend(c, base, log, 413, [("content-type", "application/json; charset=utf-8")],
                Str("{\"error\":\"payload too large\"}"));
  }

  lemma TextEnds(c: Context, base: History, log: History, status: int, text: string, contentType: string)
    requires Open(c, base, log)
    ensures Ended(c, base, log, SendText(c.w, log, status, text, contentType))
  {
    OpenMaySend(c, base, log, status, [("content-type", contentType)], if text == "" then NoBody else Str(text));
  }

  lemma RateStaged(c: Context, base: History, log: History, e: RouteEntry)
    requires Open(c, base, log)
    ensures Staged(c, base, log, RateStage(c.w, c.p, c.req, e, log))
  {
    match RateStage(c.w, c.p, c.req, e, log) {
      case Go(_, _) =>
      case Stop(o) =>
        var last := o.log[|log|];
        OpenMaySend(c, base, log, last.status, last.headers, last.sent);
    }
  }

  lemma AuthStaged(c: Context, base: History, log: History, e: RouteEntry)
    requires Open(c, base, log)
    ensures Staged(c, base, log, AuthStage(c.w, c.p, c.req, e, log))
  {
    var verdict := c.p.authorize(e, c.req.header("authorization"), c.req.header("cookie"));
    if verdict.Err? {
      TextEnds(c, base, log, 401, verdict.error.Message(), "text/plain; charset=utf-8");
    }
  }

  lemma FormStaged(c: Context, base: History, log: History, e: RouteEntry, body: Bytes)
    requires Open(c, base, log)
    ensures Staged(c, base, log, FormStage(c.w, c.p, c.req, e, body, log))
  {
    match c.req.header("content-type") {
      case None =>
        TextEnds(c, base, log, 400, "{\"error\":\"missing content-type\"}", "application/json; charset=utf-8");
      case Some(ct) =>
        match c.p.parseForm(ct, body) {
          case Form(_, _) =>
          case BadForm(status, text) => TextEnds(c, base, log, status, text, "application/json; charset=utf-8");
        }
    }
  }

  lemma ArgumentsStaged(c: Context, base: History, log: History, e: RouteEntry, params: PathParams, i: Inputs)
    requires Open(c, base, log) && |i.results| <= |e.dependencies|
    ensures Staged(c, base, log, ArgumentStage(c.w, c.p, c.req, e, params, i, log))
    ensures ArgumentStage(c.w, c.p, c.req, e, params, i, log).Go? ==>
              ArgumentStage(c.w, c.p, c.req, e, params, i, log).log == log
  {
    match c.p.parseJson(e.bodyModel, i.body) {
      case Valid(_) =>
      case Malformed(text) => TextEnds(c, base, log, 400, text, "application/json; charset=utf-8");
      case Invalid(text) => TextEnds(c, base, log, 422, text, "application/json; charset=utf-8");
    }
  }

  // ---- The handler -------------------------------------------------------------------------------

  lemma HandlerIsCalled(c: Context, base: History, log: History, e: RouteEntry, kwargs: Kwargs)
    requires Open(c, base, log) && c.route == Some(e)
    ensures var now := log + [CallHandler(e.handler, kwargs)];
            && Orderly(c, base, log, now) && base <= now && |now| > |base|
            && Since(base, now, RESPONSE_CALL) == Since(base, now, EXCEPTION_CALL) == 0
  {
    assert Prepares(c, base, log, CallHandler(e.handler, kwargs));
    OneEvent(c, base, log, CallHandler(e.handler, kwargs));
    Snoc(c, base, log, CallHandler(e.handler, kwargs));
  }

  lemma HandlerIsAwaited(c: Context, base: History, log: History, e: RouteEntry, kwargs: Kwargs)
    requires Open(c, base, log) && c.route == Some(e) && e.isAsync
    requires var called := log + [CallHandler(e.handler, kwargs)];
             c.w.answer(called).Ok? && c.w.future(c.w.answer(called).value).None?
    ensures var called := log + [CallHandler(e.handler, kwargs)];
            var now := called + [AwaitHandler(c.w.answer(called).value)];
            && Orderly(c, base, called, now) && base <= now && |now| > |base|
            && Since(base, now, RESPONSE_CALL) == Since(base, now, EXCEPTION_CALL) == 0
  {
    HandlerIsCalled(c, base, log, e, kwargs);
    var called := log + [CallHandler(e.handler, kwargs)];
    OneEvent(c, base, called, AwaitHandler(c.w.answer(called).value));
    Snoc(c, base, called, AwaitHandler(c.w.answer(called).value));
  }

  /** The handler has been called, and awaited if it is async, and its result is due. */
  ghost predicate CameBack(c: Context, base: History, log: History, a: Attempt<Py>) {
    && Orderly(c, base, log, a.log) && base <= a.log && |a.log| > |base|
    && Since(base, a.log, RESPONSE_CALL) == Since(base, a.log, EXCEPTION_CALL) == 0
    && Returned(c, a.log) == Some(if a.Done? then Ok(a.value) else Err(a.error))
  }

  lemma IsBack(c: Context, base: History, log: History, now: History, r: PyResult)
    requires Orderly(c, base, log, now) && base <= now && |now| > |base|
    requires Since(base, now, RESPONSE_CALL) == Since(base, now, EXCEPTION_CALL) == 0
    requires Returned(c, now) == Some(r)
    ensures CameBack(c, base, log, if r.Ok? then Done(now, r.value) else Failed(now, r.error))
  {}

  lemma SyncHandlerReturned(c: Context, base: History, log: History, e: RouteEntry, kwargs: Kwargs)
    requires Open(c, base, log) && c.route == Some(e)
    requires var called := log + [CallHandler(e.handler, kwargs)];
             !e.isAsync || c.w.answer(called).Err? || c.w.future(c.w.answer(called).value).Some?
    ensures CameBack(c, base, log, CallAttempt(c.w, e, kwargs, log))
  {
    HandlerIsCalled(c, base, log, e, kwargs);
    var called := log + [CallHandler(e.handler, kwargs)];
    IsBack(c, base, log, called, Returned(c, called).value);
  }

  lemma AwaitedAttempt(c: Context, log: History, e: RouteEntry, kwargs: Kwargs)
    requires c.route == Some(e) && e.isAsync
    requires var called := log + [CallHandler(e.handler, kwargs)];
             c.w.answer(called).Ok? && c.w.future(c.w.answer(called).value).None?
    ensures var called := log + [CallHandler(e.handler, kwargs)];
            var now := called + [AwaitHandler(c.w.answer(called).value)];
            var r := c.w.answer(now);
            && Returned(c, now) == Some(r)
            && CallAttempt(c.w, e, kwargs, log) == if r.Ok? then Done(now, r.value) else Failed(now, r.error)
  {}

  lemma AsyncHandlerReturned(c: Context, base: History, log: History, e: RouteEntry, kwargs: Kwargs)
    requires Open(c, base, log) && c.route == Some(e) && e.isAsync
    requires var called := log + [CallHandler(e.handler, kwargs)];
             c.w.answer(called).Ok? && c.w.future(c.w.answer(called).value).None?
    ensures CameBack(c, base, log, CallAttempt(c.w, e, kwargs, log))
  {
    HandlerIsCalled(c, base, log, e, kwargs);
    HandlerIsAwaited(c, base, log, e, kwargs);
    var called := log + [CallHandler(e.handler, kwargs)];
    var now := called + [AwaitHandler(c.w.answer(called).value)];
    OrderlyOn(c, base, log, called, now);
    AwaitedAttempt(c, log, e, kwargs);
    IsBack(c, base, log, now, c.w.answer(now));
  }

  lemma HandlerReturned(c: Context, base: History, log: History, e: RouteEntry, kwargs: Kwargs)
    requires Open(c, base, log) && c.route == Some(e)
    ensures CameBack(c, base, log, CallAttempt(c.w, e, kwargs, log))
  {
    var called := log + [CallHandler(e.handler, kwargs)];
    if e.isAsync && c.w.answer(called).Ok? && c.w.future(c.w.answer(called).value).None? {
      AsyncHandlerReturned(c, base, log, e, kwargs);
    } else {
      SyncHandlerReturned(c, base, log, e, kwargs);
    }
  }

  lemma HandlerOrderly(c: Context, base: History, log: History, e: RouteEntry, kwargs: Kwargs)
    requires Open(c, base, log) && c.route == Some(e) && c.st.Agree()
    ensures Attempted(c, base, log, HandlerAttempt(c.w, c.st, c.req, e, kwargs, log))
  {
    HandlerReturned(c, base, log, e, kwargs);
    var a := CallAttempt(c.w, e, kwargs, log);
    match a {
      case Failed(now, err) => MappedErrorIsDue(c, base, now, err);
      case Done(now, out) => FinishOrderly(c, base, now, out);
    }
    AttemptedOn(c, base, log, a.log, HandlerAttempt(c.w, c.st, c.req, e, kwargs, log));
  }

  lemma ServedOrderly(c: Context, base: History, log: History, e: RouteEntry, params: PathParams, i: Inputs)
    requires !c.sync && Open(c, base, log) && c.route == Some(e) && c.st.Agree() && |i.results| <= |e.dependencies|
    ensures Ended(c, base, log, ServeHandler(c.w, c.p, c.st, c.req, e, params, i, log))
  {
    ArgumentsStaged(c, base, log, e, params, i);
    match ArgumentStage(c.w, c.p, c.req, e, params, i, log) {
      case Stop(_) =>
      case Go(_, kwargs) =>
        HandlerOrderly(c, base, log, e, kwargs);
        AttemptEnds(c, base, log, HandlerAttempt(c.w, c.st, c.req, e, kwargs, log));
    }
  }

  /** The factories run, or their error is due. */
  lemma FactoriesOrderly(c: Context, base: History, log: History, e: RouteEntry)
    requires Open(c, base, log) && c.route == Some(e)
    requires e.dependencies != [] && ContextFor(c.p, c.req, e).Ok?
    ensures var now := log + [RunFactories(e.dependencies)];
            && Orderly(c, base, log, now) && base <= now
            && match Run(c.w.callbacks(log), e.dependencies, ContextFor(c.p, c.req, e).value, [])
               case Ok(_) => Open(c, base, now)
               case Err(err) => Faulty(c, base, now, err) && MayEnd(c, base, now)
  {
    var step := RunFactories(e.dependencies);
    assert Prepares(c, base, log, step);
    OneEvent(c, base, log, step);
    Snoc(c, base, log, step);
    FactoriesFollowed(c, base, log, e);
  }

  /** What may follow the factories. */
  lemma FactoriesFollowed(c: Context, base: History, log: History, e: RouteEntry)
    requires c.route == Some(e) && ContextFor(c.p, c.req, e).Ok? && |log| >= |base|
    ensures var now := log + [RunFactories(e.dependencies)];
            && Mapped(c, now).None?
            && match Run(c.w.callbacks(log), e.dependencies, ContextFor(c.p, c.req, e).value, [])
               case Ok(_) => forall x | Prepares(c, base, now, x) :: Due(c, base, now, x)
               case Err(err) => ErrorDue(c, base, now, err)
  {
    var now := log + [RunFactories(e.dependencies)];
    assert now[..|now| - 1] == log;
  }

  lemma DependenciesOrderly(c: Context, base: History, log: History, e: RouteEntry)
    requires Open(c, base, log) && c.route == Some(e)
    ensures var a := DependencyAttempt(c.w, c.p, c.req, e, log);
            && Orderly(c, base, log, a.log) && base <= a.log
            && if a.Done? then Open(c, base, a.log) else Faulty(c, base, a.log, a.error) && MayEnd(c, base, a.log)
  {
    match ContextFor(c.p, c.req, e) {
      case Err(err) => OpenMayFail(c, base, log, err);
      case Ok(_) =>
        if e.dependencies != [] {
          FactoriesOrderly(c, base, log, e);
        }
    }
  }

  lemma AdmittedOrderly(c: Context, base: History, log: History, e: RouteEntry, params: PathParams, body: Bytes,
                        claims: Option<Py>, form: (Py, Py))
    requires !c.sync && Open(c, base, log) && c.route == Some(e) && c.st.Agree()
    ensures Ended(c, base, log, ServeAdmitted(c.w, c.p, c.st, c.req, e, params, body, claims, form, log))
  {
    DependenciesOrderly(c, base, log, e);
    DependencyResults(c.w, c.p, c.req, e, log);
    var a := DependencyAttempt(c.w, c.p, c.req, e, log);
    match a {
      case Failed(now, err) => FaultEnds(c, base, now, err);
      case Done(now, results) =>
        ServedOrderly(c, base, now, e, params, Gathered(c.p, c.req, e, results, claims, body, form));
    }
    EndedOn(c, base, log, a.log, ServeAdmitted(c.w, c.p, c.st, c.req, e, params, body, claims, form, log));
  }

  lemma WithBodyOrderly(c: Context, base: History, log: History, e: RouteEntry, params: PathParams, body: Bytes)
    requires !c.sync && Open(c, base, log) && c.route == Some(e) && c.st.Agree()
    ensures Ended(c, base, log, ServeWithBody(c.w, c.p, c.st, c.req, e, params, body, log))
  {
    AuthStaged(c, base, log, e);
    match AuthStage(c.w, c.p, c.req, e, log) {
      case Stop(_) =>
      case Go(_, claims) =>
        FormStaged(c, base, log, e, body);
        match FormStage(c.w, c.p, c.req, e, body, log) {
          case Stop(_) =>
          case Go(_, form) => AdmittedOrderly(c, base, log, e, params, body, claims, form);
        }
    }
  }

  lemma RouteOrderly(c: Context, base: History, log: History, e: RouteEntry, params: PathParams)
    requires !c.sync && Open(c, base, log) && c.route == Some(e) && c.st.Agree()
    ensures Ended(c, base, log, ServeRoute(c.w, c.p, c.st, c.req, e, params, log))
  {
    RateStaged(c, base, log, e);
    match RateStage(c.w, c.p, c.req, e, log) {
      case Stop(_) =>
      case Go(_, _) =>
        var at := log + [SetTemplate(e.pathTemplate)];
        StepKeepsOpen(c, base, log, SetTemplate(e.pathTemplate));
        BodyStaged(c, base, at, e);
        match BodyStage(c.w, c.p, c.req, e, at) {
          case Stop(_) =>
          case Go(now, body) =>
            WithBodyOrderly(c, base, now, e, params, body);
            EndedOn(c, base, at, now, ServeWithBody(c.w, c.p, c.st, c.req, e, params, body, now));
        }
        EndedOn(c, base, log, at, ServeRoute(c.w, c.p, c.st, c.req, e, params, log));
    }
  }

  // ---- Request middleware ------------------------------------------------------------------------

  /** All request middleware called so far has let the request through. */
  ghost predicate LetThrough(c: Context, base: History, log: History, k: nat) {
    && base <= log && k <= |c.st.requestMiddleware| && Since(base, log, REQUEST_CALL) == k
    && Since(base, log, HANDLER_CALL) == Since(base, log, RESPONSE_CALL) == Since(base, log, EXCEPTION_CALL) == 0
    && (k == 0 ==> log == base)
    && (k > 0 ==> |log| > |base| && log[|log| - 1].CallRequestMiddleware? && Mapped(c, log).None?)
  }

  lemma RequestIsCalled(c: Context, base: History, log: History, k: nat)
    requires LetThrough(c, base, log, k) && k < |c.st.requestMiddleware|
    ensures var now := log + [CallRequestMiddleware(c.st.requestMiddleware[k])];
            && Orderly(c, base, log, now) && base <= now && |now| > |base|
            && Since(base, now, RESPONSE_CALL) == Since(base, now, EXCEPTION_CALL) == 0
            && (Mapped(c, now).None? ==> LetThrough(c, base, now, k + 1))
  {
    var e := CallRequestMiddleware(c.st.requestMiddleware[k]);
    assert Due(c, base, log, e);
    OneEvent(c, base, log, e);
    Snoc(c, base, log, e);
  }

  /** How the request middleware leaves the request. */
  ghost predicate ThroughAll(c: Context, base: History, log: History, a: Attempt<Option<Py>>) {
    && Orderly(c, base, log, a.log) && base <= a.log
    && match a
       case Done(now, None) => LetThrough(c, base, now, |c.st.requestMiddleware|)
       case Done(now, Some(out)) =>
         |now| > |base| && Since(base, now, RESPONSE_CALL) == Since(base, now, EXCEPTION_CALL) == 0
         && Returned(c, now) == Some(Ok(out))
       case Failed(now, err) =>
         |now| > |base| && Since(base, now, EXCEPTION_CALL) == 0 && Mapped(c, now) == Some(Err(err))
  }

  lemma ThroughAllOn(c: Context, base: History, log: History, now: History, a: Attempt<Option<Py>>)
    requires Orderly(c, base, log, now) && ThroughAll(c, base, now, a)
    ensures ThroughAll(c, base, log, a)
  {
    OrderlyOn(c, base, log, now, a.log);
  }

  lemma OneMoreRequest(c: Context, log: History, k: nat)
    requires k < |c.st.requestMiddleware|
    ensures var middleware := c.st.requestMiddleware;
            var now := log + [CallRequestMiddleware(middleware[k])];
            ThroughRequest(c.w, log, middleware[k..])
            == match c.w.answer(now)
               case Err(err) => Failed(now, err)
               case Ok(out) =>
                 if c.w.isNone(out) then ThroughRequest(c.w, now, middleware[k + 1..]) else Done(now, Some(out))
  {
    var middleware := c.st.requestMiddleware;
    assert middleware[k..][0] == middleware[k] && middleware[k..][1..] == middleware[k + 1..];
  }

  /** A request middleware that ends the loop. */
  lemma RequestStops(c: Context, base: History, log: History, k: nat)
    requires LetThrough(c, base, log, k) && k < |c.st.requestMiddleware|
    ensures var now := log + [CallRequestMiddleware(c.st.requestMiddleware[k])];
            match c.w.answer(now)
            case Err(err) => ThroughAll(c, base, now, Failed(now, err))
            case Ok(out) => !c.w.isNone(out) ==> ThroughAll(c, base, now, Done(now, Some(out)))
  {
    RequestIsCalled(c, base, log, k);
  }

  /** From request middleware `k` on. */
  ghost predicate FromRequest(c: Context, base: History, log: History, k: nat) {
    k <= |c.st.requestMiddleware| && ThroughAll(c, base, log, ThroughRequest(c.w, log, c.st.requestMiddleware[k..]))
  }

  lemma RequestStopsAt(c: Context, base: History, log: History, k: nat)
    requires LetThrough(c, base, log, k) && k < |c.st.requestMiddleware|
    requires !LetsPass(c, log, k)
    ensures FromRequest(c, base, log, k)
  {
    RequestIsCalled(c, base, log, k);
    RequestStops(c, base, log, k);
    OneMoreRequest(c, log, k);
    var now := log + [CallRequestMiddleware(c.st.requestMiddleware[k])];
    ThroughAllOn(c, base, log, now, ThroughRequest(c.w, log, c.st.requestMiddleware[k..]));
  }

  lemma RequestGoesOn(c: Context, base: History, log: History, k: nat)
    requires LetThrough(c, base, log, k) && k < |c.st.requestMiddleware|
    requires LetsPass(c, log, k)
    requires FromRequest(c, base, log + [CallRequestMiddleware(c.st.requestMiddleware[k])], k + 1)
    ensures FromRequest(c, base, log, k)
  {
    RequestIsCalled(c, base, log, k);
    OneMoreRequest(c, log, k);
    var now := log + [CallRequestMiddleware(c.st.requestMiddleware[k])];
    ThroughAllOn(c, base, log, now, ThroughRequest(c.w, now, c.st.requestMiddleware[k + 1..]));
  }

  /** The request middleware at `k` returns nothing. */
  predicate LetsPass(c: Context, log: History, k: nat)
    requires k < |c.st.requestMiddleware|
  {
    var answer := c.w.answer(log + [CallRequestMiddleware(c.st.requestMiddleware[k])]);
    answer.Ok? && c.w.isNone(answer.value)
  }

  lemma PassesOn(c: Context, base: History, log: History, k: nat)
    requires LetThrough(c, base, log, k) && k < |c.st.requestMiddleware| && LetsPass(c, log, k)
    ensures LetThrough(c, base, log + [CallRequestMiddleware(c.st.requestMiddleware[k])], k + 1)
  {
    RequestIsCalled(c, base, log, k);
  }

  lemma {:induction false} RequestOrderly(c: Context, base: History, log: History, k: nat)
    requires LetThrough(c, base, log, k)
    ensures FromRequest(c, base, log, k)
    decreases |c.st.requestMiddleware| - k
  {
    if k == |c.st.requestMiddleware| {
      NoMoreRequests(c, base, log);
    } else if LetsPass(c, log, k) {
      PassesOn(c, base, log, k);
      RequestOrderly(c, base, log + [CallRequestMiddleware(c.st.requestMiddleware[k])], k + 1);
      RequestGoesOn(c, base, log, k);
    } else {
      RequestStopsAt(c, base, log, k);
    }
  }

  lemma NoMoreRequests(c: Context, base: History, log: History)
    requires LetThrough(c, base, log, |c.st.requestMiddleware|)
    ensures FromRequest(c, base, log, |c.st.requestMiddleware|)
  {
    assert c.st.requestMiddleware[|c.st.requestMiddleware|..] == [];
  }

  lemma LetThroughIsOpen(c: Context, base: History, log: History)
    requires LetThrough(c, base, log, |c.st.requestMiddleware|)
    ensures Open(c, base, log)
  {}

  // ---- The dispatchers ---------------------------------------------------------------------------

  lemma NoRouteEnds(c: Context, base: History, log: History, methods: seq<Verb>)
    requires Open(c, base, log)
    ensures Ended(c, base, log, NoRoute(c.w, log, methods))
  {
    var last := NoRoute(c.w, log, methods).log[|log|];
    OpenMaySend(c, base, log, last.status, last.headers, last.sent);
  }

  lemma PreflightEnds(c: Context, base: History, log: History, r: Cors.PreflightResult)
    requires Open(c, base, log)
    ensures Ended(c, base, log, AnswerPreflight(c.w, log, r))
  {
    var last := AnswerPreflight(c.w, log, r).log[|log|];
    OpenMaySend(c, base, log, last.status, last.headers, last.sent);
  }

  lemma OpenapiEnds(c: Context, base: History, log: History)
    requires Open(c, base, log)
    ensures Ended(c, base, log, OpenapiFull(c.w, c.p, c.req, log))
  {
    var at := log + [SetTemplate("/openapi.json")];
    StepKeepsOpen(c, base, log, SetTemplate("/openapi.json"));
    var last := OpenapiFull(c.w, c.p, c.req, log).log[|at|];
    OpenMaySend(c, base, at, last.status, last.headers, last.sent);
    EndedOn(c, base, log, at, OpenapiFull(c.w, c.p, c.req, log));
  }

  lemma NothingEnds(c: Context, base: History, log: History, raised: PyErr)
    requires Open(c, base, log)
    ensures Ended(c, base, log, Outcome(log, Some(raised)))
  {}

  ghost predicate Fits(c: Context, m: Matcher, snap: FrozenState, compiled: CompiledRouters) {
    && c.st == snap.settings && c.st.Agree()
    && c.route == Answers.Matched(m, snap, compiled, c.req)
  }

  lemma RoutingOrderly(c: Context, m: Matcher, snap: FrozenState, compiled: CompiledRouters, base: History,
                       log: History)
    requires !c.sync && Open(c, base, log) && Fits(c, m, snap, compiled)
    ensures Ended(c, base, log, RouteFull(c.w, c.p, m, snap, compiled, c.req, log))
  {
    NoRouteEnds(c, base, log, MethodsMatching(m, compiled, c.req.path));
    match MatchRoute(m, compiled, c.req.verb, c.req.path) {
      case None => NothingEnds(c, base, log, c.p.methodError);
      case Some(None) =>
      case Some(Some((idx, params))) =>
        if idx < |snap.routes| {
          RouteOrderly(c, base, log, snap.routes[idx], params);
        } else {
          NothingEnds(c, base, log, c.p.routeIndexError);
        }
    }
  }

  lemma PipelineOrderly(c: Context, m: Matcher, snap: FrozenState, compiled: CompiledRouters, base: History)
    requires !c.sync && Fits(c, m, snap, compiled) && c.req.proto == "http"
    ensures Ended(c, base, base, RunRsgi(c.w, c.p, m, snap, compiled, c.req, base))
  {
    StartsOpen(c, base);
    if AsksForOpenapi(c.st, c.req) {
      OpenapiEnds(c, base, base);
    } else if Preflight(c.st, c.req).Some? {
      PreflightEnds(c, base, base, Preflight(c.st, c.req).value);
    } else {
      RequestOrderly(c, base, base, 0);
      assert c.st.requestMiddleware[0..] == c.st.requestMiddleware;
      AfterRequest(c, m, snap, compiled, base);
    }
  }

  lemma AfterRequest(c: Context, m: Matcher, snap: FrozenState, compiled: CompiledRouters, base: History)
    requires !c.sync && Fits(c, m, snap, compiled) && c.req.proto == "http"
    requires !AsksForOpenapi(c.st, c.req) && Preflight(c.st, c.req).None?
    requires ThroughAll(c, base, base, ThroughRequest(c.w, base, c.st.requestMiddleware))
    ensures Ended(c, base, base, RunRsgi(c.w, c.p, m, snap, compiled, c.req, base))
  {
    var a := ThroughRequest(c.w, base, c.st.requestMiddleware);
    match a {
      case Failed(now, err) =>
        MappedErrorIsDue(c, base, now, err);
        FaultEnds(c, base, now, err);
      case Done(now, Some(out)) =>
        FinishOrderly(c, base, now, out);
        AttemptEnds(c, base, now, Finish(c.w, c.st, c.req, now, out));
      case Done(now, None) =>
        LetThroughIsOpen(c, base, now);
        RoutingOrderly(c, m, snap, compiled, base, now);
    }
    EndedOn(c, base, base, a.log, RunRsgi(c.w, c.p, m, snap, compiled, c.req, base));
  }

  lemma TrivialOrderly(c: Context, base: History, log: History, e: RouteEntry, params: PathParams)
    requires c.sync && Open(c, base, log) && c.route == Some(e) && !e.isAsync && c.st.responseMiddleware == []
    ensures Ended(c, base, log, RunTrivialSyncRoute(c.w, c.st, c.req, e, params, log))
  {
    TrivialAttempted(c, base, log, e, params);
    var a := TrivialAttempt(c.w, c.st, c.req, e, params, log);
    if a.Failed? {
      FaultEnds(c, base, a.log, a.error);
      EndedOn(c, base, log, a.log, RunTrivialSyncRoute(c.w, c.st, c.req, e, params, log));
    }
  }

  lemma TrivialAttempted(c: Context, base: History, log: History, e: RouteEntry, params: PathParams)
    requires Open(c, base, log) && c.route == Some(e) && !e.isAsync && c.st.responseMiddleware == []
    ensures Attempted(c, base, log, TrivialAttempt(c.w, c.st, c.req, e, params, log))
  {
    var at := log + [SetTemplate(e.pathTemplate)];
    StepKeepsOpen(c, base, log, SetTemplate(e.pathTemplate));
    var kwargs := PathKwargs(c.w, e.wildcardParams, params);
    HandlerReturned(c, base, at, e, kwargs);
    var now := at + [CallHandler(e.handler, kwargs)];
    TrivialReturned(c, base, at, e, kwargs);
    AttemptedOn(c, base, at, now, TrivialAttempt(c.w, c.st, c.req, e, params, log));
    AttemptedOn(c, base, log, at, TrivialAttempt(c.w, c.st, c.req, e, params, log));
  }

  /** What becomes of the return value of a trivial handler. */
  lemma TrivialReturned(c: Context, base: History, at: History, e: RouteEntry, kwargs: Kwargs)
    requires Open(c, base, at) && c.route == Some(e) && !e.isAsync && c.st.responseMiddleware == []
    ensures var now := at + [CallHandler(e.handler, kwargs)];
            match c.w.answer(now)
            case Err(err) => Attempted(c, base, now, Failed(now, err))
            case Ok(out) =>
              match c.w.mapReturn(now, out)
              case Err(err) => Attempted(c, base, now, Failed(now, err))
              case Ok(mapped) =>
                Attempted(c, base, now, Deliver(c.w, c.req, now, MergeHeaders(c.w, c.st, c.req, now, mapped)))
  {
    HandlerReturned(c, base, at, e, kwargs);
    var now := at + [CallHandler(e.handler, kwargs)];
    match Mapped(c, now).value {
      case Err(err) => MappedErrorIsDue(c, base, now, err);
      case Ok(mapped) => DeliverOrderly(c, base, now, mapped);
    }
  }

  lemma ShortCircuitOrderly(c: Context, m: Matcher, snap: FrozenState, compiled: CompiledRouters, base: History)
    requires c.sync && Fits(c, m, snap, compiled) && c.req.proto == "http"
    requires forall e | e in snap.routes :: EntryAgrees(e)
    requires TrySync(c.w, c.p, m, snap, compiled, c.req, base).Answered?
    ensures Ended(c, base, base, TrySync(c.w, c.p, m, snap, compiled, c.req, base).outcome)
  {
    StartsOpen(c, base);
    if Preflight(c.st, c.req).Some? {
      PreflightEnds(c, base, base, Preflight(c.st, c.req).value);
    } else if AsksForOpenapi(c.st, c.req) {
      OpenapiEnds(c, base, base);
      ShortCircuits.OpenapiAgrees(c.w, c.p, c.req, base);
    } else {
      SyncRoutingOrderly(c, m, snap, compiled, base);
    }
  }

  lemma SyncRoutingOrderly(c: Context, m: Matcher, snap: FrozenState, compiled: CompiledRouters, base: History)
    requires c.sync && Fits(c, m, snap, compiled) && c.st.responseMiddleware == []
    requires forall e | e in snap.routes :: EntryAgrees(e)
    requires RouteSync(c.w, c.p, m, snap, compiled, c.req, base).Answered?
    ensures Ended(c, base, base, RouteSync(c.w, c.p, m, snap, compiled, c.req, base).outcome)
  {
    StartsOpen(c, base);
    NoRouteEnds(c, base, base, MethodsMatching(m, compiled, c.req.path));
    match MatchRoute(m, compiled, c.req.verb, c.req.path) {
      case None => NothingEnds(c, base, base, c.p.methodError);
      case Some(None) =>
      case Some(Some((idx, params))) =>
        if idx < |snap.routes| {
          var e := snap.routes[idx];
          assert EntryAgrees(e);
          TrivialOrderly(c, base, base, e, params);
        } else {
          NothingEnds(c, base, base, c.p.routeIndexError);
        }
    }
  }

  /** The context of a request that the server hands over in a state of the application. */
  ghost function ContextOf(w: World, p: Services, m: Matcher, s: AppValue, req: Request, log: History): Context {
    Context(w, p, s.snapshot.settings, req, Answers.Matched(m, s.snapshot, TablesFor(s), req),
            TrySync(w, p, m, s.snapshot, TablesFor(s), req, log).Answered?)
  }

  /** In every state satisfying the application's invariant, every event that an HTTP request adds to
      the history is due when it happens; the request does not stop while a return value waits to be
      answered; and a last response that is not taken is an error to the server. */
  lemma EveryEventIsDue(w: World, p: Services, m: Matcher, s: AppValue, req: Request, log: History)
    requires Inv(s) && req.proto == "http"
    ensures var c := ContextOf(w, p, m, s, req, log);
            var o := HandleRsgi(w, p, m, s.snapshot, TablesFor(s), req, log);
            var after := o.log;
            && log <= after && MayEnd(c, log, after) && !Silent(w, o)
            && forall i | |log| <= i < |after| :: Due(c, log, after[..i], after[i])
  {
    var c := ContextOf(w, p, m, s, req, log);
    if c.sync {
      forall e | e in s.snapshot.routes ensures EntryAgrees(e) {
        assert e in s.routes;
      }
      ShortCircuitOrderly(c, m, s.snapshot, TablesFor(s), log);
    } else {
      PipelineOrderly(c, m, s.snapshot, TablesFor(s), log);
    }
  }
}
