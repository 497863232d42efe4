/** What a request does to the outside, event by event: what may follow what, said of the history
    alone. */
module Traces {
  import opened Text
  import opened Injection
  import opened Headers
  import opened Protocol
  import opened Routing
  import opened State
  import opened Dispatch
  import Decimal

  /** What the events of a request depend on. `route` is the entry the request is matched to, and
      `sync` tells whether the short circuit answers it. */
  datatype Context = Context(
    w: World,
    p: Services,
    st: Settings,
    req: Request,
    route: Option<RouteEntry>,
    sync: bool)

  // ---- Counting ----------------------------------------------------------------------------------

  function Number(log: History, kind: Event -> bool): nat {
    if log == [] then 0
    else Number(log[..|log| - 1], kind) + if kind(log[|log| - 1]) then 1 else 0
  }

  lemma NumberSnoc(log: History, e: Event, kind: Event -> bool)
    ensures Number(log + [e], kind) == Number(log, kind) + if kind(e) then 1 else 0
  {
    assert (log + [e])[..|log|] == log;
  }

  const REQUEST_CALL: Event -> bool := (e: Event) => e.CallRequestMiddleware?
  const RESPONSE_CALL: Event -> bool := (e: Event) => e.CallResponseMiddleware?
  const HANDLER_CALL: Event -> bool := (e: Event) => e.CallHandler?
  const EXCEPTION_CALL: Event -> bool := (e: Event) => e.CallExceptionHandler?

  /** How many events of a kind the request has added to `base`. */
  function Since(base: History, past: History, kind: Event -> bool): int {
    Number(past, kind) - Number(base, kind)
  }

  // ---- What is due -------------------------------------------------------------------------------

  /** What the last event hands to the response pipeline: the return value of the handler or of a
      middleware, or the error one of them raised. */
  function Returned(c: Context, past: History): Option<PyResult>
    requires past != []
  {
    match past[|past| - 1]
    case CallHandler(_, _) =>
      if c.route.None? || !c.route.value.isAsync || c.w.answer(past).Err? then Some(c.w.answer(past))
      else if c.w.future(c.w.answer(past).value).Some? then Some(Err(c.w.future(c.w.answer(past).value).value))
      else None
    case AwaitHandler(_) => Some(c.w.answer(past))
    case CallResponseMiddleware(_, _) => Some(c.w.answer(past))
    case CallRequestMiddleware(_) =>
      if c.w.answer(past).Ok? && c.w.isNone(c.w.answer(past).value) then None else Some(c.w.answer(past))
    case _ => None
  }

  function Mapped(c: Context, past: History): Option<Result<HandlerMap, PyErr>>
    requires past != []
  {
    match Returned(c, past)
    case None => None
    case Some(Err(err)) => Some(Err(err))
    case Some(Ok(out)) => Some(c.w.mapReturn(past, out))
  }

  /** The exception handlers to be asked about an error, last registered first; the short circuit
      cannot call async ones. */
  function Willing(c: Context, handlers: seq<ExceptionHandler>, err: PyErr): seq<ExceptionHandler> {
    if handlers == [] then [] else
      var h, rest := handlers[|handlers| - 1], handlers[..|handlers| - 1];
      (if c.w.isInstance(err, h.excType) && !(c.sync && h.isAsync) then [h] else []) + Willing(c, rest, err)
  }

  /** The error is reported: an `HTTPException` as it says, in JSON unless it says otherwise, any
      other one as 500. */
  predicate Reports(c: Context, err: PyErr, e: Event) {
    match c.w.httpException(err)
    case Err(_) => false
    case Ok(Some(problem)) =>
      var json := [("content-type", "application/json; charset=utf-8")];
      var headers := if HasName(problem.headers, "content-type") then problem.headers else json + problem.headers;
      e == Respond(problem.status, WireHeaders(headers), if problem.body == [] then NoBody else Raw(problem.body))
    case Ok(None) => IsInternalError(c, err, e)
  }

  predicate IsInternalError(c: Context, err: PyErr, e: Event) {
    var text := c.w.errorBody(err);
    e == Respond(500, [("content-type", "application/json; charset=utf-8")], if text == "" then NoBody else Str(text))
  }

  /** The next exception handler is asked, or the error is reported. */
  predicate Handles(c: Context, base: History, past: History, err: PyErr, e: Event) {
    var willing, called := Willing(c, c.st.exceptionHandlers, err), Since(base, past, EXCEPTION_CALL);
    if 0 <= called < |willing| then e == CallExceptionHandler(willing[called].handler, err) else Reports(c, err, e)
  }

  /** The response is sent: to HEAD its headers with the real length, to others headers and body. */
  ghost predicate Sends(c: Context, mapped: HandlerMap, e: Event) {
    && !mapped.AlreadySent?
    && var headers := WireHeaders(HeadersOf(mapped));
       if c.req.IsHead() then
         e == Respond(mapped.status,
                      Without(headers, "content-length")
                      + [("content-length", Decimal.PrintNat(ByteLen(mapped.body)))], NoBody)
       else exists sent :: Carries(sent, mapped.body) && e == Respond(mapped.status, headers, sent)
  }

  /** What follows a call of an exception handler. */
  ghost predicate FollowsHandler(c: Context, base: History, past: History, err: PyErr, e: Event) {
    var willing, called := Willing(c, c.st.exceptionHandlers, err), Since(base, past, EXCEPTION_CALL);
    match c.w.answer(past)
    case Err(_) => Handles(c, base, past, err, e)
    case Ok(res) =>
      if !c.sync && 0 < called <= |willing| && willing[called - 1].isAsync && c.w.future(res).None?
      then e == AwaitExceptionHandler(res)
      else
        match c.w.mapReturn(past, res)
        case Ok(mapped) => Sends(c, mapped, e)
        case Err(_) => if c.sync then Handles(c, base, past, err, e) else Reports(c, err, e)
  }

  /** What follows once an async one has been awaited; the error is that of the call before. */
  ghost predicate FollowsAwaited(c: Context, past: History, e: Event) {
    |past| >= 2 && past[|past| - 2].CallExceptionHandler? &&
    var err := past[|past| - 2].error;
    match c.w.answer(past)
    case Err(raised) => IsInternalError(c, raised, e)
    case Ok(res) =>
      match c.w.mapReturn(past, res)
      case Ok(mapped) => Sends(c, mapped, e)
      case Err(_) => Reports(c, err, e)
  }

  /** What follows a return value: the next response middleware is given it, mapped, and the last one
      is sent with the configured headers. */
  ghost predicate FollowsReturn(c: Context, base: History, past: History, mapped: HandlerMap, e: Event) {
    var called := Since(base, past, RESPONSE_CALL);
    && !mapped.AlreadySent?
    && if 0 <= called < |c.st.responseMiddleware| then
         e == CallResponseMiddleware(c.st.responseMiddleware[called], mapped)
       else match MergeHeaders(c.w, c.st, c.req, past, mapped)
         case Err(err) => Handles(c, base, past, err, e)
         case Ok(merged) => Sends(c, merged, e)
  }

  /** The steps before there is a return value. */
  ghost predicate Prepares(c: Context, base: History, past: History, e: Event) {
    match e
    case CallRequestMiddleware(middleware) =>
      var called := Since(base, past, REQUEST_CALL);
      && 0 <= called < |c.st.requestMiddleware| && middleware == c.st.requestMiddleware[called]
      && (called > 0 ==> past != [] && past[|past| - 1].CallRequestMiddleware?)
    case CallHandler(handler, _) =>
      c.route.Some? && handler == c.route.value.handler && Since(base, past, HANDLER_CALL) == 0
    case RunFactories(dependencies) => c.route.Some? && dependencies == c.route.value.dependencies
    case AwaitHandler(coroutine) =>
      && past != [] && past[|past| - 1].CallHandler? && c.route.Some? && c.route.value.isAsync
      && c.w.answer(past) == Ok(coroutine)
    case CallResponseMiddleware(_, _) => false
    case AwaitExceptionHandler(_) => false
    case _ => true
  }

  ghost predicate FollowsStep(c: Context, base: History, past: History, e: Event)
    requires past != []
  {
    match past[|past| - 1]
    case CallHandler(_, _) => c.w.answer(past).Ok? && e == AwaitHandler(c.w.answer(past).value)
    case CallRequestMiddleware(_) =>
      var called := Since(base, past, REQUEST_CALL);
      if 0 <= called < |c.st.requestMiddleware| then e == CallRequestMiddleware(c.st.requestMiddleware[called])
      else Prepares(c, base, past, e)
    case RunFactories(dependencies) =>
      if c.route.None? || ContextFor(c.p, c.req, c.route.value).Err? then Prepares(c, base, past, e)
      else
        (match Run(c.w.callbacks(past[..|past| - 1]), dependencies, ContextFor(c.p, c.req, c.route.value).value, [])
         case Err(err) => Handles(c, base, past, err, e)
         case Ok(_) => Prepares(c, base, past, e))
    case _ => Prepares(c, base, past, e)
  }

  /** Whether `e` may be the event after `past`, which extends the history `base` before the
      request. Nothing follows a response that the protocol object has taken; that it has not is an
      error like any other, unless an exception handler had made the response. */
  ghost predicate Due(c: Context, base: History, past: History, e: Event) {
    if |past| <= |base| then Prepares(c, base, past, e)
    else
      match past[|past| - 1]
      case Respond(_, _, _) =>
        c.w.accepts(past).Some?
        && (if Since(base, past, EXCEPTION_CALL) == 0 then Handles(c, base, past, c.w.accepts(past).value, e)
            else e.Respond?)
      case CallExceptionHandler(_, err) => FollowsHandler(c, base, past, err, e)
      case AwaitExceptionHandler(_) => FollowsAwaited(c, past, e)
      case _ =>
        match Mapped(c, past)
        case None => FollowsStep(c, base, past, e)
        case Some(Err(err)) => Handles(c, base, past, err, e)
        case Some(Ok(mapped)) => FollowsReturn(c, base, past, mapped, e)
  }

  /** A request does not stop while a return value is due to be answered. */
  ghost predicate MayEnd(c: Context, base: History, past: History) {
    |past| > |base| && Mapped(c, past).Some? && Mapped(c, past).value.Ok? ==>
      var mapped := Mapped(c, past).value.value;
      mapped.AlreadySent?
      || (Since(base, past, RESPONSE_CALL) == |c.st.responseMiddleware|
          && MergeHeaders(c.w, c.st, c.req, past, mapped).Err?)
  }

  /** Every event from `mid` on is due. */
  ghost predicate Orderly(c: Context, base: History, mid: History, after: History) {
    mid <= after && forall i | |mid| <= i < |after| :: Due(c, base, after[..i], after[i])
  }

  // ---- Putting traces together -------------------------------------------------------------------

  lemma OrderlyOn(c: Context, base: History, a: History, b: History, d: History)
    requires Orderly(c, base, a, b) && Orderly(c, base, b, d)
    ensures Orderly(c, base, a, d)
  {
    forall i | |a| <= i < |d| ensures Due(c, base, d[..i], d[i]) {
      if i < |b| {
        assert d[..i] == b[..i];
        assert Due(c, base, b[..i], b[i]);
      }
    }
  }

  lemma OneEvent(c: Context, base: History, past: History, e: Event)
    requires Due(c, base, past, e)
    ensures Orderly(c, base, past, past + [e])
  {
    assert (past + [e])[..|past|] == past;
  }

  /** One more event, and what it does to the counts. */
  lemma Snoc(c: Context, base: History, past: History, e: Event)
    ensures var now := past + [e];
            && Since(base, now, REQUEST_CALL)
               == Since(base, past, REQUEST_CALL) + (if e.CallRequestMiddleware? then 1 else 0)
            && Since(base, now, RESPONSE_CALL)
               == Since(base, past, RESPONSE_CALL) + (if e.CallResponseMiddleware? then 1 else 0)
            && Since(base, now, HANDLER_CALL) == Since(base, past, HANDLER_CALL) + (if e.CallHandler? then 1 else 0)
            && Since(base, now, EXCEPTION_CALL)
               == Since(base, past, EXCEPTION_CALL) + (if e.CallExceptionHandler? then 1 else 0)
  {
    NumberSnoc(past, e, REQUEST_CALL);
    NumberSnoc(past, e, RESPONSE_CALL);
    NumberSnoc(past, e, HANDLER_CALL);
    NumberSnoc(past, e, EXCEPTION_CALL);
  }

  // ---- The error paths ---------------------------------------------------------------------------

  /** Whatever asks the next handler or reports the error may follow. */
  ghost predicate ErrorDue(c: Context, base: History, past: History, err: PyErr) {
    forall e :: Handles(c, base, past, err, e) ==> Due(c, base, past, e)
  }

  lemma ProblemReports(c: Context, log: History, err: PyErr)
    ensures var o := SendProblem(c.w, log, err);
            log <= o.log
            && (o.log != log ==> |o.log| == |log| + 1 && Reports(c, err, o.log[|log|]))
  {}

  lemma MappedSends(c: Context, log: History, mapped: HandlerMap)
    ensures var o := SendMapped(c.w, log, c.req.IsHead(), mapped);
            if mapped.AlreadySent? then o == Outcome(log, None)
            else
              && |o.log| == |log| + 1 && log <= o.log && Sends(c, mapped, o.log[|log|])
              && o.raised == c.w.accepts(o.log)
  {
    if !mapped.AlreadySent? {
      if c.req.IsHead() {
        HeadSends(c.w, log, mapped);
      } else {
        GetSends(c.w, log, mapped);
      }
    }
  }

  /** The error is reported where it may be. */
  lemma ProblemOrderly(c: Context, base: History, log: History, err: PyErr)
    requires forall e :: Reports(c, err, e) ==> Due(c, base, log, e)
    ensures Orderly(c, base, log, SendProblem(c.w, log, err).log)
  {
    ProblemReports(c, log, err);
    var after := SendProblem(c.w, log, err).log;
    if after != log {
      assert after[..|log|] == log;
    }
  }

  /** The handlers not asked yet are those of `rest`. */
  ghost predicate Remaining(c: Context, base: History, log: History, rest: seq<ExceptionHandler>, err: PyErr) {
    var willing, called := Willing(c, c.st.exceptionHandlers, err), Since(base, log, EXCEPTION_CALL);
    0 <= called <= |willing| && willing[called..] == Willing(c, rest, err)
  }

  /** Calling the handler is what comes next, and it leaves those of `rest`. */
  ghost predicate Asked(c: Context, base: History, log: History, h: ExceptionHandler, rest: seq<ExceptionHandler>,
                        err: PyErr) {
    var now := log + [CallExceptionHandler(h.handler, err)];
    var willing, called := Willing(c, c.st.exceptionHandlers, err), Since(base, now, EXCEPTION_CALL);
    && Orderly(c, base, log, now) && Remaining(c, base, now, rest, err)
    && 0 < called <= |willing| && willing[called - 1] == h
  }

  /** Asking the last of them, if the error is for it. */
  lemma AskLast(c: Context, base: History, log: History, handlers: seq<ExceptionHandler>, err: PyErr)
    requires handlers != [] && Remaining(c, base, log, handlers, err) && ErrorDue(c, base, log, err)
    ensures var h, rest := handlers[|handlers| - 1], handlers[..|handlers| - 1];
            if c.w.isInstance(err, h.excType) && !(c.sync && h.isAsync) then Asked(c, base, log, h, rest, err)
            else Remaining(c, base, log, rest, err)
  {
    var h, rest := handlers[|handlers| - 1], handlers[..|handlers| - 1];
    if c.w.isInstance(err, h.excType) && !(c.sync && h.isAsync) {
      var e := CallExceptionHandler(h.handler, err);
      var willing, called := Willing(c, c.st.exceptionHandlers, err), Since(base, log, EXCEPTION_CALL);
      assert willing[called..] == [h] + Willing(c, rest, err);
      assert willing[called] == willing[called..][0] && willing[called + 1..] == willing[called..][1..];
      assert Handles(c, base, log, err, e);
      OneEvent(c, base, log, e);
      Snoc(c, base, log, e);
    } else {
      assert [] + Willing(c, rest, err) == Willing(c, rest, err);
    }
  }

  /** A handler that raised leaves the error to the others. */
  lemma StillDue(c: Context, base: History, log: History, handler: Py, err: PyErr)
    requires var now := log + [CallExceptionHandler(handler, err)];
             |log| >= |base| && (c.w.answer(now).Err?
                                 || (c.sync && c.w.mapReturn(now, c.w.answer(now).value).Err?))
    ensures ErrorDue(c, base, log + [CallExceptionHandler(handler, err)], err)
  {}

  /** Once all have been asked, only the report is left. */
  lemma NobodyLeft(c: Context, base: History, log: History, err: PyErr)
    requires Remaining(c, base, log, [], err) && ErrorDue(c, base, log, err)
    ensures Orderly(c, base, log, SendProblem(c.w, log, err).log)
  {
    var willing, called := Willing(c, c.st.exceptionHandlers, err), Since(base, log, EXCEPTION_CALL);
    assert called == |willing|;
    forall e | Reports(c, err, e) ensures Due(c, base, log, e) {
      assert Handles(c, base, log, err, e);
    }
    ProblemOrderly(c, base, log, err);
  }

  /** How the search for a willing handler ends. */
  ghost predicate Searched(c: Context, base: History, after: History, found: Option<(Py, bool)>, err: PyErr) {
    match found
    case None => Remaining(c, base, after, [], err) && ErrorDue(c, base, after, err)
    case Some((res, isAsync)) => IsWilling(c, base, after, res, isAsync, err)
  }

  /** The last event is the call of a handler, which returned `res`. */
  ghost predicate IsWilling(c: Context, base: History, after: History, res: Py, isAsync: bool, err: PyErr) {
    var willing, called := Willing(c, c.st.exceptionHandlers, err), Since(base, after, EXCEPTION_CALL);
    && |after| > |base| && after[|after| - 1].CallExceptionHandler? && after[|after| - 1].error == err
    && c.w.answer(after) == Ok(res)
    && 0 < called <= |willing| && willing[called - 1].isAsync == isAsync
  }

  lemma {:induction false} WillingOrderly(c: Context, base: History, log: History, handlers: seq<ExceptionHandler>,
                                          err: PyErr)
    requires !c.sync && base <= log && Remaining(c, base, log, handlers, err) && ErrorDue(c, base, log, err)
    ensures var (after, found) := FirstWilling(c.w, log, handlers, err);
            Orderly(c, base, log, after) && Searched(c, base, after, found, err)
    decreases |handlers|, 0
  {
    if handlers != [] {
      AskLast(c, base, log, handlers, err);
      var h, rest := handlers[|handlers| - 1], handlers[..|handlers| - 1];
      if c.w.isInstance(err, h.excType) {
        AskedOrderly(c, base, log, h, rest, err);
      } else {
        WillingOrderly(c, base, log, rest, err);
      }
    }
  }

  lemma AskedOrderly(c: Context, base: History, log: History, h: ExceptionHandler, rest: seq<ExceptionHandler>,
                     err: PyErr)
    requires !c.sync && base <= log && Asked(c, base, log, h, rest, err)
    ensures var now := log + [CallExceptionHandler(h.handler, err)];
            var (after, found) := if c.w.answer(now).Err? then FirstWilling(c.w, now, rest, err)
                                  else (now, Some((c.w.answer(now).value, h.isAsync)));
            Orderly(c, base, log, after) && Searched(c, base, after, found, err)
    decreases |rest|, 1
  {
    var now := log + [CallExceptionHandler(h.handler, err)];
    if c.w.answer(now).Err? {
      StillDue(c, base, log, h.handler, err);
      WillingOrderly(c, base, now, rest, err);
      OrderlyOn(c, base, log, now, FirstWilling(c.w, now, rest, err).0);
    }
  }

  /** A response that may be sent. */
  lemma SentOrderly(c: Context, base: History, log: History, mapped: HandlerMap)
    requires forall e | Sends(c, mapped, e) :: Due(c, base, log, e)
    ensures Orderly(c, base, log, SendMapped(c.w, log, c.req.IsHead(), mapped).log)
  {
    MappedSends(c, log, mapped);
    var sent := SendMapped(c.w, log, c.req.IsHead(), mapped);
    if !mapped.AlreadySent? {
      assert sent.log[..|log|] == log;
    }
  }

  /** What may follow a response that was not taken. */
  lemma RefusedIsDue(c: Context, base: History, log: History, mapped: HandlerMap)
    requires base <= log && SendMapped(c.w, log, c.req.IsHead(), mapped).raised.Some?
    ensures var sent := SendMapped(c.w, log, c.req.IsHead(), mapped);
            && log <= sent.log
            && (Since(base, log, EXCEPTION_CALL) == 0 ==>
                  Since(base, sent.log, EXCEPTION_CALL) == 0 && ErrorDue(c, base, sent.log, sent.raised.value))
            && (Since(base, log, EXCEPTION_CALL) > 0 ==>
                  forall err, e | Reports(c, err, e) :: Due(c, base, sent.log, e))
  {
    MappedSends(c, log, mapped);
    var sent := SendMapped(c.w, log, c.req.IsHead(), mapped);
    assert sent.log == log + [sent.log[|log|]];
    Snoc(c, base, log, sent.log[|log|]);
  }

  /** What a willing handler returned is sent, or the error is reported. */
  lemma HandledOrderly(c: Context, base: History, log: History, res: Py, err: PyErr)
    requires forall mapped, e | c.w.mapReturn(log, res) == Ok(mapped) && Sends(c, mapped, e) :: Due(c, base, log, e)
    requires c.w.mapReturn(log, res).Err? ==> forall e | Reports(c, err, e) :: Due(c, base, log, e)
    requires base <= log && Since(base, log, EXCEPTION_CALL) > 0
    ensures Orderly(c, base, log, SendHandled(c.w, log, c.req.IsHead(), res, err).log)
  {
    match c.w.mapReturn(log, res) {
      case Err(_) => ProblemOrderly(c, base, log, err);
      case Ok(mapped) =>
        SentOrderly(c, base, log, mapped);
        var sent := SendMapped(c.w, log, c.req.IsHead(), mapped);
        if sent.raised.Some? {
          RefusedIsDue(c, base, log, mapped);
          ProblemOrderly(c, base, sent.log, err);
          OrderlyOn(c, base, log, sent.log, SendProblem(c.w, sent.log, err).log);
        }
    }
  }

  /** A willing handler that is not awaited. */
  lemma WillingIsSent(c: Context, base: History, log: History, res: Py, isAsync: bool, err: PyErr)
    requires !c.sync && base <= log && IsWilling(c, base, log, res, isAsync, err)
    requires !(isAsync && c.w.future(res).None?)
    ensures Orderly(c, base, log, SendHandled(c.w, log, c.req.IsHead(), res, err).log)
  {
    HandledOrderly(c, base, log, res, err);
  }

  lemma WillingIsAwaited(c: Context, base: History, log: History, res: Py, err: PyErr)
    requires !c.sync && base <= log && IsWilling(c, base, log, res, true, err) && c.w.future(res).None?
    ensures Orderly(c, base, log, SendAwaited(c.w, log, c.req.IsHead(), res, err).log)
  {
    AwaitedOrderly(c, base, log, res, err);
  }

  /** What follows an awaited handler. */
  lemma AwaitedIsDue(c: Context, base: History, log: History, res: Py, err: PyErr)
    requires |log| > |base| && log[|log| - 1].CallExceptionHandler? && log[|log| - 1].error == err
    ensures var now := log + [AwaitExceptionHandler(res)];
            && (forall raised, e | c.w.answer(now) == Err(raised) && IsInternalError(c, raised, e) ::
                  Due(c, base, now, e))
            && (forall awaited | c.w.answer(now) == Ok(awaited) ::
                  && (forall mapped, e | c.w.mapReturn(now, awaited) == Ok(mapped) && Sends(c, mapped, e) ::
                        Due(c, base, now, e))
                  && (c.w.mapReturn(now, awaited).Err? ==> forall e | Reports(c, err, e) :: Due(c, base, now, e)))
  {
    assert (log + [AwaitExceptionHandler(res)])[|log| - 1] == log[|log| - 1];
  }

  lemma InternalErrorOrderly(c: Context, base: History, log: History, err: PyErr)
    requires forall e | IsInternalError(c, err, e) :: Due(c, base, log, e)
    ensures var text := c.w.errorBody(err);
            Orderly(c, base, log, SendText(c.w, log, 500, text, "application/json; charset=utf-8").log)
  {
    var o := SendText(c.w, log, 500, c.w.errorBody(err), "application/json; charset=utf-8");
    assert IsInternalError(c, err, o.log[|log|]) && o.log[..|log|] == log;
  }

  lemma AwaitedOrderly(c: Context, base: History, log: History, res: Py, err: PyErr)
    requires |log| > |base| && base <= log && log[|log| - 1].CallExceptionHandler? && log[|log| - 1].error == err
    requires Due(c, base, log, AwaitExceptionHandler(res)) && Since(base, log, EXCEPTION_CALL) > 0
    ensures Orderly(c, base, log, SendAwaited(c.w, log, c.req.IsHead(), res, err).log)
  {
    var now := log + [AwaitExceptionHandler(res)];
    OneEvent(c, base, log, AwaitExceptionHandler(res));
    AwaitedIsDue(c, base, log, res, err);
    Snoc(c, base, log, AwaitExceptionHandler(res));
    match c.w.answer(now) {
      case Err(raised) => InternalErrorOrderly(c, base, now, raised);
      case Ok(awaited) => HandledOrderly(c, base, now, awaited, err);
    }
    OrderlyOn(c, base, log, now, SendAwaited(c.w, log, c.req.IsHead(), res, err).log);
  }

  /** The error path of the full pipeline. */
  lemma ErrorFullOrderly(c: Context, base: History, log: History, err: PyErr)
    requires !c.sync && base <= log && Since(base, log, EXCEPTION_CALL) == 0 && ErrorDue(c, base, log, err)
    ensures Orderly(c, base, log, ErrorFull(c.w, log, c.req.IsHead(), c.st.exceptionHandlers, err).log)
  {
    var handlers := c.st.exceptionHandlers;
    WillingOrderly(c, base, log, handlers, err);
    var (now, found) := FirstWilling(c.w, log, handlers, err);
    match found {
      case None => NobodyLeft(c, base, now, err);
      case Some((res, isAsync)) =>
        if isAsync && c.w.future(res).None? {
          WillingIsAwaited(c, base, now, res, err);
        } else {
          WillingIsSent(c, base, now, res, isAsync, err);
        }
    }
    OrderlyOn(c, base, log, now, ErrorFull(c.w, log, c.req.IsHead(), handlers, err).log);
  }

  /** How the handlers of the short circuit leave the request. */
  ghost predicate Tried(c: Context, base: History, log: History, r: Handled, err: PyErr) {
    match r
    case Responded(outcome) => Orderly(c, base, log, outcome.log)
    case NotHandled(after) =>
      Orderly(c, base, log, after) && Remaining(c, base, after, [], err) && ErrorDue(c, base, after, err)
  }

  lemma TriedOn(c: Context, base: History, log: History, now: History, r: Handled, err: PyErr)
    requires Orderly(c, base, log, now) && Tried(c, base, now, r, err)
    ensures Tried(c, base, log, r, err)
  {
    OrderlyOn(c, base, log, now, if r.Responded? then r.outcome.log else r.log);
  }

  /** What a handler of the short circuit returned is sent if it can be mapped. */
  lemma TriedIsSent(c: Context, base: History, log: History, handler: Py, err: PyErr)
    requires var now := log + [CallExceptionHandler(handler, err)];
             && c.sync && base <= log
             && c.w.answer(now).Ok? && c.w.mapReturn(now, c.w.answer(now).value).Ok?
    ensures var now := log + [CallExceptionHandler(handler, err)];
            var mapped := c.w.mapReturn(now, c.w.answer(now).value).value;
            Orderly(c, base, now, SendMapped(c.w, now, c.req.IsHead(), mapped).log)
  {
    var now := log + [CallExceptionHandler(handler, err)];
    SentOrderly(c, base, now, c.w.mapReturn(now, c.w.answer(now).value).value);
  }

  lemma {:induction false} TriedOrderly(c: Context, base: History, log: History, handlers: seq<ExceptionHandler>,
                                        err: PyErr)
    requires c.sync && base <= log && Remaining(c, base, log, handlers, err) && ErrorDue(c, base, log, err)
    ensures Tried(c, base, log, TryHandlersSync(c.w, log, c.req.IsHead(), handlers, err), err)
    decreases |handlers|
  {
    if handlers != [] {
      AskLast(c, base, log, handlers, err);
      var h, rest := handlers[|handlers| - 1], handlers[..|handlers| - 1];
      if !c.w.isInstance(err, h.excType) || h.isAsync {
        TriedOrderly(c, base, log, rest, err);
      } else {
        var now := log + [CallExceptionHandler(h.handler, err)];
        if c.w.answer(now).Ok? && c.w.mapReturn(now, c.w.answer(now).value).Ok? {
          TriedIsSent(c, base, log, h.handler, err);
        } else {
          StillDue(c, base, log, h.handler, err);
          TriedOrderly(c, base, now, rest, err);
        }
        TriedOn(c, base, log, now, TryHandlersSync(c.w, log, c.req.IsHead(), handlers, err), err);
      }
    }
  }

  /** The error path of the short circuit. */
  lemma ErrorSyncOrderly(c: Context, base: History, log: History, err: PyErr)
    requires c.sync && base <= log && Since(base, log, EXCEPTION_CALL) == 0 && ErrorDue(c, base, log, err)
    ensures Orderly(c, base, log, ErrorSync(c.w, log, c.req.IsHead(), c.st.exceptionHandlers, err).log)
  {
    var handlers := c.st.exceptionHandlers;
    TriedOrderly(c, base, log, handlers, err);
    match TryHandlersSync(c.w, log, c.req.IsHead(), handlers, err) {
      case Responded(_) =>
      case NotHandled(after) =>
        NobodyLeft(c, base, after, err);
        OrderlyOn(c, base, log, after, SendProblem(c.w, after, err).log);
    }
  }
}
