/** The outside of a request: the Python callables and the RSGI protocol object as oracles, the
    responses sent through it (`src/response.rs`), and the two error paths of `src/dispatch.rs`. */
module Protocol {
  import opened Text
  import opened Injection
  import opened Headers
  import opened State
  import opened Params
  import Decimal

  type Bytes = seq<int>

  datatype Sent = Str(text: string) | Raw(bytes: Bytes) | NoBody

  /** What a request does to the outside world, in order. */
  datatype Event =
    | SetTemplate(template: string)
    | Respond(status: int, headers: HeaderList, sent: Sent)
    | ReadBody
    | RunFactories(dependencies: seq<DependencyEntry>)
    | CallHandler(handler: Py, kwargs: Kwargs)
    | AwaitHandler(coroutine: Py)
    | CallRequestMiddleware(middleware: Py)
    | CallResponseMiddleware(middleware: Py, response: HandlerMap)
    | CallExceptionHandler(handler: Py, error: PyErr)
    | AwaitExceptionHandler(coroutine: Py)

  type History = seq<Event>

  /** An `HTTPException` as status, body and headers. */
  datatype Problem = Problem(status: int, body: Bytes, headers: HeaderList)

  /** How the outside answers. Everything may depend on all that has happened before, so that the
      callables and the protocol object are free to keep state. */
  datatype World = World(
    accepts: History -> Option<PyErr>,
    answer: History -> PyResult,
    mapReturn: (History, Py) -> Result<HandlerMap, PyErr>,
    configPairs: (History, Py) -> Result<HeaderList, PyErr>,
    callbacks: History -> Callbacks,
    future: Py -> Option<PyErr>,
    isNone: Py -> bool,
    isInstance: (PyErr, Py) -> bool,
    httpException: PyErr -> Result<Option<Problem>, PyErr>,
    errorBody: PyErr -> string,
    toPy: ParamValue -> Py)

  /** The protocol object takes every response. */
  ghost predicate Reliable(w: World) {
    forall log :: w.accepts(log) == None
  }

  /** Everything that happened, and the error raised to the server if the request ended so. */
  datatype Outcome = Outcome(log: History, raised: Option<PyErr>)

  // ---- Responses -----------------------------------------------------------------------------

  /** `build_header_list_from_pairs`: names in lower case, values as they are. */
  function WireHeaders(pairs: HeaderList): HeaderList {
    seq(|pairs|, i requires 0 <= i < |pairs| => (Lower(pairs[i].0), pairs[i].1))
  }

  function Utf8Len(s: string): nat {
    if s == "" then 0 else
      var c := s[0] as int;
      (if c < 0x80 then 1 else if c < 0x800 then 2 else if c < 0x10000 then 3 else 4) + Utf8Len(s[1..])
  }

  /** The UTF-8 encoding of a character, section 3 of RFC 3629. */
  function EncodedChar(c: char): Bytes {
    var n := c as int;
    if n < 0x80 then [n]
    else if n < 0x800 then [0xC0 + n / 0x40, 0x80 + n % 0x40]
    else if n < 0x10000 then [0xE0 + n / 0x1000, 0x80 + n / 0x40 % 0x40, 0x80 + n % 0x40]
    else [0xF0 + n / 0x40000, 0x80 + n / 0x1000 % 0x40, 0x80 + n / 0x40 % 0x40, 0x80 + n % 0x40]
  }

  function Encoded(s: string): Bytes {
    if s == "" then [] else EncodedChar(s[0]) + Encoded(s[1..])
  }

  /** The length is that of the encoding. */
  lemma {:induction false} LengthIsOfEncoding(s: string)
    ensures Utf8Len(s) == |Encoded(s)|
  {
    if s != "" {
      LengthIsOfEncoding(s[1..]);
    }
  }

  /** On the wire, names are in lower case and otherwise the same, and values are as they were. */
  lemma WireHeadersAre(pairs: HeaderList, i: nat)
    requires i < |pairs|
    ensures |WireHeaders(pairs)| == |pairs|
    ensures var (name, value) := WireHeaders(pairs)[i];
            && value == pairs[i].1 && |name| == |pairs[i].0|
            && forall k | 0 <= k < |name| ::
                 !('A' <= name[k] <= 'Z')
                 && (name[k] == pairs[i].0[k]
                     || ('A' <= pairs[i].0[k] <= 'Z' && name[k] as int == pairs[i].0[k] as int + 32))
  {}

  function Ascii(s: string): Bytes {
    seq(|s|, i requires 0 <= i < |s| => s[i] as int)
  }

  function ByteLen(b: Body): nat {
    match b
    case Text(t) => Utf8Len(t)
    case Bytes(bytes) => |bytes|
    case Owned(bytes) => |bytes|
  }

  function Send(w: World, log: History, status: int, headers: HeaderList, sent: Sent): Outcome {
    var log := log + [Respond(status, headers, sent)];
    Outcome(log, w.accepts(log))
  }

  /** `send_text`: an empty text is an empty response. */
  function SendText(w: World, log: History, status: int, text: string, contentType: string): Outcome {
    Send(w, log, status, [("content-type", contentType)], if text == "" then NoBody else Str(text))
  }

  /** `send_str`. */
  function SendStr(w: World, log: History, status: int, text: string, contentType: string): Outcome {
    Send(w, log, status, [("content-type", contentType)], Str(text))
  }

  /** `send_bytes_sync`, `send_pybytes_sync`. */
  function SendBytes(w: World, log: History, status: int, bytes: Bytes, contentType: string): Outcome {
    Send(w, log, status, [("content-type", contentType)], if bytes == [] then NoBody else Raw(bytes))
  }

  /** `send_with_headers` and its synchronous form. */
  function SendWithHeaders(w: World, log: History, status: int, body: Bytes, headers: HeaderList): Outcome {
    Send(w, log, status, WireHeaders(headers), if body == [] then NoBody else Raw(body))
  }

  /** `send_head_simple_sync` writes its two headers itself. */
  function SendHeadSimpleSync(w: World, log: History, status: int, len: nat, contentType: string): Outcome {
    Send(w, log, status,
         [("content-type", contentType), ("content-length", if len == 0 then "0" else Decimal.PrintNat(len))], NoBody)
  }

  /** `send_head_simple` goes through the general header list. */
  function SendHeadSimple(w: World, log: History, status: int, len: nat, contentType: string): Outcome {
    Send(w, log, status,
         WireHeaders([("content-type", contentType), ("content-length", Decimal.PrintNat(len))]), NoBody)
  }

  lemma SameHeadSimple(w: World, log: History, status: int, len: nat, contentType: string)
    ensures SendHeadSimpleSync(w, log, status, len, contentType) == SendHeadSimple(w, log, status, len, contentType)
  {
    assert Lower("content-type") == "content-type";
    assert Lower("content-length") == "content-length";
    assert Decimal.PrintNat(0) == "0";
    var pairs := [("content-type", contentType), ("content-length", Decimal.PrintNat(len))];
    assert WireHeaders(pairs) == pairs;
  }

  /** `send_head_len_with_headers_sync`. */
  function SendHeadLen(w: World, log: History, status: int, len: nat, headers: HeaderList): Outcome {
    SendWithHeaders(w, log, status, [],
                    Without(headers, "content-length") + [("content-length", Decimal.PrintNat(len))])
  }

  /** `send_handler_map_inline`: HEAD gets the headers and the length but no body. */
  function SendMapped(w: World, log: History, isHead: bool, mapped: HandlerMap): Outcome {
    match mapped
    case AlreadySent => Outcome(log, None)
    case WithHeaders(status, body, headers) =>
      if isHead then SendHeadLen(w, log, status, ByteLen(body), headers)
      else (match body
            case Text(text) => Send(w, log, status, WireHeaders(headers), Str(text))
            case Bytes(bytes) => Send(w, log, status, WireHeaders(headers), Raw(bytes))
            case Owned(bytes) => SendWithHeaders(w, log, status, bytes, headers))
    case Simple(status, body, contentType) =>
      if isHead then SendHeadSimpleSync(w, log, status, ByteLen(body), contentType)
      else (match body
            case Text(text) => SendText(w, log, status, text, contentType)
            case Bytes(bytes) => SendBytes(w, log, status, bytes, contentType)
            case Owned(bytes) => SendBytes(w, log, status, bytes, contentType))
  }

  // ---- HEAD and GET --------------------------------------------------------------------------

  function SentLen(sent: Sent): nat {
    match sent
    case Str(text) => Utf8Len(text)
    case Raw(bytes) => |bytes|
    case NoBody => 0
  }

  lemma WireName(h: Header, name: string)
    ensures Named((Lower(h.0), h.1), name) == Named(h, name)
  {
    assert Lower(Lower(h.0)) == Lower(h.0);
  }

  lemma {:induction false} WireWithout(pairs: HeaderList, name: string)
    ensures WireHeaders(Without(pairs, name)) == Without(WireHeaders(pairs), name)
  {
    if pairs != [] {
      WireWithout(pairs[1..], name);
      WireName(pairs[0], name);
      assert WireHeaders(pairs)[1..] == WireHeaders(pairs[1..]);
      assert WireHeaders(pairs)[0] == (Lower(pairs[0].0), pairs[0].1);
      if !Named(pairs[0], name) {
        var rest := Without(pairs[1..], name);
        assert WireHeaders([pairs[0]] + rest) == [(Lower(pairs[0].0), pairs[0].1)] + WireHeaders(rest);
      }
    }
  }

  /** The body is sent as it is; an empty one may also be sent as none. */
  predicate Carries(sent: Sent, body: Body) {
    match body
    case Text(text) => sent == Str(text) || (text == "" && sent == NoBody)
    case Bytes(bytes) => sent == Raw(bytes) || (bytes == [] && sent == NoBody)
    case Owned(bytes) => sent == Raw(bytes) || (bytes == [] && sent == NoBody)
  }

  /** What a GET sends, whatever the form of the response: its status, its headers and its body. */
  lemma GetSends(w: World, log: History, mapped: HandlerMap)
    requires !mapped.AlreadySent?
    ensures exists sent ::
              && SendMapped(w, log, false, mapped)
                 == Send(w, log, mapped.status, WireHeaders(HeadersOf(mapped)), sent)
              && Carries(sent, mapped.body) && SentLen(sent) == ByteLen(mapped.body)
  {
    assert Lower("content-type") == "content-type";
    if mapped.Simple? {
      assert WireHeaders(HeadersOf(mapped)) == [("content-type", mapped.contentType)];
    }
    var sent := match mapped.body
      case Text(text) => if mapped.Simple? && text == "" then NoBody else Str(text)
      case Bytes(bytes) => if mapped.Simple? && bytes == [] then NoBody else Raw(bytes)
      case Owned(bytes) => if bytes == [] then NoBody else Raw(bytes);
    assert SendMapped(w, log, false, mapped) == Send(w, log, mapped.status, WireHeaders(HeadersOf(mapped)), sent);
  }

  lemma HeadSends(w: World, log: History, mapped: HandlerMap)
    requires !mapped.AlreadySent?
    ensures SendMapped(w, log, true, mapped)
            == Send(w, log, mapped.status,
                    Without(WireHeaders(HeadersOf(mapped)), "content-length")
                    + [("content-length", Decimal.PrintNat(ByteLen(mapped.body)))], NoBody)
  {
    var len := Decimal.PrintNat(ByteLen(mapped.body));
    assert Lower("content-length") == "content-length" && Lower("content-type") == "content-type";
    assert Decimal.PrintNat(0) == "0";
    if mapped.WithHeaders? {
      var kept := Without(mapped.headers, "content-length");
      WireWithout(mapped.headers, "content-length");
      assert WireHeaders(kept + [("content-length", len)]) == WireHeaders(kept) + [("content-length", len)];
    } else {
      var wire := WireHeaders(HeadersOf(mapped));
      assert wire == [("content-type", mapped.contentType)];
      assert |Lower("content-type")| != |Lower("content-length")|;
      assert Without(wire, "content-length") == wire;
      assert wire + [("content-length", len)] == [("content-type", mapped.contentType), ("content-length", len)];
    }
  }

  /** A HEAD request is answered with the status and the headers of the same GET request and the
      length of the body that it would have sent, but without the body. */
  lemma HeadMirrorsGet(w: World, log: History, mapped: HandlerMap)
    requires !mapped.AlreadySent?
    ensures exists headers, sent ::
              && SendMapped(w, log, false, mapped) == Send(w, log, mapped.status, headers, sent)
              && Carries(sent, mapped.body)
              && SendMapped(w, log, true, mapped)
                 == Send(w, log, mapped.status,
                         Without(headers, "content-length")
                         + [("content-length", Decimal.PrintNat(SentLen(sent)))], NoBody)
  {
    GetSends(w, log, mapped);
    HeadSends(w, log, mapped);
  }

  // ---- Error paths ---------------------------------------------------------------------------

  /** `ensure_http_exception_content_type`. */
  function WithContentType(headers: HeaderList): HeaderList {
    if HasName(headers, "content-type") then headers
    else [("content-type", "application/json; charset=utf-8")] + headers
  }

  /** The end of both error paths: an `HTTPException` as it says, anything else as 500. */
  function SendProblem(w: World, log: History, err: PyErr): Outcome {
    match w.httpException(err)
    case Err(e) => Outcome(log, Some(e))
    case Ok(Some(p)) => SendWithHeaders(w, log, p.status, p.body, WithContentType(p.headers))
    case Ok(None) => SendText(w, log, 500, w.errorBody(err), "application/json; charset=utf-8")
  }

  /** How far the registered handlers got: a response, or none of them helped. */
  datatype Handled = Responded(outcome: Outcome) | NotHandled(log: History)

  /** The loop of `send_python_error_sync` over the handlers, last registered first: async ones
      are skipped, and one that fails or returns something unusable is passed over. */
  function TryHandlersSync(w: World, log: History, isHead: bool, handlers: seq<ExceptionHandler>, err: PyErr): Handled
    decreases |handlers|
  {
    if handlers == [] then NotHandled(log) else
      var h, rest := handlers[|handlers| - 1], handlers[..|handlers| - 1];
      if !w.isInstance(err, h.excType) || h.isAsync then TryHandlersSync(w, log, isHead, rest, err)
      else
        var log := log + [CallExceptionHandler(h.handler, err)];
        match w.answer(log)
        case Err(_) => TryHandlersSync(w, log, isHead, rest, err)
        case Ok(res) =>
          match w.mapReturn(log, res)
          case Ok(mapped) => Responded(SendMapped(w, log, isHead, mapped))
          case Err(_) => TryHandlersSync(w, log, isHead, rest, err)
  }

  /** `send_python_error_sync`. */
  function ErrorSync(w: World, log: History, isHead: bool, handlers: seq<ExceptionHandler>, err: PyErr): Outcome {
    match TryHandlersSync(w, log, isHead, handlers, err)
    case Responded(outcome) => outcome
    case NotHandled(after) => SendProblem(w, after, err)
  }

  /** The same loop written out. */
  method SendPythonErrorSync(w: World, log: History, isHead: bool, handlers: seq<ExceptionHandler>, err: PyErr)
    returns (r: Outcome)
    ensures r == ErrorSync(w, log, isHead, handlers, err)
  {
    var now := log;
    var i := |handlers|;
    assert handlers[..i] == handlers;
    while i > 0
      invariant 0 <= i <= |handlers|
      invariant TryHandlersSync(w, now, isHead, handlers[..i], err) == TryHandlersSync(w, log, isHead, handlers, err)
    {
      i := i - 1;
      var h := handlers[i];
      assert handlers[..i + 1][..i] == handlers[..i];
      if !w.isInstance(err, h.excType) {
        continue;
      }
      if h.isAsync {
        continue;
      }
      now := now + [CallExceptionHandler(h.handler, err)];
      var res := w.answer(now);
      if res.Ok? {
        var mapped := w.mapReturn(now, res.value);
        if mapped.Ok? {
          return SendMapped(w, now, isHead, mapped.value);
        }
      }
    }
    return SendProblem(w, now, err);
  }

  /** The first handler, last registered first, whose call succeeds; `send_python_error` tries no
      other one. */
  function FirstWilling(w: World, log: History, handlers: seq<ExceptionHandler>, err: PyErr): (History, Option<(Py,
                        bool)>)
    decreases |handlers|
  {
    if handlers == [] then (log, None) else
      var h, rest := handlers[|handlers| - 1], handlers[..|handlers| - 1];
      if !w.isInstance(err, h.excType) then FirstWilling(w, log, rest, err)
      else
        var log := log + [CallExceptionHandler(h.handler, err)];
        match w.answer(log)
        case Err(_) => FirstWilling(w, log, rest, err)
        case Ok(res) => (log, Some((res, h.isAsync)))
  }

  /** Map and send what a handler returned; when that fails the original error is reported. */
  function SendHandled(w: World, log: History, isHead: bool, res: Py, err: PyErr): Outcome {
    match w.mapReturn(log, res)
    case Err(_) => SendProblem(w, log, err)
    case Ok(mapped) =>
      var sent := SendMapped(w, log, isHead, mapped);
      if sent.raised.None? then sent else SendProblem(w, sent.log, err)
  }

  /** Await what an async handler returned, then map and send it. */
  function SendAwaited(w: World, log: History, isHead: bool, res: Py, err: PyErr): Outcome {
    var log := log + [AwaitExceptionHandler(res)];
    match w.answer(log)
    case Err(e) => SendText(w, log, 500, w.errorBody(e), "application/json; charset=utf-8")
    case Ok(awaited) => SendHandled(w, log, isHead, awaited, err)
  }

  /** `send_python_error`. */
  function ErrorFull(w: World, log: History, isHead: bool, handlers: seq<ExceptionHandler>, err: PyErr): Outcome {
    match FirstWilling(w, log, handlers, err)
    case (log, None) => SendProblem(w, log, err)
    case (log, Some((res, isAsync))) =>
      if isAsync && w.future(res).None? then SendAwaited(w, log, isHead, res, err)
      else SendHandled(w, log, isHead, res, err)
  }

  /** With no handler registered the two error paths do the same in every world. */
  lemma NoHandlersAgree(w: World, log: History, isHead: bool, err: PyErr)
    ensures ErrorSync(w, log, isHead, [], err) == ErrorFull(w, log, isHead, [], err)
  {}

  /** At most one handler, and not an async one. */
  predicate OneSyncHandler(handlers: seq<ExceptionHandler>) {
    |handlers| <= 1 && forall h | h in handlers :: !h.isAsync
  }

  lemma MappedIsTaken(w: World, log: History, isHead: bool, mapped: HandlerMap)
    requires Reliable(w)
    ensures SendMapped(w, log, isHead, mapped).raised == None
  {}

  lemma OneSyncHandlerAgrees(w: World, log: History, isHead: bool, handlers: seq<ExceptionHandler>, err: PyErr)
    requires Reliable(w) && OneSyncHandler(handlers)
    ensures ErrorSync(w, log, isHead, handlers, err) == ErrorFull(w, log, isHead, handlers, err)
  {
    if handlers != [] {
      var h, rest := handlers[|handlers| - 1], handlers[..|handlers| - 1];
      assert rest == [] && h in handlers;
      var now := log + [CallExceptionHandler(h.handler, err)];
      if !w.isInstance(err, h.excType) {
        assert TryHandlersSync(w, log, isHead, handlers, err) == TryHandlersSync(w, log, isHead, [], err);
        assert FirstWilling(w, log, handlers, err) == FirstWilling(w, log, [], err);
      } else if w.answer(now).Err? {
        assert TryHandlersSync(w, log, isHead, handlers, err) == TryHandlersSync(w, now, isHead, [], err);
        assert FirstWilling(w, log, handlers, err) == FirstWilling(w, now, [], err);
      } else {
        var res := w.answer(now).value;
        assert FirstWilling(w, log, handlers, err) == (now, Some((res, false)));
        assert ErrorFull(w, log, isHead, handlers, err) == SendHandled(w, now, isHead, res, err);
        if w.mapReturn(now, res).Ok? {
          MappedIsTaken(w, now, isHead, w.mapReturn(now, res).value);
        } else {
          assert TryHandlersSync(w, log, isHead, handlers, err) == TryHandlersSync(w, now, isHead, [], err);
        }
      }
    }
  }

  /** The error paths agree on every error, request and world the predicate admits. */
  ghost predicate PathsAgree(handlers: seq<ExceptionHandler>, admits: World -> bool) {
    forall w: World, log, isHead, err | admits(w) ::
      ErrorSync(w, log, isHead, handlers, err) == ErrorFull(w, log, isHead, handlers, err)
  }

  /** A reliable world where every exception matches every handler and is no `HTTPException`. */
  function Matching(w: World): World {
    w.(accepts := (_: History) => None, isInstance := (_: PyErr, _: Py) => true,
       httpException := (_: PyErr) => Ok(None))
  }

  /** There every handler fails. */
  function Failing(w: World): World {
    Matching(w).(answer := (_: History) => Err(0))
  }

  /** There every handler returns something that cannot be mapped. */
  function Unusable(w: World): World {
    Matching(w).(answer := (_: History) => Ok(0), mapReturn := (_: History, _: Py) => Err(0))
  }

  function SyncCount(handlers: seq<ExceptionHandler>): (n: nat)
    ensures n <= |handlers|
    ensures n == |handlers| ==> forall h | h in handlers :: !h.isAsync
  {
    if handlers == [] then 0 else
      var last := handlers[|handlers| - 1];
      SyncCount(handlers[..|handlers| - 1]) + if last.isAsync then 0 else 1
  }

  lemma {:induction false} FailingTrace(w: World, log: History, isHead: bool, handlers: seq<ExceptionHandler>,
                                        err: PyErr)
    ensures var sync := TryHandlersSync(Failing(w), log, isHead, handlers, err);
            sync.NotHandled? && |sync.log| == |log| + SyncCount(handlers)
    ensures var full := FirstWilling(Failing(w), log, handlers, err);
            full.1 == None && |full.0| == |log| + |handlers|
    decreases |handlers|
  {
    if handlers != [] {
      var h, rest := handlers[|handlers| - 1], handlers[..|handlers| - 1];
      var now := log + [CallExceptionHandler(h.handler, err)];
      FailingTrace(w, if h.isAsync then log else now, isHead, rest, err);
      FailingTrace(w, now, isHead, rest, err);
    }
  }

  lemma {:induction false} UnusableTrace(w: World, log: History, isHead: bool, handlers: seq<ExceptionHandler>,
                                         err: PyErr)
    requires forall h | h in handlers :: !h.isAsync
    ensures var sync := TryHandlersSync(Unusable(w), log, isHead, handlers, err);
            sync.NotHandled? && |sync.log| == |log| + |handlers|
    decreases |handlers|
  {
    if handlers != [] {
      var h, rest := handlers[|handlers| - 1], handlers[..|handlers| - 1];
      assert h in handlers && forall x | x in rest :: x in handlers;
      UnusableTrace(w, log + [CallExceptionHandler(h.handler, err)], isHead, rest, err);
    }
  }

  lemma MatchingIsReliable(w: World)
    ensures Reliable(Failing(w)) && Reliable(Unusable(w))
  {}

  lemma PlainProblem(w: World, log: History, err: PyErr)
    requires w.httpException(err) == Ok(None)
    ensures |SendProblem(w, log, err).log| == |log| + 1
  {}

  lemma AsyncHandlerDisagrees(w: World, log: History, isHead: bool, handlers: seq<ExceptionHandler>, err: PyErr)
    requires exists h :: h in handlers && h.isAsync
    ensures ErrorSync(Failing(w), log, isHead, handlers, err) != ErrorFull(Failing(w), log, isHead, handlers, err)
  {
    FailingTrace(w, log, isHead, handlers, err);
    assert SyncCount(handlers) < |handlers|;
    var bad := Failing(w);
    PlainProblem(bad, TryHandlersSync(bad, log, isHead, handlers, err).log, err);
    PlainProblem(bad, FirstWilling(bad, log, handlers, err).0, err);
  }

  lemma TwoHandlersDisagree(w: World, log: History, isHead: bool, handlers: seq<ExceptionHandler>, err: PyErr)
    requires |handlers| >= 2 && forall h | h in handlers :: !h.isAsync
    ensures ErrorSync(Unusable(w), log, isHead, handlers, err) != ErrorFull(Unusable(w), log, isHead, handlers, err)
  {
    UnusableTrace(w, log, isHead, handlers, err);
    var last := handlers[|handlers| - 1];
    assert last in handlers;
    var bad := Unusable(w);
    var now := log + [CallExceptionHandler(last.handler, err)];
    assert FirstWilling(bad, log, handlers, err) == (now, Some((0, false)));
    PlainProblem(bad, TryHandlersSync(bad, log, isHead, handlers, err).log, err);
    PlainProblem(bad, now, err);
  }

  /** Some world to start from. */
  const PLAIN := World(
    (_: History) => None,
    (_: History) => Err(0),
    (_: History, _: Py) => Err(0),
    (_: History, _: Py) => Err(0),
    (_: History) => Callbacks((_: Py, _: Kwargs) => Err(0), (_: Py) => Err(0), (o: Py) => Ok(o)),
    (_: Py) => None,
    (_: Py) => true,
    (_: PyErr, _: Py) => false,
    (_: PyErr) => Ok(None),
    (_: PyErr) => "",
    (_: ParamValue) => 0)

  /** A world where the protocol object takes no response at all. */
  function Refusing(w: World): World {
    Matching(w).(accepts := (_: History) => Some(0), answer := (_: History) => Ok(0),
                 mapReturn := (_: History, _: Py) => Ok(Simple(200, Owned([]), "")))
  }

  lemma RefusedResponseDisagrees(w: World, log: History, isHead: bool, handlers: seq<ExceptionHandler>, err: PyErr)
    requires handlers != [] && forall h | h in handlers :: !h.isAsync
    ensures ErrorSync(Refusing(w), log, isHead, handlers, err) != ErrorFull(Refusing(w), log, isHead, handlers, err)
  {
    var last := handlers[|handlers| - 1];
    assert last in handlers;
    var bad := Refusing(w);
    var now := log + [CallExceptionHandler(last.handler, err)];
    var sent := SendMapped(bad, now, isHead, Simple(200, Owned([]), ""));
    assert sent.raised == Some(0);
    assert FirstWilling(bad, log, handlers, err) == (now, Some((0, false)));
    PlainProblem(bad, sent.log, err);
  }

  /** As long as the protocol object takes every response, the two error paths are the same
      exactly when at most one handler is registered and it is not async. */
  lemma ErrorPathsAgreeExactly(handlers: seq<ExceptionHandler>)
    ensures PathsAgree(handlers, Reliable) <==> OneSyncHandler(handlers)
  {
    if OneSyncHandler(handlers) {
      forall w: World, log, isHead, err | Reliable(w)
        ensures ErrorSync(w, log, isHead, handlers, err) == ErrorFull(w, log, isHead, handlers, err)
      {
        OneSyncHandlerAgrees(w, log, isHead, handlers, err);
      }
    } else {
      MatchingIsReliable(PLAIN);
      if exists h :: h in handlers && h.isAsync {
        AsyncHandlerDisagrees(PLAIN, [], false, handlers, 0);
      } else {
        TwoHandlersDisagree(PLAIN, [], false, handlers, 0);
      }
    }
  }

  /** When the protocol object may raise, they are the same exactly when none is registered. */
  lemma ErrorPathsAgreeEverywhereExactly(handlers: seq<ExceptionHandler>)
    ensures PathsAgree(handlers, (w: World) => true) <==> handlers == []
  {
    if handlers != [] {
      if exists h :: h in handlers && h.isAsync {
        AsyncHandlerDisagrees(PLAIN, [], false, handlers, 0);
      } else {
        RefusedResponseDisagrees(PLAIN, [], false, handlers, 0);
      }
    }
  }
}
