/** The native CORS handling of `src/cors.rs` against the Python `CORSConfig` of
    `oxyroute/cors.py` that it replaces. */
module Cors {
  import opened Text
  import opened Headers
  import Decimal

  /** The fields of a `CORSConfig`, all of them ASCII text. */
  datatype CorsConfig = CorsConfig(
    allowOrigins: seq<string>,
    allowMethods: seq<string>,
    allowHeaders: seq<string>,
    exposeHeaders: seq<string>,
    allowCredentials: bool,
    maxAge: Option<nat>)

  /** Why a preflight is refused. */
  datatype Refusal = MethodRefused | OriginRefused | HeadersRefused {
    /** The status and message sent, the same in both languages. */
    function Answer(): (int, string) {
      match this
      case MethodRefused => (400, "Disallowed CORS method")
      case OriginRefused => (400, "CORS origin not allowed")
      case HeadersRefused => (400, "Disallowed CORS request headers")
    }
  }

  /** Outcome of a preflight: 204 with headers, or a refusal. */
  type PreflightResult = Result<HeaderList, Refusal>

  type Verdict = Result<(string, string), Refusal>

  function Mapped(xs: seq<string>, f: string -> string): set<string> {
    set x | x in xs :: f(x)
  }

  function MaxAgeText(cfg: CorsConfig): Option<string> {
    if cfg.maxAge.None? then None else Some(Decimal.PrintNat(cfg.maxAge.value))
  }

  /** Split at every character of `sep`, dropping empty pieces: what the native
      `split(..).filter(..)` and Python's `[p for p in re.split(..) if p]` both yield for their
      own notion of a separator. */
  function Pieces(s: string, sep: char -> bool): (r: seq<string>)
    ensures forall p | p in r :: p != "" && forall c | c in p :: !sep(c)
    decreases |s|
  {
    if s == "" then []
    else if sep(s[0]) then Pieces(s[1..], sep)
    else
      var n := WordLength(s, sep);
      [s[..n]] + Pieces(s[n..], sep)
  }

  function WordLength(s: string, sep: char -> bool): (n: nat)
    requires s != "" && !sep(s[0])
    ensures 0 < n <= |s|
    ensures forall c | c in s[..n] :: !sep(c)
    ensures n < |s| ==> sep(s[n])
  {
    if |s| == 1 || sep(s[1]) then 1 else
      var m := WordLength(s[1..], sep);
      assert s[..m + 1] == [s[0]] + s[1..][..m];
      m + 1
  }

  const RUST_SEPARATOR: char -> bool := c => IsRustSpace(c) || c == ','
  const PY_SEPARATOR: char -> bool := c => IsPySpace(c) || c == ','

  /** The header names of a successful preflight. */
  datatype PreflightNames = PreflightNames(
    origin: string, methods: string, headers: string, credentials: string, maxAge: string, vary: string)
  {
    predicate Distinct() {
      && origin !in [methods, headers, credentials, maxAge, vary]
      && methods !in [headers, credentials, maxAge, vary]
      && headers !in [credentials, maxAge, vary]
      && credentials !in [maxAge, vary]
      && maxAge != vary
    }
  }

  const NAMES := PreflightNames(
    "Access-Control-Allow-Origin",
    "Access-Control-Allow-Methods",
    "Access-Control-Allow-Headers",
    "Access-Control-Allow-Credentials",
    "Access-Control-Max-Age",
    "Vary")

  // ---- Native --------------------------------------------------------------------------------

  datatype CompiledCorsConfig = CompiledCorsConfig(
    allowOrigins: seq<string>,
    allowOriginsWildcard: bool,
    allowMethodsUpper: set<string>,
    allowMethodsHeader: string,
    allowHeaders: seq<string>,
    allowHeadersWildcard: bool,
    allowHeadersLower: set<string>,
    exposeHeadersHeader: Option<string>,
    allowCredentials: bool,
    maxAgeHeader: Option<string>)
  {
    function SelectAllowOrigin(origin: string): Option<string> {
      if origin == "" then None
      else if allowCredentials || !allowOriginsWildcard then
        if origin in allowOrigins then Some(origin) else None
      else if |allowOrigins| == 1 && allowOriginsWildcard then Some("*")
      else if origin in allowOrigins then Some(origin)
      else None
    }

    function PreflightAllowHeaders(rawAch: string): Option<string> {
      if allowHeadersWildcard && |allowHeaders| == 1 then Some("*")
      else
        var parts := Pieces(rawAch, RUST_SEPARATOR);
        if parts == [] then Some(Join(allowHeaders, ", "))
        else if forall p | p in parts :: Lower(p) in allowHeadersLower then Some(Join(parts, ", "))
        else None
    }

    /** The origin and header list a preflight is granted, or why it is refused. */
    function Verdict(rawAcrm: string, origin: string, rawAch: string): Verdict {
      var requestMethod := Upper(Trim(rawAcrm, IsRustSpace));
      if requestMethod !in allowMethodsUpper then Err(MethodRefused)
      else
        var selected := SelectAllowOrigin(origin);
        if selected.None? then Err(OriginRefused)
        else
          var acah := PreflightAllowHeaders(rawAch);
          if acah.None? then Err(HeadersRefused)
          else Ok((selected.value, acah.value))
    }

    function HandlePreflight(rawAcrm: string, origin: string, rawAch: string): PreflightResult {
      match Verdict(rawAcrm, origin, rawAch)
      case Err(e) => Err(e)
      case Ok((selected, acah)) => Ok(PreflightHeaders(selected, acah))
    }

    function PreflightHeaders(selected: string, acah: string): HeaderList {
      NativePreflight(NAMES, selected, allowMethodsHeader, acah, allowCredentials, maxAgeHeader)
    }

    function ResponseHeaderPairs(origin: string): HeaderList {
      var selected := SelectAllowOrigin(origin);
      if selected.None? then []
      else
        [("Access-Control-Allow-Origin", selected.value)]
        + (if allowCredentials then [("Access-Control-Allow-Credentials", "true")] else [])
        + (if exposeHeadersHeader.Some? then [("Access-Control-Expose-Headers", exposeHeadersHeader.value)] else [])
        + (if selected.value != "*" then [("Vary", "Origin")] else [])
    }
  }

  /** The vector built by `handle_preflight`. */
  function NativePreflight(n: PreflightNames, selected: string, methods: string, acah: string,
                           credentials: bool, maxAge: Option<string>): HeaderList
  {
    var out := NativeAllow(n, selected, methods, acah, credentials);
    var out := if maxAge.Some? then out + [(n.maxAge, maxAge.value)] else out;
    if selected != "*" then out + [(n.vary, "Origin")] else out
  }

  function NativeAllow(n: PreflightNames, selected: string, methods: string, acah: string,
                       credentials: bool): HeaderList {
    var out := [(n.origin, selected), (n.methods, methods), (n.headers, acah)];
    if credentials then out + [(n.credentials, "true")] else out
  }

  /** `CompiledCorsConfig::from_py`. */
  function FromPy(cfg: CorsConfig): CompiledCorsConfig {
    CompiledCorsConfig(
      cfg.allowOrigins,
      "*" in cfg.allowOrigins,
      Mapped(cfg.allowMethods, Upper),
      Join(cfg.allowMethods, ", "),
      cfg.allowHeaders,
      "*" in cfg.allowHeaders,
      set h | h in cfg.allowHeaders && h != "*" :: Lower(h),
      if cfg.exposeHeaders == [] then None else Some(Join(cfg.exposeHeaders, ", ")),
      cfg.allowCredentials,
      MaxAgeText(cfg))
  }

  // ---- Python --------------------------------------------------------------------------------

  function PySelectAllowOrigin(cfg: CorsConfig, origin: string): Option<string> {
    if origin == "" then None
    else if cfg.allowCredentials || "*" !in cfg.allowOrigins then
      if origin in cfg.allowOrigins then Some(origin) else None
    else if cfg.allowOrigins == ["*"] then Some("*")
    else if origin in cfg.allowOrigins then Some(origin)
    else None
  }

  function PyResponseHeaderPairs(cfg: CorsConfig, origin: string): HeaderList {
    match PySelectAllowOrigin(cfg, origin)
    case None => []
    case Some(selected) =>
      var out := [("Access-Control-Allow-Origin", selected)];
      var out := if cfg.allowCredentials then out + [("Access-Control-Allow-Credentials", "true")] else out;
      var out := if cfg.exposeHeaders != []
                 then out + [("Access-Control-Expose-Headers", Join(cfg.exposeHeaders, ", "))] else out;
      if selected != "*" then out + [("Vary", "Origin")] else out
  }

  function PyAllowHeadersValue(cfg: CorsConfig, rawAch: string): Option<string> {
    if cfg.allowHeaders == ["*"] then Some("*")
    else
      var allowLower := set x | x in cfg.allowHeaders && x != "*" :: Lower(x);
      var parts := Pieces(Trim(rawAch, IsPySpace), PY_SEPARATOR);
      if parts == [] then Some(Join(cfg.allowHeaders, ", "))
      else if exists p | p in parts :: Lower(p) !in allowLower then None
      else Some(Join(parts, ", "))
  }

  function PyVerdict(cfg: CorsConfig, rawAcrm: string, origin: string, rawAch: string): Verdict {
    var requestMethod := Upper(Trim(rawAcrm, IsPySpace));
    if requestMethod !in Mapped(cfg.allowMethods, Upper) then Err(MethodRefused)
    else match PySelectAllowOrigin(cfg, origin)
      case None => Err(OriginRefused)
      case Some(selected) =>
        match PyAllowHeadersValue(cfg, rawAch)
        case None => Err(HeadersRefused)
        case Some(acah) => Ok((selected, acah))
  }

  /** `preflight_response` for an OPTIONS request with a non-empty
      `Access-Control-Request-Method`; the headers are a dictionary. */
  function PyPreflightResponse(cfg: CorsConfig, rawAcrm: string, origin: string, rawAch: string):
    Result<map<string, string>, Refusal>
  {
    match PyVerdict(cfg, rawAcrm, origin, rawAch)
    case Err(e) => Err(e)
    case Ok((selected, acah)) => Ok(PyPreflightHeaders(cfg, selected, acah))
  }

  function PyPreflightHeaders(cfg: CorsConfig, selected: string, acah: string): map<string, string> {
    PyPreflight(NAMES, selected, Join(cfg.allowMethods, ", "), acah, cfg.allowCredentials, MaxAgeText(cfg))
  }

  /** The dictionary built by `preflight_response`. */
  function PyPreflight(n: PreflightNames, selected: string, methods: string, acah: string,
                       credentials: bool, maxAge: Option<string>): map<string, string>
  {
    var h := PyAllow(n, selected, methods, acah, credentials);
    var h := if maxAge.Some? then h[n.maxAge := maxAge.value] else h;
    if selected != "*" then h[n.vary := "Origin"] else h
  }

  function PyAllow(n: PreflightNames, selected: string, methods: string, acah: string,
                   credentials: bool): map<string, string> {
    var h := map[n.origin := selected];
    var h := if credentials then h[n.credentials := "true"] else h;
    var h := h[n.methods := methods];
    h[n.headers := acah]
  }

  // ---- Agreement -----------------------------------------------------------------------------

  /** The list holds exactly the entries of the dictionary, each once. */
  ghost predicate SameHeaders(list: HeaderList, dict: map<string, string>) {
    && |list| == |dict|
    && (forall k, v :: (k, v) in list <==> k in dict && dict[k] == v)
  }

  ghost predicate SamePreflight(native: PreflightResult, python: Result<map<string, string>, Refusal>) {
    match (native, python)
    case (Ok(list), Ok(dict)) => SameHeaders(list, dict)
    case (Err(a), Err(b)) => a == b
    case _ => false
  }

  lemma SameOrigin(cfg: CorsConfig, origin: string)
    ensures FromPy(cfg).SelectAllowOrigin(origin) == PySelectAllowOrigin(cfg, origin)
  {
    if |cfg.allowOrigins| == 1 && "*" in cfg.allowOrigins {
      assert cfg.allowOrigins == ["*"];
    }
  }

  /** On ordinary responses both forms yield the same headers in the same order, for every
      configuration and every origin. */
  lemma SameResponseHeaders(cfg: CorsConfig, origin: string)
    ensures FromPy(cfg).ResponseHeaderPairs(origin) == PyResponseHeaderPairs(cfg, origin)
  {
    SameOrigin(cfg, origin);
  }

  // ---- Splitting and trimming --------------------------------------------------------------

  lemma {:induction false} StartSkips(pre: string, rest: string, space: char -> bool)
    requires forall c | c in pre :: space(c)
    ensures TrimStart(pre + rest, space) == TrimStart(rest, space)
  {
    var s := pre + rest;
    if pre == "" {
      assert s == rest;
    } else {
      assert s[0] == pre[0] && s[1..] == pre[1..] + rest;
      assert forall c | c in pre[1..] :: c in pre;
      StartSkips(pre[1..], rest, space);
    }
  }

  lemma TrimUnique(pre: string, mid: string, post: string, space: char -> bool)
    requires (forall c | c in pre :: space(c)) && (forall c | c in post :: space(c))
    requires mid != "" ==> !space(mid[0]) && !space(mid[|mid| - 1])
    ensures Trim(pre + mid + post, space) == mid
  {
    var rest := mid + post;
    assert pre + mid + post == pre + rest;
    StartSkips(pre, rest, space);
    if mid == "" {
      assert rest == post + "";
      StartSkips(post, "", space);
    } else {
      assert rest[0] == mid[0];
      TrimEndUnique(mid, post, space);
    }
  }

  lemma {:induction false} TrimEndUnique(mid: string, post: string, space: char -> bool)
    requires forall c | c in post :: space(c)
    requires mid != "" && !space(mid[|mid| - 1])
    ensures TrimEnd(mid + post, space) == mid
  {
    var s := mid + post;
    if post != "" {
      assert s[|s| - 1] == post[|post| - 1] && s[..|s| - 1] == mid + post[..|post| - 1];
      assert forall c | c in post[..|post| - 1] :: c in post;
      TrimEndUnique(mid, post[..|post| - 1], space);
    } else {
      assert s == mid;
    }
  }

  lemma StartCut(s: string, space: char -> bool) returns (pre: string)
    ensures s == pre + TrimStart(s, space) && forall c | c in pre :: space(c)
  {
    pre := s[..|s| - |TrimStart(s, space)|];
    assert forall i | 0 <= i < |pre| :: pre[i] == s[i];
  }

  lemma EndCut(s: string, space: char -> bool) returns (post: string)
    ensures s == TrimEnd(s, space) + post && forall c | c in post :: space(c)
  {
    var r := |TrimEnd(s, space)|;
    post := s[r..];
    assert forall i | 0 <= i < |post| :: post[i] == s[r + i];
  }

  /** What trimming cuts off. */
  lemma TrimCuts(s: string, space: char -> bool) returns (pre: string, post: string)
    ensures s == pre + Trim(s, space) + post
    ensures (forall c | c in pre :: space(c)) && (forall c | c in post :: space(c))
  {
    var mid := TrimStart(s, space);
    pre := StartCut(s, space);
    post := EndCut(mid, space);
    TwoCuts(s, pre, mid, TrimEnd(mid, space), post);
  }

  lemma TwoCuts(s: string, pre: string, mid: string, t: string, post: string)
    requires s == pre + mid && mid == t + post
    ensures s == pre + t + post
  {}

  lemma Reassociate(a: string, b: string, c: string, d: string, e: string)
    ensures a + (b + c + d) + e == (a + b) + c + (d + e)
  {}

  /** Python trims what Rust leaves, and nothing else. */
  lemma PyTrimAfterRust(s: string)
    ensures Trim(s, IsPySpace) == Trim(Trim(s, IsRustSpace), IsPySpace)
  {
    var t := Trim(s, IsRustSpace);
    var pre, post := TrimCuts(s, IsRustSpace);
    var pre', post' := TrimCuts(t, IsPySpace);
    Reassociate(pre, pre', Trim(t, IsPySpace), post', post);
    TrimUnique(pre + pre', Trim(t, IsPySpace), post' + post, IsPySpace);
  }

  lemma {:induction false} WordLengthConcat(a: string, b: string, sep: char -> bool)
    requires a != "" && !sep(a[0]) && (b != "" ==> sep(b[0]))
    ensures WordLength(a + b, sep) == WordLength(a, sep)
  {
    var s := a + b;
    if |a| > 1 && !sep(a[1]) {
      assert s[1..] == a[1..] + b;
      WordLengthConcat(a[1..], b, sep);
    } else if |s| > 1 {
      assert s[1] == if |a| > 1 then a[1] else b[0];
    }
  }

  /** Splitting at a separator splits the pieces. */
  lemma {:induction false} PiecesConcat(a: string, b: string, sep: char -> bool)
    requires b != "" ==> sep(b[0])
    ensures Pieces(a + b, sep) == Pieces(a, sep) + Pieces(b, sep)
    decreases |a|
  {
    var s := a + b;
    if a == "" {
      assert s == b;
    } else if sep(a[0]) {
      assert s[1..] == a[1..] + b;
      PiecesConcat(a[1..], b, sep);
    } else {
      WordLengthConcat(a, b, sep);
      var n := WordLength(a, sep);
      assert s[..n] == a[..n] && s[n..] == a[n..] + b;
      PiecesConcat(a[n..], b, sep);
      WordThenPieces(a, sep);
      WordThenPieces(s, sep);
      Associative([a[..n]], Pieces(a[n..], sep), Pieces(b, sep));
    }
  }

  lemma WordThenPieces(s: string, sep: char -> bool)
    requires s != "" && !sep(s[0])
    ensures var n := WordLength(s, sep);
            Pieces(s, sep) == [s[..n]] + Pieces(s[n..], sep)
  {}

  lemma {:induction false} NoPieces(s: string, sep: char -> bool)
    requires forall c | c in s :: sep(c)
    ensures Pieces(s, sep) == []
    decreases |s|
  {
    if s != "" {
      assert s[0] in s && forall c | c in s[1..] :: c in s;
      NoPieces(s[1..], sep);
    }
  }

  lemma {:induction false} LeadingSeparators(pre: string, s: string, sep: char -> bool)
    requires forall c | c in pre :: sep(c)
    ensures Pieces(pre + s, sep) == Pieces(s, sep)
    decreases |pre|
  {
    if pre == "" {
      assert pre + s == s;
    } else {
      assert (pre + s)[1..] == pre[1..] + s && (pre + s)[0] == pre[0];
      assert forall c | c in pre[1..] :: c in pre;
      LeadingSeparators(pre[1..], s, sep);
    }
  }

  lemma PiecesOfMiddle(pre: string, t: string, post: string, sep: char -> bool)
    requires (forall c | c in pre :: sep(c)) && (forall c | c in post :: sep(c))
    ensures Pieces(pre + t + post, sep) == Pieces(t, sep)
  {
    assert pre + t + post == pre + (t + post);
    LeadingSeparators(pre, t + post, sep);
    assert post != "" ==> post[0] in post;
    PiecesConcat(t, post, sep);
    NoPieces(post, sep);
  }

  /** Trimming white space first does not change the pieces. */
  lemma PiecesOfTrimmed(s: string)
    ensures Pieces(Trim(s, IsPySpace), PY_SEPARATOR) == Pieces(s, PY_SEPARATOR)
  {
    var t := Trim(s, IsPySpace);
    var pre, post := TrimCuts(s, IsPySpace);
    PiecesOfMiddle(pre, t, post, PY_SEPARATOR);
  }

  lemma {:induction false} SamePieces(s: string)
    requires forall c | c in s :: !IsSeparatorControl(c)
    ensures Pieces(s, RUST_SEPARATOR) == Pieces(s, PY_SEPARATOR)
    decreases |s|
  {
    if s != "" {
      assert s[0] in s;
      if RUST_SEPARATOR(s[0]) {
        assert forall c | c in s[1..] :: c in s;
        SamePieces(s[1..]);
      } else {
        SameWordLength(s);
        var n := WordLength(s, RUST_SEPARATOR);
        assert forall c | c in s[n..] :: c in s;
        SamePieces(s[n..]);
      }
    }
  }

  lemma {:induction false} SameWordLength(s: string)
    requires s != "" && !RUST_SEPARATOR(s[0])
    requires forall c | c in s :: !IsSeparatorControl(c)
    ensures !PY_SEPARATOR(s[0]) && WordLength(s, RUST_SEPARATOR) == WordLength(s, PY_SEPARATOR)
  {
    assert s[0] in s;
    if |s| > 1 && !RUST_SEPARATOR(s[1]) {
      assert s[1] in s && forall c | c in s[1..] :: c in s;
      SameWordLength(s[1..]);
    } else if |s| > 1 {
      assert s[1] in s;
    }
  }

  lemma {:induction false} OneWord(w: string, sep: char -> bool)
    requires w != "" && forall c | c in w :: !sep(c)
    ensures !sep(w[0]) && WordLength(w, sep) == |w| && Pieces(w, sep) == [w]
  {
    assert forall i | 0 <= i < |w| :: !sep(w[i]);
    var n := WordLength(w, sep);
    assert w[..n] == w && w[n..] == "";
  }

  /** A native piece without separator controls is a Python piece. */
  lemma {:induction false} CleanPieceStays(s: string, w: string)
    requires w in Pieces(s, RUST_SEPARATOR) && forall c | c in w :: !IsSeparatorControl(c)
    ensures w in Pieces(s, PY_SEPARATOR)
    decreases |s|
  {
    if RUST_SEPARATOR(s[0]) {
      CleanPieceStays(s[1..], w);
    } else {
      var n := WordLength(s, RUST_SEPARATOR);
      var word, rest := s[..n], s[n..];
      assert s == word + rest && (rest != "" ==> rest[0] == s[n]);
      PiecesConcat(word, rest, PY_SEPARATOR);
      if w == word {
        OneWord(word, PY_SEPARATOR);
      } else {
        CleanPieceStays(rest, w);
      }
    }
  }

  /** Natively, a separator control belongs to some piece. */
  lemma {:induction false} ControlInPiece(s: string, c: char)
    requires c in s && IsSeparatorControl(c)
    ensures exists w :: w in Pieces(s, RUST_SEPARATOR) && c in w
    decreases |s|
  {
    if RUST_SEPARATOR(s[0]) {
      assert s == [s[0]] + s[1..];
      ControlInPiece(s[1..], c);
      var w :| w in Pieces(s[1..], RUST_SEPARATOR) && c in w;
      assert w in Pieces(s, RUST_SEPARATOR);
    } else {
      var n := WordLength(s, RUST_SEPARATOR);
      assert s == s[..n] + s[n..];
      if c in s[..n] {
        assert s[..n] in Pieces(s, RUST_SEPARATOR);
      } else {
        ControlInPiece(s[n..], c);
        var w :| w in Pieces(s[n..], RUST_SEPARATOR) && c in w;
        assert w in Pieces(s, RUST_SEPARATOR);
      }
    }
  }

  // ---- When preflights agree -----------------------------------------------------------------

  /** The requested method, trimmed natively, has no separator control at either end. */
  predicate CleanMethod(rawAcrm: string) {
    var t := Trim(rawAcrm, IsRustSpace);
    t != "" ==> !IsSeparatorControl(t[0]) && !IsSeparatorControl(t[|t| - 1])
  }

  /** The header list has no separator control, or asks for a header called `*`, which no list
      of names ever allows. */
  predicate CleanHeaders(rawAch: string) {
    (forall c | c in rawAch :: !IsSeparatorControl(c)) || "*" in Pieces(rawAch, RUST_SEPARATOR)
  }

  lemma SameMethodExactly(rawAcrm: string)
    ensures CleanMethod(rawAcrm) <==> Trim(rawAcrm, IsPySpace) == Trim(rawAcrm, IsRustSpace)
  {
    var t := Trim(rawAcrm, IsRustSpace);
    PyTrimAfterRust(rawAcrm);
    TrimmedExactly(t, IsPySpace);
    if t != "" {
      assert !IsRustSpace(t[0]) && !IsRustSpace(t[|t| - 1]);
      assert IsPySpace(t[0]) == IsSeparatorControl(t[0]);
      assert IsPySpace(t[|t| - 1]) == IsSeparatorControl(t[|t| - 1]);
    }
  }

  lemma TrimmedExactly(t: string, space: char -> bool)
    ensures Trim(t, space) == t <==> t == "" || (!space(t[0]) && !space(t[|t| - 1]))
  {
    if t == "" || (!space(t[0]) && !space(t[|t| - 1])) {
      TrimIsIdentity(t, space);
    }
  }

  lemma OnlyStar(list: seq<string>)
    ensures list == ["*"] <==> |list| == 1 && "*" in list
  {}

  lemma SameAllowHeaders(cfg: CorsConfig, rawAch: string)
    requires CleanHeaders(rawAch)
    ensures FromPy(cfg).PreflightAllowHeaders(rawAch) == PyAllowHeadersValue(cfg, rawAch)
  {
    OnlyStar(cfg.allowHeaders);
    PiecesOfTrimmed(rawAch);
    if forall c | c in rawAch :: !IsSeparatorControl(c) {
      SamePieces(rawAch);
    } else {
      CleanPieceStays(rawAch, "*");
      StarIsNeverListed(cfg);
    }
  }

  lemma LowerInverts(h: string)
    requires Lower(h) == "*"
    ensures h == "*"
  {
    assert |h| == |Lower(h)| == 1;
    assert Lower(h)[0] == LowerChar(h[0]);
  }

  lemma StarIsNeverListed(cfg: CorsConfig)
    ensures Lower("*") == "*" && "*" !in FromPy(cfg).allowHeadersLower
  {
    forall h | h in cfg.allowHeaders && h != "*" ensures Lower(h) != "*" {
      if Lower(h) == "*" {
        LowerInverts(h);
      }
    }
  }

  lemma SameHeadersExtend(list: HeaderList, dict: map<string, string>, name: string, value: string)
    requires SameHeaders(list, dict) && name !in dict
    ensures SameHeaders(list + [(name, value)], dict[name := value])
  {
    forall k, v ensures (k, v) in list + [(name, value)] <==> (k, v) in list || (k == name && v == value) {
      if k == name && v == value {
        assert (list + [(name, value)])[|list|] == (k, v);
      }
    }
  }

  lemma NamesDiffer()
    ensures NAMES.Distinct()
  {
    assert NAMES.methods[21] != NAMES.headers[21];
  }

  lemma SameAllow(n: PreflightNames, selected: string, methods: string, acah: string, credentials: bool)
    requires n.Distinct()
    ensures SameHeaders(NativeAllow(n, selected, methods, acah, credentials),
                        PyAllow(n, selected, methods, acah, credentials))
    ensures PyAllow(n, selected, methods, acah, credentials).Keys <= {n.origin, n.methods, n.headers, n.credentials}
  {
    var l1: HeaderList, d1: map<string, string> := [(n.origin, selected)], map[n.origin := selected];
    assert l1 == [] + [(n.origin, selected)];
    SameHeadersExtend([], map[], n.origin, selected);
    SameHeadersExtend(l1, d1, n.methods, methods);
    var l2, d2 := l1 + [(n.methods, methods)], d1[n.methods := methods];
    SameHeadersExtend(l2, d2, n.headers, acah);
    var l3, d3 := l2 + [(n.headers, acah)], d2[n.headers := acah];
    assert l3 == NativeAllow(n, selected, methods, acah, false);
    if credentials {
      SameHeadersExtend(l3, d3, n.credentials, "true");
      assert d3[n.credentials := "true"] == PyAllow(n, selected, methods, acah, true);
    }
  }

  lemma SameSuccess(n: PreflightNames, selected: string, methods: string, acah: string,
                    credentials: bool, maxAge: Option<string>)
    requires n.Distinct()
    ensures SameHeaders(NativePreflight(n, selected, methods, acah, credentials, maxAge),
                        PyPreflight(n, selected, methods, acah, credentials, maxAge))
  {
    SameAllow(n, selected, methods, acah, credentials);
    var list := NativeAllow(n, selected, methods, acah, credentials);
    var dict := PyAllow(n, selected, methods, acah, credentials);
    if maxAge.Some? {
      SameHeadersExtend(list, dict, n.maxAge, maxAge.value);
      list, dict := list + [(n.maxAge, maxAge.value)], dict[n.maxAge := maxAge.value];
    }
    if selected != "*" {
      SameHeadersExtend(list, dict, n.vary, "Origin");
    }
  }

  lemma SameSuccessHeaders(cfg: CorsConfig, selected: string, acah: string)
    ensures SameHeaders(FromPy(cfg).PreflightHeaders(selected, acah), PyPreflightHeaders(cfg, selected, acah))
  {
    NamesDiffer();
    SameSuccess(NAMES, selected, Join(cfg.allowMethods, ", "), acah, cfg.allowCredentials, MaxAgeText(cfg));
  }

  /** The three refusals are told apart by what is sent. */
  lemma RefusalsDiffer(a: Refusal, b: Refusal)
    ensures a.Answer() == b.Answer() <==> a == b
  {
    assert OriginRefused.Answer().1[0] != MethodRefused.Answer().1[0];
    assert OriginRefused.Answer().1[0] != HeadersRefused.Answer().1[0];
    assert |MethodRefused.Answer().1| != |HeadersRefused.Answer().1|;
  }

  /** Equal verdicts make equal answers; a verdict granted on one side only, different ones. */
  lemma VerdictDecides(cfg: CorsConfig, rawAcrm: string, origin: string, rawAch: string)
    ensures var native, python := FromPy(cfg).Verdict(rawAcrm, origin, rawAch), PyVerdict(cfg, rawAcrm, origin, rawAch);
            var same := SamePreflight(FromPy(cfg).HandlePreflight(rawAcrm, origin, rawAch),
                                      PyPreflightResponse(cfg, rawAcrm, origin, rawAch));
            && (native == python ==> same)
            && (native.Ok? != python.Ok? ==> !same)
            && (native.Err? && python.Err? && native != python ==> !same)
  {
    var python := PyVerdict(cfg, rawAcrm, origin, rawAch);
    if python.Ok? {
      SameSuccessHeaders(cfg, python.value.0, python.value.1);
    }
  }

  lemma CleanVerdictsAgree(cfg: CorsConfig, rawAcrm: string, origin: string, rawAch: string)
    requires CleanMethod(rawAcrm) && (origin == "" || CleanHeaders(rawAch))
    ensures FromPy(cfg).Verdict(rawAcrm, origin, rawAch) == PyVerdict(cfg, rawAcrm, origin, rawAch)
  {
    SameMethodExactly(rawAcrm);
    SameOrigin(cfg, origin);
    if origin != "" {
      SameAllowHeaders(cfg, rawAch);
    }
  }

  /** When method and headers are clean, the native preflight gives every configuration the
      answer of the Python one: same status, same message, same set of headers. */
  lemma CleanPreflightsAgree(cfg: CorsConfig, rawAcrm: string, origin: string, rawAch: string)
    requires CleanMethod(rawAcrm) && (origin == "" || CleanHeaders(rawAch))
    ensures SamePreflight(FromPy(cfg).HandlePreflight(rawAcrm, origin, rawAch),
                          PyPreflightResponse(cfg, rawAcrm, origin, rawAch))
  {
    CleanVerdictsAgree(cfg, rawAcrm, origin, rawAch);
    VerdictDecides(cfg, rawAcrm, origin, rawAch);
  }

  lemma OneMethod(cfg: CorsConfig, m: string)
    requires cfg.allowMethods == [m]
    ensures Mapped(cfg.allowMethods, Upper) == {Upper(m)}
  {
    assert cfg.allowMethods[0] in cfg.allowMethods;
  }

  lemma ListedOrigin(cfg: CorsConfig, origin: string)
    requires cfg.allowCredentials && cfg.allowOrigins == [origin] && origin != ""
    ensures PySelectAllowOrigin(cfg, origin) == Some(origin)
  {
    assert cfg.allowOrigins[0] in cfg.allowOrigins;
  }

  /** A configuration on which an unclean method is answered differently. */
  lemma UncleanMethodDisagrees(rawAcrm: string, origin: string, rawAch: string)
    requires !CleanMethod(rawAcrm)
    ensures var cfg := CorsConfig([], [Trim(rawAcrm, IsPySpace)], [], [], false, None);
            !SamePreflight(FromPy(cfg).HandlePreflight(rawAcrm, origin, rawAch),
                           PyPreflightResponse(cfg, rawAcrm, origin, rawAch))
  {
    SameMethodExactly(rawAcrm);
    var native, python := Trim(rawAcrm, IsRustSpace), Trim(rawAcrm, IsPySpace);
    var cfg := CorsConfig([], [python], [], [], false, None);
    TrimLengths(rawAcrm);
    assert |Upper(native)| != |Upper(python)|;
    OneMethod(cfg, python);
    OnlyMethodDecides(cfg, rawAcrm, origin, rawAch, Upper(python));
    VerdictDecides(cfg, rawAcrm, origin, rawAch);
  }

  lemma OnlyMethodDecides(cfg: CorsConfig, rawAcrm: string, origin: string, rawAch: string, m: string)
    requires Mapped(cfg.allowMethods, Upper) == {m}
    requires Upper(Trim(rawAcrm, IsRustSpace)) != m == Upper(Trim(rawAcrm, IsPySpace))
    ensures FromPy(cfg).Verdict(rawAcrm, origin, rawAch) == Err(MethodRefused)
    ensures PyVerdict(cfg, rawAcrm, origin, rawAch) != Err(MethodRefused)
  {
    NativeRefusesMethod(cfg, rawAcrm, origin, rawAch);
    PythonTakesMethod(cfg, rawAcrm, origin, rawAch);
  }

  lemma NativeRefusesMethod(cfg: CorsConfig, rawAcrm: string, origin: string, rawAch: string)
    requires Upper(Trim(rawAcrm, IsRustSpace)) !in Mapped(cfg.allowMethods, Upper)
    ensures FromPy(cfg).Verdict(rawAcrm, origin, rawAch) == Err(MethodRefused)
  {}

  lemma PythonTakesMethod(cfg: CorsConfig, rawAcrm: string, origin: string, rawAch: string)
    requires Upper(Trim(rawAcrm, IsPySpace)) in Mapped(cfg.allowMethods, Upper)
    ensures PyVerdict(cfg, rawAcrm, origin, rawAch) != Err(MethodRefused)
  {}

  lemma TrimLengths(s: string)
    ensures |Trim(s, IsPySpace)| == |Trim(s, IsRustSpace)| ==> Trim(s, IsPySpace) == Trim(s, IsRustSpace)
  {
    PyTrimAfterRust(s);
    var t := Trim(s, IsRustSpace);
    var pre, post := TrimCuts(t, IsPySpace);
    assert |t| == |pre| + |Trim(t, IsPySpace)| + |post|;
    if pre == "" && post == "" {
      assert "" + Trim(t, IsPySpace) + "" == Trim(t, IsPySpace);
    }
  }

  /** The configuration that allows `origin` and exactly the given method and headers. */
  function Allowing(rawAcrm: string, origin: string, headers: seq<string>): CorsConfig {
    CorsConfig([origin], [Trim(rawAcrm, IsPySpace)], headers, [], true, None)
  }

  /** Once method and origin are accepted, the requested headers decide. */
  lemma HeadersDecide(cfg: CorsConfig, rawAcrm: string, origin: string, rawAch: string, m: string)
    requires Upper(Trim(rawAcrm, IsRustSpace)) == m == Upper(Trim(rawAcrm, IsPySpace))
    requires m in Mapped(cfg.allowMethods, Upper) && PySelectAllowOrigin(cfg, origin).Some?
    ensures FromPy(cfg).Verdict(rawAcrm, origin, rawAch).Ok? <==> FromPy(cfg).PreflightAllowHeaders(rawAch).Some?
    ensures PyVerdict(cfg, rawAcrm, origin, rawAch).Ok? <==> PyAllowHeadersValue(cfg, rawAch).Some?
  {
    SameOrigin(cfg, origin);
  }

  lemma AllowingReachesHeaders(rawAcrm: string, origin: string, rawAch: string, headers: seq<string>)
    requires CleanMethod(rawAcrm) && origin != ""
    ensures var cfg := Allowing(rawAcrm, origin, headers);
            && (FromPy(cfg).Verdict(rawAcrm, origin, rawAch).Ok?
                <==> FromPy(cfg).PreflightAllowHeaders(rawAch).Some?)
            && (PyVerdict(cfg, rawAcrm, origin, rawAch).Ok?
                <==> PyAllowHeadersValue(cfg, rawAch).Some?)
  {
    SameMethodExactly(rawAcrm);
    var cfg, python := Allowing(rawAcrm, origin, headers), Trim(rawAcrm, IsPySpace);
    OneMethod(cfg, python);
    ListedOrigin(cfg, origin);
    HeadersDecide(cfg, rawAcrm, origin, rawAch, Upper(python));
  }

  lemma LowerKeepsControls(w: string, c: char)
    requires IsSeparatorControl(c)
    ensures c in w <==> c in Lower(w)
  {
    forall i | 0 <= i < |w| ensures w[i] == c <==> Lower(w)[i] == c {}
    if c in w {
      var i :| 0 <= i < |w| && w[i] == c;
      assert Lower(w)[i] == c;
    }
    if c in Lower(w) {
      var i :| 0 <= i < |w| && Lower(w)[i] == c;
      assert w[i] == c;
    }
  }

  lemma PythonAllowsItsPieces(cfg: CorsConfig, rawAch: string)
    requires cfg.allowHeaders == ["x"] + Pieces(rawAch, PY_SEPARATOR)
    requires "*" !in Pieces(rawAch, PY_SEPARATOR)
    ensures PyAllowHeadersValue(cfg, rawAch).Some?
  {
    PiecesOfTrimmed(rawAch);
    forall p | p in Pieces(rawAch, PY_SEPARATOR)
      ensures Lower(p) in set x | x in cfg.allowHeaders && x != "*" :: Lower(x)
    {
      assert p in cfg.allowHeaders;
    }
  }

  lemma NativeRefusesControls(cfg: CorsConfig, rawAch: string, c: char)
    requires c in rawAch && IsSeparatorControl(c) && "*" !in cfg.allowHeaders
    requires forall h | h in cfg.allowHeaders :: c !in h
    ensures FromPy(cfg).PreflightAllowHeaders(rawAch).None?
  {
    ControlInPiece(rawAch, c);
    var w :| w in Pieces(rawAch, RUST_SEPARATOR) && c in w;
    LowerKeepsControls(w, c);
    forall h | h in cfg.allowHeaders ensures Lower(h) != Lower(w) {
      LowerKeepsControls(h, c);
    }
  }

  /** Python allows its own pieces; natively one of them is a different word. */
  lemma PythonAllowsMore(rawAcrm: string, origin: string, rawAch: string, c: char)
    requires CleanMethod(rawAcrm) && origin != "" && c in rawAch && IsSeparatorControl(c)
    requires "*" !in Pieces(rawAch, PY_SEPARATOR)
    ensures var cfg := Allowing(rawAcrm, origin, ["x"] + Pieces(rawAch, PY_SEPARATOR));
            !SamePreflight(FromPy(cfg).HandlePreflight(rawAcrm, origin, rawAch),
                           PyPreflightResponse(cfg, rawAcrm, origin, rawAch))
  {
    var headers := ["x"] + Pieces(rawAch, PY_SEPARATOR);
    var cfg := Allowing(rawAcrm, origin, headers);
    assert headers[0] == "x";
    AllowingReachesHeaders(rawAcrm, origin, rawAch, headers);
    VerdictDecides(cfg, rawAcrm, origin, rawAch);
    PythonAllowsItsPieces(cfg, rawAch);
    assert cfg.allowHeaders == headers;
    forall h | h in headers ensures c !in h && h != "*" {
      assert h == "x" || h in Pieces(rawAch, PY_SEPARATOR);
    }
    NativeRefusesControls(cfg, rawAch, c);
  }

  /** Natively all pieces are allowed; Python finds the piece `*`, which never is. */
  lemma NativeAllowsMore(rawAcrm: string, origin: string, rawAch: string)
    requires CleanMethod(rawAcrm) && origin != ""
    requires "*" in Pieces(rawAch, PY_SEPARATOR) && "*" !in Pieces(rawAch, RUST_SEPARATOR)
    ensures var cfg := Allowing(rawAcrm, origin, ["x"] + Pieces(rawAch, RUST_SEPARATOR));
            !SamePreflight(FromPy(cfg).HandlePreflight(rawAcrm, origin, rawAch),
                           PyPreflightResponse(cfg, rawAcrm, origin, rawAch))
  {
    var parts := Pieces(rawAch, RUST_SEPARATOR);
    var headers := ["x"] + parts;
    var cfg := Allowing(rawAcrm, origin, headers);
    assert headers[0] == "x";
    AllowingReachesHeaders(rawAcrm, origin, rawAch, headers);
    VerdictDecides(cfg, rawAcrm, origin, rawAch);
    PiecesOfTrimmed(rawAch);
    StarIsNeverListed(cfg);
    forall p | p in parts ensures Lower(p) in FromPy(cfg).allowHeadersLower {
      assert p in headers;
    }
    assert !FromPy(cfg).allowHeadersWildcard;
  }

  /** The native preflight replaces the Python one for every configuration exactly on the
      requests that carry none of U+001C to U+001F where it matters: at the ends of the requested
      method, and in the requested headers of a request that names an origin, unless one of these
      headers is `*` anyway. Python counts the four characters as white space, Rust does not. */
  lemma NativePreflightIsExact(rawAcrm: string, origin: string, rawAch: string)
    ensures (forall cfg :: SamePreflight(FromPy(cfg).HandlePreflight(rawAcrm, origin, rawAch),
                                         PyPreflightResponse(cfg, rawAcrm, origin, rawAch)))
            <==> CleanMethod(rawAcrm) && (origin == "" || CleanHeaders(rawAch))
  {
    if CleanMethod(rawAcrm) && (origin == "" || CleanHeaders(rawAch)) {
      forall cfg {
        CleanPreflightsAgree(cfg, rawAcrm, origin, rawAch);
      }
    } else if !CleanMethod(rawAcrm) {
      UncleanMethodDisagrees(rawAcrm, origin, rawAch);
    } else {
      var c :| c in rawAch && IsSeparatorControl(c);
      if "*" in Pieces(rawAch, PY_SEPARATOR) {
        NativeAllowsMore(rawAcrm, origin, rawAch);
      } else {
        PythonAllowsMore(rawAcrm, origin, rawAch, c);
      }
    }
  }
}
