/** The keyword arguments a handler finally receives in the full pipeline, name by name: later
    sources overwrite earlier ones, so a dependency or a path parameter may not arrive. */
module Arguments {
  import opened Text
  import opened Names
  import opened Injection
  import opened Headers
  import opened Params
  import opened Protocol
  import opened Routing
  import opened State
  import opened Dispatch
  import Answers
  import Templates

  // ---- Who writes a name last ----------------------------------------------------------------

  /** The names under which the JSON body is passed. */
  function JsonNames(e: RouteEntry): set<Name> {
    if e.bodyModel.None? then {"json"} else
      var target := if e.bodyParamName == "" then "json" else e.bodyParamName;
      if e.handlerVarkw then {target, "json"} else {target}
  }

  /** Something other than the path, the query and the dependencies is passed under the name. */
  predicate WrittenLater(e: RouteEntry, req: Request, i: Inputs, name: Name) {
    || (name == "claims" && i.claims.Some?)
    || (name in JsonNames(e) && HasJsonBody(e, req, i.body))
    || ((name == "form" || name == "files") && e.readFormBody && Wants(e, name))
    || (name == "body" && PassesBody(e, req, i.body))
    || (name == "protocol" && Wants(e, name))
  }

  /** What is passed under such a name, `json` being the value of the JSON body. */
  function LaterValue(p: Services, e: RouteEntry, req: Request, i: Inputs, json: Py, name: Name): Py
    requires WrittenLater(e, req, i, name)
  {
    if name == "protocol" && Wants(e, name) then p.protocolObject
    else if name == "files" && e.readFormBody && Wants(e, name) then i.form.1
    else if name == "form" && e.readFormBody && Wants(e, name) then i.form.0
    else if name == "body" && PassesBody(e, req, i.body) then p.bytesObject(i.body)
    else if name in JsonNames(e) && HasJsonBody(e, req, i.body) then json
    else i.claims.value
  }

  /** The dependency at `j` is passed under the name. */
  predicate IsDependency(e: RouteEntry, results: seq<Py>, name: Name, j: nat)
    requires |results| <= |e.dependencies|
  {
    j < |results| && e.dependencies[j].name == name && Wants(e, name)
  }

  /** The arguments before claims and body. */
  function EarlyKwargs(w: World, p: Services, e: RouteEntry, params: PathParams, i: Inputs): Kwargs
    requires |i.results| <= |e.dependencies|
  {
    var kw := PathKwargs(w, e.wildcardParams, params);
    DependencyKwargs(e, i.results, if i.query != map[] then kw["query" := p.queryDict(i.query)] else kw, |i.results|)
  }

  ghost predicate SameAt(a: Kwargs, b: Kwargs, name: Name) {
    (name in a <==> name in b) && (name in a ==> a[name] == b[name])
  }

  lemma {:induction false} NoneTaken(e: RouteEntry, results: seq<Py>, kwargs: Kwargs, n: nat)
    requires n <= |results| <= |e.dependencies| && !TakesDependency(e, results)
    ensures DependencyKwargs(e, results, kwargs, n) == kwargs
  {
    if n > 0 {
      NoneTaken(e, results, kwargs, n - 1);
    }
  }

  lemma AfterClaims(w: World, p: Services, e: RouteEntry, params: PathParams, i: Inputs, name: Name)
    requires |i.results| <= |e.dependencies|
    ensures var kw := PlainKwargs(w, p, e, params, i);
            if name == "claims" && i.claims.Some? then name in kw && kw[name] == i.claims.value
            else SameAt(kw, EarlyKwargs(w, p, e, params, i), name)
  {}

  lemma AfterJson(e: RouteEntry, kw: Kwargs, json: Py, name: Name)
    ensures var after := JsonKwargs(e, kw, json);
            if name in JsonNames(e) then name in after && after[name] == json else SameAt(after, kw, name)
  {}

  lemma AfterBody(p: Services, e: RouteEntry, req: Request, kw: Kwargs, i: Inputs, name: Name)
    ensures var after := BodyKwargs(p, e, req, kw, i);
            if name == "protocol" && Wants(e, name) then name in after && after[name] == p.protocolObject
            else if name == "files" && e.readFormBody && Wants(e, name) then name in after && after[name] == i.form.1
            else if name == "form" && e.readFormBody && Wants(e, name) then name in after && after[name] == i.form.0
            else if name == "body" && PassesBody(e, req, i.body) then
              name in after && after[name] == p.bytesObject(i.body)
            else SameAt(after, kw, name)
  {}

  /** The value of the JSON body, if it is passed. */
  function JsonValue(p: Services, e: RouteEntry, req: Request, i: Inputs): Py {
    var json := p.parseJson(e.bodyModel, i.body);
    if HasJsonBody(e, req, i.body) && json.Valid? then json.value else 0
  }

  /** Name by name: the last source that has a value wins. */
  lemma ArgumentsByName(w: World, p: Services, req: Request, e: RouteEntry, params: PathParams, i: Inputs,
                        log: History, name: Name)
    requires |i.results| <= |e.dependencies| && ArgumentStage(w, p, req, e, params, i, log).Go?
    ensures var kwargs := ArgumentStage(w, p, req, e, params, i, log).value;
            if WrittenLater(e, req, i, name) then
              name in kwargs && kwargs[name] == LaterValue(p, e, req, i, JsonValue(p, e, req, i), name)
            else SameAt(kwargs, EarlyKwargs(w, p, e, params, i), name)
  {
    if UsesKwargs(e, req, params, i) {
      var kw := PlainKwargs(w, p, e, params, i);
      AfterClaims(w, p, e, params, i, name);
      var json := JsonValue(p, e, req, i);
      AfterJson(e, kw, json, name);
      AfterBody(p, e, req, if HasJsonBody(e, req, i.body) then JsonKwargs(e, kw, json) else kw, i, name);
    } else {
      NoneTaken(e, i.results, map[], |i.results|);
    }
  }

  // ---- Which dependencies arrive ---------------------------------------------------------------

  /** The same inputs with other claims and another form. */
  function Varied(i: Inputs, claims: Py, form: (Py, Py)): Inputs {
    i.(claims := if i.claims.Some? then Some(claims) else None, form := form)
  }

  /** Whatever the claims, the form, the body and the protocol object turn out to be, the handler
      is given `value` under the name. */
  ghost predicate AlwaysGiven(w: World, req: Request, e: RouteEntry, params: PathParams, i: Inputs, log: History,
                              name: Name, value: Py)
    requires |i.results| <= |e.dependencies|
  {
    forall p: Services, claims: Py, form: (Py, Py) ::
      Given(w, p, req, e, params, Varied(i, claims, form), log, name, value)
  }

  ghost predicate Given(w: World, p: Services, req: Request, e: RouteEntry, params: PathParams, i: Inputs,
                        log: History, name: Name, value: Py)
    requires |i.results| <= |e.dependencies|
  {
    var stage := ArgumentStage(w, p, req, e, params, i, log);
    stage.Go? ==> name in stage.value && stage.value[name] == value
  }

  /** Services that pass `v` for everything they are asked for. */
  function Marking(v: Py): Services {
    Services(
      "",
      (_: History, _: RouteEntry, _: Request) => None,
      0,
      (_: string) => None,
      (_: Py) => [],
      (_: RouteEntry, _: Option<string>, _: Option<string>) => Ok(v),
      (_: string) => map[],
      (_: map<string, string>) => v,
      (v, v),
      (_: string, _: Bytes) => Form(v, v),
      (_: Option<Py>, _: Bytes) => Valid(v),
      (_: Bytes) => v,
      v,
      (_: Request) => Ok(v),
      v,
      (log: History, _: Request) => Outcome(log, None),
      0,
      0)
  }

  /** With them, whatever is written later is `v`. */
  lemma MarkedLater(w: World, req: Request, e: RouteEntry, params: PathParams, i: Inputs, log: History, name: Name,
                    v: Py)
    requires |i.results| <= |e.dependencies| && WrittenLater(e, req, i, name)
    requires i.form == (v, v) && (i.claims.Some? ==> i.claims.value == v)
    ensures var stage := ArgumentStage(w, Marking(v), req, e, params, i, log);
            stage.Go? && name in stage.value && stage.value[name] == v
  {
    ArgumentsByName(w, Marking(v), req, e, params, i, log, name);
  }

  /** A dependency that the handler takes arrives with its value, whatever the other inputs are, if
      and only if nothing later is passed under its name. */
  lemma DependencyArrivesExactly(w: World, req: Request, e: RouteEntry, params: PathParams, i: Inputs, log: History,
                                 j: nat)
    requires j < |i.results| <= |e.dependencies| && UniqueNames(e.dependencies)
    requires Wants(e, e.dependencies[j].name)
    ensures AlwaysGiven(w, req, e, params, i, log, e.dependencies[j].name, i.results[j])
            <==> !WrittenLater(e, req, i, e.dependencies[j].name)
  {
    var name := e.dependencies[j].name;
    if WrittenLater(e, req, i, name) {
      var v := i.results[j] + 1;
      MarkedLater(w, req, e, params, Varied(i, v, (v, v)), log, name, v);
      assert !Given(w, Marking(v), req, e, params, Varied(i, v, (v, v)), log, name, i.results[j]);
    } else {
      forall p: Services, claims: Py, form: (Py, Py)
        ensures Given(w, p, req, e, params, Varied(i, claims, form), log, name, i.results[j])
      {
        DependencyIsGiven(w, p, req, e, params, Varied(i, claims, form), log, j);
      }
    }
  }

  /** A route behind a token check with one dependency called `claims`, which its handler takes. */
  function ClaimsRoute(factory: Py): RouteEntry {
    RouteEntry(0, None, "/me", None, [ClaimsDependency(factory)], {"claims"}, "json", None, {},
               false, true, false, false, false, false, false)
  }

  function ClaimsDependency(factory: Py): DependencyEntry {
    DependencyEntry("claims", factory, false, false, {}, false)
  }

  lemma ClaimsHaveNoEdge(factory: Py, a: Name, b: Name)
    ensures !GraphOf([ClaimsDependency(factory)]).Edge(a, b)
  {
    var d := [ClaimsDependency(factory)];
    EdgesAreDeclarations(d, a, b);
    assert forall e | e in d :: e == d[0];
  }

  lemma ClaimsHaveNoCycle(factory: Py)
    ensures !GraphOf([ClaimsDependency(factory)]).Cyclic()
  {
    var g := GraphOf([ClaimsDependency(factory)]);
    forall path ensures !g.IsCycle(path) {
      if |path| >= 2 {
        ClaimsHaveNoEdge(factory, path[0], path[1]);
      }
    }
  }

  lemma OnlyElement(s: seq<DependencyEntry>, x: DependencyEntry)
    requires Elements(s) == {x} && UniqueNames(s)
    ensures s == [x]
  {
    forall k | 0 <= k < |s| ensures s[k] == x {
      assert s[k] in Elements(s);
    }
    assert |s| >= 2 ==> s[0].name != s[1].name;
    assert s == [] ==> x !in Elements(s);
  }

  /** The route's dependencies are what registering this one dependency gives. */
  lemma ClaimsAreScheduled(factory: Py)
    ensures Schedule([ClaimsDependency(factory)]) == Ok(ClaimsRoute(factory).dependencies)
  {
    var d := [ClaimsDependency(factory)];
    ScheduleFailsExactly(d);
    ClaimsHaveNoCycle(factory);
    PrerequisitesComeFirst(d);
    assert Elements(d) == {d[0]};
    OnlyElement(Schedule(d).value, d[0]);
  }

  /** The input on which a dependency does not arrive: the handler is given the claims of the token
      and not the value of the dependency of that name. */
  lemma ClaimsHideDependency(w: World, p: Services, req: Request, factory: Py, value: Py, claims: Py, log: History)
    ensures ArgumentStage(w, p, req, ClaimsRoute(factory), [],
                          Gathered(p, req, ClaimsRoute(factory), [value], Some(claims), [], p.noForm), log)
            == Go(log, map["claims" := claims])
  {
    var e := ClaimsRoute(factory);
    var i := Gathered(p, req, e, [value], Some(claims), [], p.noForm);
    assert |"query"| != |"claims"| && |"protocol"| != |"claims"|;
    assert i.query == map[] && Wants(e, e.dependencies[0].name);
    assert DependencyKwargs(e, [value], map[], 0) == map[];
    assert DependencyKwargs(e, [value], map[], 1) == map["claims" := value];
    assert PlainKwargs(w, p, e, [], i) == map["claims" := claims];
  }

  lemma DependencyIsGiven(w: World, p: Services, req: Request, e: RouteEntry, params: PathParams, i: Inputs,
                          log: History, j: nat)
    requires j < |i.results| <= |e.dependencies| && UniqueNames(e.dependencies)
    requires Wants(e, e.dependencies[j].name) && !WrittenLater(e, req, i, e.dependencies[j].name)
    ensures Given(w, p, req, e, params, i, log, e.dependencies[j].name, i.results[j])
  {
    if ArgumentStage(w, p, req, e, params, i, log).Go? {
      var kw := PathKwargs(w, e.wildcardParams, params);
      ArgumentsByName(w, p, req, e, params, i, log, e.dependencies[j].name);
      DependencyArgument(e, i.results, if i.query != map[] then kw["query" := p.queryDict(i.query)] else kw,
                         |i.results|, j);
    }
  }

  // ---- Recursive values at the call ------------------------------------------------------------

  /** The arguments of the handler, once the dependencies have their values. */
  ghost function FinalStage(w: World, p: Services, req: Request, e: RouteEntry, params: PathParams, body: Bytes,
                            claims: Option<Py>, form: (Py, Py), log: History): Stage<Kwargs>
    requires DependencyAttempt(w, p, req, e, log).Done?
  {
    DependencyResults(w, p, req, e, log);
    var a := DependencyAttempt(w, p, req, e, log);
    ArgumentStage(w, p, req, e, params, Gathered(p, req, e, a.value, claims, body, form), a.log)
  }

  /** The value of a dependency under recursive evaluation of the declared graph. */
  ghost predicate IsRecursiveValue(w: World, p: Services, req: Request, e: RouteEntry, log: History, j: nat, v: Py)
    requires UniqueNames(e.dependencies) && j < |e.dependencies|
  {
    ContextFor(p, req, e).Ok? && ValueOf(w.callbacks(log), e.dependencies, ContextFor(p, req, e).value, j) == Ok(v)
  }

  lemma ResultsAreRecursive(w: World, p: Services, req: Request, e: RouteEntry, declared: seq<DependencyEntry>,
                            log: History, j: nat)
    requires Schedule(declared) == Ok(e.dependencies) && UniqueNames(e.dependencies) && j < |e.dependencies|
    requires DependencyAttempt(w, p, req, e, log).Done?
    ensures var results := DependencyAttempt(w, p, req, e, log).value;
            |results| == |e.dependencies| && IsRecursiveValue(w, p, req, e, log, j, results[j])
  {
    LoopComputesRecursiveValues(w.callbacks(log), declared, ContextFor(p, req, e).value);
  }

  /** For a route registered with `declared`: the dependency at `j`, if the handler takes it, is
      passed to the handler with the value of the recursive evaluation of the declared graph,
      whatever claims, form, body and protocol object turn out to be, if and only if nothing later is
      passed under its name. */
  lemma HandlerGetsRecursiveValues(w: World, p: Services, req: Request, e: RouteEntry,
                                   declared: seq<DependencyEntry>, params: PathParams, body: Bytes,
                                   claims: Option<Py>, form: (Py, Py), log: History, j: nat)
    requires Schedule(declared) == Ok(e.dependencies) && UniqueNames(e.dependencies)
    requires j < |e.dependencies| && Wants(e, e.dependencies[j].name)
    requires DependencyAttempt(w, p, req, e, log).Done?
    ensures var a, name := DependencyAttempt(w, p, req, e, log), e.dependencies[j].name;
            && |a.value| == |e.dependencies|
            && var i := Gathered(p, req, e, a.value, claims, body, form);
            && ((exists v :: IsRecursiveValue(w, p, req, e, log, j, v)
                             && AlwaysGiven(w, req, e, params, i, a.log, name, v))
                <==> !WrittenLater(e, req, i, name))
  {
    var a, name := DependencyAttempt(w, p, req, e, log), e.dependencies[j].name;
    ResultsAreRecursive(w, p, req, e, declared, log, j);
    var i := Gathered(p, req, e, a.value, claims, body, form);
    DependencyArrivesExactly(w, req, e, params, i, a.log, j);
    forall v | IsRecursiveValue(w, p, req, e, log, j, v) ensures v == a.value[j] {}
  }

  /** These are the arguments of the call: the event that follows the dependencies. */
  lemma CallHasFinalArguments(w: World, p: Services, st: Settings, req: Request, e: RouteEntry, params: PathParams,
                              body: Bytes, claims: Option<Py>, form: (Py, Py), log: History)
    requires DependencyAttempt(w, p, req, e, log).Done?
    requires FinalStage(w, p, req, e, params, body, claims, form, log).Go?
    ensures DependencyAttempt(w, p, req, e, log).log
            + [CallHandler(e.handler, FinalStage(w, p, req, e, params, body, claims, form, log).value)]
            <= ServeAdmitted(w, p, st, req, e, params, body, claims, form, log).log
  {
    DependencyResults(w, p, req, e, log);
    var a := DependencyAttempt(w, p, req, e, log);
    var i := Gathered(p, req, e, a.value, claims, body, form);
    var kwargs := ArgumentStage(w, p, req, e, params, i, a.log).value;
    var called := a.log + [CallHandler(e.handler, kwargs)];
    HandlerExtends(w, st, req, e, kwargs, a.log);
    var h := HandlerAttempt(w, st, req, e, kwargs, a.log);
    EndExtends(w, st, req, h);
    assert ServeAdmitted(w, p, st, req, e, params, body, claims, form, log) == End(w, st, req, h);
  }

  lemma SendExtends(w: World, log: History, isHead: bool, mapped: HandlerMap)
    ensures log <= SendMapped(w, log, isHead, mapped).log
  {}

  lemma ProblemExtends(w: World, log: History, err: PyErr)
    ensures log <= SendProblem(w, log, err).log
  {}

  lemma HandledExtends(w: World, log: History, isHead: bool, res: Py, err: PyErr)
    ensures log <= SendHandled(w, log, isHead, res, err).log
  {
    match w.mapReturn(log, res) {
      case Err(_) => ProblemExtends(w, log, err);
      case Ok(mapped) =>
        SendExtends(w, log, isHead, mapped);
        ProblemExtends(w, SendMapped(w, log, isHead, mapped).log, err);
    }
  }

  lemma EndExtends(w: World, st: Settings, req: Request, a: Attempt<()>)
    ensures a.log <= End(w, st, req, a).log
  {
    if a.Failed? {
      var (now, found) := FirstWilling(w, a.log, st.exceptionHandlers, a.error);
      Answers.WillingIsQuiet(w, a.log, st.exceptionHandlers, a.error);
      match found {
        case None => ProblemExtends(w, now, a.error);
        case Some((res, _)) =>
          HandledExtends(w, now, req.IsHead(), res, a.error);
          var awaiting := now + [AwaitExceptionHandler(res)];
          if w.answer(awaiting).Ok? {
            HandledExtends(w, awaiting, req.IsHead(), w.answer(awaiting).value, a.error);
          }
      }
    }
  }

  lemma {:induction false} MiddlewareExtends(w: World, log: History, middleware: seq<Py>, mapped: HandlerMap)
    ensures log <= ThroughResponse(w, log, middleware, mapped).log
    decreases |middleware|
  {
    if middleware != [] && !mapped.AlreadySent? {
      var now := log + [CallResponseMiddleware(middleware[0], mapped)];
      if w.answer(now).Ok? && w.mapReturn(now, w.answer(now).value).Ok? {
        MiddlewareExtends(w, now, middleware[1..], w.mapReturn(now, w.answer(now).value).value);
      }
    }
  }

  lemma FinishExtends(w: World, st: Settings, req: Request, log: History, out: Py)
    ensures log <= Finish(w, st, req, log, out).log
  {
    if w.mapReturn(log, out).Ok? {
      var mapped := w.mapReturn(log, out).value;
      MiddlewareExtends(w, log, st.responseMiddleware, mapped);
      var a := ThroughResponse(w, log, st.responseMiddleware, mapped);
      if a.Done? {
        var merged := if st.securityHeaders.Some? || st.cors.Some? then MergeHeaders(w, st, req, a.log, a.value)
                      else Ok(a.value);
        if merged.Ok? {
          SendExtends(w, a.log, req.IsHead(), merged.value);
        }
      }
    }
  }

  lemma HandlerExtends(w: World, st: Settings, req: Request, e: RouteEntry, kwargs: Kwargs, log: History)
    ensures log + [CallHandler(e.handler, kwargs)] <= HandlerAttempt(w, st, req, e, kwargs, log).log
  {
    match CallAttempt(w, e, kwargs, log) {
      case Failed(_, _) =>
      case Done(now, out) => FinishExtends(w, st, req, now, out);
    }
  }

  // ---- Which path parameters arrive --------------------------------------------------------------

  /** Something is passed under the name after the path parameters. */
  predicate Shadowed(e: RouteEntry, req: Request, i: Inputs, name: Name)
    requires |i.results| <= |e.dependencies|
  {
    || (name == "query" && i.query != map[])
    || (exists j | 0 <= j < |i.results| :: IsDependency(e, i.results, name, j))
    || WrittenLater(e, req, i, name)
  }

  /** Whatever the other inputs turn out to be, the results of the dependencies included. */
  ghost predicate AlwaysGivenByPath(w: World, req: Request, e: RouteEntry, params: PathParams, i: Inputs, log: History,
                                    name: Name, value: Py)
    requires |i.results| <= |e.dependencies|
  {
    forall results: seq<Py> | |results| == |i.results| ::
      AlwaysGiven(w, req, e, params, i.(results := results), log, name, value)
  }

  lemma {:induction false} DependencyOrEarlier(e: RouteEntry, results: seq<Py>, kwargs: Kwargs, n: nat, name: Name)
    requires n <= |results| <= |e.dependencies|
    ensures var r := DependencyKwargs(e, results, kwargs, n);
            if exists j | 0 <= j < n :: IsDependency(e, results, name, j)
            then name in r && exists j :: 0 <= j < n && IsDependency(e, results, name, j) && r[name] == results[j]
            else SameAt(r, kwargs, name)
  {
    if n > 0 {
      DependencyOrEarlier(e, results, kwargs, n - 1, name);
      if IsDependency(e, results, name, n - 1) {
        assert DependencyKwargs(e, results, kwargs, n)[name] == results[n - 1];
      } else if exists j | 0 <= j < n :: IsDependency(e, results, name, j) {
        var j :| 0 <= j < n && IsDependency(e, results, name, j);
        assert j < n - 1;
      }
    }
  }

  lemma UnshadowedIsGiven(w: World, p: Services, req: Request, e: RouteEntry, params: PathParams, i: Inputs,
                          log: History, k: nat)
    requires |i.results| <= |e.dependencies| && k < |params|
    requires forall l | k < l < |params| :: params[l].0 != params[k].0
    requires !Shadowed(e, req, i, params[k].0)
    ensures Given(w, p, req, e, params, i, log, params[k].0,
                  PathArgument(w, e.wildcardParams, params[k].0, params[k].1))
  {
    if ArgumentStage(w, p, req, e, params, i, log).Go? {
      var kw := PathKwargs(w, e.wildcardParams, params);
      PathValue(w, e.wildcardParams, params, k);
      ArgumentsByName(w, p, req, e, params, i, log, params[k].0);
      DependencyOrEarlier(e, i.results, if i.query != map[] then kw["query" := p.queryDict(i.query)] else kw,
                          |i.results|, params[k].0);
    }
  }

  lemma MarkedShadow(w: World, req: Request, e: RouteEntry, params: PathParams, i: Inputs, log: History, name: Name,
                     v: Py)
    requires |i.results| <= |e.dependencies| && Shadowed(e, req, i, name)
    requires i.form == (v, v) && (i.claims.Some? ==> i.claims.value == v) && forall r | r in i.results :: r == v
    ensures var stage := ArgumentStage(w, Marking(v), req, e, params, i, log);
            stage.Go? && name in stage.value && stage.value[name] == v
  {
    if WrittenLater(e, req, i, name) {
      MarkedLater(w, req, e, params, i, log, name, v);
    } else {
      var kw := PathKwargs(w, e.wildcardParams, params);
      ArgumentsByName(w, Marking(v), req, e, params, i, log, name);
      DependencyOrEarlier(e, i.results, if i.query != map[] then kw["query" := v] else kw, |i.results|, name);
      forall j | 0 <= j < |i.results| ensures i.results[j] == v {
        assert i.results[j] in i.results;
      }
    }
  }

  /** What is shadowed does not arrive. */
  lemma ShadowedIsLost(w: World, req: Request, e: RouteEntry, params: PathParams, i: Inputs, log: History, name: Name,
                       value: Py)
    requires |i.results| <= |e.dependencies| && Shadowed(e, req, i, name)
    ensures !AlwaysGivenByPath(w, req, e, params, i, log, name, value)
  {
    var v := value + 1;
    var results := seq(|i.results|, _ => v);
    var marked := i.(results := results);
    SameShadow(e, req, i, results, v, name);
    MarkedShadow(w, req, e, params, Varied(marked, v, (v, v)), log, name, v);
    assert !Given(w, Marking(v), req, e, params, Varied(marked, v, (v, v)), log, name, value);
    assert !AlwaysGiven(w, req, e, params, i.(results := results), log, name, value);
  }

  /** A path parameter, the last captured under its name, arrives as it is put into the dictionary,
      whatever the other inputs are, if and only if nothing else is passed under its name. */
  lemma PathParamArrivesExactly(w: World, req: Request, e: RouteEntry, params: PathParams, i: Inputs, log: History,
                                k: nat)
    requires |i.results| <= |e.dependencies| && k < |params|
    requires forall l | k < l < |params| :: params[l].0 != params[k].0
    ensures AlwaysGivenByPath(w, req, e, params, i, log, params[k].0,
                              PathArgument(w, e.wildcardParams, params[k].0, params[k].1))
            <==> !Shadowed(e, req, i, params[k].0)
  {
    var name := params[k].0;
    var value := PathArgument(w, e.wildcardParams, name, params[k].1);
    if Shadowed(e, req, i, name) {
      ShadowedIsLost(w, req, e, params, i, log, name, value);
    } else {
      forall results: seq<Py>, p: Services, claims: Py, form: (Py, Py) | |results| == |i.results|
        ensures Given(w, p, req, e, params, Varied(i.(results := results), claims, form), log, name, value)
      {
        NoShadow(e, req, i, results, claims, form, name);
        UnshadowedIsGiven(w, p, req, e, params, Varied(i.(results := results), claims, form), log, k);
      }
    }
  }

  lemma SameShadow(e: RouteEntry, req: Request, i: Inputs, results: seq<Py>, v: Py, name: Name)
    requires |results| == |i.results| <= |e.dependencies| && Shadowed(e, req, i, name)
    ensures Shadowed(e, req, Varied(i.(results := results), v, (v, v)), name)
  {
    if exists j | 0 <= j < |i.results| :: IsDependency(e, i.results, name, j) {
      var j :| 0 <= j < |i.results| && IsDependency(e, i.results, name, j);
      assert IsDependency(e, results, name, j);
    }
  }

  lemma NoShadow(e: RouteEntry, req: Request, i: Inputs, results: seq<Py>, claims: Py, form: (Py, Py), name: Name)
    requires |results| == |i.results| <= |e.dependencies| && !Shadowed(e, req, i, name)
    ensures !Shadowed(e, req, Varied(i.(results := results), claims, form), name)
  {
    forall j | 0 <= j < |results| ensures !IsDependency(e, results, name, j) {
      assert !IsDependency(e, i.results, name, j);
    }
  }

  // ---- Which path parameters arrive as their marks promise ----------------------------------------

  /** Whatever segments the path has and whatever the other inputs turn out to be. */
  ghost predicate ArrivesByMark(req: Request, e: RouteEntry, i: Inputs, log: History, k: nat)
    requires |i.results| <= |e.dependencies| && k < |Templates.Params(e.pathTemplate)|
  {
    forall w: World, segments: seq<string> | |segments| == |Templates.Params(e.pathTemplate)| ::
      AlwaysGivenByMark(w, segments, req, e, i, log, k)
  }

  ghost predicate AlwaysGivenByMark(w: World, segments: seq<string>, req: Request, e: RouteEntry, i: Inputs,
                                    log: History, k: nat)
    requires |i.results| <= |e.dependencies| && k < |Templates.Params(e.pathTemplate)| == |segments|
  {
    var ps := Templates.Params(e.pathTemplate);
    AlwaysGivenByPath(w, req, e, Labelled(ps, segments), i, log, ps[k].name, ByMark(w, ps[k], segments[k]))
  }

  lemma MarkingGoes(w: World, req: Request, e: RouteEntry, params: PathParams, i: Inputs, log: History, v: Py)
    requires |i.results| <= |e.dependencies|
    ensures ArgumentStage(w, Marking(v), req, e, params, i, log).Go?
  {}

  /** A parameter arrives with one value only. */
  lemma OnlyOneValue(w: World, req: Request, e: RouteEntry, params: PathParams, i: Inputs, log: History, name: Name,
                     a: Py, b: Py)
    requires |i.results| <= |e.dependencies| && a != b
    requires AlwaysGivenByPath(w, req, e, params, i, log, name, a)
    ensures !AlwaysGivenByPath(w, req, e, params, i, log, name, b)
  {
    var same := i.(results := i.results);
    assert AlwaysGiven(w, req, e, params, same, log, name, a);
    var varied := Varied(same, 0, (0, 0));
    assert Given(w, Marking(0), req, e, params, varied, log, name, a);
    MarkingGoes(w, req, e, params, varied, log, 0);
    assert !Given(w, Marking(0), req, e, params, varied, log, name, b);
    assert !AlwaysGiven(w, req, e, params, same, log, name, b);
  }

  /** A world in which the handler can tell one parameter value from all others. */
  function Telling(value: ParamValue): World {
    PLAIN.(toPy := (v: ParamValue) => if v == value then 1 else 0)
  }

  lemma SomeSegments()
    ensures ValueForPathParam("x") == StrParam("x") && ValueForPathParam("y") == StrParam("y")
    ensures ValueForPathParam("42") == IntParam(42)
  {
    CoercedToIntegerExactly("42", 42);
    forall s | s in {"x", "y"} ensures !IsValidIntegerLiteral(s) && !IsValidFloatLiteral(s) {}
  }

  /** What arrives under the name of parameter `k` is the segment of the last one of that name. */
  lemma LastArrives(w: World, segments: seq<string>, req: Request, e: RouteEntry, i: Inputs, log: History, k: nat)
    returns (l: nat)
    requires |i.results| <= |e.dependencies| && k < |Templates.Params(e.pathTemplate)| == |segments|
    requires !Shadowed(e, req, i, Templates.Params(e.pathTemplate)[k].name)
    ensures var ps := Templates.Params(e.pathTemplate);
            && k <= l < |ps| && ps[l].name == ps[k].name && (LastOfName(ps, k) <==> l == k)
            && AlwaysGivenByPath(w, req, e, Labelled(ps, segments), i, log, ps[k].name,
                                 PathArgument(w, e.wildcardParams, ps[k].name, segments[l]))
  {
    var ps := Templates.Params(e.pathTemplate);
    l := |ps| - 1;
    while ps[l].name != ps[k].name
      invariant k <= l < |ps|
      invariant forall j | l < j < |ps| :: ps[j].name != ps[k].name
      decreases l
    {
      l := l - 1;
    }
    PathParamArrivesExactly(w, req, e, Labelled(ps, segments), i, log, l);
  }

  /** Where two parameters have one name, the first is lost. */
  lemma EarlierIsLost(req: Request, e: RouteEntry, i: Inputs, log: History, k: nat)
    requires |i.results| <= |e.dependencies| && k < |Templates.Params(e.pathTemplate)|
    requires !Shadowed(e, req, i, Templates.Params(e.pathTemplate)[k].name)
    requires !LastOfName(Templates.Params(e.pathTemplate), k)
    ensures !ArrivesByMark(req, e, i, log, k)
  {
    var w, ps := Telling(StrParam("x")), Templates.Params(e.pathTemplate);
    var segments := seq(|ps|, j requires 0 <= j < |ps| => if j == k then "y" else "x");
    SomeSegments();
    var l := LastArrives(w, segments, req, e, i, log, k);
    OnlyOneValue(w, req, e, Labelled(ps, segments), i, log, ps[k].name,
                 PathArgument(w, e.wildcardParams, ps[k].name, segments[l]), ByMark(w, ps[k], segments[k]));
    assert !AlwaysGivenByMark(w, segments, req, e, i, log, k);
  }

  /** Where the scanners take one kind of parameter for the other, a numeric segment shows it. */
  lemma MistakenIsLost(req: Request, e: RouteEntry, i: Inputs, log: History, k: nat)
    requires |i.results| <= |e.dependencies| && k < |Templates.Params(e.pathTemplate)|
    requires EntryAgrees(e) && Templates.WellFormed(e.pathTemplate)
    requires !Shadowed(e, req, i, Templates.Params(e.pathTemplate)[k].name)
    requires LastOfName(Templates.Params(e.pathTemplate), k)
    requires !Templates.ToldApart(e.pathTemplate, Templates.Params(e.pathTemplate)[k])
    ensures !ArrivesByMark(req, e, i, log, k)
  {
    var w, ps := Telling(IntParam(42)), Templates.Params(e.pathTemplate);
    var segments := seq(|ps|, j => "42");
    SomeSegments();
    Templates.WildcardIsTold(e.pathTemplate, ps[k]);
    var l := LastArrives(w, segments, req, e, i, log, k);
    OnlyOneValue(w, req, e, Labelled(ps, segments), i, log, ps[k].name,
                 PathArgument(w, e.wildcardParams, ps[k].name, segments[l]), ByMark(w, ps[k], segments[k]));
    assert !AlwaysGivenByMark(w, segments, req, e, i, log, k);
  }

  /** A parameter of a registered template arrives as its mark promises, a catch-all as text and any
      other coerced, for every path and whatever the other inputs are, if and only if no later
      parameter has its name, nothing else is passed under its name, and the scanners tell it apart:
      the name of a catch-all consists of letters, digits and underscores, and no other parameter
      has the name that the scanners make of a catch-all. */
  lemma PathParamArrivesByMarkExactly(req: Request, e: RouteEntry, i: Inputs, log: History, k: nat)
    requires |i.results| <= |e.dependencies| && k < |Templates.Params(e.pathTemplate)|
    requires EntryAgrees(e) && Templates.WellFormed(e.pathTemplate)
    ensures var ps := Templates.Params(e.pathTemplate);
            ArrivesByMark(req, e, i, log, k)
            <==> LastOfName(ps, k) && Templates.ToldApart(e.pathTemplate, ps[k]) && !Shadowed(e, req, i, ps[k].name)
  {
    var ps := Templates.Params(e.pathTemplate);
    if Shadowed(e, req, i, ps[k].name) {
      var segments := seq(|ps|, j => "");
      ShadowedIsLost(PLAIN, req, e, Labelled(ps, segments), i, log, ps[k].name, ByMark(PLAIN, ps[k], segments[k]));
      assert !AlwaysGivenByMark(PLAIN, segments, req, e, i, log, k);
    } else if !LastOfName(ps, k) {
      EarlierIsLost(req, e, i, log, k);
    } else if !Templates.ToldApart(e.pathTemplate, ps[k]) {
      MistakenIsLost(req, e, i, log, k);
    } else {
      forall w: World, segments: seq<string> | |segments| == |ps|
        ensures AlwaysGivenByMark(w, segments, req, e, i, log, k)
      {
        Templates.WildcardIsTold(e.pathTemplate, ps[k]);
        PathParamArrivesExactly(w, req, e, Labelled(ps, segments), i, log, k);
      }
    }
  }

  const CUT_NAME := "a\U{f1}o"
  const CUT_TEMPLATE := "/files/*" + CUT_NAME
  const CUT_PARAM := Templates.Param('*', CUT_NAME)

  /** A route whose handler takes the one name that is captured. */
  function CutRegistration(): Registration {
    Plain(GET, CUT_TEMPLATE).(paramNames := {CUT_NAME})
  }

  lemma CutNameIsMissed()
    ensures Templates.Params(CUT_TEMPLATE) == [CUT_PARAM]
    ensures Templates.WellFormed(CUT_TEMPLATE)
    ensures CUT_NAME !in Templates.ParamNames(CUT_TEMPLATE, Templates.IsWildcard)
  {
    Templates.LastSegment("/files/", '*', CUT_NAME);
    assert "/files/" + ['*'] + CUT_NAME == CUT_TEMPLATE;
    assert CUT_NAME[1] in CUT_NAME;
    Templates.WildcardIsTold(CUT_TEMPLATE, CUT_PARAM);
  }

  /** The route can be registered; its entry does not list the catch-all as one. */
  lemma CutIsRegistered(m: Matcher, s: AppValue)
    requires !s.frozen && m.CanInsert(s.live.get.Keys, CUT_TEMPLATE)
    ensures AfterAddRoute(m, s, CutRegistration()).1.None?
    ensures Checked(CutRegistration()) == Ok(EntryFor(CutRegistration(), []))
  {
    NothingToSchedule();
  }

  lemma CutArguments(w: World, e: RouteEntry, i: Inputs, p: Services, req: Request, log: History)
    requires e == EntryFor(CutRegistration(), []) && i == Inputs(map[], [], None, [], p.noForm)
    ensures ArgumentStage(w, p, req, e, [(CUT_NAME, "42")], i, log)
            == Go(log, PathKwargs(w, e.wildcardParams, [(CUT_NAME, "42")]))
  {
    assert |"protocol"| != |CUT_NAME|;
  }

  /** The input on which a catch-all does not arrive as text: the scanners cut its name at a letter
      that is not ASCII, and the segment `42` becomes a number. */
  lemma CatchAllIsCoerced(w: World, p: Services, m: Matcher, s: AppValue, req: Request, log: History)
    requires !s.frozen && m.CanInsert(s.live.get.Keys, CUT_TEMPLATE)
    ensures AfterAddRoute(m, s, CutRegistration()).1.None? && Checked(CutRegistration()).Ok?
    ensures var e := Checked(CutRegistration()).value;
            && Templates.Params(e.pathTemplate) == [CUT_PARAM]
            && ArgumentStage(w, p, req, e, [(CUT_NAME, "42")], Inputs(map[], [], None, [], p.noForm), log)
               == Go(log, map[CUT_NAME := w.toPy(IntParam(42))])
  {
    CutIsRegistered(m, s);
    CutNameIsMissed();
    SomeSegments();
    var e := EntryFor(CutRegistration(), []);
    var kwargs := PathKwargs(w, e.wildcardParams, [(CUT_NAME, "42")]);
    CutArguments(w, e, Inputs(map[], [], None, [], p.noForm), p, req, log);
    assert [(CUT_NAME, "42")][..0] == [];
    assert kwargs == map[CUT_NAME := PathArgument(w, e.wildcardParams, CUT_NAME, "42")];
  }
}
