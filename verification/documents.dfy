/** The OpenAPI document over the life of an application: it lists every route, and also some that
    were refused. */
module Documents {
  import opened Text
  import opened Injection
  import opened OpenApi
  import opened Routing
  import opened State

  // ---- Every route is listed -------------------------------------------------------------------

  /** GET and HEAD share a router, so a template in it may be listed under either. */
  predicate IsListed(doc: Document, v: Verb, t: string) {
    if v.GET? || v.HEAD? then Lists(doc, "GET", t) || Lists(doc, "HEAD", t) else Lists(doc, VerbName(v), t)
  }

  ghost predicate AllListed(s: AppValue) {
    forall v: Verb, t: string | s.live.Has(v, t) :: IsListed(s.document, v, t)
  }

  /** Writing an operation takes no route away and lists its own. */
  lemma DocumentedKeeps(doc: Document, reg: Registration, v: Verb, t: string)
    ensures IsListed(doc, v, t) ==> IsListed(Documented(doc, reg), v, t)
    ensures reg.description.Some? && t == reg.path && SameRouter(v, reg.verb) ==> IsListed(Documented(doc, reg), v, t)
  {
    if reg.description.Some? {
      forall u { WritingKeeps(doc, VerbName(reg.verb), reg.path, reg.requireJwt, reg.description.value, u, t); }
    }
  }

  lemma StepKeepsListed(m: Matcher, k: Configs, s: AppValue, op: Op)
    requires AllListed(s)
    ensures AllListed(Apply(m, k, s, op))
  {
    if op.DoAddRoute? {
      AddRouteKeepsListed(m, s, op.reg);
    }
  }

  lemma AddRouteKeepsListed(m: Matcher, s: AppValue, reg: Registration)
    requires AllListed(s)
    ensures AllListed(AfterAddRoute(m, s, reg).0)
  {
    var e := AddRouteOutcome(m, s, reg);
    var (after, failed) := AfterAddRoute(m, s, reg);
    forall v: Verb, t: string | after.live.Has(v, t) ensures IsListed(after.document, v, t) {
      DocumentedKeeps(s.document, reg, v, t);
      if failed.None? {
        AddedIndexes(s.(document := after.document), reg.verb, e.value, v, t);
      }
    }
  }

  lemma {:induction false} ListedFrom(m: Matcher, k: Configs, s: AppValue, ops: seq<Op>)
    requires AllListed(s)
    ensures AllListed(After(m, k, s, ops))
    decreases |ops|
  {
    if ops != [] {
      StepKeepsListed(m, k, s, ops[0]);
      ListedFrom(m, k, Apply(m, k, s, ops[0]), ops[1..]);
    }
  }

  /** In every run of registrations, refused ones included, settings, freezing and compilation, the
      document has an operation for every registered route. */
  lemma EveryRouteIsListed(m: Matcher, k: Configs, includeOpenapi: bool, ops: seq<Op>)
    ensures AllListed(After(m, k, Initial(includeOpenapi), ops))
  {
    ListedFrom(m, k, Initial(includeOpenapi), ops);
  }

  // ---- Refused registrations that show ---------------------------------------------------------

  /** The document says of the template and verb just what the registration would write. */
  predicate SaysAlready(doc: Document, reg: Registration)
    requires reg.description.Some?
  {
    && Lists(doc, VerbName(reg.verb), reg.path) && (reg.requireJwt ==> doc.bearer)
    && OperationsAt(doc, DocumentPath(reg.path))[Lower(VerbName(reg.verb))]
       == Described(reg.path, reg.requireJwt, reg.description.value)
  }

  predicate IsLate(failed: Option<RegistrationError>) {
    failed == Some(UnsupportedMethod) || failed == Some(TemplateConflict)
  }

  lemma ChecksAreEarly(reg: Registration, schedule: Result<seq<DependencyEntry>, ScheduleError>)
    ensures CheckedWith(reg, schedule).Err? ==> !IsLate(Some(CheckedWith(reg, schedule).error))
  {}

  lemma RefusedIsLate(m: Matcher, live: CompiledRouters, reg: Registration)
    requires Refused(m, live, reg).Some?
    ensures IsLate(Refused(m, live, reg)) <==> reg.description.Some?
  {}

  lemma LateIsDocumented(m: Matcher, s: AppValue, reg: Registration)
    requires AfterAddRoute(m, s, reg).1.Some?
    ensures var (after, failed) := AfterAddRoute(m, s, reg);
            if IsLate(failed) then reg.description.Some? && after.document == Documented(s.document, reg)
            else after.document == s.document
  {
    ChecksAreEarly(reg, Schedule(reg.dependencies));
    if !s.frozen && Checked(reg).Ok? {
      RefusedIsLate(m, s.live, reg);
    }
  }

  lemma DocumentedShows(doc: Document, reg: Registration)
    requires reg.description.Some?
    ensures Documented(doc, reg) == doc <==> SaysAlready(doc, reg)
    ensures SaysAlready(Documented(doc, reg), reg)
  {
    var d, verb := reg.description.value, VerbName(reg.verb);
    WritingShowsExactly(doc, verb, reg.path, reg.requireJwt, d);
    WritingShowsExactly(Documented(doc, reg), verb, reg.path, reg.requireJwt, d);
    WritingTwice(doc, verb, reg.path, reg.requireJwt, d);
  }

  /** A refused registration shows in the document if and only if it is refused for its method or its
      template, that is after the document has been written, and the document did not say the same
      before. */
  lemma FailedRegistrationShowsExactly(m: Matcher, s: AppValue, reg: Registration)
    requires AfterAddRoute(m, s, reg).1.Some?
    ensures var (after, failed) := AfterAddRoute(m, s, reg);
            after.document != s.document
            <==> IsLate(failed) && !(reg.description.Some? && SaysAlready(s.document, reg))
  {
    LateIsDocumented(m, s, reg);
    if reg.description.Some? {
      DocumentedShows(s.document, reg);
    }
  }

  /** A second registration of a template is refused, and yet the document describes it from then on,
      while requests go on being answered by the first. */
  lemma ConflictIsDocumented(m: Matcher, s: AppValue, reg: Registration)
    requires Inv(s) && !s.frozen && s.live.Has(reg.verb, reg.path)
    requires Checked(reg).Ok? && reg.description.Some?
    ensures var (after, failed) := AfterAddRoute(m, s, reg);
            && failed == Some(TemplateConflict) && Inv(after)
            && RouteAt(after, reg.verb, reg.path) == RouteAt(s, reg.verb, reg.path)
            && SaysAlready(after.document, reg)
  {
    AddRouteKeepsRoute(m, s, reg, reg.verb, reg.path);
    DocumentedShows(s.document, reg);
  }

  /** A route that answers with its own handler and is described by another registration. */
  lemma SecondIsDocumented(m: Matcher, s: AppValue, first: Registration, second: Registration)
    requires Inv(s) && AfterAddRoute(m, s, first).1.None?
    requires second.verb == first.verb && second.path == first.path
    requires Checked(second).Ok? && second.description.Some?
    ensures var (after, failed) := AfterAddRoute(m, AfterAddRoute(m, s, first).0, second);
            && failed == Some(TemplateConflict) && Inv(after) && Checked(first).Ok?
            && RouteAt(after, first.verb, first.path) == Some(Checked(first).value)
            && SaysAlready(after.document, second)
  {
    var s1 := AfterAddRoute(m, s, first).0;
    RegisteredRouteIsFound(m, s, first);
    assert s1.live.Has(first.verb, first.path);
    var e := AddRouteOutcome(m, s, first);
    ConflictIsDocumented(m, s1, second);
  }

  function Describing(handler: Py, id: string): Registration {
    Plain(GET, "/a").(handler := handler, description := Some(Description(id, None, [], [])))
  }

  lemma DescribingIsChecked(handler: Py, id: string)
    ensures Checked(Describing(handler, id)).Ok? && Checked(Describing(handler, id)).value.handler == handler
  {
    NothingToSchedule();
  }

  lemma DescribingIsAdded(m: Matcher, s: AppValue, handler: Py, id: string)
    requires !s.frozen && m.CanInsert(s.live.get.Keys, "/a")
    ensures AfterAddRoute(m, s, Describing(handler, id)).1.None?
  {
    DescribingIsChecked(handler, id);
    assert Refused(m, s.live, Describing(handler, id)) == None;
  }

  /** An input: `GET /a` is registered twice. The handler of the first registration answers, the
      document has the name given by the second. */
  lemma TwiceRegistered(m: Matcher, s: AppValue, a: Py, idA: string, b: Py, idB: string)
    requires Inv(s) && !s.frozen && m.CanInsert(s.live.get.Keys, "/a")
    ensures var (after, failed) := AfterAddRoute(m, AfterAddRoute(m, s, Describing(a, idA)).0, Describing(b, idB));
            && failed == Some(TemplateConflict) && Inv(after)
            && RouteAt(after, GET, "/a").Some? && RouteAt(after, GET, "/a").value.handler == a
            && SaysAlready(after.document, Describing(b, idB))
  {
    DescribingIsAdded(m, s, a, idA);
    DescribingIsChecked(a, idA);
    DescribingIsChecked(b, idB);
    SecondIsDocumented(m, s, Describing(a, idA), Describing(b, idB));
  }

  /** A method in another case is refused as unsupported, and yet overwrites what the document says of
      the method itself: `get` that of GET. */
  lemma OtherCaseIsDocumented(m: Matcher, s: AppValue, reg: Registration, v: Verb)
    requires !s.frozen && Checked(reg).Ok? && reg.description.Some?
    requires reg.verb.Unknown? && Lower(VerbName(reg.verb)) == Lower(VerbName(v))
    ensures var (after, failed) := AfterAddRoute(m, s, reg);
            failed == Some(UnsupportedMethod) && SaysAlready(after.document, reg.(verb := v))
  {
    UnknownIsUnsupported(m, s.live, reg);
    RefusedAfterWriting(m, s, reg);
    SameKey(s.document, reg, v);
  }

  lemma RefusedAfterWriting(m: Matcher, s: AppValue, reg: Registration)
    requires !s.frozen && Checked(reg).Ok? && Refused(m, s.live, reg).Some?
    ensures AfterAddRoute(m, s, reg).1 == Refused(m, s.live, reg)
    ensures AfterAddRoute(m, s, reg).0.document == Documented(s.document, reg)
  {}

  lemma UnknownIsUnsupported(m: Matcher, live: CompiledRouters, reg: Registration)
    requires reg.verb.Unknown? && reg.description.Some?
    ensures Refused(m, live, reg) == Some(UnsupportedMethod)
  {}

  lemma SameKey(doc: Document, reg: Registration, v: Verb)
    requires reg.description.Some? && Lower(VerbName(reg.verb)) == Lower(VerbName(v))
    ensures SaysAlready(Documented(doc, reg), reg.(verb := v))
  {
    DocumentedShows(doc, reg);
  }
}
