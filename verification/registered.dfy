/** From `add_route` to the request: what a registration asks for is what its route does. */
module Registered {
  import opened Text
  import opened Names
  import opened Injection
  import opened Routing
  import opened State
  import Bucket
  import Templates

  // ---- The entry ---------------------------------------------------------------------------------

  /** The entry does what was registered. */
  ghost predicate Reflects(reg: Registration, e: RouteEntry) {
    && e.handler == reg.handler && e.isAsync == reg.isAsync
    && e.pathTemplate == reg.path
    && e.handlerParamNames == reg.paramNames && e.handlerVarkw == reg.varkw
    && e.requireJwt == reg.requireJwt && e.jwtCookie == reg.jwtCookie
    && e.readJsonBody == reg.readJsonBody && e.readFormBody == reg.readFormBody
    && e.bodyModel == reg.bodyModel
    && (reg.bodyParamName.Some? ==> e.bodyParamName == reg.bodyParamName.value)
    && (reg.bodyParamName.None? ==> e.bodyParamName == "json")
    && (e.rateLimiter.Some? <==> reg.rateLimit.Some?)
    && (e.rateLimiter.Some? ==> reg.rateLimit == Some(e.rateLimiter))
    && multiset(e.dependencies) == multiset(reg.dependencies)
  }

  lemma SameElements<T>(a: seq<T>, b: seq<T>)
    requires Distinct(a) && Distinct(b) && Elements(a) == Elements(b)
    ensures multiset(a) == multiset(b)
  {
    forall x ensures multiset(a)[x] == multiset(b)[x] {
      OccursOnce(a, x);
      OccursOnce(b, x);
      assert x in a <==> x in Elements(a);
      assert x in b <==> x in Elements(b);
    }
  }

  lemma {:induction false} OccursOnce<T>(s: seq<T>, x: T)
    requires Distinct(s)
    ensures multiset(s)[x] == if x in s then 1 else 0
  {
    if s != [] {
      LastIsNew(s);
      var front, last := s[..|s| - 1], s[|s| - 1];
      assert s == front + [last];
      assert last in front <==> last in Elements(front);
      OccursOnce(front, x);
    }
  }

  lemma UniqueIsDistinct(entries: seq<DependencyEntry>)
    requires UniqueNames(entries)
    ensures Distinct(entries)
  {}

  /** Scheduling only permutes. */
  lemma SchedulePermutes(entries: seq<DependencyEntry>)
    requires Schedule(entries).Ok?
    ensures UniqueNames(entries) && multiset(Schedule(entries).value) == multiset(entries)
  {
    PrerequisitesComeFirst(entries);
    ScheduleFailsExactly(entries);
    UniqueIsDistinct(entries);
    UniqueIsDistinct(Schedule(entries).value);
    SameElements(Schedule(entries).value, entries);
  }

  lemma EntryReflects(reg: Registration, dependencies: seq<DependencyEntry>)
    requires multiset(dependencies) == multiset(reg.dependencies)
    requires reg.rateLimit.Some? ==> reg.rateLimit.value.Some?
    ensures Reflects(reg, EntryFor(reg, dependencies))
  {}

  lemma CheckedReflects(reg: Registration)
    requires Checked(reg).Ok?
    ensures Reflects(reg, Checked(reg).value)
  {
    SchedulePermutes(reg.dependencies);
    EntryReflects(reg, Schedule(reg.dependencies).value);
  }

  /** A registration that succeeds is what the route found for its verb and template does, whatever
      happens afterwards. */
  lemma RegisteredRouteReflects(m: Matcher, k: Configs, s: AppValue, reg: Registration, ops: seq<Op>)
    requires Inv(s) && AfterAddRoute(m, s, reg).1.None?
    ensures var after := After(m, k, AfterAddRoute(m, s, reg).0, ops);
            && Inv(after) && RouteAt(after, reg.verb, reg.path).Some?
            && Reflects(reg, RouteAt(after, reg.verb, reg.path).value)
  {
    RegisteredRouteIsFound(m, s, reg);
    CheckedReflects(reg);
    RegistrationsStay(m, k, AfterAddRoute(m, s, reg).0, ops, reg.verb, reg.path);
  }

  // ---- Which registrations succeed ---------------------------------------------------------------

  /** What a registration must have, whatever is registered already. */
  ghost predicate Acceptable(reg: Registration) {
    && reg.knownAlgorithms && !(reg.readJsonBody && reg.readFormBody)
    && (reg.requireJwt ==> reg.jwtSecret.Some? && reg.keyFits)
    && UniqueNames(reg.dependencies) && !GraphOf(reg.dependencies).Cyclic()
    && (reg.rateLimit.Some? ==> reg.rateLimit.value.Some?)
  }

  lemma CheckedExactly(reg: Registration)
    ensures Checked(reg).Ok? <==> Acceptable(reg)
  {
    ScheduleFailsExactly(reg.dependencies);
  }

  /** The router that serves the verb, HEAD sharing that of GET. */
  function TemplatesFor(c: CompiledRouters, v: Verb): Option<set<string>> {
    match v
    case GET => Some(c.get.Keys)
    case HEAD => Some(c.get.Keys)
    case POST => Some(c.post.Keys)
    case PUT => Some(c.put.Keys)
    case PATCH => Some(c.patch.Keys)
    case DELETE => Some(c.delete.Keys)
    case OPTIONS => Some(c.options.Keys)
    case Unknown(_) => None
  }

  lemma FailureOf(m: Matcher, s: AppValue, reg: Registration)
    ensures AfterAddRoute(m, s, reg).1
            == if s.frozen then Some(AppFrozen)
               else if Checked(reg).Err? then Some(Checked(reg).error)
               else Refused(m, s.live, reg)
  {}

  lemma RefusedExactly(m: Matcher, live: CompiledRouters, reg: Registration)
    ensures var templates, refused := TemplatesFor(live, reg.verb), Refused(m, live, reg);
            && (refused == Some(BadDocumentation) <==> reg.description.None?)
            && (refused == Some(UnsupportedMethod) <==> reg.description.Some? && templates.None?)
            && (refused == Some(TemplateConflict) <==>
                reg.description.Some? && templates.Some? && !m.CanInsert(templates.value, reg.path))
            && (refused.None? <==>
                reg.description.Some? && templates.Some? && m.CanInsert(templates.value, reg.path))
  {}

  /** A registration succeeds if and only if the application is not frozen, the registration is
      acceptable, its texts parse, and the router for its method takes its template. */
  lemma RegistrationSucceedsExactly(m: Matcher, s: AppValue, reg: Registration)
    ensures AfterAddRoute(m, s, reg).1.None?
            <==> !s.frozen && Acceptable(reg) && reg.description.Some?
                 && TemplatesFor(s.live, reg.verb).Some?
                 && m.CanInsert(TemplatesFor(s.live, reg.verb).value, reg.path)
  {
    FailureOf(m, s, reg);
    CheckedExactly(reg);
    RefusedExactly(m, s.live, reg);
  }

  /** The error names something that is wrong with the registration itself. */
  ghost predicate WrongWith(reg: Registration, error: RegistrationError) {
    match error
    case UnknownAlgorithm => !reg.knownAlgorithms
    case BodyModesExclusive => reg.readJsonBody && reg.readFormBody
    case MissingSecret => reg.requireJwt && reg.jwtSecret.None?
    case IncompatibleKey => reg.requireJwt && reg.jwtSecret.Some? && !reg.keyFits
    case BadDependencies(DuplicateName) => !UniqueNames(reg.dependencies)
    case BadDependencies(DependencyCycle) => UniqueNames(reg.dependencies) && GraphOf(reg.dependencies).Cyclic()
    case BadRateLimit => reg.rateLimit == Some(None)
    case _ => false
  }

  lemma CheckedErrorIsWrong(reg: Registration)
    requires Checked(reg).Err?
    ensures WrongWith(reg, Checked(reg).error)
  {
    ScheduleFailsExactly(reg.dependencies);
    WrongByCase(reg, Schedule(reg.dependencies));
  }

  lemma WrongByCase(reg: Registration, schedule: Result<seq<DependencyEntry>, ScheduleError>)
    requires schedule == Err(DuplicateName) ==> !UniqueNames(reg.dependencies)
    requires schedule == Err(DependencyCycle) ==>
               UniqueNames(reg.dependencies) && GraphOf(reg.dependencies).Cyclic()
    ensures CheckedWith(reg, schedule).Err? ==> WrongWith(reg, CheckedWith(reg, schedule).error)
  {}

  /** Each error has its reason. */
  lemma ErrorHasItsReason(m: Matcher, s: AppValue, reg: Registration)
    ensures match AfterAddRoute(m, s, reg).1
            case None => true
            case Some(AppFrozen) => s.frozen
            case Some(BadDocumentation) => reg.description.None?
            case Some(UnsupportedMethod) => TemplatesFor(s.live, reg.verb).None?
            case Some(TemplateConflict) =>
              TemplatesFor(s.live, reg.verb).Some?
              && !m.CanInsert(TemplatesFor(s.live, reg.verb).value, reg.path)
            case Some(error) => WrongWith(reg, error)
  {
    FailureOf(m, s, reg);
    RefusedExactly(m, s.live, reg);
    if Checked(reg).Err? {
      CheckedErrorIsWrong(reg);
    }
  }
}
