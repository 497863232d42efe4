/** Route tables of `src/state.rs`: method masks, compiled routers, matching and the list of
    methods a path allows. A matchit router is a map from templates to values; which templates
    match a path, and which of them wins, is left to the `Matcher`. */
module Routing {
  import opened Text
  import Templates

  datatype Verb = GET | HEAD | POST | PUT | PATCH | DELETE | OPTIONS | Unknown(name: string)

  function VerbName(v: Verb): string {
    match v
    case GET => "GET"
    case HEAD => "HEAD"
    case POST => "POST"
    case PUT => "PUT"
    case PATCH => "PATCH"
    case DELETE => "DELETE"
    case OPTIONS => "OPTIONS"
    case Unknown(name) => name
  }

  // ---- Method masks --------------------------------------------------------------------------

  type MethodMask = bv8

  function Flag(v: Verb): MethodMask {
    match v
    case GET => 1
    case HEAD => 2
    case POST => 4
    case PUT => 8
    case PATCH => 16
    case DELETE => 32
    case OPTIONS => 64
    case Unknown(_) => 0
  }

  /** `MethodMask::from_method`: GET also serves HEAD. */
  function FromMethod(v: Verb): MethodMask {
    if v.GET? then Flag(GET) | Flag(HEAD) else Flag(v)
  }

  function InsertMethod(mask: MethodMask, v: Verb): MethodMask {
    mask | FromMethod(v)
  }

  predicate Allows(mask: MethodMask, v: Verb) {
    mask & Flag(v) != 0
  }

  const ORDER: seq<Verb> := [GET, HEAD, POST, PUT, PATCH, DELETE, OPTIONS]

  function AllowedBy(mask: MethodMask): Verb -> bool {
    (v: Verb) => Allows(mask, v)
  }

  /** The verbs of `order` that satisfy `p`, in order. */
  function Select(order: seq<Verb>, p: Verb -> bool): (r: seq<Verb>)
    ensures forall v :: v in r <==> v in order && p(v)
  {
    if order == [] then []
    else if p(order[0]) then [order[0]] + Select(order[1..], p)
    else Select(order[1..], p)
  }

  lemma {:induction false} SelectSnoc(order: seq<Verb>, v: Verb, p: Verb -> bool)
    ensures Select(order + [v], p) == if p(v) then Select(order, p) + [v] else Select(order, p)
  {
    var longer := order + [v];
    if order == [] {
      assert longer[0] == v && longer[1..] == [];
    } else {
      assert longer[0] == order[0] && longer[1..] == order[1..] + [v];
      SelectSnoc(order[1..], v, p);
    }
  }

  lemma {:induction false} NothingSelected(order: seq<Verb>, p: Verb -> bool)
    requires forall v | v in order :: !p(v)
    ensures Select(order, p) == []
  {
    if order != [] {
      assert order[0] in order;
      NothingSelected(order[1..], p);
    }
  }

  /** `MethodMask::to_vec`. */
  method ToVec(mask: MethodMask) returns (out: seq<Verb>)
    ensures out == Select(ORDER, AllowedBy(mask))
  {
    out := Pick(ORDER, mask);
  }

  method Pick(order: seq<Verb>, mask: MethodMask) returns (out: seq<Verb>)
    ensures out == Select(order, AllowedBy(mask))
  {
    out := [];
    var i := 0;
    while i < |order|
      invariant 0 <= i <= |order|
      invariant out == Select(order[..i], AllowedBy(mask))
    {
      SelectSnoc(order[..i], order[i], AllowedBy(mask));
      assert order[..i + 1] == order[..i] + [order[i]];
      if Allows(mask, order[i]) {
        out := out + [order[i]];
      }
      i := i + 1;
    }
    assert order[..i] == order;
  }

  /** Inserting a method adds exactly the verbs that method serves. */
  lemma InsertAllows(mask: MethodMask, v: Verb, u: Verb)
    ensures Allows(InsertMethod(mask, v), u) <==> Allows(mask, u) || Allows(FromMethod(v), u)
    ensures Allows(FromMethod(v), u) <==> !v.Unknown? && (u == v || (v.GET? && u.HEAD?))
  {
    FlagOfUnion(mask, FromMethod(v), Flag(u));
    OwnFlag(v, u);
  }

  /** The flags are distinct bits. */
  lemma OwnFlag(v: Verb, u: Verb)
    ensures Allows(FromMethod(v), u) <==> !v.Unknown? && (u == v || (v.GET? && u.HEAD?))
  {
    match v {
      case GET => match u { case GET => case HEAD => case _ => }
      case _ =>
    }
  }

  lemma FlagOfUnion(a: MethodMask, b: MethodMask, flag: MethodMask)
    ensures (a | b) & flag != 0 <==> a & flag != 0 || b & flag != 0
  {}

  // ---- Routers -------------------------------------------------------------------------------

  type Router<V> = map<string, V>
  type PathParams = seq<(string, string)>

  /** Path parameters with the names of a template. */
  function Labelled(ps: seq<Templates.Param>, segments: seq<string>): (r: PathParams)
    requires |ps| == |segments|
    ensures |r| == |ps|
  {
    seq(|ps|, k requires 0 <= k < |ps| => (ps[k].name, segments[k]))
  }

  /** How matchit sees templates: which match a path, the priority among them, the part of the path
      that each parameter of the template captures, and which templates conflict with those already
      inserted. Equal priorities are settled by the order of the templates. */
  datatype Matcher = Matcher(
    matches: (string, string) -> bool,
    rank: string -> int,
    segment: (string, string, nat) -> string,
    conflicts: (set<string>, string) -> bool)
  {
    /** `Router::insert` succeeds. */
    predicate CanInsert(templates: set<string>, template: string) {
      template !in templates && Templates.WellFormed(template) && !conflicts(templates, template)
    }

    /** The path parameters: the names of the template with what they capture, in order. */
    function Capture(template: string, path: string): PathParams {
      var ps := Templates.Params(template);
      Labelled(ps, seq(|ps|, k requires 0 <= k < |ps| => segment(template, path, k)))
    }

    predicate Prefers(a: string, b: string) {
      rank(a) > rank(b) || (rank(a) == rank(b) && Less(a, b))
    }

    predicate Best(t: string, hits: set<string>) {
      t in hits && forall u | u in hits :: u == t || Prefers(t, u)
    }

    lemma {:induction false} BestExists(hits: set<string>)
      requires hits != {}
      ensures exists t :: Best(t, hits)
    {
      var x :| x in hits;
      if hits == {x} {
        assert Best(x, hits);
      } else {
        BestExists(hits - {x});
        var t :| Best(t, hits - {x});
        LessIsTotal(x, t);
        if Prefers(x, t) {
          forall u | u in hits ensures u == x || Prefers(x, u) {
            assert u == x || u in hits - {x};
            if u != x && u != t && rank(x) == rank(t) == rank(u) {
              LessIsTransitive(x, t, u);
            }
          }
          assert Best(x, hits);
        } else {
          assert Best(t, hits);
        }
      }
    }

    lemma BestIsOnly(hits: set<string>)
      requires hits != {}
      ensures exists t :: t in hits && Best(t, hits)
      ensures forall a, b | a in hits && b in hits && Best(a, hits) && Best(b, hits) :: a == b
    {
      BestExists(hits);
      forall a, b | a in hits && b in hits && Best(a, hits) && Best(b, hits) ensures a == b {
        BestIsUnique(a, b, hits);
      }
    }

    lemma BestIsUnique(a: string, b: string, hits: set<string>)
      requires Best(a, hits) && Best(b, hits)
      ensures a == b
    {
      if a != b {
        assert Prefers(a, b) && Prefers(b, a);
        LessIsTransitive(a, b, a);
        LessIsIrreflexive(a);
      }
    }

    function Hits(templates: set<string>, path: string): set<string> {
      set t | t in templates && matches(t, path)
    }

    /** `Router::at`: the matching template of highest priority. */
    function At(templates: set<string>, path: string): (r: Option<string>)
      ensures r.None? <==> Hits(templates, path) == {}
      ensures r.Some? ==> Best(r.value, Hits(templates, path)) && r.value in templates && matches(r.value, path)
    {
      var hits := Hits(templates, path);
      if hits == {} then None else
        BestIsOnly(hits);
        var t :| t in hits && Best(t, hits);
        Some(t)
    }
  }

  /** The routers of the six methods with their route indices, and the mask of every template. */
  datatype CompiledRouters = CompiledRouters(
    get: Router<nat>,
    post: Router<nat>,
    put: Router<nat>,
    patch: Router<nat>,
    delete: Router<nat>,
    options: Router<nat>,
    allPaths: Router<MethodMask>)
  {
    /** `router_for_compiled`: HEAD shares the router of GET. */
    function RouterFor(v: Verb): Option<Router<nat>> {
      match v
      case GET => Some(get)
      case HEAD => Some(get)
      case POST => Some(post)
      case PUT => Some(put)
      case PATCH => Some(patch)
      case DELETE => Some(delete)
      case OPTIONS => Some(options)
      case Unknown(_) => None
    }

    /** The template is registered for the verb. */
    predicate Has(v: Verb, template: string) {
      RouterFor(v).Some? && template in RouterFor(v).value
    }

    /** The verb's router matches the path. */
    predicate Serves(m: Matcher, v: Verb, path: string) {
      RouterFor(v).Some? && m.At(RouterFor(v).value.Keys, path).Some?
    }

    function ServedOn(m: Matcher, path: string): Verb -> bool {
      (v: Verb) => Serves(m, v, path)
    }

    /** The route index registered for the verb and template. */
    function IndexOf(v: Verb, template: string): nat
      requires Has(v, template)
    {
      RouterFor(v).value[template]
    }

    /** The masks say which routers hold a template: HEAD wherever the shared router has it. */
    ghost predicate MasksAgree() {
      && (forall v: Verb, t: string :: Has(v, t) ==> t in allPaths)
      && (forall t | t in allPaths :: forall v: Verb :: Allows(allPaths[t], v) ==> Has(v, t))
      && (forall t | t in allPaths :: forall v: Verb | !v.GET? :: Has(v, t) ==> Allows(allPaths[t], v))
      && (forall t | t in allPaths :: exists v: Verb :: Has(v, t))
    }
  }

  /** `match_route_compiled`: nothing for an unsupported method, no match, or the route index with
      the path parameters. */
  function MatchRoute(m: Matcher, c: CompiledRouters, v: Verb, path: string): Option<Option<(nat, PathParams)>> {
    match c.RouterFor(v)
    case None => None
    case Some(router) =>
      match m.At(router.Keys, path)
      case None => Some(None)
      case Some(t) => Some(Some((router[t], m.Capture(t, path))))
  }

  /** The scan of `methods_matching_path_compiled`, router by router. */
  function Scan(m: Matcher, c: CompiledRouters, path: string): seq<Verb> {
    Select(ORDER, c.ServedOn(m, path))
  }

  /** `methods_matching_path_compiled`: the mask of the best template if it is not empty, else
      the scan. */
  function MethodsMatching(m: Matcher, c: CompiledRouters, path: string): seq<Verb> {
    match m.At(c.allPaths.Keys, path)
    case None => Scan(m, c, path)
    case Some(t) =>
      var listed := Select(ORDER, AllowedBy(c.allPaths[t]));
      if listed != [] then listed else Scan(m, c, path)
  }

  /** The entries of `order` marked in `have`, from `i` on. */
  function Marked(order: seq<Verb>, have: seq<bool>): seq<Verb>
    requires |order| == |have|
  {
    if order == [] then []
    else if have[0] then [order[0]] + Marked(order[1..], have[1..])
    else Marked(order[1..], have[1..])
  }

  lemma {:induction false} MarkedIsSelected(order: seq<Verb>, have: seq<bool>, p: Verb -> bool)
    requires |order| == |have| && forall i | 0 <= i < |order| :: have[i] == p(order[i])
    ensures Marked(order, have) == Select(order, p)
  {
    if order != [] {
      forall i | 0 <= i < |order| - 1 ensures have[1..][i] == p(order[1..][i]) {
        assert have[1..][i] == have[i + 1] && order[1..][i] == order[i + 1];
      }
      MarkedIsSelected(order[1..], have[1..], p);
    }
  }

  method OnPath(m: Matcher, router: Router<nat>, path: string) returns (found: bool)
    ensures found == m.At(router.Keys, path).Some?
  {
    var best := m.At(router.Keys, path);
    found := best.Some?;
  }

  method ServesPath(m: Matcher, c: CompiledRouters, v: Verb, path: string) returns (found: bool)
    requires v in ORDER
    ensures found == c.Serves(m, v, path)
  {
    found := OnPath(m, c.RouterFor(v).value, path);
  }

  /** Which methods' routers match the path, in the order of the methods. */
  function Flags(m: Matcher, c: CompiledRouters, path: string): (have: seq<bool>)
    ensures |have| == 7
  {
    var onGet := c.Serves(m, GET, path);
    [onGet, onGet, c.Serves(m, POST, path), c.Serves(m, PUT, path), c.Serves(m, PATCH, path),
     c.Serves(m, DELETE, path), c.Serves(m, OPTIONS, path)]
  }

  /** The routers that match the path, by position in the order of the methods. */
  method Have(m: Matcher, c: CompiledRouters, path: string) returns (have: array<bool>)
    ensures have[..] == Flags(m, c, path)
  {
    var onGet := ServesPath(m, c, GET, path);
    var onPost := ServesPath(m, c, POST, path);
    var onPut := ServesPath(m, c, PUT, path);
    var onPatch := ServesPath(m, c, PATCH, path);
    var onDelete := ServesPath(m, c, DELETE, path);
    var onOptions := ServesPath(m, c, OPTIONS, path);
    have := new bool[7] [onGet, onGet, onPost, onPut, onPatch, onDelete, onOptions];
  }

  lemma FlagsAreScan(m: Matcher, c: CompiledRouters, path: string)
    ensures Marked(ORDER, Flags(m, c, path)) == Scan(m, c, path)
  {
    var p, have := c.ServedOn(m, path), Flags(m, c, path);
    forall i | 0 <= i < 7 ensures have[i] == p(ORDER[i]) {
      FlagIsServed(m, c, path, i);
    }
    MarkedIsSelected(ORDER, have, p);
  }

  lemma FlagIsServed(m: Matcher, c: CompiledRouters, path: string, i: nat)
    requires i < 7
    ensures Flags(m, c, path)[i] == c.ServedOn(m, path)(ORDER[i])
  {
    match i {
      case 1 => SharedFlag(m, c, path);
      case _ =>
    }
  }

  lemma SharedFlag(m: Matcher, c: CompiledRouters, path: string)
    ensures c.Serves(m, HEAD, path) == c.Serves(m, GET, path)
  {}

  /** The body of `methods_matching_path_compiled`. */
  method MethodsMatchingPath(m: Matcher, c: CompiledRouters, path: string) returns (methods: seq<Verb>)
    ensures methods == MethodsMatching(m, c, path)
  {
    var best := m.At(c.allPaths.Keys, path);
    if best.Some? {
      var listed := ToVec(c.allPaths[best.value]);
      if listed != [] {
        return listed;
      }
    }
    var have := Have(m, c, path);
    FlagsAreScan(m, c, path);
    methods := Marked(ORDER, have[..]);
  }

  // ---- 404 and 405 ---------------------------------------------------------------------------

  lemma MaskOfTemplate(c: CompiledRouters, t: string)
    requires c.MasksAgree() && t in c.allPaths
    ensures Select(ORDER, AllowedBy(c.allPaths[t])) != []
  {
    var v :| c.Has(v, t);
    var u := if v.GET? then HEAD else v;
    assert c.Has(u, t) && Allows(c.allPaths[t], u);
    assert u in ORDER by { assert ORDER == [GET, HEAD, POST, PUT, PATCH, DELETE, OPTIONS]; }
    assert u in Select(ORDER, AllowedBy(c.allPaths[t]));
  }

  lemma ServedIsMatched(m: Matcher, c: CompiledRouters, v: Verb, path: string)
    requires c.MasksAgree() && c.Serves(m, v, path)
    ensures m.At(c.allPaths.Keys, path).Some?
  {
    var t := m.At(c.RouterFor(v).value.Keys, path).value;
    assert c.Has(v, t);
    assert t in m.Hits(c.allPaths.Keys, path);
  }

  lemma RegisteredIsServed(m: Matcher, c: CompiledRouters, v: Verb, t: string, path: string)
    requires c.Has(v, t) && m.matches(t, path)
    ensures c.Serves(m, v, path)
  {
    assert t in m.Hits(c.RouterFor(v).value.Keys, path);
  }

  /** The list is what the best template allows, if any template matches at all. */
  lemma ListIsMaskOfBest(m: Matcher, c: CompiledRouters, path: string)
    requires c.MasksAgree()
    ensures var best := m.At(c.allPaths.Keys, path);
            if best.Some? then MethodsMatching(m, c, path) == Select(ORDER, AllowedBy(c.allPaths[best.value]))
            else MethodsMatching(m, c, path) == []
  {
    var best := m.At(c.allPaths.Keys, path);
    if best.Some? {
      MaskOfTemplate(c, best.value);
    } else {
      forall v ensures !c.Serves(m, v, path) {
        if c.Serves(m, v, path) {
          ServedIsMatched(m, c, v, path);
        }
      }
      NothingSelected(ORDER, c.ServedOn(m, path));
    }
  }

  /** Every method in Allow really matches the path. */
  lemma AllowedMethodsMatch(m: Matcher, c: CompiledRouters, path: string, v: Verb)
    requires c.MasksAgree() && v in MethodsMatching(m, c, path)
    ensures c.Serves(m, v, path)
  {
    ListIsMaskOfBest(m, c, path);
    var t := m.At(c.allPaths.Keys, path).value;
    assert c.Has(v, t);
    RegisteredIsServed(m, c, v, t, path);
  }

  /** The list is empty exactly when no router matches the path. */
  lemma EmptyListExactly(m: Matcher, c: CompiledRouters, path: string)
    requires c.MasksAgree()
    ensures MethodsMatching(m, c, path) == [] <==> forall u :: !c.Serves(m, u, path)
  {
    ListIsMaskOfBest(m, c, path);
    var best := m.At(c.allPaths.Keys, path);
    if best.Some? {
      MaskOfTemplate(c, best.value);
      var u := MethodsMatching(m, c, path)[0];
      AllowedMethodsMatch(m, c, path, u);
    } else {
      forall u ensures !c.Serves(m, u, path) {
        if c.Serves(m, u, path) {
          ServedIsMatched(m, c, u, path);
        }
      }
    }
  }

  /** A known method without a match gets 404, that is an empty list, exactly when no router
      matches the path; otherwise the list is not empty and the requested method is not in it. */
  lemma NotFoundExactly(m: Matcher, c: CompiledRouters, v: Verb, path: string)
    requires c.MasksAgree() && MatchRoute(m, c, v, path) == Some(None)
    ensures MethodsMatching(m, c, path) == [] <==> forall u :: !c.Serves(m, u, path)
    ensures v !in MethodsMatching(m, c, path)
  {
    EmptyListExactly(m, c, path);
    if v in MethodsMatching(m, c, path) {
      AllowedMethodsMatch(m, c, path, v);
    }
  }

  lemma {:induction false} SameSelection(order: seq<Verb>, p: Verb -> bool, q: Verb -> bool)
    ensures Select(order, p) == Select(order, q) <==> forall v | v in order :: p(v) == q(v)
  {
    if forall v | v in order :: p(v) == q(v) {
      SelectCongruence(order, p, q);
    } else {
      var v :| v in order && p(v) != q(v);
      assert v in Select(order, p) <==> p(v);
      assert v in Select(order, q) <==> q(v);
    }
  }

  lemma {:induction false} SelectCongruence(order: seq<Verb>, p: Verb -> bool, q: Verb -> bool)
    requires forall v | v in order :: p(v) == q(v)
    ensures Select(order, p) == Select(order, q)
  {
    if order != [] {
      assert order[0] in order;
      SelectCongruence(order[1..], p, q);
    }
  }

  lemma ServedIsRegistered(m: Matcher, c: CompiledRouters, v: Verb, path: string) returns (t: string)
    requires c.MasksAgree() && c.Serves(m, v, path)
    ensures t in c.allPaths && c.Has(v, t) && m.matches(t, path)
  {
    t := m.At(c.RouterFor(v).value.Keys, path).value;
    assert c.Has(v, t);
  }

  lemma RegisteredIsKnown(c: CompiledRouters, v: Verb, t: string)
    requires c.Has(v, t)
    ensures v in ORDER
  {
    assert ORDER == [GET, HEAD, POST, PUT, PATCH, DELETE, OPTIONS];
  }

  /** Whatever is registered at a template that matches the path is allowed at the best one. */
  ghost predicate BestCoversAll(m: Matcher, c: CompiledRouters, path: string, best: string)
    requires best in c.allPaths
  {
    forall t: string, v: Verb | t in c.allPaths && m.matches(t, path) && c.Has(v, t) :: Allows(c.allPaths[best], v)
  }

  /** The list equals the scan of all routers, in content and order, exactly when every method
      registered at any template that matches the path is also registered at the best one. */
  lemma AllowIsCompleteExactly(m: Matcher, c: CompiledRouters, path: string)
    requires c.MasksAgree() && m.At(c.allPaths.Keys, path).Some?
    ensures MethodsMatching(m, c, path) == Scan(m, c, path)
            <==> BestCoversAll(m, c, path, m.At(c.allPaths.Keys, path).value)
  {
    var best := m.At(c.allPaths.Keys, path).value;
    ListIsMaskOfBest(m, c, path);
    SameSelection(ORDER, AllowedBy(c.allPaths[best]), c.ServedOn(m, path));
    if MethodsMatching(m, c, path) == Scan(m, c, path) {
      forall t: string, v: Verb | t in c.allPaths && m.matches(t, path) && c.Has(v, t)
        ensures Allows(c.allPaths[best], v)
      {
        RegisteredIsKnown(c, v, t);
        RegisteredIsServed(m, c, v, t, path);
        assert AllowedBy(c.allPaths[best])(v) == c.ServedOn(m, path)(v);
      }
    } else {
      var v: Verb :| v in ORDER && AllowedBy(c.allPaths[best])(v) != c.ServedOn(m, path)(v);
      if Allows(c.allPaths[best], v) {
        RegisteredIsServed(m, c, v, best, path);
      } else {
        var t := ServedIsRegistered(m, c, v, path);
      }
    }
  }

  /** No template is registered for HEAD alone, as with the decorators of the Python layer. */
  ghost predicate HeadOnlyWithGet(c: CompiledRouters) {
    forall t | t in c.allPaths && c.Has(GET, t) :: Allows(c.allPaths[t], GET)
  }

  /** With such tables the masks alone decide: the best matching template must allow whatever any
      other matching template allows. */
  lemma AllowIsCompleteByMasksExactly(m: Matcher, c: CompiledRouters, path: string)
    requires c.MasksAgree() && HeadOnlyWithGet(c) && m.At(c.allPaths.Keys, path).Some?
    ensures var best := m.At(c.allPaths.Keys, path).value;
            MethodsMatching(m, c, path) == Scan(m, c, path)
            <==> forall t: string, v: Verb | t in c.allPaths && m.matches(t, path) && Allows(c.allPaths[t], v) ::
                   Allows(c.allPaths[best], v)
  {
    AllowIsCompleteExactly(m, c, path);
    forall t: string, v: Verb | t in c.allPaths ensures Allows(c.allPaths[t], v) <==> c.Has(v, t) {
      if v.GET? && c.Has(v, t) {
        assert Allows(c.allPaths[t], GET);
      }
    }
  }

  /** In particular they agree wherever no path matches two distinct templates. */
  lemma UniqueTemplateIsComplete(m: Matcher, c: CompiledRouters, path: string)
    requires c.MasksAgree() && HeadOnlyWithGet(c)
    requires forall s, t | s in c.allPaths && t in c.allPaths && m.matches(s, path) && m.matches(t, path) :: s == t
    ensures MethodsMatching(m, c, path) == Scan(m, c, path)
  {
    if m.At(c.allPaths.Keys, path).Some? {
      AllowIsCompleteByMasksExactly(m, c, path);
    } else {
      ListIsMaskOfBest(m, c, path);
      forall v ensures !c.Serves(m, v, path) {
        if c.Serves(m, v, path) { ServedIsMatched(m, c, v, path); }
      }
      NothingSelected(ORDER, c.ServedOn(m, path));
    }
  }

  /** Templates that overlap make them differ: with GET on `/a/:id` and POST on `/a/static`, a
      PUT of `/a/static` is answered with an Allow that leaves out GET, which matches. */
  lemma OverlapHidesMethod(m: Matcher, c: CompiledRouters)
    requires c.MasksAgree() && c.get.Keys == {"/a/:id"} && c.post.Keys == {"/a/static"}
    requires c.allPaths.Keys == {"/a/:id", "/a/static"} && !Allows(c.allPaths["/a/static"], GET)
    requires m.matches("/a/:id", "/a/static") && m.matches("/a/static", "/a/static")
    requires m.Prefers("/a/static", "/a/:id")
    ensures c.Serves(m, GET, "/a/static") && GET !in MethodsMatching(m, c, "/a/static")
  {
    var path := "/a/static";
    assert "/a/:id" in m.Hits(c.get.Keys, path);
    assert m.Best("/a/static", m.Hits(c.allPaths.Keys, path));
    m.BestIsUnique("/a/static", m.At(c.allPaths.Keys, path).value, m.Hits(c.allPaths.Keys, path));
    ListIsMaskOfBest(m, c, path);
  }
}
