/** Composable routers: `join_path` and `APIRouter` in `oxyroute/router.py`. */
module Router {
  import opened Text

  /** `str.strip()`. */
  function Strip(s: string): string {
    Trim(s, IsPySpace)
  }

  /** `str.rstrip("/")`. */
  function StripSlashes(s: string): (r: string)
    ensures |r| <= |s| && r == s[..|r|]
    ensures r != "" ==> r[|r| - 1] != '/'
    ensures forall i | |r| <= i < |s| :: s[i] == '/'
  {
    if s != "" && s[|s| - 1] == '/' then StripSlashes(s[..|s| - 1]) else s
  }

  function WithSlash(s: string): (r: string)
    ensures r != "" && r[0] == '/'
  {
    if s != "" && s[0] == '/' then s else "/" + s
  }

  /** `join_path`. */
  function JoinPath(prefix: string, path: string): string {
    var path := Strip(path);
    var path := if path == "" then "/" else WithSlash(path);
    var p := Strip(prefix);
    if p == "" then path
    else
      var p := StripSlashes(WithSlash(p));
      if path == "/" then p + "/" else p + path
  }

  // ---- The algebra of prefixes -------------------------------------------------------------

  /** What a prefix contributes to every path below it. */
  function Normal(prefix: string): (p: string)
    ensures p != "" ==> p[0] == '/' && p[|p| - 1] != '/'
  {
    var p := Strip(prefix);
    if p == "" then "" else StripSlashes(WithSlash(p))
  }

  lemma EndsAlike(path: string)
    requires path != ""
    ensures var r := WithSlash(path);
            r != "" && r[0] == '/' && r[|r| - 1] == path[|path| - 1]
  {}

  /** A path on its own: trimmed, with a leading slash. */
  function Rooted(path: string): (r: string)
    ensures r != "" && r[0] == '/' && !IsPySpace(r[|r| - 1])
  {
    var path := Strip(path);
    if path == "" then "/" else
      EndsAlike(path);
      WithSlash(path)
  }

  /** A prefix and a path without frills are put together as they are. */
  lemma PlainJoin(prefix: string, path: string)
    requires prefix != "" && prefix[0] == '/' && prefix[|prefix| - 1] != '/' && !IsPySpace(prefix[|prefix| - 1])
    requires path != "" && path[0] == '/' && !IsPySpace(path[|path| - 1])
    ensures JoinPath(prefix, path) == prefix + path
  {
    TrimIsIdentity(prefix, IsPySpace);
    TrimIsIdentity(path, IsPySpace);
  }

  lemma JoinIsConcatenation(prefix: string, path: string)
    ensures JoinPath(prefix, path) == Normal(prefix) + Rooted(path)
  {}

  /** Joining always yields a path starting with a slash and never ending in white space. */
  lemma JoinIsRooted(prefix: string, path: string)
    ensures var r := JoinPath(prefix, path);
            r != "" && r[0] == '/' && !IsPySpace(r[|r| - 1])
  {
    JoinIsConcatenation(prefix, path);
  }

  lemma StripOfRooted(s: string)
    requires s != "" && s[0] == '/' && !IsPySpace(s[|s| - 1])
    ensures Strip(s) == s && WithSlash(s) == s
  {
    TrimIsIdentity(s, IsPySpace);
  }

  lemma {:induction false} StripSlashesConcat(a: string, b: string)
    ensures StripSlashes(a + b) == if StripSlashes(b) == "" then StripSlashes(a) else a + StripSlashes(b)
    decreases |b|
  {
    var s := a + b;
    if b == "" {
      assert s == a;
    } else {
      assert s[|s| - 1] == b[|b| - 1];
      if b[|b| - 1] == '/' {
        assert s[..|s| - 1] == a + b[..|b| - 1];
        StripSlashesConcat(a, b[..|b| - 1]);
        SlashIsStripped(b);
        SlashIsStripped(s);
      } else {
        StripSlashesFixed(b);
        StripSlashesFixed(s);
      }
    }
  }

  lemma SlashIsStripped(s: string)
    requires s != "" && s[|s| - 1] == '/'
    ensures StripSlashes(s) == StripSlashes(s[..|s| - 1])
  {}

  lemma StripSlashesFixed(p: string)
    requires p != "" ==> p[|p| - 1] != '/'
    ensures StripSlashes(p) == p
  {}

  lemma RootedIsNormal(b: string)
    ensures StripSlashes(Rooted(b)) == Normal(b)
  {
    if Strip(b) == "" {
      assert StripSlashes("/") == StripSlashes("");
    }
  }

  lemma NormalOfRooted(s: string)
    requires s != "" && s[0] == '/' && !IsPySpace(s[|s| - 1])
    ensures Normal(s) == StripSlashes(s) && Rooted(s) == s
  {
    StripOfRooted(s);
  }

  lemma StripSlashesAfter(p: string, r: string)
    requires p != "" ==> p[|p| - 1] != '/'
    ensures StripSlashes(p + r) == p + StripSlashes(r)
  {
    StripSlashesConcat(p, r);
    StripSlashesFixed(p);
    assert p + "" == p;
  }

  /** The prefix a joined path amounts to is the two prefixes in turn. */
  lemma NormalOfJoin(a: string, b: string)
    ensures Normal(JoinPath(a, b)) == Normal(a) + Normal(b)
  {
    var joined := JoinPath(a, b);
    JoinIsRooted(a, b);
    calc {
      Normal(joined);
      { NormalOfRooted(joined); }
      StripSlashes(joined);
      { JoinIsConcatenation(a, b); }
      StripSlashes(Normal(a) + Rooted(b));
      { StripSlashesAfter(Normal(a), Rooted(b)); }
      Normal(a) + StripSlashes(Rooted(b));
      { RootedIsNormal(b); }
      Normal(a) + Normal(b);
    }
  }

  /** `join_path` is associative, for all strings whatever: blank, unrooted, with spaces or
      repeated slashes. */
  lemma JoinIsAssociative(a: string, b: string, c: string)
    ensures JoinPath(a, JoinPath(b, c)) == JoinPath(JoinPath(a, b), c)
  {
    calc {
      JoinPath(a, JoinPath(b, c));
      { JoinIsConcatenation(a, JoinPath(b, c)); }
      Normal(a) + Rooted(JoinPath(b, c));
      { JoinIsRooted(b, c); NormalOfRooted(JoinPath(b, c)); JoinIsConcatenation(b, c); }
      Normal(a) + (Normal(b) + Rooted(c));
      { Associative(Normal(a), Normal(b), Rooted(c)); }
      Normal(a) + Normal(b) + Rooted(c);
      { NormalOfJoin(a, b); }
      Normal(JoinPath(a, b)) + Rooted(c);
      { JoinIsConcatenation(JoinPath(a, b), c); }
      JoinPath(JoinPath(a, b), c);
    }
  }

  // ---- Routers ---------------------------------------------------------------------------

  type Handler = nat
  type Options = map<string, nat>

  datatype Route = Route(verb: string, path: string, handler: Handler, opts: Options)

  /** `{**defaults, **opts}`: the route's own options win. */
  function Merged(defaults: Options, opts: Options): Options {
    defaults + opts
  }

  function Included(route: Route, prefix: string, defaults: Options): Route {
    Route(route.verb, JoinPath(prefix, route.path), route.handler, Merged(defaults, route.opts))
  }

  /** An included route keeps its method and its handler; its path gets the prefix; and for every option
      its own value wins over the default. */
  ghost predicate IsIncluded(route: Route, prefix: string, defaults: Options, r: Route) {
    && r.verb == route.verb && r.handler == route.handler && r.path == JoinPath(prefix, route.path)
    && (forall o :: o in r.opts <==> o in route.opts || o in defaults)
    && (forall o | o in r.opts :: r.opts[o] == if o in route.opts then route.opts[o] else defaults[o])
  }

  lemma IncludedIs(route: Route, prefix: string, defaults: Options)
    ensures IsIncluded(route, prefix, defaults, Included(route, prefix, defaults))
  {}

  function IncludedAll(routes: seq<Route>, prefix: string, defaults: Options): (r: seq<Route>)
    ensures |r| == |routes|
    ensures forall i | 0 <= i < |routes| :: r[i] == Included(routes[i], prefix, defaults)
  {
    seq(|routes|, i requires 0 <= i < |routes| => Included(routes[i], prefix, defaults))
  }

  lemma ExtendPrefix<T>(s: seq<T>, i: nat)
    requires i < |s|
    ensures s[..i + 1] == s[..i] + [s[i]]
  {}

  class APIRouter {
    var routes: seq<Route>

    constructor ()
      ensures routes == []
    {
      routes := [];
    }

    /** `_reg`: options given as `None` are dropped, so that they do not hide defaults. */
    method Reg(verb: string, path: string, handler: Handler, opts: map<string, Option<nat>>)
      modifies this
      ensures routes == old(routes) + [Route(verb, path, handler, Cleaned(opts))]
      ensures forall o :: o in Cleaned(opts) <==> o in opts && opts[o].Some?
      ensures forall o | o in Cleaned(opts) :: Some(Cleaned(opts)[o]) == opts[o]
    {
      routes := routes + [Route(verb, path, handler, Cleaned(opts))];
    }

    /** The body of the loop of `include_router`, whatever the two routers are. */
    method IncludeOne(router: APIRouter, i: nat, prefix: string, defaults: Options)
      requires i < |router.routes|
      modifies this
      ensures routes == old(routes) + [Included(old(router.routes[i]), prefix, defaults)]
      ensures IsIncluded(old(router.routes[i]), prefix, defaults, routes[|routes| - 1])
    {
      var route := router.routes[i];
      var full := JoinPath(prefix, route.path);
      var merged := Merged(defaults, route.opts);
      routes := routes + [Route(route.verb, full, route.handler, merged)];
    }

    /** `include_router`. A router with routes that is included into itself is read while it grows,
        and the loop does not end: see `SelfInclusionNeverEnds`. */
    method IncludeRouter(router: APIRouter, prefix: string, defaults: Options)
      requires router == this ==> routes == []
      modifies this
      ensures routes == old(routes) + IncludedAll(old(router.routes), prefix, defaults)
      ensures router.routes == old(router.routes)
      ensures forall i | 0 <= i < |router.routes| ::
                IsIncluded(router.routes[i], prefix, defaults, routes[|old(routes)| + i])
    {
      var i := 0;
      ghost var before, all := routes, IncludedAll(router.routes, prefix, defaults);
      while i < |router.routes|
        invariant 0 <= i <= |router.routes| == |all|
        invariant router == this ==> routes == []
        invariant router.routes == old(router.routes)
        invariant routes == before + all[..i]
      {
        IncludeOne(router, i, prefix, defaults);
        ExtendPrefix(all, i);
        i := i + 1;
      }
      assert all[..i] == all;
      forall i | 0 <= i < |all| ensures IsIncluded(router.routes[i], prefix, defaults, all[i]) {
        IncludedIs(router.routes[i], prefix, defaults);
      }
    }
  }

  /** The index and the routes when that loop goes round with a router included into itself. */
  datatype Loop = Loop(i: nat, routes: seq<Route>) {
    function Round(included: Route -> Route): Loop {
      if i < |routes| then Loop(i + 1, routes + [included(routes[i])]) else this
    }
  }

  /** At most `n` rounds. */
  function Rounds(l: Loop, included: Route -> Route, n: nat): Loop {
    if n == 0 then l else Rounds(l, included, n - 1).Round(included)
  }

  function Including(prefix: string, defaults: Options): Route -> Route {
    (route: Route) => Included(route, prefix, defaults)
  }

  lemma {:induction false} EveryRoundIsMade(routes: seq<Route>, included: Route -> Route, n: nat)
    requires routes != []
    ensures var l := Rounds(Loop(0, routes), included, n);
            l.i == n < |l.routes| && |l.routes| == |routes| + n && routes <= l.routes
  {
    if n > 0 {
      EveryRoundIsMade(routes, included, n - 1);
    }
  }

  /** The loop never ends for a router with routes: whatever the number of rounds, all of them are
      made and there is a further route to read. */
  lemma SelfInclusionNeverEnds(routes: seq<Route>, prefix: string, defaults: Options, n: nat)
    requires routes != []
    ensures var l := Rounds(Loop(0, routes), Including(prefix, defaults), n);
            l.i == n < |l.routes| && |l.routes| == |routes| + n && routes <= l.routes
  {
    EveryRoundIsMade(routes, Including(prefix, defaults), n);
  }

  function Cleaned(opts: map<string, Option<nat>>): Options {
    map k | k in opts && opts[k].Some? :: opts[k].value
  }

  /** One level of inclusion, innermost level first in a nesting. */
  datatype Level = Level(prefix: string, defaults: Options)

  function Nested(routes: seq<Route>, levels: seq<Level>): seq<Route>
    decreases levels
  {
    if levels == [] then routes
    else Nested(IncludedAll(routes, levels[0].prefix, levels[0].defaults), levels[1..])
  }

  /** The single prefix and the single set of defaults that stand for a nesting. */
  function FoldedPrefix(levels: seq<Level>): string
    requires levels != []
    decreases levels
  {
    if |levels| == 1 then levels[0].prefix else JoinPath(FoldedPrefix(levels[1..]), levels[0].prefix)
  }

  function FoldedDefaults(levels: seq<Level>): Options
    decreases levels
  {
    if levels == [] then map[] else Merged(FoldedDefaults(levels[1..]), levels[0].defaults)
  }

  lemma IncludedTwice(route: Route, inner: Level, prefix: string, defaults: Options)
    ensures Included(Included(route, inner.prefix, inner.defaults), prefix, defaults)
            == Included(route, JoinPath(prefix, inner.prefix), Merged(defaults, inner.defaults))
  {
    JoinIsAssociative(prefix, inner.prefix, route.path);
    MergeAssociates(defaults, inner.defaults, route.opts);
  }

  lemma MergeAssociates(a: Options, b: Options, c: Options)
    ensures Merged(a, Merged(b, c)) == Merged(Merged(a, b), c)
  {}

  lemma MergedWithNone(opts: Options)
    ensures Merged(map[], opts) == opts
  {}

  /** Routers nested to any depth register the same methods, paths, handlers and options as one
      inclusion with the folded prefix and the folded defaults, the inner ones winning. */
  lemma {:induction false} NestingIsOneInclusion(routes: seq<Route>, levels: seq<Level>)
    requires levels != []
    ensures Nested(routes, levels) == IncludedAll(routes, FoldedPrefix(levels), FoldedDefaults(levels))
    decreases levels
  {
    var inner, outer := levels[0], levels[1..];
    var once := IncludedAll(routes, inner.prefix, inner.defaults);
    if outer == [] {
      MergedWithNone(inner.defaults);
    } else {
      NestingIsOneInclusion(once, outer);
      forall i | 0 <= i < |routes|
        ensures Nested(routes, levels)[i] == IncludedAll(routes, FoldedPrefix(levels), FoldedDefaults(levels))[i]
      {
        IncludedTwice(routes[i], inner, FoldedPrefix(outer), FoldedDefaults(outer));
      }
    }
  }

  /** The option an included route ends up with: its own, else that of the innermost level that
      sets it. */
  lemma {:induction false} InnermostDefaultWins(levels: seq<Level>, k: string)
    ensures k in FoldedDefaults(levels) <==> exists i :: 0 <= i < |levels| && k in levels[i].defaults
    ensures forall i | 0 <= i < |levels| && k in levels[i].defaults
                       && (forall j | 0 <= j < i :: k !in levels[j].defaults) ::
              FoldedDefaults(levels)[k] == levels[i].defaults[k]
  {
    if levels != [] {
      var outer := levels[1..];
      InnermostDefaultWins(outer, k);
      forall i | 0 < i < |levels| ensures levels[i] == outer[i - 1] {}
      if k in levels[0].defaults {
        assert k in FoldedDefaults(levels);
      } else if k in FoldedDefaults(levels) {
        var i :| 0 <= i < |outer| && k in outer[i].defaults;
        assert k in levels[i + 1].defaults;
      } else {
        forall i | 0 <= i < |levels| ensures k !in levels[i].defaults {
          if i > 0 { assert k !in outer[i - 1].defaults; }
        }
      }
      forall i | 0 <= i < |levels| && k in levels[i].defaults && (forall j | 0 <= j < i :: k !in levels[j].defaults)
        ensures FoldedDefaults(levels)[k] == levels[i].defaults[k]
      {
        if i > 0 {
          assert k !in levels[0].defaults;
          assert k in outer[i - 1].defaults;
          forall j | 0 <= j < i - 1 ensures k !in outer[j].defaults {
            assert k !in levels[j + 1].defaults;
          }
        }
      }
    }
  }
}
