/** A limited route as a whole: the decisions of its limiter bound the calls of its handler. */
module Limits {
  import opened Text
  import opened Protocol
  import opened Routing
  import opened State
  import opened Dispatch
  import opened Answers
  import opened Bucket
  import opened RateLimit

  /** A request that reaches the route, with the key it is counted under and the time its limiter
      reads. Every request has its own world, services and history. */
  datatype Visit = Visit(
    w: World,
    p: Services,
    st: Settings,
    req: Request,
    params: PathParams,
    log: History,
    key: Key,
    now: real)

  /** The visit is refused just when the limiter decides so. */
  ghost predicate Follows(e: RouteEntry, v: Visit, d: Decision) {
    Reliable(v.w) && (v.p.denied(v.log, e, v.req).None? <==> d.Allowed?)
  }

  /** How often the handler is called on a visit. */
  ghost function CallsOn(e: RouteEntry, v: Visit): int {
    HandlerCalls(ServeRoute(v.w, v.p, v.st, v.req, e, v.params, v.log).log) - HandlerCalls(v.log)
  }

  ghost predicate Counted(v: Visit, k: Key, t1: real, t2: real) {
    Truncated(v.key) == k && t1 <= v.now <= t2
  }

  /** The calls for one key in a window. */
  ghost function CallsBetween(e: RouteEntry, visits: seq<Visit>, k: Key, t1: real, t2: real): int {
    if visits == [] then 0 else
      (if Counted(visits[0], k, t1, t2) then CallsOn(e, visits[0]) else 0) + CallsBetween(e, visits[1..], k, t1, t2)
  }

  function ChecksOf(visits: seq<Visit>): (checks: seq<Check>)
    ensures |checks| == |visits|
  {
    if visits == [] then [] else [Check(visits[0].key, visits[0].now)] + ChecksOf(visits[1..])
  }

  /** A visit calls the handler once at most, and not at all if it is denied. */
  lemma DeniedCallsNothing(e: RouteEntry, v: Visit, d: Decision)
    requires e.rateLimiter.Some? && Follows(e, v, d)
    ensures CallsOn(e, v) <= if d.Allowed? then 1 else 0
  {
    var calls := RouteServedOnce(v.w, v.p, v.st, v.req, e, v.params, v.log);
  }

  lemma OneMoreCheck(checks: seq<Check>, ds: seq<Decision>, k: Key, t1: real, t2: real)
    requires |checks| == |ds| > 0 && |TimesOf(checks[1..], k)| == |DecisionsOf(checks[1..], ds[1..], k)|
    ensures |TimesOf(checks, k)| == |DecisionsOf(checks, ds, k)|
    ensures var c := checks[0];
            AllowedBetween(TimesOf(checks, k), DecisionsOf(checks, ds, k), t1, t2)
            == (if Truncated(c.key) == k && ds[0].Allowed? && t1 <= c.now <= t2 then 1 else 0)
               + AllowedBetween(TimesOf(checks[1..], k), DecisionsOf(checks[1..], ds[1..], k), t1, t2)
  {
    var times, decisions := TimesOf(checks[1..], k), DecisionsOf(checks[1..], ds[1..], k);
    if Truncated(checks[0].key) == k {
      assert ([checks[0].now] + times)[1..] == times && ([ds[0]] + decisions)[1..] == decisions;
    } else {
      assert [] + times == times && [] + decisions == decisions;
    }
  }

  lemma {:induction false} CallsAreAllowed(e: RouteEntry, visits: seq<Visit>, ds: seq<Decision>, k: Key, t1: real,
                                           t2: real)
    requires e.rateLimiter.Some? && |ds| == |visits| && forall j | 0 <= j < |ds| :: Follows(e, visits[j], ds[j])
    ensures var checks := ChecksOf(visits);
            && |TimesOf(checks, k)| == |DecisionsOf(checks, ds, k)|
            && CallsBetween(e, visits, k, t1, t2)
               <= AllowedBetween(TimesOf(checks, k), DecisionsOf(checks, ds, k), t1, t2)
  {
    if visits != [] {
      CallsAreAllowed(e, visits[1..], ds[1..], k, t1, t2);
      DeniedCallsNothing(e, visits[0], ds[0]);
      assert ChecksOf(visits)[1..] == ChecksOf(visits[1..]);
      OneMoreCheck(ChecksOf(visits), ds, k, t1, t2);
    }
  }

  /** In any run of a route's limiter whose locks are taken in time order, full shards and evictions
      included, the handler is called for one key between `t1` and `t2` at most
      `limit + rate * (t2 - t1)` times, and one more `limit` for every time the key is evicted. */
  lemma HandlerCallsAreLimited(e: RouteEntry, hash: Key -> nat, states: seq<seq<Shard>>, visits: seq<Visit>,
                               ds: seq<Decision>, k: Key, t1: real, t2: real)
    requires e.rateLimiter.Some? && e.rateLimiter.value.Valid()
    requires IsRun(e.rateLimiter.value, hash, states, ChecksOf(visits), ds) && states[0] == EMPTY && t1 <= t2
    requires forall j | 0 <= j < |ds| :: Follows(e, visits[j], ds[j])
    requires forall i, j | 0 <= i < j < |visits| :: ChecksOf(visits)[i].now <= ChecksOf(visits)[j].now
    ensures var cfg := e.rateLimiter.value;
            CallsBetween(e, visits, k, t1, t2) as real
            <= Budget(cfg, cfg.limit as real, t1, t2)
               + (EvictionsOf(hash, states, ChecksOf(visits), k) * cfg.limit) as real
  {
    CallsAreAllowed(e, visits, ds, k, t1, t2);
    LimiterWindowBoundWithEvictions(e.rateLimiter.value, hash, states, ChecksOf(visits), ds, k, t1, t2);
  }
}
