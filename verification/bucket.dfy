/** One token bucket of `src/rate_limit.rs`: lazy refill, decisions, reset hints. Times are
    seconds and tokens are real numbers. */
module Bucket {
  import opened Numbers
  import opened Text

  /** The two numbers a bucket depends on; `RateLimiter::new` sets the rate to the limit
      divided by the window, both of which `RateLimitConfig::parse` accepts only positive. */
  datatype Config = Config(limit: nat, rate: real) {
    ghost predicate Valid() {
      limit > 0 && rate > 0.0
    }
  }

  datatype BucketState = BucketState(tokens: real, lastUpdate: real)

  datatype Decision =
    | Allowed(limit: nat, remaining: int, resetSecs: int)
    | Denied(limit: nat, resetSecs: int)

  function Ceil(x: real): (c: int)
    ensures (c - 1) as real < x <= c as real
  {
    -((-x).Floor)
  }

  function AtLeastOne(n: int): int {
    if n < 1 then 1 else n
  }

  /** `Instant` subtraction, which saturates at zero. */
  function Elapsed(since: real, now: real): real {
    if now >= since then now - since else 0.0
  }

  function Refill(cfg: Config, tokens: real, elapsed: real): real
    requires cfg.Valid()
  {
    Min(tokens + elapsed * cfg.rate, cfg.limit as real)
  }

  function Level(cfg: Config, b: BucketState, now: real): real
    requires cfg.Valid()
  {
    Refill(cfg, b.tokens, Elapsed(b.lastUpdate, now))
  }

  function Fresh(cfg: Config, now: real): BucketState {
    BucketState(cfg.limit as real, now)
  }

  function Grant(cfg: Config, left: real): Decision
    requires cfg.Valid()
  {
    var remaining := left.Floor;
    Allowed(cfg.limit, remaining,
            if remaining == 0 then AtLeastOne(Ceil((1.0 - left) / cfg.rate))
            else AtLeastOne(Ceil((cfg.limit as real - left) / cfg.rate)))
  }

  function Deny(cfg: Config, refilled: real): Decision
    requires cfg.Valid()
  {
    Denied(cfg.limit, AtLeastOne(Ceil((1.0 - refilled) / cfg.rate)))
  }

  /** The part of `check` that works on one bucket. A denial writes nothing back. */
  function Consult(cfg: Config, b: BucketState, now: real): (Decision, BucketState)
    requires cfg.Valid()
  {
    var refilled := Level(cfg, b, now);
    if refilled >= 1.0 then (Grant(cfg, refilled - 1.0), BucketState(refilled - 1.0, now))
    else (Deny(cfg, refilled), b)
  }

  /** The bucket a check finds: its own, or a full one if the key is new. */
  function Found(cfg: Config, b: Option<BucketState>, now: real): BucketState {
    if b.Some? then b.value else Fresh(cfg, now)
  }

  /** Decisions for a whole run of checks on one key; `b` is its bucket, if it has one yet. */
  function Decisions(cfg: Config, b: Option<BucketState>, times: seq<real>): (ds: seq<Decision>)
    requires cfg.Valid()
    ensures |ds| == |times|
    decreases times
  {
    if times == [] then [] else
      var (d, next) := Consult(cfg, Found(cfg, b, times[0]), times[0]);
      [d] + Decisions(cfg, Some(next), times[1..])
  }

  // ---- Arithmetic ------------------------------------------------------------------------

  ghost predicate InBounds(cfg: Config, b: BucketState) {
    0.0 <= b.tokens <= cfg.limit as real
  }

  ghost predicate NonDecreasing(times: seq<real>) {
    forall i, j | 0 <= i < j < |times| :: times[i] <= times[j]
  }

  lemma RateTimesIsMonotone(cfg: Config, a: real, b: real)
    requires cfg.Valid() && a <= b
    ensures a * cfg.rate <= b * cfg.rate
  {}

  lemma RateTimesSplits(cfg: Config, a: real, b: real)
    ensures (a + b) * cfg.rate == a * cfg.rate + b * cfg.rate
  {}

  lemma GapIsOneToken(cfg: Config, gap: real)
    requires cfg.Valid() && gap >= 1.0 / cfg.rate
    ensures gap * cfg.rate >= 1.0
  {
    RateTimesIsMonotone(cfg, 1.0 / cfg.rate, gap);
  }

  lemma FirstDecision(cfg: Config, b: BucketState, times: seq<real>, t1: real, t2: real)
    requires cfg.Valid() && times != []
    ensures var (d, next) := Consult(cfg, b, times[0]);
            AllowedBetween(times, Decisions(cfg, Some(b), times), t1, t2)
            == (if d.Allowed? && t1 <= times[0] <= t2 then 1 else 0)
               + AllowedBetween(times[1..], Decisions(cfg, Some(next), times[1..]), t1, t2)
  {
    var (d, next) := Consult(cfg, b, times[0]);
    assert Decisions(cfg, Some(b), times)[1..] == Decisions(cfg, Some(next), times[1..]);
  }

  lemma FirstCheckStartsFull(cfg: Config, times: seq<real>)
    requires cfg.Valid() && times != []
    ensures Decisions(cfg, None, times) == Decisions(cfg, Some(Fresh(cfg, times[0])), times)
  {}

  /** Tokens always stay between zero and the limit. */
  lemma TokensStayInBounds(cfg: Config, b: BucketState, now: real)
    requires cfg.Valid() && InBounds(cfg, b)
    ensures 0.0 <= Level(cfg, b, now) <= cfg.limit as real
    ensures InBounds(cfg, Consult(cfg, b, now).1)
  {
    RateTimesIsMonotone(cfg, 0.0, Elapsed(b.lastUpdate, now));
  }

  /** Waiting adds at most `rate * dt` tokens. */
  lemma LevelGrowsAtRate(cfg: Config, b: BucketState, now: real, later: real)
    requires cfg.Valid() && InBounds(cfg, b) && b.lastUpdate <= now <= later
    ensures Level(cfg, b, later) <= Level(cfg, b, now) + (later - now) * cfg.rate
  {
    var r := cfg.rate;
    assert (later - b.lastUpdate) * r == (now - b.lastUpdate) * r + (later - now) * r;
    RateTimesIsMonotone(cfg, 0.0, later - now);
  }

  // ---- The promise of a rate limit ---------------------------------------------------------

  function AllowedBetween(times: seq<real>, ds: seq<Decision>, t1: real, t2: real): nat
    requires |times| == |ds|
  {
    if times == [] then 0 else
      (if ds[0].Allowed? && t1 <= times[0] <= t2 then 1 else 0)
      + AllowedBetween(times[1..], ds[1..], t1, t2)
  }

  /** What may still be allowed until `t2`: the tokens now and those refilled by then. */
  ghost function Budget(cfg: Config, level: real, now: real, t2: real): real {
    level + (t2 - now) * cfg.rate
  }

  lemma BudgetShrinks(cfg: Config, b: BucketState, now: real, later: real, t2: real)
    requires cfg.Valid() && InBounds(cfg, b) && b.lastUpdate <= now <= later
    ensures Budget(cfg, Level(cfg, b, later), later, t2) <= Budget(cfg, Level(cfg, b, now), now, t2)
  {
    LevelGrowsAtRate(cfg, b, now, later);
    RateTimesSplits(cfg, t2 - later, later - now);
  }

  lemma BudgetCovers(cfg: Config, level: real, now: real, t2: real)
    requires cfg.Valid() && now <= t2
    ensures Budget(cfg, level, now, t2) >= level
  {
    RateTimesIsMonotone(cfg, 0.0, t2 - now);
  }

  lemma LateBudget(cfg: Config, level: real, t1: real, now: real, t2: real)
    requires cfg.Valid() && level <= cfg.limit as real && t1 <= now
    ensures Budget(cfg, level, now, t2) <= Budget(cfg, cfg.limit as real, t1, t2)
  {
    RateTimesIsMonotone(cfg, t2 - now, t2 - t1);
    SumsAreOrdered(level, (t2 - now) * cfg.rate, cfg.limit as real, (t2 - t1) * cfg.rate);
  }

  lemma SumsAreOrdered(a: real, b: real, c: real, d: real)
    requires a <= c && b <= d
    ensures a + b <= c + d
  {}

  lemma ConsultSpends(cfg: Config, b: BucketState, now: real, t2: real)
    requires cfg.Valid() && InBounds(cfg, b) && b.lastUpdate <= now
    ensures var (d, next) := Consult(cfg, b, now);
            && next.lastUpdate <= now
            && Level(cfg, next, now) == Level(cfg, b, now) - (if d.Allowed? then 1.0 else 0.0)
            && Budget(cfg, Level(cfg, next, now), now, t2)
               == Budget(cfg, Level(cfg, b, now), now, t2) - (if d.Allowed? then 1.0 else 0.0)
  {
    TokensStayInBounds(cfg, b, now);
  }

  /** No more than the budget is spent. */
  lemma {:induction false} SpendAtMost(cfg: Config, b: BucketState, times: seq<real>, t1: real, t2: real, budget: real)
    requires cfg.Valid() && InBounds(cfg, b) && NonDecreasing(times)
    requires times != [] && b.lastUpdate <= times[0] && t1 <= times[0]
    requires budget == Budget(cfg, Level(cfg, b, times[0]), times[0], t2)
    ensures AllowedBetween(times, Decisions(cfg, Some(b), times), t1, t2) as real
            <= if times[0] <= t2 then budget else 0.0
    decreases times
  {
    var now := times[0];
    var (d, next) := Consult(cfg, b, now);
    var rest := times[1..];
    TokensStayInBounds(cfg, b, now);
    FirstDecision(cfg, b, times, t1, t2);
    ConsultSpends(cfg, b, now, t2);
    if now <= t2 {
      BudgetCovers(cfg, Level(cfg, next, now), now, t2);
    }
    if rest != [] {
      BudgetShrinks(cfg, next, now, rest[0], t2);
      SpendAtMost(cfg, next, rest, t1, t2, Budget(cfg, Level(cfg, next, rest[0]), rest[0], t2));
    }
  }

  lemma {:induction false} SpendBetween(cfg: Config, b: BucketState, times: seq<real>, t1: real, t2: real, most: real)
    requires cfg.Valid() && InBounds(cfg, b) && NonDecreasing(times) && t1 <= t2
    requires times != [] ==> b.lastUpdate <= times[0]
    requires most == Budget(cfg, cfg.limit as real, t1, t2)
    ensures AllowedBetween(times, Decisions(cfg, Some(b), times), t1, t2) as real <= most
    decreases times
  {
    BudgetCovers(cfg, cfg.limit as real, t1, t2);
    if times != [] {
      TokensStayInBounds(cfg, b, times[0]);
      if times[0] < t1 {
        FirstDecision(cfg, b, times, t1, t2);
        ConsultSpends(cfg, b, times[0], t2);
        SpendBetween(cfg, Consult(cfg, b, times[0]).1, times[1..], t1, t2, most);
      } else {
        var budget := Budget(cfg, Level(cfg, b, times[0]), times[0], t2);
        SpendAtMost(cfg, b, times, t1, t2, budget);
        LateBudget(cfg, Level(cfg, b, times[0]), t1, times[0], t2);
      }
    }
  }

  /** Between any two times at most `limit + rate * (t2 - t1)` requests of one key are allowed,
      over every run whose checks take the lock in time order. */
  lemma WindowBound(cfg: Config, times: seq<real>, t1: real, t2: real)
    requires cfg.Valid() && NonDecreasing(times) && t1 <= t2
    ensures AllowedBetween(times, Decisions(cfg, None, times), t1, t2) as real
            <= Budget(cfg, cfg.limit as real, t1, t2)
  {
    var most := Budget(cfg, cfg.limit as real, t1, t2);
    BudgetCovers(cfg, cfg.limit as real, t1, t2);
    if times != [] {
      FirstCheckStartsFull(cfg, times);
      SpendBetween(cfg, Fresh(cfg, times[0]), times, t1, t2, most);
    }
  }

  // ---- A bucket that is evicted now and then -----------------------------------------------------

  /** What happens to the bucket of one key. */
  datatype Move = At(now: real) | Evicted

  function TimesIn(moves: seq<Move>): seq<real> {
    if moves == [] then []
    else if moves[0].At? then [moves[0].now] + TimesIn(moves[1..])
    else TimesIn(moves[1..])
  }

  function MoveDecisions(cfg: Config, b: Option<BucketState>, moves: seq<Move>): (ds: seq<Decision>)
    requires cfg.Valid()
    ensures |ds| == |TimesIn(moves)|
    decreases moves
  {
    if moves == [] then []
    else if moves[0].Evicted? then MoveDecisions(cfg, None, moves[1..])
    else
      var (d, next) := Consult(cfg, Found(cfg, b, moves[0].now), moves[0].now);
      [d] + MoveDecisions(cfg, Some(next), moves[1..])
  }

  /** What the evictions may give back: a whole limit each. */
  function Regained(cfg: Config, moves: seq<Move>): nat {
    if moves == [] then 0 else (if moves[0].Evicted? then cfg.limit else 0) + Regained(cfg, moves[1..])
  }

  /** The tokens there would be at a time; a bucket that is not there is as good as full. */
  function Potential(cfg: Config, b: Option<BucketState>, now: real): real
    requires cfg.Valid()
  {
    if b.None? then cfg.limit as real else Level(cfg, b.value, now)
  }

  ghost predicate Behind(cfg: Config, b: Option<BucketState>, now: real) {
    b.Some? ==> InBounds(cfg, b.value) && b.value.lastUpdate <= now
  }

  ghost predicate TimesFrom(moves: seq<Move>, now: real) {
    moves != [] ==> if moves[0].At? then now <= moves[0].now && TimesFrom(moves[1..], moves[0].now)
                    else TimesFrom(moves[1..], now)
  }

  lemma PotentialBudgetShrinks(cfg: Config, b: Option<BucketState>, now: real, later: real, t2: real)
    requires cfg.Valid() && Behind(cfg, b, now) && now <= later
    ensures Budget(cfg, Potential(cfg, b, later), later, t2) <= Budget(cfg, Potential(cfg, b, now), now, t2)
  {
    if b.Some? {
      BudgetShrinks(cfg, b.value, now, later, t2);
    } else {
      LateBudget(cfg, cfg.limit as real, now, later, t2);
    }
  }

  lemma PotentialFits(cfg: Config, b: Option<BucketState>, now: real)
    requires cfg.Valid() && Behind(cfg, b, now)
    ensures 0.0 <= Potential(cfg, b, now) <= cfg.limit as real
  {
    if b.Some? {
      TokensStayInBounds(cfg, b.value, now);
    }
  }

  lemma FoundSpends(cfg: Config, b: Option<BucketState>, now: real, t2: real)
    requires cfg.Valid() && Behind(cfg, b, now)
    ensures var (d, next) := Consult(cfg, Found(cfg, b, now), now);
            && Behind(cfg, Some(next), now)
            && Budget(cfg, Potential(cfg, Some(next), now), now, t2)
               == Budget(cfg, Potential(cfg, b, now), now, t2) - (if d.Allowed? then 1.0 else 0.0)
  {
    var f := Found(cfg, b, now);
    if b.None? {
      LevelIsAtLeast(cfg, f, now);
      TokensStayInBounds(cfg, f, now);
    }
    ConsultSpends(cfg, f, now, t2);
    TokensStayInBounds(cfg, f, now);
  }

  lemma EvictionRegains(cfg: Config, b: Option<BucketState>, now: real, t2: real)
    requires cfg.Valid() && Behind(cfg, b, now)
    ensures Budget(cfg, Potential(cfg, None, now), now, t2)
            <= Budget(cfg, Potential(cfg, b, now), now, t2) + cfg.limit as real
  {
    PotentialFits(cfg, b, now);
  }

  lemma FirstMove(cfg: Config, b: Option<BucketState>, moves: seq<Move>, t1: real, t2: real)
    requires cfg.Valid() && moves != [] && moves[0].At?
    ensures var (d, next) := Consult(cfg, Found(cfg, b, moves[0].now), moves[0].now);
            AllowedBetween(TimesIn(moves), MoveDecisions(cfg, b, moves), t1, t2)
            == (if d.Allowed? && t1 <= moves[0].now <= t2 then 1 else 0)
               + AllowedBetween(TimesIn(moves[1..]), MoveDecisions(cfg, Some(next), moves[1..]), t1, t2)
  {
    var (d, next) := Consult(cfg, Found(cfg, b, moves[0].now), moves[0].now);
    assert MoveDecisions(cfg, b, moves)[1..] == MoveDecisions(cfg, Some(next), moves[1..]);
    assert TimesIn(moves)[1..] == TimesIn(moves[1..]);
  }

  /** From a time inside the window no more than the budget and what evictions give back. */
  lemma {:induction false} MovesSpendAtMost(cfg: Config, b: Option<BucketState>, moves: seq<Move>, t1: real, t2: real,
                                            now: real, budget: real)
    requires cfg.Valid() && Behind(cfg, b, now) && TimesFrom(moves, now) && t1 <= now
    requires budget == Budget(cfg, Potential(cfg, b, now), now, t2)
    ensures AllowedBetween(TimesIn(moves), MoveDecisions(cfg, b, moves), t1, t2) as real
            <= (if now <= t2 then budget else 0.0) + Regained(cfg, moves) as real
    decreases moves
  {
    PotentialFits(cfg, b, now);
    if now <= t2 {
      BudgetCovers(cfg, Potential(cfg, b, now), now, t2);
    }
    if moves != [] {
      if moves[0].Evicted? {
        EvictionRegains(cfg, b, now, t2);
        MovesSpendAtMost(cfg, None, moves[1..], t1, t2, now, Budget(cfg, Potential(cfg, None, now), now, t2));
      } else {
        var x := moves[0].now;
        var (d, next) := Consult(cfg, Found(cfg, b, x), x);
        PotentialBudgetShrinks(cfg, b, now, x, t2);
        FoundSpends(cfg, b, x, t2);
        FirstMove(cfg, b, moves, t1, t2);
        PotentialFits(cfg, Some(next), x);
        if x <= t2 {
          BudgetCovers(cfg, Potential(cfg, Some(next), x), x, t2);
        }
        MovesSpendAtMost(cfg, Some(next), moves[1..], t1, t2, x, Budget(cfg, Potential(cfg, Some(next), x), x, t2));
      }
    }
  }

  /** The window bound of a bucket that is evicted now and then: each eviction gives back at most a
      whole limit. */
  lemma {:induction false} WindowBoundWithEvictions(cfg: Config, b: Option<BucketState>, moves: seq<Move>, t1: real,
                                                    t2: real, now: real)
    requires cfg.Valid() && Behind(cfg, b, now) && TimesFrom(moves, now) && t1 <= t2
    ensures AllowedBetween(TimesIn(moves), MoveDecisions(cfg, b, moves), t1, t2) as real
            <= Budget(cfg, cfg.limit as real, t1, t2) + Regained(cfg, moves) as real
    decreases moves
  {
    BudgetCovers(cfg, cfg.limit as real, t1, t2);
    if moves != [] {
      if moves[0].Evicted? {
        WindowBoundWithEvictions(cfg, None, moves[1..], t1, t2, now);
      } else {
        var x := moves[0].now;
        var (d, next) := Consult(cfg, Found(cfg, b, x), x);
        FoundSpends(cfg, b, x, t2);
        if x < t1 {
          FirstMove(cfg, b, moves, t1, t2);
          WindowBoundWithEvictions(cfg, Some(next), moves[1..], t1, t2, x);
        } else {
          PotentialFits(cfg, b, x);
          MovesSpendAtMost(cfg, b, moves, t1, t2, x, Budget(cfg, Potential(cfg, b, x), x, t2));
          LateBudget(cfg, Potential(cfg, b, x), t1, x, t2);
        }
      }
    }
  }

  /** The time order matters: `check` reads the clock before it takes the shard lock, and a
      request that reads it early but locks late moves the bucket back in time. Here three
      requests are allowed at one instant although the limit is two. */
  lemma LockOrderMatters()
    ensures var cfg := Config(2, 2.0);
            var times := [10.0, 5.0, 10.0, 10.0];
            AllowedBetween(times, Decisions(cfg, None, times), 10.0, 10.0) == 3
  {
    var cfg := Config(2, 2.0);
    var b0 := Fresh(cfg, 10.0);
    var b1 := BucketState(1.0, 10.0);
    var b2 := BucketState(0.0, 5.0);
    var b3 := BucketState(1.0, 10.0);
    assert Consult(cfg, b0, 10.0).1 == b1 && Consult(cfg, b1, 5.0).1 == b2;
    assert Consult(cfg, b2, 10.0).1 == b3 && Consult(cfg, b3, 10.0).0.Allowed?;
    var t3 := [10.0];
    var t2 := [10.0, 10.0];
    var t1 := [5.0, 10.0, 10.0];
    var t0 := [10.0, 5.0, 10.0, 10.0];
    assert t0[1..] == t1 && t1[1..] == t2 && t2[1..] == t3;
    var d3 := Decisions(cfg, Some(b3), t3);
    var d2 := Decisions(cfg, Some(b2), t2);
    var d1 := Decisions(cfg, Some(b1), t1);
    var d0 := Decisions(cfg, None, t0);
    assert d2[1..] == d3 && d1[1..] == d2 && d0[1..] == d1;
    assert AllowedBetween(t3, d3, 10.0, 10.0) == 1 by { assert t3[1..] == []; }
    assert AllowedBetween(t2, d2, 10.0, 10.0) == 2;
    assert AllowedBetween(t1, d1, 10.0, 10.0) == 2;
  }

  // ---- Exactly when the clock may be read before the lock ----------------------------------------

  /** The window bound, for every limit, rate and window. */
  ghost predicate Bounded(times: seq<real>) {
    forall cfg: Config, t1: real, t2: real | cfg.Valid() && t1 <= t2 :: WithinBudget(cfg, times, t1, t2)
  }

  ghost predicate WithinBudget(cfg: Config, times: seq<real>, t1: real, t2: real)
    requires cfg.Valid()
  {
    AllowedBetween(times, Decisions(cfg, None, times), t1, t2) as real <= Budget(cfg, cfg.limit as real, t1, t2)
  }

  /** The latest time read. */
  function Latest(times: seq<real>): (m: real)
    requires times != []
    ensures m in times && forall i | 0 <= i < |times| :: times[i] <= m
  {
    if |times| == 1 then times[0] else Max(times[0], Latest(times[1..]))
  }

  function Repeated(x: real, n: nat): seq<real> {
    seq(n, _ => x)
  }

  /** The first `k` checks and then `n` more at the latest time read so far. */
  function Continued(times: seq<real>, k: nat, n: nat): seq<real>
    requires 0 < k <= |times|
  {
    times[..k] + Repeated(Latest(times[..k]), n)
  }

  /** The bucket after a run of checks. */
  function Final(cfg: Config, b: BucketState, times: seq<real>): BucketState
    requires cfg.Valid()
    decreases times
  {
    if times == [] then b else Final(cfg, Consult(cfg, b, times[0]).1, times[1..])
  }

  lemma {:induction false} DecisionsInStages(cfg: Config, b: BucketState, first: seq<real>, more: seq<real>)
    requires cfg.Valid()
    ensures Decisions(cfg, Some(b), first + more)
            == Decisions(cfg, Some(b), first) + Decisions(cfg, Some(Final(cfg, b, first)), more)
    decreases first
  {
    if first == [] {
      assert first + more == more;
    } else {
      assert (first + more)[1..] == first[1..] + more;
      DecisionsInStages(cfg, Consult(cfg, b, first[0]).1, first[1..], more);
    }
  }

  /** A bucket with a token for each of the checks allows them all, in whatever order the times
      come, and is left at the last of them. */
  lemma {:induction false} EnoughTokens(cfg: Config, b: BucketState, times: seq<real>)
    requires cfg.Valid() && InBounds(cfg, b)
    requires times != [] ==> Level(cfg, b, times[0]) >= |times| as real
    ensures forall i | 0 <= i < |times| :: Decisions(cfg, Some(b), times)[i].Allowed?
    ensures InBounds(cfg, Final(cfg, b, times))
    ensures times != [] ==> Final(cfg, b, times).lastUpdate == times[|times| - 1]
    decreases times
  {
    if times != [] {
      var next, rest := Consult(cfg, b, times[0]).1, times[1..];
      AllowedSpends(cfg, b, times[0]);
      if rest != [] {
        LevelIsAtLeast(cfg, next, rest[0]);
      }
      EnoughTokens(cfg, next, rest);
    }
  }

  lemma LevelIsAtLeast(cfg: Config, b: BucketState, now: real)
    requires cfg.Valid() && InBounds(cfg, b)
    ensures Level(cfg, b, now) >= b.tokens
  {
    RateTimesIsMonotone(cfg, 0.0, Elapsed(b.lastUpdate, now));
  }

  lemma {:induction false} AllowedInStages(a: seq<real>, da: seq<Decision>, b: seq<real>, db: seq<Decision>,
                                           t1: real, t2: real)
    requires |a| == |da| && |b| == |db|
    ensures AllowedBetween(a + b, da + db, t1, t2) == AllowedBetween(a, da, t1, t2) + AllowedBetween(b, db, t1, t2)
  {
    if a == [] {
      assert a + b == b && da + db == db;
    } else {
      assert (a + b)[1..] == a[1..] + b && (da + db)[1..] == da[1..] + db;
      AllowedInStages(a[1..], da[1..], b, db, t1, t2);
    }
  }

  lemma {:induction false} OneIsAllowed(times: seq<real>, ds: seq<Decision>, x: real)
    requires |times| == |ds| && x in times && forall i | 0 <= i < |ds| :: ds[i].Allowed?
    ensures AllowedBetween(times, ds, x, x) >= 1
  {
    if times[0] != x {
      OneIsAllowed(times[1..], ds[1..], x);
    }
  }

  lemma {:induction false} AllAreAllowed(x: real, n: nat, ds: seq<Decision>)
    requires |ds| == n && forall i | 0 <= i < n :: ds[i].Allowed?
    ensures AllowedBetween(Repeated(x, n), ds, x, x) == n
  {
    if n > 0 {
      assert Repeated(x, n)[1..] == Repeated(x, n - 1);
      AllAreAllowed(x, n - 1, ds[1..]);
    }
  }

  ghost predicate RefilledIn(cfg: Config, gap: real) {
    gap * cfg.rate == cfg.limit as real
  }

  /** A rate that refills a limit of `n` in the time `gap`. */
  lemma RefillsIn(n: nat, gap: real) returns (cfg: Config)
    requires n > 0 && gap > 0.0
    ensures cfg.Valid() && cfg.limit == n && RefilledIn(cfg, gap)
  {
    var rate := n as real / gap;
    QuotientTimes(n as real, gap);
    assert gap * rate == n as real;
    cfg := Config(n, rate);
  }

  lemma FullAfter(cfg: Config, b: BucketState, now: real)
    requires cfg.Valid() && InBounds(cfg, b) && b.lastUpdate <= now
    requires RefilledIn(cfg, now - b.lastUpdate)
    ensures Level(cfg, b, now) == cfg.limit as real
  {}

  /** One request more than the limit is allowed at the latest time: one before the step back and
      a whole limit after it. */
  lemma OneTooMany(cfg: Config, p: seq<real>, x: real)
    requires cfg.Valid() && p != [] && cfg.limit == |p| && x in p && p[|p| - 1] < x
    requires RefilledIn(cfg, x - p[|p| - 1])
    ensures !WithinBudget(cfg, p + Repeated(x, |p|), x, x)
  {
    var b, more := Fresh(cfg, p[0]), Repeated(x, |p|);
    LevelIsAtLeast(cfg, b, p[0]);
    EnoughTokens(cfg, b, p);
    var f := Final(cfg, b, p);
    FullAfter(cfg, f, x);
    EnoughTokens(cfg, f, more);
    FirstCheckStartsFull(cfg, p + more);
    DecisionsInStages(cfg, b, p, more);
    var dp, dm := Decisions(cfg, Some(b), p), Decisions(cfg, Some(f), more);
    OneIsAllowed(p, dp, x);
    AllAreAllowed(x, |p|, dm);
    AllowedInStages(p, dp, more, dm, x, x);
    BudgetOfInstant(cfg, x);
  }

  lemma BudgetOfInstant(cfg: Config, x: real)
    ensures Budget(cfg, cfg.limit as real, x, x) == cfg.limit as real
  {
    assert (x - x) * cfg.rate == 0.0;
  }

  /** A check that moves the bucket back in time can let one request too many through. */
  lemma StepBackBreaksBound(p: seq<real>)
    requires p != [] && p[|p| - 1] < Latest(p)
    ensures !Bounded(p + Repeated(Latest(p), |p|))
  {
    var x := Latest(p);
    var cfg := RefillsIn(|p|, x - p[|p| - 1]);
    OneTooMany(cfg, p, x);
  }

  lemma ContinuedIsOrdered(times: seq<real>, k: nat, n: nat)
    requires NonDecreasing(times) && 0 < k <= |times|
    ensures NonDecreasing(Continued(times, k, n))
  {
    assert forall i | 0 <= i < k :: times[..k][i] == times[i];
  }

  /** The window bound survives every continuation at the latest time read so far, from every
      point of the run, if and only if the times never decrease: that the clock is read before the
      lock is harmless exactly as long as the locks are taken in the order of the readings. */
  lemma WindowBoundNeedsOrderExactly(times: seq<real>)
    ensures NonDecreasing(times) <==> forall k: nat, n: nat | 0 < k <= |times| :: Bounded(Continued(times, k, n))
  {
    if NonDecreasing(times) {
      forall k: nat, n: nat | 0 < k <= |times| ensures Bounded(Continued(times, k, n)) {
        ContinuedIsOrdered(times, k, n);
        forall cfg: Config, t1: real, t2: real | cfg.Valid() && t1 <= t2 {
          WindowBound(cfg, Continued(times, k, n), t1, t2);
        }
      }
    } else {
      var i, j :| 0 <= i < j < |times| && times[i] > times[j];
      var p := times[..j + 1];
      assert p[i] == times[i] && p[|p| - 1] == times[j];
      StepBackBreaksBound(p);
      assert !Bounded(Continued(times, j + 1, |p|));
    }
  }

  ghost predicate SpacedBy(times: seq<real>, gap: real) {
    forall i | 0 < i < |times| :: times[i] - times[i - 1] >= gap
  }

  /** A token has come back when the client asks again. */
  lemma TokenIsBack(cfg: Config, b: BucketState, later: real)
    requires cfg.Valid() && InBounds(cfg, b) && later - b.lastUpdate >= 1.0 / cfg.rate
    ensures Level(cfg, b, later) >= 1.0
  {
    var gap := later - b.lastUpdate;
    GapIsOneToken(cfg, gap);
    assert gap >= 0.0 && Elapsed(b.lastUpdate, later) == gap;
  }

  lemma SpacedTail(times: seq<real>, gap: real)
    requires SpacedBy(times, gap) && times != []
    ensures SpacedBy(times[1..], gap)
  {
    var rest := times[1..];
    forall i | 0 < i < |rest| ensures rest[i] - rest[i - 1] >= gap {
      assert times[i + 1] - times[i + 1 - 1] >= gap;
    }
  }

  lemma AllowedSpends(cfg: Config, b: BucketState, now: real)
    requires cfg.Valid() && InBounds(cfg, b) && Level(cfg, b, now) >= 1.0
    ensures var (d, next) := Consult(cfg, b, now);
            d.Allowed? && next.lastUpdate == now && InBounds(cfg, next)
  {
    TokensStayInBounds(cfg, b, now);
  }

  lemma {:induction false} PatientFrom(cfg: Config, b: BucketState, times: seq<real>)
    requires cfg.Valid() && InBounds(cfg, b)
    requires SpacedBy(times, 1.0 / cfg.rate)
    requires times != [] ==> Level(cfg, b, times[0]) >= 1.0
    ensures forall i | 0 <= i < |times| :: Decisions(cfg, Some(b), times)[i].Allowed?
    decreases times
  {
    if times != [] {
      var (d, next) := Consult(cfg, b, times[0]);
      AllowedSpends(cfg, b, times[0]);
      var rest := times[1..];
      SpacedTail(times, 1.0 / cfg.rate);
      if rest != [] {
        assert times[1] - times[1 - 1] >= 1.0 / cfg.rate;
        TokenIsBack(cfg, next, rest[0]);
      }
      PatientFrom(cfg, next, rest);
    }
  }

  /** A client that spaces its requests at least `1 / rate` apart is never denied. */
  lemma PatientClientIsNeverDenied(cfg: Config, times: seq<real>)
    requires cfg.Valid() && SpacedBy(times, 1.0 / cfg.rate)
    ensures forall i | 0 <= i < |times| :: Decisions(cfg, None, times)[i].Allowed?
  {
    if times != [] {
      assert Elapsed(times[0], times[0]) * cfg.rate == 0.0;
      FirstCheckStartsFull(cfg, times);
      PatientFrom(cfg, Fresh(cfg, times[0]), times);
    }
  }

  // ---- Continuous refill -------------------------------------------------------------------

  /** The reference: a level that rises continuously and is brought up to date at every check,
      whatever the decision. */
  function ContinuousDecisions(cfg: Config, level: real, at: real, times: seq<real>): (ds: seq<Decision>)
    requires cfg.Valid()
    ensures |ds| == |times|
    decreases times
  {
    if times == [] then [] else
      var now := Refill(cfg, level, times[0] - at);
      if now >= 1.0 then [Grant(cfg, now - 1.0)] + ContinuousDecisions(cfg, now - 1.0, times[0], times[1..])
      else [Deny(cfg, now)] + ContinuousDecisions(cfg, now, times[0], times[1..])
  }

  /** Refilling in two stages is refilling once. */
  lemma RefillInStages(cfg: Config, tokens: real, d1: real, d2: real)
    requires cfg.Valid() && d1 >= 0.0 && d2 >= 0.0 && tokens <= cfg.limit as real
    ensures Refill(cfg, Refill(cfg, tokens, d1), d2) == Refill(cfg, tokens, d1 + d2)
  {
    RateTimesIsMonotone(cfg, 0.0, d2);
    assert (d1 + d2) * cfg.rate == d1 * cfg.rate + d2 * cfg.rate;
  }

  lemma {:induction false} LazyFrom(cfg: Config, b: BucketState, at: real, times: seq<real>)
    requires cfg.Valid() && InBounds(cfg, b) && NonDecreasing(times) && b.lastUpdate <= at
    requires times != [] ==> at <= times[0]
    ensures Decisions(cfg, Some(b), times) == ContinuousDecisions(cfg, Level(cfg, b, at), at, times)
    decreases times
  {
    if times != [] {
      RefillInStages(cfg, b.tokens, at - b.lastUpdate, times[0] - at);
      var now := Level(cfg, b, times[0]);
      assert now == Refill(cfg, Level(cfg, b, at), times[0] - at);
      var (d, next) := Consult(cfg, b, times[0]);
      TokensStayInBounds(cfg, b, times[0]);
      LazyFrom(cfg, next, times[0], times[1..]);
      if now >= 1.0 {
        assert Level(cfg, next, times[0]) == now - 1.0;
      }
    }
  }

  /** Lazy refill makes the decisions of continuous refill, reset hints included. */
  lemma LazyRefillIsContinuous(cfg: Config, times: seq<real>)
    requires cfg.Valid() && NonDecreasing(times) && times != []
    ensures Decisions(cfg, None, times) == ContinuousDecisions(cfg, cfg.limit as real, times[0], times)
  {
    var b := Fresh(cfg, times[0]);
    assert Decisions(cfg, None, times) == Decisions(cfg, Some(b), times);
    LazyFrom(cfg, b, times[0], times);
  }

  // ---- The reset hint ----------------------------------------------------------------------

  lemma TimesIsStrict(rate: real, a: real, b: real, product: real)
    requires rate > 0.0 && b * rate == product
    ensures a < b <==> a * rate < product
  {
    if a < b {
      assert (b - a) * rate > 0.0;
    } else {
      assert (a - b) * rate >= 0.0;
    }
  }

  /** The target is reached exactly if `k` is not below the time needed. */
  lemma ReachedExactly(level: real, target: real, limit: real, need: real, gained: real, due: real, k: int)
    requires target <= limit && due == target - level && need > 0.0
    requires k as real < need <==> gained < due
    ensures Min(level + gained, limit) >= target <==> k >= Ceil(need)
    ensures Ceil(need) >= 1
  {
    CeilIsLeast(need, k);
    SumReaches(level, gained, target, limit);
  }

  lemma QuotientTimes(x: real, rate: real)
    requires rate > 0.0 && x > 0.0
    ensures (x / rate) * rate == x && x / rate > 0.0
  {
    var q := x / rate;
    if q <= 0.0 {
      assert -q * rate >= 0.0;
    }
  }

  lemma WaitReaches(cfg: Config, refilled: real, target: real, k: int)
    requires cfg.Valid() && refilled < target <= cfg.limit as real && k >= 0
    ensures Refill(cfg, refilled, k as real) >= target <==>
            k >= Ceil((target - refilled) / cfg.rate)
    ensures Ceil((target - refilled) / cfg.rate) >= 1
  {
    var due := target - refilled;
    var need := due / cfg.rate;
    QuotientTimes(due, cfg.rate);
    TimesIsStrict(cfg.rate, k as real, need, due);
    ReachedExactly(refilled, target, cfg.limit as real, need, k as real * cfg.rate, due, k);
  }

  lemma SumReaches(level: real, gained: real, target: real, limit: real)
    requires target <= limit
    ensures Min(level + gained, limit) >= target <==> gained >= target - level
  {}

  lemma CeilIsLeast(x: real, k: int)
    ensures k >= Ceil(x) <==> k as real >= x
    ensures x > 0.0 ==> Ceil(x) >= 1
  {}

  /** `Denied.reset_secs` is the least positive whole number of seconds after which a check
      succeeds, if none is allowed in between. */
  lemma ResetSecsIsLeastWait(cfg: Config, b: BucketState, now: real, k: int)
    requires cfg.Valid() && InBounds(cfg, b) && b.lastUpdate <= now && k >= 1
    requires Consult(cfg, b, now).0.Denied?
    ensures Consult(cfg, b, now).0.resetSecs >= 1
    ensures Consult(cfg, Consult(cfg, b, now).1, now + k as real).0.Allowed?
            <==> k >= Consult(cfg, b, now).0.resetSecs
  {
    RefillInStages(cfg, b.tokens, now - b.lastUpdate, k as real);
    WaitReaches(cfg, Level(cfg, b, now), 1.0, k);
  }

  /** `Allowed.reset_secs` is, with no whole token left, the least positive whole wait for the
      next success, and otherwise the least positive whole wait until the bucket is full. */
  lemma AllowedResetSecs(cfg: Config, b: BucketState, now: real, k: int)
    requires cfg.Valid() && InBounds(cfg, b) && k >= 1
    requires Consult(cfg, b, now).0.Allowed?
    ensures var (d, next) := Consult(cfg, b, now);
            var later := now + k as real;
            && 0 <= d.remaining < cfg.limit
            && (d.remaining == 0 ==>
                  (Consult(cfg, next, later).0.Allowed? <==> k >= d.resetSecs))
            && (d.remaining > 0 ==>
                  (Level(cfg, next, later) == cfg.limit as real <==> k >= d.resetSecs))
  {
    TokensStayInBounds(cfg, b, now);
    var (d, next) := Consult(cfg, b, now);
    if d.remaining == 0 {
      WaitReaches(cfg, next.tokens, 1.0, k);
    } else {
      WaitReaches(cfg, next.tokens, cfg.limit as real, k);
    }
  }

  // ---- What remains ----------------------------------------------------------------------------

  lemma NoTimePasses(cfg: Config, b: BucketState)
    requires cfg.Valid() && InBounds(cfg, b)
    ensures Level(cfg, b, b.lastUpdate) == b.tokens
  {
    assert 0.0 * cfg.rate == 0.0;
  }

  /** One check at that instant takes a token, if there is a whole one. */
  lemma OneTokenIsSpent(cfg: Config, b: BucketState)
    requires cfg.Valid() && InBounds(cfg, b)
    ensures var (d, next) := Consult(cfg, b, b.lastUpdate);
            && (d.Allowed? <==> b.tokens.Floor >= 1) && next.lastUpdate == b.lastUpdate && InBounds(cfg, next)
            && next.tokens.Floor == if d.Allowed? then b.tokens.Floor - 1 else b.tokens.Floor
  {
    NoTimePasses(cfg, b);
  }

  lemma ChecksAfterFirst(cfg: Config, b: BucketState, n: nat)
    requires cfg.Valid() && n > 0
    ensures var (d, next) := Consult(cfg, b, b.lastUpdate);
            Decisions(cfg, Some(b), Repeated(b.lastUpdate, n))
            == [d] + Decisions(cfg, Some(next), Repeated(b.lastUpdate, n - 1))
  {
    assert Repeated(b.lastUpdate, n)[1..] == Repeated(b.lastUpdate, n - 1);
  }

  /** Of checks at one instant, as many are allowed as there are whole tokens. */
  lemma {:induction false} WholeTokensAreSpent(cfg: Config, b: BucketState, whole: int, n: nat, i: nat)
    requires cfg.Valid() && InBounds(cfg, b) && i < n && whole == b.tokens.Floor
    ensures Decisions(cfg, Some(b), Repeated(b.lastUpdate, n))[i].Allowed? <==> i < whole
    decreases n
  {
    OneTokenIsSpent(cfg, b);
    ChecksAfterFirst(cfg, b, n);
    var (d, next) := Consult(cfg, b, b.lastUpdate);
    if i > 0 {
      WholeTokensAreSpent(cfg, next, next.tokens.Floor, n - 1, i - 1);
      NotNegative(next);
    }
  }

  lemma NotNegative(b: BucketState)
    requires b.tokens >= 0.0
    ensures b.tokens.Floor >= 0
  {}

  /** `Allowed.remaining` is the number of further checks that would be allowed at once, and both kinds
      of decision carry the configured limit. */
  lemma RemainingIsExact(cfg: Config, b: BucketState, now: real, n: nat, i: nat)
    requires cfg.Valid() && InBounds(cfg, b) && i < n
    ensures Consult(cfg, b, now).0.limit == cfg.limit
    ensures var (d, next) := Consult(cfg, b, now);
            d.Allowed? ==> (Decisions(cfg, Some(next), Repeated(now, n))[i].Allowed? <==> i < d.remaining)
  {
    TokensStayInBounds(cfg, b, now);
    var (d, next) := Consult(cfg, b, now);
    if d.Allowed? {
      WholeTokensAreSpent(cfg, next, next.tokens.Floor, n, i);
    }
  }
}
