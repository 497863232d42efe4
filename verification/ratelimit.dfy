/** The sharded, bounded rate limiter of `src/rate_limit.rs`. */
module RateLimit {
  import opened Text
  import opened Bucket

  const NUM_SHARDS := 16
  const MAX_SHARD_ENTRIES := 8192
  const MAX_KEY_LEN := 256

  type Byte = b: int | 0 <= b < 256
  type Key = seq<Byte>

  // ---- Keys ------------------------------------------------------------------------------

  predicate IsContinuation(b: Byte) {
    0x80 <= b < 0xC0
  }

  /** `str::is_char_boundary`. */
  predicate IsCharBoundary(key: Key, i: nat) {
    i == 0 || i == |key| || (i < |key| && !IsContinuation(key[i]))
  }

  /** Bytes taken by the character whose first byte is `b`; zero if none starts with it. */
  function CharLen(b: Byte): nat {
    if b < 0x80 then 1 else if b < 0xC2 then 0 else if b < 0xE0 then 2
    else if b < 0xF0 then 3 else if b < 0xF5 then 4 else 0
  }

  /** The byte structure of every Rust `str`: leading bytes with their continuation bytes. */
  predicate Utf8(s: Key) {
    s == [] ||
    (var n := CharLen(s[0]);
     0 < n <= |s| && (forall i | 1 <= i < n :: IsContinuation(s[i])) && Utf8(s[n..]))
  }

  ghost function BoundaryAtOrBelow(key: Key, end: nat): (e: nat)
    requires end <= |key|
    ensures e <= end && IsCharBoundary(key, e)
    ensures forall k | e < k <= end :: !IsCharBoundary(key, k)
  {
    if IsCharBoundary(key, end) then end else BoundaryAtOrBelow(key, end - 1)
  }

  ghost function Truncated(key: Key): Key {
    if |key| <= MAX_KEY_LEN then key else key[..BoundaryAtOrBelow(key, MAX_KEY_LEN)]
  }

  /** `truncate_key`. */
  method TruncateKey(key: Key) returns (r: Key)
    ensures r == Truncated(key)
  {
    if |key| <= MAX_KEY_LEN {
      return key;
    }
    var end := MAX_KEY_LEN;
    while end > 0 && !IsCharBoundary(key, end)
      invariant 0 <= end <= MAX_KEY_LEN
      invariant BoundaryAtOrBelow(key, end) == BoundaryAtOrBelow(key, MAX_KEY_LEN)
    {
      end := end - 1;
    }
    return key[..end];
  }

  /** A stored key is the longest prefix of at most 256 bytes that ends at a character
      boundary. */
  lemma TruncatedIsLongest(key: Key, k: nat)
    requires k <= |key| && k <= MAX_KEY_LEN && IsCharBoundary(key, k)
    ensures Truncated(key) <= key && |Truncated(key)| <= MAX_KEY_LEN
    ensures IsCharBoundary(key, |Truncated(key)|)
    ensures k <= |Truncated(key)|
  {}

  lemma {:induction false} BoundaryCutsCharacters(s: Key, e: nat)
    requires Utf8(s) && e <= |s| && IsCharBoundary(s, e)
    ensures Utf8(s[..e])
    decreases |s|
  {
    if e > 0 {
      var n := CharLen(s[0]);
      assert forall i | 1 <= i < n :: IsContinuation(s[i]);
      BoundaryCutsCharacters(s[n..], e - n);
      assert s[..e][n..] == s[n..][..e - n];
    }
  }

  lemma {:induction false} BoundaryIsNear(s: Key, end: nat) returns (e: nat)
    requires Utf8(s) && end <= |s|
    ensures end < e + 4 && e <= end && IsCharBoundary(s, e)
    decreases |s|
  {
    if end == 0 || end < CharLen(s[0]) {
      e := 0;
    } else {
      var n := CharLen(s[0]);
      var rest := BoundaryIsNear(s[n..], end - n);
      e := n + rest;
      assert rest == 0 && n < |s| ==> s[n] == s[n..][0] && CharLen(s[n]) > 0;
    }
  }

  /** Truncation keeps whole characters and loses at most three bytes more than it must. */
  lemma TruncatedIsUtf8(key: Key)
    requires Utf8(key)
    ensures Utf8(Truncated(key))
    ensures |key| > MAX_KEY_LEN ==> |Truncated(key)| > MAX_KEY_LEN - 4
  {
    if |key| > MAX_KEY_LEN {
      var e := BoundaryIsNear(key, MAX_KEY_LEN);
      BoundaryCutsCharacters(key, BoundaryAtOrBelow(key, MAX_KEY_LEN));
    }
  }

  // ---- The limiter -----------------------------------------------------------------------

  type Shard = map<Key, BucketState>

  function Lookup(shard: Shard, k: Key): Option<BucketState> {
    if k in shard then Some(shard[k]) else None
  }

  function ShardIndex(hash: Key -> nat, key: Key): (i: nat)
    ensures i < NUM_SHARDS
  {
    hash(key) % NUM_SHARDS
  }

  /** What every reachable limiter satisfies. */
  ghost predicate WellKept(cfg: Config, hash: Key -> nat, shards: seq<Shard>) {
    |shards| == NUM_SHARDS && forall i | 0 <= i < NUM_SHARDS :: ShardKept(cfg, hash, i, shards[i])
  }

  ghost predicate ShardKept(cfg: Config, hash: Key -> nat, i: nat, shard: Shard) {
    && |shard| <= MAX_SHARD_ENTRIES
    && (forall k | k in shard ::
          ShardIndex(hash, k) == i && |k| <= MAX_KEY_LEN && InBounds(cfg, shard[k]))
  }

  /** One check of the stored key `k` on its own shard: `evicted` is the key thrown out to make
      room, if any. */
  ghost predicate ShardStep(cfg: Config, before: Shard, after: Shard, k: Key, now: real,
                            evicted: Option<Key>, d: Decision)
    requires cfg.Valid()
  {
    var kept := if evicted.Some? then before - {evicted.value} else before;
    var (decision, b) := Consult(cfg, Found(cfg, Lookup(before, k), now), now);
    && (evicted.Some? <==> k !in before && |before| >= MAX_SHARD_ENTRIES)
    && (evicted.Some? ==> evicted.value in before)
    && d == decision
    && after == kept[k := b]
  }

  /** One check of `key` at time `now` touches the shard of its stored form only. */
  ghost predicate CheckStep(cfg: Config, hash: Key -> nat, before: seq<Shard>, after: seq<Shard>,
                            key: Key, now: real, evicted: Option<Key>, d: Decision)
    requires cfg.Valid() && |before| == |after| == NUM_SHARDS
  {
    var i := ShardIndex(hash, Truncated(key));
    && ShardStep(cfg, before[i], after[i], Truncated(key), now, evicted, d)
    && after == before[i := after[i]]
  }

  lemma TruncatedFits(key: Key)
    ensures |Truncated(key)| <= MAX_KEY_LEN
  {}

  lemma ShardStepKeeps(cfg: Config, hash: Key -> nat, i: nat, before: Shard, after: Shard, k: Key,
                       now: real, evicted: Option<Key>, d: Decision)
    requires cfg.Valid() && ShardStep(cfg, before, after, k, now, evicted, d)
    requires ShardKept(cfg, hash, i, before)
    requires ShardIndex(hash, k) == i && |k| <= MAX_KEY_LEN
    ensures ShardKept(cfg, hash, i, after)
  {
    var kept := if evicted.Some? then before - {evicted.value} else before;
    var b := Found(cfg, Lookup(before, k), now);
    TokensStayInBounds(cfg, b, now);
    if evicted.Some? {
      assert kept.Keys == before.Keys - {evicted.value};
    }
    assert after.Keys == kept.Keys + {k};
    assert |after.Keys| == |after| && |kept.Keys| == |kept| && |before.Keys| == |before|;
  }

  /** Every check keeps each shard bounded, each key in its own shard and short, and each bucket
      between empty and full. */
  lemma CheckKeeps(cfg: Config, hash: Key -> nat, before: seq<Shard>, after: seq<Shard>,
                   key: Key, now: real, evicted: Option<Key>, d: Decision)
    requires cfg.Valid() && WellKept(cfg, hash, before) && |after| == NUM_SHARDS
    requires CheckStep(cfg, hash, before, after, key, now, evicted, d)
    ensures WellKept(cfg, hash, after)
  {
    var i := ShardIndex(hash, Truncated(key));
    TruncatedFits(key);
    ShardStepKeeps(cfg, hash, i, before[i], after[i], Truncated(key), now, evicted, d);
  }

  class RateLimiter {
    const cfg: Config
    const hash: Key -> nat
    const shards: array<Shard>

    ghost predicate Valid()
      reads shards
    {
      cfg.Valid() && WellKept(cfg, hash, shards[..])
    }

    /** The standard library's hasher is any function of the key. */
    constructor (limit: nat, windowSecs: real, hash: Key -> nat)
      requires limit > 0 && windowSecs > 0.0
      ensures Valid() && fresh(shards) && this.hash == hash
      ensures cfg == Config(limit, limit as real / windowSecs)
      ensures forall i | 0 <= i < NUM_SHARDS :: shards[i] == map[]
    {
      cfg := Config(limit, limit as real / windowSecs);
      this.hash := hash;
      shards := new Shard[NUM_SHARDS](i => map[]);
    }

    /** The bucket of `key`, after making room for a new key if the shard is full. */
    method EntryOf(shard: Shard, key: Key, now: real) returns (kept: Shard, bucket: BucketState,
                   ghost evicted: Option<Key>)
      ensures bucket == Found(cfg, Lookup(shard, key), now)
      ensures kept == if evicted.Some? then shard - {evicted.value} else shard
      ensures evicted.Some? <==> key !in shard && |shard| >= MAX_SHARD_ENTRIES
      ensures evicted.Some? ==> evicted.value in shard
    {
      kept, evicted := shard, None;
      if key in shard {
        bucket := shard[key];
      } else {
        if |shard| >= MAX_SHARD_ENTRIES {
          assert shard.Keys != {};
          var evict :| evict in shard.Keys;
          kept := shard - {evict};
          evicted := Some(evict);
        }
        bucket := Fresh(cfg, now);
      }
    }

    /** Take a token if there is one; a denial leaves the bucket as it was. */
    method Spend(bucket: BucketState, now: real) returns (d: Decision, next: BucketState)
      requires cfg.Valid()
      ensures (d, next) == Consult(cfg, bucket, now)
    {
      next := bucket;
      var refilled := Level(cfg, bucket, now);
      if refilled >= 1.0 {
        var remainingTokens := refilled - 1.0;
        next := BucketState(remainingTokens, now);
        d := Grant(cfg, remainingTokens);
      } else {
        d := Deny(cfg, refilled);
      }
    }

    /** `check`, from taking the shard lock to releasing it. */
    method Check(rawKey: Key, now: real) returns (d: Decision, ghost evicted: Option<Key>)
      requires Valid()
      modifies shards
      ensures Valid()
      ensures CheckStep(cfg, hash, old(shards[..]), shards[..], rawKey, now, evicted, d)
    {
      ghost var before := shards[..];
      var key := TruncateKey(rawKey);
      var idx := ShardIndex(hash, key);
      var shard, bucket;
      shard, bucket, evicted := EntryOf(shards[idx], key, now);
      d, bucket := Spend(bucket, now);
      shards[idx] := shard[key := bucket];
      assert ShardStep(cfg, before[idx], shards[idx], key, now, evicted, d);
      assert shards[..] == before[idx := shards[idx]];
      CheckKeeps(cfg, hash, before, shards[..], rawKey, now, evicted, d);
    }
  }

  // ---- Runs ------------------------------------------------------------------------------

  datatype Check = Check(key: Key, now: real)

  /** A run of the limiter: consecutive states with the check and the decision between them. */
  ghost predicate IsRun(cfg: Config, hash: Key -> nat, states: seq<seq<Shard>>, checks: seq<Check>, ds: seq<Decision>)
    requires cfg.Valid()
  {
    && |states| == |checks| + 1 && |ds| == |checks|
    && (forall t | 0 <= t < |states| :: |states[t]| == NUM_SHARDS)
    && (forall t | 0 <= t < |checks| :: Steps(cfg, hash, states[t], states[t + 1], checks[t], ds[t]))
  }

  ghost predicate Steps(cfg: Config, hash: Key -> nat, before: seq<Shard>, after: seq<Shard>, c: Check, d: Decision)
    requires cfg.Valid() && |before| == |after| == NUM_SHARDS
  {
    exists evicted :: CheckStep(cfg, hash, before, after, c.key, c.now, evicted, d)
  }

  const EMPTY: seq<Shard> := seq(NUM_SHARDS, _ => map[])

  /** In every run, evictions included, each shard holds at most 8192 keys, each key is stored
      in its own shard in truncated form, and each bucket is between empty and full. */
  lemma {:induction false} RunsAreWellKept(cfg: Config, hash: Key -> nat, states: seq<seq<Shard>>,
                                           checks: seq<Check>, ds: seq<Decision>, t: nat)
    requires cfg.Valid() && IsRun(cfg, hash, states, checks, ds) && states[0] == EMPTY
    requires t < |states|
    ensures WellKept(cfg, hash, states[t])
  {
    if t > 0 {
      RunsAreWellKept(cfg, hash, states, checks, ds, t - 1);
      assert Steps(cfg, hash, states[t - 1], states[t - 1 + 1], checks[t - 1], ds[t - 1]);
      var c := checks[t - 1];
      var evicted :| CheckStep(cfg, hash, states[t - 1], states[t], c.key, c.now, evicted, ds[t - 1]);
      CheckKeeps(cfg, hash, states[t - 1], states[t], checks[t - 1].key, checks[t - 1].now, evicted, ds[t - 1]);
    }
  }

  /** The reference limiter: one map of buckets without a bound. */
  ghost function PlainDecisions(cfg: Config, buckets: Shard, checks: seq<Check>): (ds: seq<Decision>)
    requires cfg.Valid()
    ensures |ds| == |checks|
    decreases |checks|
  {
    if checks == [] then [] else
      var k, now := Truncated(checks[0].key), checks[0].now;
      var (d, b) := Consult(cfg, Found(cfg, Lookup(buckets, k), now), now);
      [d] + PlainDecisions(cfg, buckets[k := b], checks[1..])
  }

  /** The shards together hold the buckets of the plain map. */
  ghost predicate Holds(hash: Key -> nat, shards: seq<Shard>, buckets: Shard)
    requires |shards| == NUM_SHARDS
  {
    forall k :: var shard := shards[ShardIndex(hash, k)];
      (k in shard <==> k in buckets) && (k in shard ==> shard[k] == buckets[k])
  }

  ghost predicate NoShardFull(states: seq<seq<Shard>>) {
    forall t, i | 0 <= t < |states| && 0 <= i < |states[t]| :: |states[t][i]| < MAX_SHARD_ENTRIES
  }

  lemma {:induction false} ShardedFromState(cfg: Config, hash: Key -> nat, states: seq<seq<Shard>>,
                                            checks: seq<Check>, ds: seq<Decision>, buckets: Shard)
    requires cfg.Valid() && IsRun(cfg, hash, states, checks, ds) && NoShardFull(states)
    requires Holds(hash, states[0], buckets)
    ensures ds == PlainDecisions(cfg, buckets, checks)
    decreases |checks|
  {
    if checks != [] {
      var k, now := Truncated(checks[0].key), checks[0].now;
      var i := ShardIndex(hash, k);
      assert Steps(cfg, hash, states[0], states[0 + 1], checks[0], ds[0]);
      var evicted :| CheckStep(cfg, hash, states[0], states[1], checks[0].key, now, evicted, ds[0]);
      assert |states[0][i]| < MAX_SHARD_ENTRIES;
      var (d, b) := Consult(cfg, Found(cfg, Lookup(buckets, k), now), now);
      assert ds[0] == d && states[1] == states[0][i := states[0][i][k := b]];
      forall t | 0 <= t < |checks[1..]|
        ensures Steps(cfg, hash, states[1..][t], states[1..][t + 1], checks[1..][t], ds[1..][t])
      {
        assert Steps(cfg, hash, states[t + 1], states[t + 1 + 1], checks[t + 1], ds[t + 1]);
      }
      ShardedFromState(cfg, hash, states[1..], checks[1..], ds[1..], buckets[k := b]);
    }
  }

  /** Over every run in which no shard fills up, sharding is invisible: the decisions are those
      of one unbounded map of buckets. */
  lemma ShardingIsInvisible(cfg: Config, hash: Key -> nat, states: seq<seq<Shard>>, checks: seq<Check>,
                            ds: seq<Decision>)
    requires cfg.Valid() && IsRun(cfg, hash, states, checks, ds) && states[0] == EMPTY
    requires NoShardFull(states)
    ensures ds == PlainDecisions(cfg, map[], checks)
  {
    ShardedFromState(cfg, hash, states, checks, ds, map[]);
  }

  // ---- One key in a run of many ------------------------------------------------------------

  ghost function TimesOf(checks: seq<Check>, k: Key): seq<real> {
    if checks == [] then [] else
      (if Truncated(checks[0].key) == k then [checks[0].now] else []) + TimesOf(checks[1..], k)
  }

  ghost function DecisionsOf(checks: seq<Check>, ds: seq<Decision>, k: Key): seq<Decision>
    requires |checks| == |ds|
  {
    if checks == [] then [] else
      (if Truncated(checks[0].key) == k then [ds[0]] else []) + DecisionsOf(checks[1..], ds[1..], k)
  }

  lemma PlainUnfold(cfg: Config, buckets: Shard, checks: seq<Check>)
    requires cfg.Valid() && checks != []
    ensures var k, now := Truncated(checks[0].key), checks[0].now;
            var (d, b) := Consult(cfg, Found(cfg, Lookup(buckets, k), now), now);
            PlainDecisions(cfg, buckets, checks) == [d] + PlainDecisions(cfg, buckets[k := b], checks[1..])
  {}

  lemma DecisionsUnfold(cfg: Config, b: Option<BucketState>, now: real, later: seq<real>)
    requires cfg.Valid()
    ensures var (d, next) := Consult(cfg, Found(cfg, b, now), now);
            Decisions(cfg, b, [now] + later) == [d] + Decisions(cfg, Some(next), later)
  {
    assert ([now] + later)[1..] == later;
  }

  lemma Select(checks: seq<Check>, d: Decision, rest: seq<Decision>, k: Key)
    requires checks != [] && |rest| == |checks| - 1
    ensures DecisionsOf(checks, [d] + rest, k)
            == (if Truncated(checks[0].key) == k then [d] else []) + DecisionsOf(checks[1..], rest, k)
  {
    assert ([d] + rest)[1..] == rest;
  }

  /** The checks of one key proceed as if it were alone. */
  lemma {:induction false} KeysAreIndependent(cfg: Config, buckets: Shard, checks: seq<Check>, k: Key)
    requires cfg.Valid()
    ensures DecisionsOf(checks, PlainDecisions(cfg, buckets, checks), k)
            == Decisions(cfg, Lookup(buckets, k), TimesOf(checks, k))
    decreases |checks|
  {
    if checks != [] {
      var key, now, later := Truncated(checks[0].key), checks[0].now, checks[1..];
      var (d, b) := Consult(cfg, Found(cfg, Lookup(buckets, key), now), now);
      var rest := PlainDecisions(cfg, buckets[key := b], later);
      KeysAreIndependent(cfg, buckets[key := b], later, k);
      calc {
        DecisionsOf(checks, PlainDecisions(cfg, buckets, checks), k);
        { PlainUnfold(cfg, buckets, checks); }
        DecisionsOf(checks, [d] + rest, k);
        { Select(checks, d, rest, k); }
        (if key == k then [d] else []) + DecisionsOf(later, rest, k);
        (if key == k then [d] else []) + Decisions(cfg, Lookup(buckets[key := b], k), TimesOf(later, k));
        { DecisionsUnfold(cfg, Lookup(buckets, k), now, TimesOf(later, k));
          assert key != k ==> Lookup(buckets[key := b], k) == Lookup(buckets, k);
          assert [] + TimesOf(later, k) == TimesOf(later, k);
        }
        Decisions(cfg, Lookup(buckets, k), TimesOf(checks, k));
      }
    }
  }

  ghost predicate CheckedAt(checks: seq<Check>, x: real) {
    exists i :: 0 <= i < |checks| && checks[i].now == x
  }

  lemma {:induction false} TimesAreOfChecks(checks: seq<Check>, k: Key)
    ensures forall x | x in TimesOf(checks, k) :: CheckedAt(checks, x)
  {
    if checks != [] {
      TimesAreOfChecks(checks[1..], k);
      forall x | x in TimesOf(checks, k) ensures CheckedAt(checks, x) {
        if x == checks[0].now {
        } else {
          assert x in TimesOf(checks[1..], k);
          var i :| 0 <= i < |checks[1..]| && checks[1..][i].now == x;
          assert checks[i + 1].now == x;
        }
      }
    }
  }

  lemma FirstTime(now: real, rest: seq<real>)
    requires NonDecreasing(rest) && forall x | x in rest :: now <= x
    ensures NonDecreasing([now] + rest)
  {
    var times := [now] + rest;
    forall i, j | 0 <= i < j < |times| ensures times[i] <= times[j] {
      assert times[j] == rest[j - 1] && rest[j - 1] in rest;
      assert i > 0 ==> times[i] == rest[i - 1];
    }
  }

  lemma {:induction false} TimesStayOrdered(checks: seq<Check>, k: Key)
    requires forall i, j | 0 <= i < j < |checks| :: checks[i].now <= checks[j].now
    ensures NonDecreasing(TimesOf(checks, k))
  {
    if checks != [] {
      TimesStayOrdered(checks[1..], k);
      var rest := TimesOf(checks[1..], k);
      TimesAreOfChecks(checks[1..], k);
      forall x | x in rest ensures checks[0].now <= x {
        var i :| 0 <= i < |checks[1..]| && checks[1..][i].now == x;
        assert checks[i + 1].now == x;
      }
      FirstTime(checks[0].now, rest);
    }
  }

  /** The window bound for the whole limiter: whatever the other clients do, no key is allowed
      more than `limit + rate * (t2 - t1)` requests between two times, as long as no shard fills
      up and the locks are taken in time order. */
  lemma LimiterWindowBound(cfg: Config, hash: Key -> nat, states: seq<seq<Shard>>, checks: seq<Check>,
                           ds: seq<Decision>, k: Key, t1: real, t2: real)
    requires cfg.Valid() && IsRun(cfg, hash, states, checks, ds) && states[0] == EMPTY
    requires NoShardFull(states) && t1 <= t2
    requires forall i, j | 0 <= i < j < |checks| :: checks[i].now <= checks[j].now
    ensures |DecisionsOf(checks, ds, k)| == |TimesOf(checks, k)|
    ensures AllowedBetween(TimesOf(checks, k), DecisionsOf(checks, ds, k), t1, t2) as real
            <= Budget(cfg, cfg.limit as real, t1, t2)
  {
    ShardingIsInvisible(cfg, hash, states, checks, ds);
    KeysAreIndependent(cfg, map[], checks, k);
    TimesStayOrdered(checks, k);
    WindowBound(cfg, TimesOf(checks, k), t1, t2);
  }

  // ---- One key in a run with evictions -------------------------------------------------------

  /** What one step does to the bucket of `k`: a check, an eviction, or nothing. */
  ghost function MoveAt(hash: Key -> nat, before: seq<Shard>, after: seq<Shard>, c: Check, k: Key): seq<Move>
    requires |before| == |after| == NUM_SHARDS
  {
    var i := ShardIndex(hash, k);
    if Truncated(c.key) == k then [At(c.now)]
    else if k in before[i] && k !in after[i] then [Evicted]
    else []
  }

  ghost function MovesOf(hash: Key -> nat, states: seq<seq<Shard>>, checks: seq<Check>, k: Key): seq<Move>
    requires |states| == |checks| + 1 && forall t | 0 <= t < |states| :: |states[t]| == NUM_SHARDS
    decreases |checks|
  {
    if checks == [] then [] else
      MoveAt(hash, states[0], states[1], checks[0], k) + MovesOf(hash, states[1..], checks[1..], k)
  }

  /** How often the key is evicted. */
  ghost function EvictionsOf(hash: Key -> nat, states: seq<seq<Shard>>, checks: seq<Check>, k: Key): nat
    requires |states| == |checks| + 1 && forall t | 0 <= t < |states| :: |states[t]| == NUM_SHARDS
    decreases |checks|
  {
    if checks == [] then 0 else
      (if Truncated(checks[0].key) != k && k in states[0][ShardIndex(hash, k)] && k !in states[1][ShardIndex(hash, k)]
       then 1 else 0)
      + EvictionsOf(hash, states[1..], checks[1..], k)
  }

  /** One step, seen from the bucket of `k`. */
  lemma StepFromKey(cfg: Config, hash: Key -> nat, before: seq<Shard>, after: seq<Shard>, c: Check, d: Decision, k: Key)
    requires cfg.Valid() && |before| == |after| == NUM_SHARDS && Steps(cfg, hash, before, after, c, d)
    ensures var i := ShardIndex(hash, k);
            var (decision, next) := Consult(cfg, Found(cfg, Lookup(before[i], k), c.now), c.now);
            if Truncated(c.key) == k then d == decision && Lookup(after[i], k) == Some(next)
            else Lookup(after[i], k) == if k in before[i] && k !in after[i] then None else Lookup(before[i], k)
  {
    var evicted :| CheckStep(cfg, hash, before, after, c.key, c.now, evicted, d);
  }

  lemma TailIsRun(cfg: Config, hash: Key -> nat, states: seq<seq<Shard>>, checks: seq<Check>, ds: seq<Decision>)
    requires cfg.Valid() && IsRun(cfg, hash, states, checks, ds) && checks != []
    ensures IsRun(cfg, hash, states[1..], checks[1..], ds[1..])
    ensures Steps(cfg, hash, states[0], states[1], checks[0], ds[0])
  {
    forall t | 0 <= t < |checks[1..]|
      ensures Steps(cfg, hash, states[1..][t], states[1..][t + 1], checks[1..][t], ds[1..][t])
    {
      assert Steps(cfg, hash, states[t + 1], states[t + 1 + 1], checks[t + 1], ds[t + 1]);
    }
    assert Steps(cfg, hash, states[0], states[0 + 1], checks[0], ds[0]);
  }

  lemma MovesCons(cfg: Config, b: Option<BucketState>, move: seq<Move>, rest: seq<Move>)
    requires cfg.Valid() && |move| <= 1
    ensures TimesIn(move + rest) == if move != [] && move[0].At? then [move[0].now] + TimesIn(rest) else TimesIn(rest)
    ensures MoveDecisions(cfg, b, move + rest)
            == if move == [] then MoveDecisions(cfg, b, rest)
               else if move[0].Evicted? then MoveDecisions(cfg, None, rest)
               else
                 var (d, next) := Consult(cfg, Found(cfg, b, move[0].now), move[0].now);
                 [d] + MoveDecisions(cfg, Some(next), rest)
    ensures Regained(cfg, move + rest)
            == (if move != [] && move[0].Evicted? then cfg.limit else 0) + Regained(cfg, rest)
  {
    if move == [] {
      assert move + rest == rest;
    } else {
      assert (move + rest)[1..] == rest;
    }
  }

  /** The decisions for one key are those of its own bucket, evictions included. */
  lemma {:induction false} KeyIsItsMoves(cfg: Config, hash: Key -> nat, states: seq<seq<Shard>>, checks: seq<Check>,
                                         ds: seq<Decision>, k: Key)
    requires cfg.Valid() && IsRun(cfg, hash, states, checks, ds)
    ensures TimesOf(checks, k) == TimesIn(MovesOf(hash, states, checks, k))
    ensures DecisionsOf(checks, ds, k)
            == MoveDecisions(cfg, Lookup(states[0][ShardIndex(hash, k)], k), MovesOf(hash, states, checks, k))
    decreases |checks|
  {
    if checks != [] {
      TailIsRun(cfg, hash, states, checks, ds);
      StepFromKey(cfg, hash, states[0], states[1], checks[0], ds[0], k);
      KeyIsItsMoves(cfg, hash, states[1..], checks[1..], ds[1..], k);
      MovesCons(cfg, Lookup(states[0][ShardIndex(hash, k)], k), MoveAt(hash, states[0], states[1], checks[0], k),
                MovesOf(hash, states[1..], checks[1..], k));
    }
  }

  lemma {:induction false} RegainedIsEvictions(cfg: Config, hash: Key -> nat, states: seq<seq<Shard>>,
                                               checks: seq<Check>, k: Key)
    requires cfg.Valid() && |states| == |checks| + 1 && forall t | 0 <= t < |states| :: |states[t]| == NUM_SHARDS
    ensures Regained(cfg, MovesOf(hash, states, checks, k)) == EvictionsOf(hash, states, checks, k) * cfg.limit
    decreases |checks|
  {
    if checks != [] {
      RegainedIsEvictions(cfg, hash, states[1..], checks[1..], k);
      var move, rest := MoveAt(hash, states[0], states[1], checks[0], k), MovesOf(hash, states[1..], checks[1..], k);
      MovesCons(cfg, None, move, rest);
      var n := EvictionsOf(hash, states[1..], checks[1..], k);
      OneMore(n, cfg.limit);
      assert EvictionsOf(hash, states, checks, k) == if move != [] && move[0].Evicted? then n + 1 else n;
    }
  }

  lemma OneMore(n: nat, limit: nat)
    ensures (n + 1) * limit == limit + n * limit
  {}

  lemma {:induction false} MovesAreOrdered(hash: Key -> nat, states: seq<seq<Shard>>, checks: seq<Check>, k: Key,
                                           now: real)
    requires |states| == |checks| + 1 && forall t | 0 <= t < |states| :: |states[t]| == NUM_SHARDS
    requires forall i, j | 0 <= i < j < |checks| :: checks[i].now <= checks[j].now
    requires checks != [] ==> now <= checks[0].now
    ensures TimesFrom(MovesOf(hash, states, checks, k), now)
    decreases |checks|
  {
    if checks != [] {
      var move, rest := MoveAt(hash, states[0], states[1], checks[0], k), MovesOf(hash, states[1..], checks[1..], k);
      MovesAreOrdered(hash, states[1..], checks[1..], k, if move != [] && move[0].At? then checks[0].now else now);
      if move == [] {
        assert move + rest == rest;
      } else {
        assert (move + rest)[1..] == rest;
      }
    }
  }

  /** The window bound of every key in every run whose locks are taken in time order, full shards
      and evictions included: `limit + rate * (t2 - t1)`, and one more `limit` for every time the key
      is evicted. */
  lemma LimiterWindowBoundWithEvictions(cfg: Config, hash: Key -> nat, states: seq<seq<Shard>>, checks: seq<Check>,
                                        ds: seq<Decision>, k: Key, t1: real, t2: real)
    requires cfg.Valid() && IsRun(cfg, hash, states, checks, ds) && states[0] == EMPTY && t1 <= t2
    requires forall i, j | 0 <= i < j < |checks| :: checks[i].now <= checks[j].now
    ensures |DecisionsOf(checks, ds, k)| == |TimesOf(checks, k)|
    ensures AllowedBetween(TimesOf(checks, k), DecisionsOf(checks, ds, k), t1, t2) as real
            <= Budget(cfg, cfg.limit as real, t1, t2) + (EvictionsOf(hash, states, checks, k) * cfg.limit) as real
  {
    var now := if checks == [] then 0.0 else checks[0].now;
    var moves := MovesOf(hash, states, checks, k);
    KeyIsItsMoves(cfg, hash, states, checks, ds, k);
    RegainedIsEvictions(cfg, hash, states, checks, k);
    MovesAreOrdered(hash, states, checks, k, now);
    WindowBoundWithEvictions(cfg, None, moves, t1, t2, now);
  }

  // ---- Which keys are stored -----------------------------------------------------------------

  ghost predicate WasChecked(checks: seq<Check>, t: nat, k: Key) {
    exists u :: 0 <= u < t && u < |checks| && Truncated(checks[u].key) == k
  }

  /** Every key stored at any moment of any run is the truncated form of a key checked before. */
  lemma {:induction false} StoredKeysWereChecked(cfg: Config, hash: Key -> nat, states: seq<seq<Shard>>,
                                                 checks: seq<Check>, ds: seq<Decision>, t: nat, i: nat, k: Key)
    requires cfg.Valid() && IsRun(cfg, hash, states, checks, ds) && states[0] == EMPTY
    requires t < |states| && i < NUM_SHARDS && k in states[t][i]
    ensures WasChecked(checks, t, k)
  {
    if t > 0 {
      var c := checks[t - 1];
      assert Steps(cfg, hash, states[t - 1], states[t - 1 + 1], c, ds[t - 1]);
      var evicted :| CheckStep(cfg, hash, states[t - 1], states[t], c.key, c.now, evicted, ds[t - 1]);
      if k in states[t - 1][i] {
        StoredKeysWereChecked(cfg, hash, states, checks, ds, t - 1, i, k);
        var u :| 0 <= u < t - 1 && u < |checks| && Truncated(checks[u].key) == k;
        assert Truncated(checks[u].key) == k;
      } else {
        assert Truncated(checks[t - 1].key) == k;
      }
    }
  }
}
