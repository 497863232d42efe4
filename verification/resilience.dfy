/** The adaptive concurrency limiter of `oxyroute/resilience.py`, over real numbers. */
module Resilience {
  import opened Numbers
  import opened Text

  /** `min` of a deque of samples. */
  function Least(s: seq<real>): (m: real)
    requires s != []
    ensures m in s && forall i | 0 <= i < |s| :: m <= s[i]
  {
    if |s| == 1 then s[0] else Min(s[0], Least(s[1..]))
  }

  function LeastOf(s: seq<real>): Option<real> {
    if s == [] then None else Some(Least(s))
  }

  /** The last `n` elements, or all of them. */
  function LastOf<T>(s: seq<T>, n: nat): seq<T> {
    if |s| <= n then s else s[|s| - n..]
  }

  datatype Limiter = Limiter(
    minLimit: int,
    maxLimit: int,
    currentLimit: real,
    alpha: real,
    smoothing: real,
    rttWindowSize: nat,
    rttSamples: seq<real>,
    minRtt: Option<real>,
    avgRtt: Option<real>)

  function NewLimiter(minLimit: int, maxLimit: int, initialLimit: int, alpha: real, smoothing: real,
                      rttWindowSize: int): Limiter {
    var lowest := MaxInt(1, minLimit);
    var highest := MaxInt(lowest, maxLimit);
    Limiter(lowest, highest, MinInt(MaxInt(initialLimit, lowest), highest) as real, alpha, smoothing,
            MaxInt(10, rttWindowSize), [], None, None)
  }

  /** The integer limit handed to the application. */
  function Limit(l: Limiter): int {
    l.currentLimit.Floor
  }

  predicate Accepted(latency: real, status: int) {
    latency > 0.0 && 200 <= status < 300
  }

  predicate IsRoot(root: real, x: real) {
    root >= 0.0 && root * root == x
  }

  /** Exponential smoothing of `old'` towards `new'`. */
  function Blend(smoothing: real, old': real, new': real): real {
    (1.0 - smoothing) * old' + smoothing * new'
  }

  /** Where the latency gradient points the limit. */
  function Target(l: Limiter, minRtt: real, avgRtt: real, root: real): real
    requires avgRtt > 0.0
  {
    var gradient := Min(1.0, minRtt / avgRtt);
    var headroom := Max(l.alpha, root);
    l.currentLimit * gradient + headroom
  }

  function Clamp(l: Limiter, x: real): real {
    Max(l.minLimit as real, Min(l.maxLimit as real, x))
  }

  /** The clamped limit after one accepted sample. */
  function Adjust(l: Limiter, minRtt: real, avgRtt: real, root: real): real
    requires avgRtt > 0.0
  {
    Clamp(l, Blend(l.smoothing, l.currentLimit, Target(l, minRtt, avgRtt, root)))
  }

  /** The averages after a sample, before the limit is adjusted. */
  function Sampled(l: Limiter, latency: real): Limiter {
    var samples := LastOf(l.rttSamples + [latency], l.rttWindowSize);
    l.(rttSamples := samples,
       minRtt := LeastOf(samples),
       avgRtt := Some(if l.avgRtt.None? then latency
                      else Blend(l.smoothing, l.avgRtt.value, latency)))
  }

  predicate Adjusts(l: Limiter, latency: real, status: int) {
    Accepted(latency, status) &&
    var s := Sampled(l, latency);
    s.minRtt.Some? && s.minRtt.value > 0.0 && s.avgRtt.value > 0.0
  }

  /** One call of `on_request_completed`, `root` being the square root of the current limit. */
  function Completed(l: Limiter, latency: real, status: int, root: real): Limiter {
    if !Accepted(latency, status) then l else
      var s := Sampled(l, latency);
      if Adjusts(l, latency, status)
      then s.(currentLimit := Adjust(s, s.minRtt.value, s.avgRtt.value, root))
      else s
  }

  /** The part of the application the limiter drives. */
  class App {
    var maxConcurrency: nat

    method SetMaxConcurrency(limit: nat)
      modifies this
      ensures maxConcurrency == limit
    {
      maxConcurrency := limit;
    }
  }

  class AdaptiveConcurrencyLimiter {
    const app: App
    const minLimit: int
    const maxLimit: int
    const alpha: real
    const smoothing: real
    const rttWindowSize: nat
    var currentLimit: real
    var rttSamples: seq<real>
    var minRtt: Option<real>
    var avgRtt: Option<real>

    ghost function Value(): Limiter
      reads this
    {
      Limiter(minLimit, maxLimit, currentLimit, alpha, smoothing, rttWindowSize, rttSamples, minRtt, avgRtt)
    }

    ghost predicate Valid()
      reads this
    {
      InRange(Value())
    }

    constructor (app: App, minLimit: int, maxLimit: int, initialLimit: int, alpha: real, smoothing: real,
                 rttWindowSize: int)
      modifies app
      ensures Valid() && IsNew(Value()) && this.app == app && app.maxConcurrency == Limit(Value())
      ensures Value() == NewLimiter(minLimit, maxLimit, initialLimit, alpha, smoothing, rttWindowSize)
    {
      this.app := app;
      var lowest := MaxInt(1, minLimit);
      var highest := MaxInt(lowest, maxLimit);
      var current := MinInt(MaxInt(initialLimit, lowest), highest);
      this.minLimit, this.maxLimit := lowest, highest;
      this.currentLimit := current as real;
      this.alpha, this.smoothing := alpha, smoothing;
      this.rttWindowSize := MaxInt(10, rttWindowSize);
      this.rttSamples, this.minRtt, this.avgRtt := [], None, None;
      new;
      app.SetMaxConcurrency(current);
    }

    /** Append a sample to the bounded deque. */
    method Push(latency: real)
      requires rttWindowSize > 0 && |rttSamples| <= rttWindowSize
      modifies this`rttSamples
      ensures rttSamples == LastOf(old(rttSamples) + [latency], rttWindowSize)
    {
      rttSamples := rttSamples + [latency];
      if |rttSamples| > rttWindowSize {
        rttSamples := rttSamples[1..];
      }
    }

    method Average(latency: real)
      modifies this`avgRtt
      ensures avgRtt == Some(if old(avgRtt).None? then latency else Blend(smoothing, old(avgRtt).value, latency))
    {
      if avgRtt.None? {
        avgRtt := Some(latency);
      } else {
        avgRtt := Some((1.0 - smoothing) * avgRtt.value + smoothing * latency);
      }
    }

    method AdjustLimit(least: real, average: real, root: real)
      requires average > 0.0
      modifies this`currentLimit
      ensures currentLimit == Adjust(old(Value()), least, average, root)
    {
      var gradient := Min(1.0, least / average);
      var headroom := Max(alpha, root);
      var target := currentLimit * gradient + headroom;
      currentLimit := (1.0 - smoothing) * currentLimit + smoothing * target;
      currentLimit := Max(minLimit as real, Min(maxLimit as real, currentLimit));
    }

    /** `on_request_completed`; the caller supplies the square root of the current limit. */
    method OnRequestCompleted(latency: real, status: int, root: real) returns (limit: nat)
      requires Valid() && IsRoot(root, currentLimit)
      modifies this, app
      ensures Valid() && Value() == Completed(old(Value()), latency, status, root)
      ensures limit == Limit(Value())
      ensures app.maxConcurrency == if Adjusts(old(Value()), latency, status) then limit else old(app.maxConcurrency)
    {
      StaysInRange(Value(), latency, status, root);
      if latency <= 0.0 || !(200 <= status < 300) {
        return currentLimit.Floor;
      }
      Push(latency);
      minRtt := Some(Least(rttSamples));
      Average(latency);
      assert Value() == Sampled(old(Value()), latency);
      if minRtt.value > 0.0 && avgRtt.value > 0.0 {
        AdjustLimit(minRtt.value, avgRtt.value, root);
        var newLimit := currentLimit.Floor;
        app.SetMaxConcurrency(newLimit);
        return newLimit;
      }
      return currentLimit.Floor;
    }
  }

  // ---- Range -----------------------------------------------------------------------------

  ghost predicate InRange(l: Limiter) {
    && 1 <= l.minLimit <= l.maxLimit && l.rttWindowSize >= 10
    && l.minLimit as real <= l.currentLimit <= l.maxLimit as real
    && |l.rttSamples| <= l.rttWindowSize
    && 1 <= l.minLimit <= Limit(l) <= l.maxLimit
  }

  /** Whatever the parameters and samples, the limit stays within its bounds and is never 0,
      which the application would read as unlimited. */
  lemma StaysInRange(l: Limiter, latency: real, status: int, root: real)
    requires InRange(l)
    ensures InRange(Completed(l, latency, status, root))
  {}

  // ---- Runs ------------------------------------------------------------------------------

  datatype Sample = Sample(latency: real, status: int, root: real)

  function RunAll(l: Limiter, run: seq<Sample>): Limiter {
    if run == [] then l else
      var last := run[|run| - 1];
      Completed(RunAll(l, run[..|run| - 1]), last.latency, last.status, last.root)
  }

  /** Every sample of the run carries the square root of the limit it meets. */
  ghost predicate TrueRoots(l: Limiter, run: seq<Sample>) {
    forall i | 0 <= i < |run| :: IsRoot(run[i].root, RunAll(l, run[..i]).currentLimit)
  }

  function Latencies(run: seq<Sample>): seq<real> {
    if run == [] then [] else
      var last := run[|run| - 1];
      Latencies(run[..|run| - 1]) + if Accepted(last.latency, last.status) then [last.latency] else []
  }

  ghost predicate IsNew(l: Limiter) {
    InRange(l) && l.rttSamples == [] && l.minRtt.None? && l.avgRtt.None?
  }

  /** The bounds are put in order, the start is moved between them, and the window holds ten samples at
      least. */
  lemma ConstructedIs(minLimit: int, maxLimit: int, initialLimit: int, alpha: real, smoothing: real, window: int)
    ensures var l := NewLimiter(minLimit, maxLimit, initialLimit, alpha, smoothing, window);
            && l.alpha == alpha && l.smoothing == smoothing
            && l.minLimit == (if minLimit < 1 then 1 else minLimit)
            && l.maxLimit == (if maxLimit < l.minLimit then l.minLimit else maxLimit)
            && l.rttWindowSize == (if window < 10 then 10 else window)
            && l.currentLimit == (if initialLimit < l.minLimit then l.minLimit
                                  else if initialLimit > l.maxLimit then l.maxLimit else initialLimit) as real
  {}

  /** What the constructor builds is new, so that everything said of runs holds from there. */
  lemma ConstructedIsNew(minLimit: int, maxLimit: int, initialLimit: int, alpha: real, smoothing: real, window: int)
    ensures IsNew(NewLimiter(minLimit, maxLimit, initialLimit, alpha, smoothing, window))
  {}

  lemma {:induction false} RunStaysInRange(l: Limiter, run: seq<Sample>)
    requires InRange(l)
    ensures InRange(RunAll(l, run))
    ensures RunAll(l, run).minLimit == l.minLimit && RunAll(l, run).maxLimit == l.maxLimit
    ensures RunAll(l, run).smoothing == l.smoothing && RunAll(l, run).rttWindowSize == l.rttWindowSize
  {
    if run != [] {
      var last := run[|run| - 1];
      RunStaysInRange(l, run[..|run| - 1]);
      StaysInRange(RunAll(l, run[..|run| - 1]), last.latency, last.status, last.root);
    }
  }

  lemma WindowSlides<T>(s: seq<T>, x: T, n: nat)
    requires n > 0
    ensures LastOf(LastOf(s, n) + [x], n) == LastOf(s + [x], n)
  {}

  lemma CompletedSamples(l: Limiter, latency: real, status: int, root: real)
    requires InRange(l)
    ensures var after := Completed(l, latency, status, root);
            var window := LastOf(l.rttSamples + [latency], l.rttWindowSize);
            if Accepted(latency, status)
            then after.rttSamples == window && after.minRtt == LeastOf(window)
            else after == l
  {}

  lemma {:induction false} SamplesAreLastWindow(l: Limiter, run: seq<Sample>)
    requires IsNew(l)
    ensures RunAll(l, run).rttSamples == LastOf(Latencies(run), l.rttWindowSize)
  {
    if run != [] {
      var last, front := run[|run| - 1], run[..|run| - 1];
      SamplesAreLastWindow(l, front);
      RunStaysInRange(l, front);
      CompletedSamples(RunAll(l, front), last.latency, last.status, last.root);
      WindowSlides(Latencies(front), last.latency, l.rttWindowSize);
    }
  }

  lemma {:induction false} MinRttIsLeastSample(l: Limiter, run: seq<Sample>)
    requires IsNew(l)
    ensures RunAll(l, run).minRtt == LeastOf(RunAll(l, run).rttSamples)
  {
    if run != [] {
      var last, front := run[|run| - 1], run[..|run| - 1];
      MinRttIsLeastSample(l, front);
      RunStaysInRange(l, front);
      CompletedSamples(RunAll(l, front), last.latency, last.status, last.root);
    }
  }

  /** `min_rtt` is the exact minimum of the last window of accepted latencies. */
  lemma MinRttIsWindowMinimum(l: Limiter, run: seq<Sample>)
    requires IsNew(l)
    ensures RunAll(l, run).minRtt == LeastOf(LastOf(Latencies(run), l.rttWindowSize))
  {
    SamplesAreLastWindow(l, run);
    MinRttIsLeastSample(l, run);
  }

  // ---- The floor under the limit ------------------------------------------------------------

  lemma ProductMonotone(a: real, b: real, c: real)
    requires 0.0 <= c && a <= b
    ensures a * c <= b * c && c * a <= c * b
  {}

  lemma CancelFactor(a: real, b: real, c: real)
    requires 0.0 < c && a * c <= b * c
    ensures a <= b
  {}

  lemma QuotientAtLeast(a: real, b: real, lo: real, hi: real)
    requires 0.0 < lo <= a && 0.0 < b <= hi
    ensures a / b >= lo / hi
  {
    var q, p := a / b, lo / hi;
    assert q * b == a && p * hi == lo && p > 0.0;
    ProductMonotone(b, hi, p);
    CancelFactor(p, q, b);
  }

  lemma RatioBelowOne(lo: real, hi: real)
    requires 0.0 < lo < hi
    ensures 0.0 < lo / hi < 1.0
  {
    var p := lo / hi;
    assert p * hi == lo;
    if p >= 1.0 {
      ProductMonotone(1.0, p, hi);
    }
  }

  /** With gradient at least `1 - k`, one step from `root * root` loses at most
      `s * root * (k * root - 1)`. */
  lemma StepLoss(c: real, root: real, g: real, headroom: real, target: real, k: real, s: real) returns (next: real)
    requires IsRoot(root, c) && g >= 1.0 - k && headroom >= root
    requires target == c * g + headroom && 0.0 <= s <= 1.0
    ensures next == Blend(s, c, target) >= c + s * (root * (1.0 - k * root))
  {
    next := Blend(s, c, target);
    ProductMonotone(1.0 - k, g, c);
    var low := c * (1.0 - k) + root;
    assert target >= low;
    ProductMonotone(low, target, s);
    assert low - c == root * (1.0 - k * root);
    assert s * low == s * c + s * (root * (1.0 - k * root));
  }

  /** Up to `b`, the root's step does not lose. */
  lemma StepBelow(root: real, k: real, b: real, s: real)
    requires 0.0 <= root <= b && 0.0 < k && k * b == 1.0 && 0.0 <= s
    ensures s * (root * (1.0 - k * root)) >= 0.0
  {
    ProductMonotone(root, b, k);
    ProductMonotone(0.0, 1.0 - k * root, root);
    ProductMonotone(0.0, root * (1.0 - k * root), s);
  }

  /** Above `b`, even a full step stays above `b * b`. */
  lemma FullStepAbove(root: real, k: real, b: real)
    requires 0.0 < b <= root && 0.0 < k < 1.0 && k * b == 1.0
    ensures (1.0 - k) * (root * root) + root >= b * b
  {
    ProductMonotone(b, root, b);
    ProductMonotone(b, root, root);
    ProductMonotone(b * b, root * root, 1.0 - k);
    assert k * (b * b) == (k * b) * b;
    assert (1.0 - k) * (b * b) == b * b - b;
  }

  lemma StepAbove(root: real, k: real, b: real, s: real)
    requires 0.0 < b <= root && 0.0 < k < 1.0 && k * b == 1.0 && 0.0 <= s <= 1.0
    ensures root * root + s * (root * (1.0 - k * root)) >= b * b
  {
    var loss := root * (k * root - 1.0);
    ProductMonotone(b, root, k);
    ProductMonotone(0.0, k * root - 1.0, root);
    ProductMonotone(s, 1.0, loss);
    FullStepAbove(root, k, b);
    assert root * (1.0 - k * root) == -loss;
    assert s * -loss == -(s * loss);
    assert root * root - loss == (1.0 - k) * (root * root) + root;
  }

  /** `1 / (1 - lo / hi)^2`: the limit sustained when latencies vary between `lo` and `hi`. */
  function SustainedLimit(lo: real, hi: real): real
    requires 0.0 < lo < hi
  {
    RatioBelowOne(lo, hi);
    var b := 1.0 / (1.0 - lo / hi);
    b * b
  }

  lemma StepFloor(c: real, root: real, k: real, b: real, s: real)
    requires IsRoot(root, c) && 0.0 < k < 1.0 && 0.0 < b && k * b == 1.0 && 0.0 <= s <= 1.0
    ensures c + s * (root * (1.0 - k * root)) >= Min(c, b * b)
  {
    if root <= b {
      StepBelow(root, k, b, s);
    } else {
      StepAbove(root, k, b, s);
    }
  }

  lemma InverseGap(lo: real, hi: real) returns (k: real, b: real)
    requires 0.0 < lo < hi
    ensures k == 1.0 - lo / hi && 0.0 < k < 1.0
    ensures 0.0 < b && k * b == 1.0 && b * b == SustainedLimit(lo, hi)
  {
    RatioBelowOne(lo, hi);
    k := 1.0 - lo / hi;
    b := 1.0 / k;
  }

  lemma NextFloor(c: real, root: real, g: real, headroom: real, target: real, lo: real, hi: real, s: real)
    requires 0.0 < lo < hi && IsRoot(root, c) && g >= lo / hi && headroom >= root && 0.0 <= s <= 1.0
    requires target == c * g + headroom
    ensures Blend(s, c, target) >= Min(c, SustainedLimit(lo, hi))
  {
    var k, b := InverseGap(lo, hi);
    var next := StepLoss(c, root, g, headroom, target, k, s);
    StepFloor(c, root, k, b, s);
  }

  lemma ClampFloor(l: Limiter, x: real, floor: real)
    requires floor <= x && floor <= l.maxLimit as real
    ensures Clamp(l, x) >= floor
  {}

  lemma AdjustFloor(l: Limiter, minRtt: real, avgRtt: real, root: real, lo: real, hi: real, floor: real)
    requires InRange(l) && IsRoot(root, l.currentLimit) && 0.0 <= l.smoothing <= 1.0
    requires 0.0 < lo < hi && lo <= minRtt && 0.0 < avgRtt <= hi
    requires floor <= Min(l.currentLimit, SustainedLimit(lo, hi)) && floor <= l.maxLimit as real
    ensures Adjust(l, minRtt, avgRtt, root) >= floor
  {
    RatioBelowOne(lo, hi);
    QuotientAtLeast(minRtt, avgRtt, lo, hi);
    var target := Target(l, minRtt, avgRtt, root);
    NextFloor(l.currentLimit, root, Min(1.0, minRtt / avgRtt), Max(l.alpha, root), target, lo, hi, l.smoothing);
    ClampFloor(l, Blend(l.smoothing, l.currentLimit, target), floor);
  }

  ghost predicate LatenciesWithin(run: seq<Sample>, lo: real, hi: real) {
    forall i | 0 <= i < |run| && Accepted(run[i].latency, run[i].status) :: lo <= run[i].latency <= hi
  }

  lemma Scaled(a: real, b: real, c: real) returns (ca: real, cb: real)
    requires 0.0 <= c && a <= b
    ensures ca == c * a && cb == c * b && ca <= cb
  {
    ca, cb := c * a, c * b;
  }

  lemma BlendMonotone(s: real, a: real, x: real, b: real, y: real)
    requires 0.0 <= s <= 1.0 && a <= b && x <= y
    ensures Blend(s, a, x) <= Blend(s, b, y)
  {
    var p, q := Scaled(a, b, 1.0 - s);
    var r, t := Scaled(x, y, s);
    assert p + r <= q + t;
  }

  lemma BlendSame(s: real, x: real)
    ensures Blend(s, x, x) == x
  {}

  /** A smoothed average stays among the values it averages. */
  lemma BlendWithin(s: real, a: real, x: real, lo: real, hi: real)
    requires 0.0 <= s <= 1.0 && lo <= a <= hi && lo <= x <= hi
    ensures lo <= Blend(s, a, x) <= hi
  {
    BlendMonotone(s, lo, lo, a, x);
    BlendMonotone(s, a, x, hi, hi);
    BlendSame(s, lo);
    BlendSame(s, hi);
  }

  ghost predicate AveragesWithin(l: Limiter, lo: real, hi: real) {
    && (l.avgRtt.Some? ==> lo <= l.avgRtt.value <= hi)
    && (forall i | 0 <= i < |l.rttSamples| :: lo <= l.rttSamples[i] <= hi)
  }

  lemma SampledWithin(l: Limiter, latency: real, lo: real, hi: real)
    requires InRange(l) && 0.0 <= l.smoothing <= 1.0 && 0.0 < lo <= latency <= hi
    requires AveragesWithin(l, lo, hi)
    ensures var s := Sampled(l, latency);
            AveragesWithin(s, lo, hi) && s.minRtt.Some? && s.minRtt.value >= lo && InRange(s)
  {
    var samples := l.rttSamples + [latency];
    var window := LastOf(samples, l.rttWindowSize);
    forall i | 0 <= i < |window| ensures lo <= window[i] <= hi {
      assert window[i] in samples;
    }
    if l.avgRtt.Some? {
      BlendWithin(l.smoothing, l.avgRtt.value, latency, lo, hi);
    }
    var s := Sampled(l, latency);
    assert s.rttSamples == window && window != [] && s.minRtt == Some(Least(window));
  }

  lemma CompletedLimit(l: Limiter, latency: real, status: int, root: real)
    ensures var after := Completed(l, latency, status, root);
            var s := Sampled(l, latency);
            if Adjusts(l, latency, status)
            then after == s.(currentLimit := Adjust(s, s.minRtt.value, s.avgRtt.value, root))
            else after.currentLimit == l.currentLimit && (after == s || after == l)
  {}

  /** If all accepted latencies lie in `[lo, hi]`, the limit never falls below the smaller of
      where it started and `1 / (1 - lo / hi)^2`, over any run. */
  lemma {:induction false} LimitFloor(l: Limiter, run: seq<Sample>, lo: real, hi: real)
    requires IsNew(l) && 0.0 <= l.smoothing <= 1.0 && 0.0 < lo < hi
    requires TrueRoots(l, run) && LatenciesWithin(run, lo, hi)
    ensures RunAll(l, run).currentLimit >= Min(l.currentLimit, SustainedLimit(lo, hi))
    ensures AveragesWithin(RunAll(l, run), lo, hi)
  {
    if run != [] {
      var last, front := run[|run| - 1], run[..|run| - 1];
      forall i | 0 <= i < |front| ensures IsRoot(front[i].root, RunAll(l, front[..i]).currentLimit) {
        assert front[..i] == run[..i];
        assert IsRoot(run[i].root, RunAll(l, run[..i]).currentLimit);
      }
      LimitFloor(l, front, lo, hi);
      RunStaysInRange(l, front);
      var before := RunAll(l, front);
      if Accepted(last.latency, last.status) {
        SampledWithin(before, last.latency, lo, hi);
        var s := Sampled(before, last.latency);
        assert IsRoot(run[|run| - 1].root, RunAll(l, run[..|run| - 1]).currentLimit);
        AdjustFloor(s, s.minRtt.value, s.avgRtt.value, last.root, lo, hi,
                    Min(l.currentLimit, SustainedLimit(lo, hi)));
      }
      CompletedLimit(before, last.latency, last.status, last.root);
    }
  }

  // ---- How latency moves the limit -------------------------------------------------------------

  lemma SignOfProduct(s: real, x: real)
    requires s > 0.0
    ensures s * x < 0.0 <==> x < 0.0
    ensures s * x > 0.0 <==> x > 0.0
  {}

  /** A step goes towards the target. */
  lemma BlendMoves(s: real, c: real, target: real)
    requires s > 0.0
    ensures Blend(s, c, target) < c <==> target < c
    ensures Blend(s, c, target) > c <==> target > c
  {
    SignOfProduct(s, target - c);
    assert Blend(s, c, target) - c == s * (target - c);
  }

  lemma ClampMoves(l: Limiter, x: real)
    requires InRange(l)
    ensures Clamp(l, x) < l.currentLimit <==> x < l.currentLimit && l.currentLimit > l.minLimit as real
    ensures Clamp(l, x) > l.currentLimit <==> x > l.currentLimit && l.currentLimit < l.maxLimit as real
  {}

  /** What the limit loses to queueing: the part of it that the latest average says is waiting. */
  function Waiting(current: real, minRtt: real, avgRtt: real): real
    requires avgRtt > 0.0
  {
    current * (1.0 - Min(1.0, minRtt / avgRtt))
  }

  lemma TargetIsBelow(l: Limiter, minRtt: real, avgRtt: real, root: real)
    requires avgRtt > 0.0
    ensures Target(l, minRtt, avgRtt, root) - l.currentLimit
            == Max(l.alpha, root) - Waiting(l.currentLimit, minRtt, avgRtt)
  {}

  /** The minimum and the average that one sample adjusts by, as they stand afterwards. */
  lemma SampledIsKept(l: Limiter, latency: real, status: int, root: real)
    requires InRange(l) && Adjusts(l, latency, status)
    ensures var after := Completed(l, latency, status, root);
            && after.minRtt.Some? && after.avgRtt.Some? && after.avgRtt.value > 0.0 && after.minRtt.value > 0.0
            && after.currentLimit == Adjust(Sampled(l, latency), after.minRtt.value, after.avgRtt.value, root)
  {}

  lemma AdjustMoves(l: Limiter, minRtt: real, avgRtt: real, root: real)
    requires InRange(l) && 0.0 < l.smoothing <= 1.0 && avgRtt > 0.0
    ensures var waiting, next := Waiting(l.currentLimit, minRtt, avgRtt), Adjust(l, minRtt, avgRtt, root);
            && (next < l.currentLimit <==> l.currentLimit > l.minLimit as real && waiting > Max(l.alpha, root))
            && (next > l.currentLimit <==> l.currentLimit < l.maxLimit as real && waiting < Max(l.alpha, root))
  {
    var target := Target(l, minRtt, avgRtt, root);
    TargetIsBelow(l, minRtt, avgRtt, root);
    BlendMoves(l.smoothing, l.currentLimit, target);
    ClampMoves(l, Blend(l.smoothing, l.currentLimit, target));
  }

  /** The limit falls with a sample if and only if it is above its lower bound and more of it waits
      than the headroom, and it rises if and only if it is below its upper bound and less of it does. */
  lemma LimitMovesExactly(l: Limiter, latency: real, status: int, root: real)
    requires InRange(l) && 0.0 < l.smoothing <= 1.0 && Adjusts(l, latency, status)
    ensures var after := Completed(l, latency, status, root);
            && after.minRtt.Some? && after.avgRtt.Some? && after.avgRtt.value > 0.0
            && var waiting := Waiting(l.currentLimit, after.minRtt.value, after.avgRtt.value);
               && (after.currentLimit < l.currentLimit
                   <==> l.currentLimit > l.minLimit as real && waiting > Max(l.alpha, root))
               && (after.currentLimit > l.currentLimit
                   <==> l.currentLimit < l.maxLimit as real && waiting < Max(l.alpha, root))
  {
    SampledIsKept(l, latency, status, root);
    StaysInRange(l, latency, status, root);
    var after := Completed(l, latency, status, root);
    AdjustMoves(Sampled(l, latency), after.minRtt.value, after.avgRtt.value, root);
  }

  lemma SameProduct(s: real, a: real, b: real)
    requires a == b
    ensures s * a == s * b
  {}

  lemma AdjustMovesBy(l: Limiter, minRtt: real, avgRtt: real, root: real)
    requires avgRtt > 0.0 && l.minLimit as real < Adjust(l, minRtt, avgRtt, root) < l.maxLimit as real
    ensures Adjust(l, minRtt, avgRtt, root) - l.currentLimit
            == l.smoothing * (Max(l.alpha, root) - Waiting(l.currentLimit, minRtt, avgRtt))
  {
    var target := Target(l, minRtt, avgRtt, root);
    TargetIsBelow(l, minRtt, avgRtt, root);
    BlendDistance(l.smoothing, l.currentLimit, target);
    SameProduct(l.smoothing, target - l.currentLimit, Max(l.alpha, root) - Waiting(l.currentLimit, minRtt, avgRtt));
  }

  /** Inside the bounds the limit makes up the share `smoothing` of the difference. */
  lemma LimitMovesBy(l: Limiter, latency: real, status: int, root: real)
    requires InRange(l) && Adjusts(l, latency, status)
    requires var after := Completed(l, latency, status, root);
             l.minLimit as real < after.currentLimit < l.maxLimit as real
    ensures var after := Completed(l, latency, status, root);
            && after.minRtt.Some? && after.avgRtt.Some? && after.avgRtt.value > 0.0
            && after.currentLimit - l.currentLimit
               == l.smoothing * (Max(l.alpha, root)
                                 - Waiting(l.currentLimit, after.minRtt.value, after.avgRtt.value))
  {
    SampledIsKept(l, latency, status, root);
    var after := Completed(l, latency, status, root);
    AdjustMovesBy(Sampled(l, latency), after.minRtt.value, after.avgRtt.value, root);
  }

  lemma BlendDistance(s: real, c: real, target: real)
    ensures Blend(s, c, target) - c == s * (target - c)
  {}

  lemma QuotientFalls(m: real, a: real, b: real)
    requires m > 0.0 && 0.0 < a <= b
    ensures m / a >= m / b
  {
    QuotientAtLeast(m, a, m, b);
  }

  lemma AdjustFalls(l: Limiter, minRtt: real, a: real, b: real, root: real)
    requires InRange(l) && 0.0 <= l.smoothing <= 1.0 && minRtt > 0.0 && 0.0 < a <= b
    ensures Adjust(l, minRtt, a, root) >= Adjust(l, minRtt, b, root)
  {
    QuotientFalls(minRtt, a, b);
    var c, g, h := l.currentLimit, Min(1.0, minRtt / a), Min(1.0, minRtt / b);
    ProductMonotone(h, g, c);
    BlendMonotone(l.smoothing, c, Target(l, minRtt, b, root), c, Target(l, minRtt, a, root));
  }

  /** The slower requests have been on average, the lower the limit after the next one. */
  lemma LimitFallsWithLatency(l: Limiter, a: real, b: real, latency: real, status: int, root: real)
    requires InRange(l) && 0.0 <= l.smoothing <= 1.0 && 0.0 < a <= b
    ensures Completed(l.(avgRtt := Some(a)), latency, status, root).currentLimit
            >= Completed(l.(avgRtt := Some(b)), latency, status, root).currentLimit
  {
    if Accepted(latency, status) {
      var x, y := Sampled(l.(avgRtt := Some(a)), latency), Sampled(l.(avgRtt := Some(b)), latency);
      AverageFollows(l.smoothing, a, b, latency);
      StaysInRange(l, latency, status, root);
      assert x == y.(avgRtt := x.avgRtt);
      if x.minRtt.Some? && x.minRtt.value > 0.0 {
        AdjustFalls(y, x.minRtt.value, x.avgRtt.value, y.avgRtt.value, root);
        SameAdjust(y, x.avgRtt, x.minRtt.value, x.avgRtt.value, root);
      }
    }
  }

  lemma SameAdjust(l: Limiter, other: Option<real>, minRtt: real, avgRtt: real, root: real)
    requires avgRtt > 0.0
    ensures Adjust(l.(avgRtt := other), minRtt, avgRtt, root) == Adjust(l, minRtt, avgRtt, root)
  {}

  lemma AverageFollows(s: real, a: real, b: real, latency: real)
    requires 0.0 <= s <= 1.0 && 0.0 < a <= b && latency > 0.0
    ensures 0.0 < Blend(s, a, latency) <= Blend(s, b, latency)
  {
    BlendMonotone(s, a, latency, b, latency);
    AveragePositive(s, a, latency);
  }

  lemma AveragePositive(s: real, a: real, latency: real)
    requires 0.0 <= s <= 1.0 && a > 0.0 && latency > 0.0
    ensures Blend(s, a, latency) > 0.0
  {
    BlendWithin(s, a, latency, Min(a, latency), Max(a, latency));
  }

  ghost predicate Positive(l: Limiter) {
    && (l.avgRtt.Some? ==> l.avgRtt.value > 0.0)
    && (forall i | 0 <= i < |l.rttSamples| :: l.rttSamples[i] > 0.0)
  }

  lemma SampledIsPositive(l: Limiter, latency: real)
    requires InRange(l) && Positive(l) && latency > 0.0 && 0.0 <= l.smoothing <= 1.0
    ensures var s := Sampled(l, latency);
            Positive(s) && s.minRtt.Some? && s.minRtt.value > 0.0 && s.avgRtt.value > 0.0
  {
    var samples := l.rttSamples + [latency];
    var window := LastOf(samples, l.rttWindowSize);
    forall i | 0 <= i < |window| ensures window[i] > 0.0 {
      assert window[i] in samples;
    }
    if l.avgRtt.Some? {
      AveragePositive(l.smoothing, l.avgRtt.value, latency);
    }
  }

  lemma {:induction false} RunStaysPositive(l: Limiter, run: seq<Sample>)
    requires IsNew(l) && 0.0 <= l.smoothing <= 1.0
    ensures Positive(RunAll(l, run))
  {
    if run != [] {
      var last, front := run[|run| - 1], run[..|run| - 1];
      RunStaysPositive(l, front);
      RunStaysInRange(l, front);
      if Accepted(last.latency, last.status) {
        SampledIsPositive(RunAll(l, front), last.latency);
      }
    }
  }

  /** At every point of a run, the samples that adjust the limit are those that took some time and
      ended in success. */
  lemma AdjustsExactly(l: Limiter, run: seq<Sample>, latency: real, status: int)
    requires IsNew(l) && 0.0 <= l.smoothing <= 1.0
    ensures Adjusts(RunAll(l, run), latency, status) <==> latency > 0.0 && 200 <= status < 300
  {
    RunStaysPositive(l, run);
    RunStaysInRange(l, run);
    if Accepted(latency, status) {
      SampledIsPositive(RunAll(l, run), latency);
    }
  }

  // ---- The average -------------------------------------------------------------------------------

  /** The first latency, moved towards each later one by the share `s` of the distance. */
  function Averaged(s: real, xs: seq<real>): real
    requires xs != []
  {
    if |xs| == 1 then xs[0] else
      var before := Averaged(s, xs[..|xs| - 1]);
      Towards(before, xs[|xs| - 1], s)
  }

  function Towards(from: real, to: real, share: real): real {
    from + share * (to - from)
  }

  lemma BlendIsTowards(s: real, a: real, x: real)
    ensures Blend(s, a, x) == Towards(a, x, s)
  {
    BlendDistance(s, a, x);
  }

  lemma CompletedAverage(l: Limiter, latency: real, status: int, root: real)
    ensures Completed(l, latency, status, root).avgRtt
            == if !Accepted(latency, status) then l.avgRtt
               else if l.avgRtt.None? then Some(latency)
               else Some(Towards(l.avgRtt.value, latency, l.smoothing))
  {
    if l.avgRtt.Some? {
      BlendIsTowards(l.smoothing, l.avgRtt.value, latency);
    }
  }

  /** Over any run, the average is that of all accepted latencies, whatever has left the window. */
  lemma {:induction false} AverageIsOfAllLatencies(l: Limiter, run: seq<Sample>)
    requires IsNew(l)
    ensures var xs := Latencies(run);
            RunAll(l, run).avgRtt == if xs == [] then None else Some(Averaged(l.smoothing, xs))
  {
    if run != [] {
      var last, front := run[|run| - 1], run[..|run| - 1];
      AverageIsOfAllLatencies(l, front);
      RunStaysInRange(l, front);
      CompletedAverage(RunAll(l, front), last.latency, last.status, last.root);
      var xs := Latencies(front);
      assert xs + [] == xs && (xs + [last.latency])[..|xs|] == xs;
    }
  }
}
