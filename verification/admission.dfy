/** Admission control: the atomic counter protocol of `App::handle_rsgi` in `src/lib.rs`, as a
    state machine over the steps of any number of concurrent requests. */
module Admission {
  import opened Text
  import Resilience

  type Id = nat

  /** Where a request stands. `limit` is what it loaded, `current` what its add returned. */
  datatype Phase =
    | Arrived
    | Loaded(limit: nat)
    | Added(limit: nat, current: int)
    | Guarded
    | Rejected
    | Finished

  datatype State = State(inFlight: int, maxConcurrency: nat, requests: map<Id, Phase>)

  datatype Step =
    | Arrive(id: Id)
    | Load(id: Id)
    | Add(id: Id)
    | Decide(id: Id)
    | DropGuard(id: Id)
    | SetMaxConcurrency(limit: nat)

  const INIT := State(0, 0, map[])

  /** The request loaded a positive limit and found it used up. */
  predicate Refused(p: Phase) {
    p.Added? && p.limit > 0 && p.current >= p.limit
  }

  /** Which step a request can take next; storing a limit and arriving are always possible. */
  predicate Enabled(s: State, step: Step) {
    match step
    case Arrive(r) => r !in s.requests
    case Load(r) => r in s.requests && s.requests[r].Arrived?
    case Add(r) => r in s.requests && s.requests[r].Loaded?
    case Decide(r) => r in s.requests && s.requests[r].Added?
    case DropGuard(r) => r in s.requests && s.requests[r].Guarded?
    case SetMaxConcurrency(_) => true
  }

  /** One atomic step. `Decide` compares, and either subtracts and answers 503 or creates the
      guard; dropping the guard, on whatever way out, subtracts. */
  function Apply(s: State, step: Step): State
    requires Enabled(s, step)
  {
    match step
    case Arrive(r) => s.(requests := s.requests[r := Arrived])
    case Load(r) => s.(requests := s.requests[r := Loaded(s.maxConcurrency)])
    case Add(r) =>
      s.(inFlight := s.inFlight + 1, requests := s.requests[r := Added(s.requests[r].limit, s.inFlight)])
    case Decide(r) =>
      if Refused(s.requests[r])
      then s.(inFlight := s.inFlight - 1, requests := s.requests[r := Rejected])
      else s.(requests := s.requests[r := Guarded])
    case DropGuard(r) => s.(inFlight := s.inFlight - 1, requests := s.requests[r := Finished])
    case SetMaxConcurrency(limit) => s.(maxConcurrency := limit)
  }

  // ---- Counting --------------------------------------------------------------------------

  ghost function LiveGuards(s: State): set<Id> {
    set r | r in s.requests && s.requests[r].Guarded?
  }

  /** Requests between their add and what follows it. */
  ghost function Pending(s: State): set<Id> {
    set r | r in s.requests && s.requests[r].Added?
  }

  /** Pending requests that will be given a guard. */
  ghost function Promised(s: State): set<Id> {
    set r | r in s.requests && s.requests[r].Added? && !Refused(s.requests[r])
  }

  /** The counter is exact, so it never underflows and is 0 when nothing is in progress. */
  ghost predicate CounterExact(s: State) {
    s.inFlight == |LiveGuards(s)| + |Pending(s)|
  }

  /** With every limit in use between 1 and `most`, guards held and promised fit in `most`. */
  ghost predicate WithinLimit(s: State, most: nat) {
    && 0 < s.maxConcurrency <= most
    && (forall r | r in s.requests && (s.requests[r].Loaded? || s.requests[r].Added?) ::
          0 < s.requests[r].limit <= most)
    && |LiveGuards(s)| + |Promised(s)| <= most
  }

  /** The three sets after the phase of `r` becomes `p`. */
  lemma SetsAfter(s: State, r: Id, p: Phase, s': State)
    requires s'.requests == s.requests[r := p]
    ensures LiveGuards(s') == if p.Guarded? then LiveGuards(s) + {r} else LiveGuards(s) - {r}
    ensures Pending(s') == if p.Added? then Pending(s) + {r} else Pending(s) - {r}
    ensures Promised(s') == if p.Added? && !Refused(p) then Promised(s) + {r} else Promised(s) - {r}
  {}

  lemma WithOrWithout<T>(a: set<T>, x: T)
    ensures |a + {x}| == |a| + if x in a then 0 else 1
    ensures |a - {x}| == |a| - if x in a then 1 else 0
  {
    if x in a {
      assert a + {x} == a;
    } else {
      assert a - {x} == a;
    }
  }

  lemma CountsAfter(s: State, r: Id, p: Phase, s': State)
    requires s'.requests == s.requests[r := p]
    ensures |LiveGuards(s')| == |LiveGuards(s)| + (if p.Guarded? then 1 else 0) - (if r in LiveGuards(s) then 1 else 0)
    ensures |Pending(s')| == |Pending(s)| + (if p.Added? then 1 else 0) - (if r in Pending(s) then 1 else 0)
    ensures |Promised(s')| == |Promised(s)|
            + (if p.Added? && !Refused(p) then 1 else 0) - (if r in Promised(s) then 1 else 0)
  {
    SetsAfter(s, r, p, s');
    WithOrWithout(LiveGuards(s), r);
    WithOrWithout(Pending(s), r);
    WithOrWithout(Promised(s), r);
  }

  lemma StepKeepsCounter(s: State, step: Step)
    requires CounterExact(s) && Enabled(s, step)
    ensures CounterExact(Apply(s, step))
  {
    if !step.SetMaxConcurrency? {
      var s' := Apply(s, step);
      CountsAfter(s, step.id, s'.requests[step.id], s');
    }
  }

  lemma PromisedArePending(s: State)
    ensures |Promised(s)| <= |Pending(s)|
  {
    SubsetSize(Promised(s), Pending(s));
  }

  lemma StepKeepsLimit(s: State, step: Step, most: nat)
    requires CounterExact(s) && WithinLimit(s, most) && Enabled(s, step)
    requires step.SetMaxConcurrency? ==> 0 < step.limit <= most
    ensures WithinLimit(Apply(s, step), most)
  {
    if !step.SetMaxConcurrency? {
      var s' := Apply(s, step);
      CountsAfter(s, step.id, s'.requests[step.id], s');
      PromisedArePending(s);
    }
  }

  // ---- Runs ------------------------------------------------------------------------------

  /** The states passed through when `steps` are taken from `s`, if each is possible in turn. */
  ghost predicate CanRun(s: State, steps: seq<Step>)
    decreases steps
  {
    steps == [] || (Enabled(s, steps[0]) && CanRun(Apply(s, steps[0]), steps[1..]))
  }

  ghost function RunSteps(s: State, steps: seq<Step>): State
    requires CanRun(s, steps)
    decreases steps
  {
    if steps == [] then s else RunSteps(Apply(s, steps[0]), steps[1..])
  }

  lemma {:induction false} CounterExactFrom(s: State, steps: seq<Step>)
    requires CounterExact(s) && CanRun(s, steps)
    ensures CounterExact(RunSteps(s, steps))
    decreases steps
  {
    if steps != [] {
      StepKeepsCounter(s, steps[0]);
      CounterExactFrom(Apply(s, steps[0]), steps[1..]);
    }
  }

  /** Over every interleaving and every change of the limit, `in_flight` is the number of live
      guards plus the requests between their add and sub; when neither is left it is 0. */
  lemma CounterIsExactInEveryRun(steps: seq<Step>)
    requires CanRun(INIT, steps)
    ensures var s := RunSteps(INIT, steps);
            && s.inFlight == |LiveGuards(s)| + |Pending(s)|
            && s.inFlight >= 0
            && (LiveGuards(s) == {} && Pending(s) == {} ==> s.inFlight == 0)
  {
    assert LiveGuards(INIT) == {} && Pending(INIT) == {};
    CounterExactFrom(INIT, steps);
  }

  lemma {:induction false} LimitHoldsFrom(s: State, steps: seq<Step>, most: nat)
    requires CounterExact(s) && WithinLimit(s, most) && CanRun(s, steps)
    requires forall i | 0 <= i < |steps| && steps[i].SetMaxConcurrency? :: 0 < steps[i].limit <= most
    ensures |LiveGuards(RunSteps(s, steps))| <= most
    decreases steps
  {
    if steps != [] {
      StepKeepsCounter(s, steps[0]);
      StepKeepsLimit(s, steps[0], most);
      LimitHoldsFrom(Apply(s, steps[0]), steps[1..], most);
    }
  }

  /** Once a limit is set, and as long as every later limit lies between 1 and `most`, no
      interleaving ever has more than `most` live guards. */
  lemma GuardsNeverExceedLimit(steps: seq<Step>, limit: nat, most: nat)
    requires 0 < limit <= most
    requires CanRun(State(0, limit, map[]), steps)
    requires forall i | 0 <= i < |steps| && steps[i].SetMaxConcurrency? :: 0 < steps[i].limit <= most
    ensures |LiveGuards(RunSteps(State(0, limit, map[]), steps))| <= most
  {
    var s := State(0, limit, map[]);
    assert LiveGuards(s) == {} && Pending(s) == {} && Promised(s) == {};
    LimitHoldsFrom(s, steps, most);
  }

  /** Steps of a request that meets no other between its arrival and its decision. */
  function Alone(r: Id): seq<Step> {
    [Arrive(r), Load(r), Add(r), Decide(r)]
  }

  function InTurn(n: nat): seq<Step> {
    if n == 0 then [] else InTurn(n - 1) + Alone(n - 1)
  }

  /** The limit 0 means none: any number of guards can then be live together. */
  lemma {:induction false} ZeroIsUnlimited(n: nat)
    ensures CanRun(INIT, InTurn(n)) && |LiveGuards(RunSteps(INIT, InTurn(n)))| == n
    ensures RunSteps(INIT, InTurn(n)).maxConcurrency == 0
    ensures forall r | r in RunSteps(INIT, InTurn(n)).requests :: r < n
  {
    if n == 0 {
      assert LiveGuards(INIT) == {};
    } else {
      ZeroIsUnlimited(n - 1);
      var s := RunSteps(INIT, InTurn(n - 1));
      RunAlone(s, n - 1);
      RunInStages(INIT, InTurn(n - 1), Alone(n - 1));
      CountsAfter(s, n - 1, Guarded, RunSteps(s, Alone(n - 1)));
    }
  }

  lemma LastWrite(m: map<Id, Phase>, r: Id, a: Phase, b: Phase)
    ensures m[r := a][r := b] == m[r := b]
  {}

  /** What such a request comes to, and what it leaves behind. */
  lemma RunAlone(s: State, r: Id)
    requires r !in s.requests
    ensures var refused := 0 < s.maxConcurrency <= s.inFlight;
            && CanRun(s, Alone(r))
            && RunSteps(s, Alone(r)) == State(if refused then s.inFlight else s.inFlight + 1, s.maxConcurrency,
                                              s.requests[r := if refused then Rejected else Guarded])
  {
    var steps := Alone(r);
    var s1 := Apply(s, steps[0]);
    var s2 := Apply(s1, steps[1]);
    var s3 := Apply(s2, steps[2]);
    var s4 := Apply(s3, steps[3]);
    var t1, t2, t3 := [Load(r), Add(r), Decide(r)], [Add(r), Decide(r)], [Decide(r)];
    assert steps[1..] == t1;
    assert t1[1..] == t2;
    assert t2[1..] == t3 && t3[1..] == [];
    LastWrite(s.requests, r, Arrived, s2.requests[r]);
    LastWrite(s.requests, r, s2.requests[r], s3.requests[r]);
    LastWrite(s.requests, r, s3.requests[r], s4.requests[r]);
    assert CanRun(s3, t3) && RunSteps(s3, t3) == s4;
    assert CanRun(s2, t2) && RunSteps(s2, t2) == s4;
    assert CanRun(s1, t1) && RunSteps(s1, t1) == s4;
  }

  lemma {:induction false} RunInStages(s: State, a: seq<Step>, b: seq<Step>)
    requires CanRun(s, a)
    ensures CanRun(s, a + b) <==> CanRun(RunSteps(s, a), b)
    ensures CanRun(s, a + b) ==> RunSteps(s, a + b) == RunSteps(RunSteps(s, a), b)
    decreases a
  {
    if a == [] {
      assert a + b == b;
    } else {
      assert (a + b)[1..] == a[1..] + b;
      RunInStages(Apply(s, a[0]), a[1..], b);
    }
  }

  // ---- Who is admitted ---------------------------------------------------------------------

  /** How far a request has come; requests never go back. */
  function Progress(p: Phase): nat {
    match p
    case Arrived => 0
    case Loaded(_) => 1
    case Added(_, _) => 2
    case Guarded => 3
    case Rejected => 4
    case Finished => 4
  }

  /** Until its next step a request stays as it is. */
  lemma {:induction false} PhaseStays(s: State, steps: seq<Step>, r: Id)
    requires CanRun(s, steps) && r in s.requests
    ensures var after := RunSteps(s, steps).requests;
            && r in after && Progress(after[r]) >= Progress(s.requests[r])
            && (Progress(after[r]) == Progress(s.requests[r]) ==> after[r] == s.requests[r])
    decreases steps
  {
    if steps != [] {
      PhaseStays(Apply(s, steps[0]), steps[1..], r);
    }
  }

  /** The state of the run before step `i`. */
  ghost function At(s: State, steps: seq<Step>, i: nat): State
    requires CanRun(s, steps) && i <= |steps|
  {
    PrefixRuns(s, steps, i);
    RunSteps(s, steps[..i])
  }

  lemma PrefixRuns(s: State, steps: seq<Step>, i: nat)
    requires CanRun(s, steps) && i <= |steps|
    ensures CanRun(s, steps[..i]) && CanRun(RunSteps(s, steps[..i]), steps[i..])
  {
    assert steps[..i] + steps[i..] == steps;
    RunAllInStages(s, steps[..i], steps[i..]);
  }

  lemma {:induction false} RunAllInStages(s: State, a: seq<Step>, b: seq<Step>)
    requires CanRun(s, a + b)
    ensures CanRun(s, a) && CanRun(RunSteps(s, a), b)
    decreases a
  {
    if a == [] {
      assert a + b == b;
    } else {
      assert (a + b)[1..] == a[1..] + b;
      RunAllInStages(Apply(s, a[0]), a[1..], b);
    }
  }

  /** Step `i` of the run is possible and leads on. */
  lemma StepAt(s: State, steps: seq<Step>, i: nat)
    requires CanRun(s, steps) && i < |steps|
    ensures Enabled(At(s, steps, i), steps[i]) && At(s, steps, i + 1) == Apply(At(s, steps, i), steps[i])
  {
    PrefixRuns(s, steps, i);
    var now := At(s, steps, i);
    assert steps[i..][0] == steps[i] && steps[..i + 1] == steps[..i] + [steps[i]];
    RunInStages(s, steps[..i], [steps[i]]);
    assert [steps[i]][1..] == [];
    assert CanRun(now, [steps[i]]) && RunSteps(now, [steps[i]]) == Apply(now, steps[i]);
  }

  lemma Between(s: State, steps: seq<Step>, i: nat, j: nat, r: Id)
    requires CanRun(s, steps) && i <= j <= |steps| && r in At(s, steps, i).requests
    ensures var (before, after) := (At(s, steps, i).requests, At(s, steps, j).requests);
            && r in after && Progress(after[r]) >= Progress(before[r])
            && (Progress(after[r]) == Progress(before[r]) ==> after[r] == before[r])
  {
    PrefixRuns(s, steps, i);
    assert steps[..i] + steps[i..j] == steps[..j];
    PrefixRuns(s, steps, j);
    RunAllInStages(s, steps[..i], steps[i..j]);
    RunInStages(s, steps[..i], steps[i..j]);
    PhaseStays(At(s, steps, i), steps[i..j], r);
  }

  lemma CounterExactAt(s: State, steps: seq<Step>, i: nat)
    requires CounterExact(s) && CanRun(s, steps) && i <= |steps|
    ensures CounterExact(At(s, steps, i))
  {
    PrefixRuns(s, steps, i);
    CounterExactFrom(s, steps[..i]);
  }

  /** A request that loads the limit at step `l`, adds at step `a` and decides at step `d` is rejected
      if and only if the limit it loaded is positive and, when it added, the live guards and the
      pending requests numbered at least that limit; otherwise it is given a guard. */
  lemma DecidedExactly(s: State, steps: seq<Step>, r: Id, l: nat, a: nat, d: nat)
    requires CounterExact(s) && CanRun(s, steps) && l < a < d < |steps|
    requires steps[l] == Load(r) && steps[a] == Add(r) && steps[d] == Decide(r)
    ensures var limit, atAdd := At(s, steps, l).maxConcurrency, At(s, steps, a);
            var after := At(s, steps, d + 1).requests;
            r in after
            && after[r] == if 0 < limit <= |LiveGuards(atAdd)| + |Pending(atAdd)| then Rejected else Guarded
  {
    StepAt(s, steps, l);
    StepAt(s, steps, a);
    StepAt(s, steps, d);
    Between(s, steps, l + 1, a, r);
    Between(s, steps, a + 1, d, r);
    CounterExactAt(s, steps, a);
  }

  /** What a request has gone through before step `i` of a run that starts without requests. */
  lemma {:induction false} HowItCame(limit: nat, steps: seq<Step>, r: Id, i: nat) returns (last: nat)
    requires CanRun(State(0, limit, map[]), steps) && i <= |steps|
    requires var now := At(State(0, limit, map[]), steps, i).requests;
             r in now && (now[r].Loaded? || now[r].Added?)
    ensures last < i
    ensures steps[last] == if At(State(0, limit, map[]), steps, i).requests[r].Loaded? then Load(r) else Add(r)
    decreases i
  {
    var s := State(0, limit, map[]);
    NobodyAtFirst(limit, steps);
    StepAt(s, steps, i - 1);
    if steps[i - 1] == Load(r) || steps[i - 1] == Add(r) {
      last := i - 1;
    } else {
      last := HowItCame(limit, steps, r, i - 1);
    }
  }

  lemma NobodyAtFirst(limit: nat, steps: seq<Step>)
    requires CanRun(State(0, limit, map[]), steps)
    ensures At(State(0, limit, map[]), steps, 0).requests == map[]
  {
    assert steps[..0] == [];
  }

  /** Every decision of every run comes after a load and an add, and they decide it. */
  lemma EveryDecisionIsExact(limit: nat, steps: seq<Step>, r: Id, d: nat) returns (l: nat, a: nat)
    requires CanRun(State(0, limit, map[]), steps) && d < |steps| && steps[d] == Decide(r)
    ensures l < a < d && steps[l] == Load(r) && steps[a] == Add(r)
    ensures var s := State(0, limit, map[]);
            var loaded, atAdd := At(s, steps, l).maxConcurrency, At(s, steps, a);
            var after := At(s, steps, d + 1).requests;
            r in after
            && after[r] == if 0 < loaded <= |LiveGuards(atAdd)| + |Pending(atAdd)| then Rejected else Guarded
  {
    var s := State(0, limit, map[]);
    assert LiveGuards(s) == {} && Pending(s) == {};
    StepAt(s, steps, d);
    a := HowItCame(limit, steps, r, d);
    StepAt(s, steps, a);
    l := HowItCame(limit, steps, r, a);
    DecidedExactly(s, steps, r, l, a, d);
  }

  ghost function LastStored(limit: nat, steps: seq<Step>): nat
    decreases steps
  {
    if steps == [] then limit
    else LastStored(if steps[0].SetMaxConcurrency? then steps[0].limit else limit, steps[1..])
  }

  /** The limit in force is the last one stored. */
  lemma {:induction false} LimitIsLastStored(s: State, steps: seq<Step>)
    requires CanRun(s, steps)
    ensures RunSteps(s, steps).maxConcurrency == LastStored(s.maxConcurrency, steps)
    decreases steps
  {
    if steps != [] {
      LimitIsLastStored(Apply(s, steps[0]), steps[1..]);
    }
  }

  /** With a limit `limit > 0`, of `n` requests that are decided one after the other the first `limit`
      are given guards and the others are rejected. */
  lemma {:induction false} FirstComeFirstServed(n: nat, limit: nat)
    requires limit > 0
    ensures CanRun(State(0, limit, map[]), InTurn(n))
    ensures var s := RunSteps(State(0, limit, map[]), InTurn(n));
            && s.maxConcurrency == limit && |LiveGuards(s)| == s.inFlight == (if n <= limit then n else limit)
            && (forall r :: r in s.requests <==> 0 <= r < n)
            && (forall r | r in s.requests :: s.requests[r] == if r < limit then Guarded else Rejected)
  {
    var s0 := State(0, limit, map[]);
    if n == 0 {
      assert LiveGuards(s0) == {};
    } else {
      FirstComeFirstServed(n - 1, limit);
      var s := RunSteps(s0, InTurn(n - 1));
      RunAlone(s, n - 1);
      RunInStages(s0, InTurn(n - 1), Alone(n - 1));
      var phase := if n - 1 < limit then Guarded else Rejected;
      var s' := RunSteps(s, Alone(n - 1));
      CountsAfter(s, n - 1, phase, s');
    }
  }

  // ---- Driven by the adaptive limiter -------------------------------------------------------

  /** A request step, or a completed request reported to the limiter, which may store a new
      limit. */
  datatype Event = Request(step: Step) | Completion(sample: Resilience.Sample)

  datatype System = System(gate: State, limiter: Resilience.Limiter)

  ghost predicate CanHappen(y: System, e: Event) {
    match e
    case Request(step) => !step.SetMaxConcurrency? && Enabled(y.gate, step)
    case Completion(_) => true
  }

  ghost function Happen(y: System, e: Event): System
    requires CanHappen(y, e) && Resilience.InRange(y.limiter)
  {
    match e
    case Request(step) => y.(gate := Apply(y.gate, step))
    case Completion(x) =>
      var next := Resilience.Completed(y.limiter, x.latency, x.status, x.root);
      Resilience.StaysInRange(y.limiter, x.latency, x.status, x.root);
      System(if Resilience.Adjusts(y.limiter, x.latency, x.status)
             then Apply(y.gate, SetMaxConcurrency(Resilience.Limit(next)))
             else y.gate,
             next)
  }

  ghost predicate Governed(y: System, most: nat) {
    && Resilience.InRange(y.limiter) && y.limiter.maxLimit == most
    && CounterExact(y.gate) && WithinLimit(y.gate, most)
    && y.gate.maxConcurrency == Resilience.Limit(y.limiter)
  }

  lemma HappenKeeps(y: System, e: Event, most: nat)
    requires Governed(y, most) && CanHappen(y, e)
    ensures Governed(Happen(y, e), most)
  {
    match e {
      case Request(step) =>
        StepKeepsCounter(y.gate, step);
        StepKeepsLimit(y.gate, step, most);
      case Completion(x) =>
        Resilience.StaysInRange(y.limiter, x.latency, x.status, x.root);
        var next := Resilience.Completed(y.limiter, x.latency, x.status, x.root);
        StepKeepsCounter(y.gate, SetMaxConcurrency(Resilience.Limit(next)));
        StepKeepsLimit(y.gate, SetMaxConcurrency(Resilience.Limit(next)), most);
        Resilience.CompletedLimit(y.limiter, x.latency, x.status, x.root);
    }
  }

  ghost predicate CanUnfold(y: System, events: seq<Event>)
    requires Resilience.InRange(y.limiter)
    decreases events
  {
    events == [] ||
    (CanHappen(y, events[0]) && Resilience.InRange(Happen(y, events[0]).limiter)
     && CanUnfold(Happen(y, events[0]), events[1..]))
  }

  ghost function Unfold(y: System, events: seq<Event>): System
    requires Resilience.InRange(y.limiter) && CanUnfold(y, events)
    decreases events
  {
    if events == [] then y else Unfold(Happen(y, events[0]), events[1..])
  }

  lemma {:induction false} GovernedThroughout(y: System, events: seq<Event>, most: nat)
    requires Governed(y, most) && CanUnfold(y, events)
    ensures Governed(Unfold(y, events), most)
    decreases events
  {
    if events != [] {
      HappenKeeps(y, events[0], most);
      GovernedThroughout(Happen(y, events[0]), events[1..], most);
    }
  }

  /** With the adaptive limiter in charge, whatever its parameters and whatever latencies it is
      told, at most `max_limit` requests hold a guard at any moment of any run, and the stored
      limit is always the limiter's and never 0. */
  lemma AdaptiveLimitGoverns(limiter: Resilience.Limiter, events: seq<Event>)
    requires Resilience.IsNew(limiter)
    requires CanUnfold(System(State(0, Resilience.Limit(limiter), map[]), limiter), events)
    ensures var y := Unfold(System(State(0, Resilience.Limit(limiter), map[]), limiter), events);
            && |LiveGuards(y.gate)| <= limiter.maxLimit
            && y.gate.maxConcurrency == Resilience.Limit(y.limiter) > 0
  {
    var y := System(State(0, Resilience.Limit(limiter), map[]), limiter);
    assert LiveGuards(y.gate) == {} && Pending(y.gate) == {} && Promised(y.gate) == {};
    GovernedThroughout(y, events, limiter.maxLimit);
  }
}
