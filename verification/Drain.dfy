/**
  Graceful shutdown of one process: the ordered step list
  (cmd/pgman-proxy/main.go), the budgeted drain loop (internal/runtime/shutdown.go)
  and the Postgres step with its own split of the budget
  (internal/runtime/postgres_stop.go).  Times are milliseconds on one clock.
 */
module Drain {
  import opened Text

  // ----- The step list

  datatype StepName =
    | ControlStep | FanoutStep | ResponderStep | ObsStep | ManagerStep | PostgresStep
    | UnsubscribeStep | PreStopStep | ClusterStep | NatsStep

  /** What startup got as far as building. */
  datatype Resources = Resources(
    control: bool, fanout: bool, responder: bool, obs: bool, manager: bool, postgres: bool,
    subscriptions: nat, embedded: bool, cluster: bool)

  function Rank(s: StepName): (r: nat)
  {
    match s
    case ControlStep => 0
    case FanoutStep => 1
    case ResponderStep => 2
    case ObsStep => 3
    case ManagerStep => 4
    case PostgresStep => 5
    case UnsubscribeStep => 6
    case PreStopStep => 7
    case ClusterStep => 8
    case NatsStep => 9
  }

  predicate Planned(res: Resources, stopPostgres: bool, s: StepName)
  {
    match s
    case ControlStep => res.control
    case FanoutStep => res.fanout
    case ResponderStep => res.responder
    case ObsStep => res.obs
    case ManagerStep => res.manager
    case PostgresStep => stopPostgres && res.postgres
    case UnsubscribeStep => res.subscriptions > 0
    case PreStopStep => res.embedded
    case ClusterStep => res.cluster
    case NatsStep => res.embedded
  }

  /** In order, and only unsubscribing more than once. */
  ghost predicate InOrder(steps: seq<StepName>)
  {
    forall i, j :: 0 <= i < j < |steps| ==>
                     Rank(steps[i]) < Rank(steps[j]) || (steps[i] == steps[j] == UnsubscribeStep)
  }

  /** A plan holds exactly the steps for what was built, in the order of the
      shutdown contract. */
  ghost predicate IsPlan(res: Resources, stopPostgres: bool, steps: seq<StepName>)
  {
    && InOrder(steps)
    && (forall s :: s in steps <==> Planned(res, stopPostgres, s))
  }

  /** The plan up to, but without, the steps of rank r. */
  ghost predicate PlanUpTo(res: Resources, stopPostgres: bool, steps: seq<StepName>, r: nat)
  {
    && InOrder(steps)
    && (forall s :: s in steps <==> Planned(res, stopPostgres, s) && Rank(s) < r)
  }

  /** How many subscriptions the plan drops. */
  function Unsubscribes(steps: seq<StepName>): (n: nat)
  {
    if steps == [] then 0 else Unsubscribes(steps[..|steps| - 1]) + if steps[|steps| - 1] == UnsubscribeStep then 1 else 0
  }

  lemma {:induction false} UnsubscribesMore(steps: seq<StepName>, s: StepName)
    ensures Unsubscribes(steps + [s]) == Unsubscribes(steps) + if s == UnsubscribeStep then 1 else 0
  {
    assert (steps + [s])[..|steps|] == steps;
  }

  lemma {:induction false} RankIsUnique(s: StepName, t: StepName)
    ensures Rank(s) == Rank(t) <==> s == t
  {}

  lemma {:induction false} PlanOneMore(res: Resources, stopPostgres: bool, steps: seq<StepName>, s: StepName)
    requires PlanUpTo(res, stopPostgres, steps, Rank(s)) && s != UnsubscribeStep
    ensures PlanUpTo(res, stopPostgres, if Planned(res, stopPostgres, s) then steps + [s] else steps, Rank(s) + 1)
  {
    forall t ensures Rank(t) < Rank(s) + 1 <==> Rank(t) < Rank(s) || t == s { RankIsUnique(s, t); }
    assert forall i :: 0 <= i < |steps| ==> steps[i] in steps;
  }

  method Add(steps: seq<StepName>, when: bool, s: StepName, ghost res: Resources, ghost stopPostgres: bool)
    returns (steps': seq<StepName>)
    requires PlanUpTo(res, stopPostgres, steps, Rank(s)) && s != UnsubscribeStep
    requires when == Planned(res, stopPostgres, s)
    ensures PlanUpTo(res, stopPostgres, steps', Rank(s) + 1) && Unsubscribes(steps') == Unsubscribes(steps)
  {
    PlanOneMore(res, stopPostgres, steps, s);
    UnsubscribesMore(steps, s);
    steps' := if when then steps + [s] else steps;
  }

  /** buildShutdownSteps */
  method BuildShutdownSteps(res: Resources, stopPostgres: bool) returns (steps: seq<StepName>)
    ensures IsPlan(res, stopPostgres, steps) && Unsubscribes(steps) == res.subscriptions
  {
    steps := EngineSteps(res, stopPostgres);
    steps := AddUnsubscribes(steps, res.subscriptions, res, stopPostgres);
    steps := Add(steps, res.embedded, PreStopStep, res, stopPostgres);
    steps := Add(steps, res.cluster, ClusterStep, res, stopPostgres);
    steps := Add(steps, res.embedded, NatsStep, res, stopPostgres);
    assert forall s: StepName :: Rank(s) < 10;
  }

  /** The first six: everything that talks to the engine, and Postgres. */
  method EngineSteps(res: Resources, stopPostgres: bool) returns (steps: seq<StepName>)
    ensures PlanUpTo(res, stopPostgres, steps, Rank(UnsubscribeStep)) && Unsubscribes(steps) == 0
  {
    steps := Add([], res.control, ControlStep, res, stopPostgres);
    steps := Add(steps, res.fanout, FanoutStep, res, stopPostgres);
    steps := Add(steps, res.responder, ResponderStep, res, stopPostgres);
    steps := Add(steps, res.obs, ObsStep, res, stopPostgres);
    steps := Add(steps, res.manager, ManagerStep, res, stopPostgres);
    steps := Add(steps, stopPostgres && res.postgres, PostgresStep, res, stopPostgres);
  }

  /** The steps so far, and i of the unsubscribe steps. */
  ghost predicate Dropping(before: seq<StepName>, steps: seq<StepName>, i: nat)
  {
    && InOrder(steps) && Unsubscribes(steps) == Unsubscribes(before) + i
    && forall s :: s in steps <==> s in before || (s == UnsubscribeStep && i > 0)
  }

  lemma {:induction false} DropOneMore(before: seq<StepName>, steps: seq<StepName>, i: nat)
    requires Dropping(before, steps, i) && forall k :: 0 <= k < |before| ==> Rank(before[k]) < Rank(UnsubscribeStep)
    ensures Dropping(before, steps + [UnsubscribeStep], i + 1)
  {
    forall k | 0 <= k < |steps| ensures Rank(steps[k]) < Rank(UnsubscribeStep) || steps[k] == UnsubscribeStep {
      assert steps[k] in steps;
    }
    UnsubscribesMore(steps, UnsubscribeStep);
  }

  method AddUnsubscribes(before: seq<StepName>, n: nat, ghost res: Resources, ghost stopPostgres: bool)
    returns (steps: seq<StepName>)
    requires PlanUpTo(res, stopPostgres, before, Rank(UnsubscribeStep)) && n == res.subscriptions
    ensures PlanUpTo(res, stopPostgres, steps, Rank(UnsubscribeStep) + 1)
            && Unsubscribes(steps) == Unsubscribes(before) + n
  {
    steps := before;
    assert forall k :: 0 <= k < |before| ==> before[k] in before;
    for i := 0 to n
      invariant Dropping(before, steps, i)
    {
      DropOneMore(before, steps, i);
      steps := steps + [UnsubscribeStep];
    }
    forall t ensures Rank(t) < 7 <==> Rank(t) < 6 || t == UnsubscribeStep { RankIsUnique(UnsubscribeStep, t); }
  }

  /** The plan spelled out: what each step is for, and what comes before what. */
  lemma {:induction false} PlanMeaning(res: Resources, stopPostgres: bool, steps: seq<StepName>)
    requires IsPlan(res, stopPostgres, steps)
    ensures (ControlStep in steps <==> res.control) && (FanoutStep in steps <==> res.fanout)
    ensures (ResponderStep in steps <==> res.responder) && (ObsStep in steps <==> res.obs)
    ensures (ManagerStep in steps <==> res.manager) && (PostgresStep in steps <==> stopPostgres && res.postgres)
    ensures (UnsubscribeStep in steps <==> res.subscriptions > 0) && (PreStopStep in steps <==> res.embedded)
    ensures (ClusterStep in steps <==> res.cluster) && (NatsStep in steps <==> res.embedded)
    ensures forall i, j :: 0 <= i < j < |steps| ==> MayPrecede(steps[i], steps[j])
  {
    forall i, j | 0 <= i < j < |steps| ensures MayPrecede(steps[i], steps[j]) {}
  }

  /** No request may arrive once the engine stops, the Manager may not start Postgres
      behind its stop, the lease may not go before Postgres, subscriptions may not go
      after the connection, and the server goes last. */
  predicate MayPrecede(s: StepName, t: StepName)
  {
    && t != ControlStep && s != NatsStep
    && (s == FanoutStep ==> t != FanoutStep) && (t == FanoutStep ==> s == ControlStep)
    && (t == ResponderStep ==> s == ControlStep || s == FanoutStep)
    && (t == ObsStep ==> s == ControlStep || s == FanoutStep || s == ResponderStep)
    && (s == ManagerStep ==> t in {PostgresStep, UnsubscribeStep, PreStopStep, ClusterStep, NatsStep})
    && (s == PostgresStep ==> t in {UnsubscribeStep, PreStopStep, ClusterStep, NatsStep})
    && (s == UnsubscribeStep ==> t in {UnsubscribeStep, PreStopStep, ClusterStep, NatsStep})
    && (s == PreStopStep ==> t == ClusterStep || t == NatsStep)
    && (s == ClusterStep ==> t == NatsStep)
  }

  // ----- The drain loop

  /** How a step came back: errors.Is picks degraded before context errors. */
  datatype Outcome = Clean | Degraded | ContextError | OtherError

  /** A stop function: given the time left, how long it took and how it ended. */
  type Stop = int -> (nat, Outcome)

  /** One executed step: the time left when it started, how long it took, how it
      ended. */
  datatype Ran = Ran(left: int, took: nat, outcome: Outcome)

  function Executed(budget: int, steps: seq<Stop>): (ran: seq<Ran>)
    decreases steps
  {
    if steps == [] || budget <= 0 then []
    else var (took, outcome) := steps[0](budget);
         [Ran(budget, took, outcome)] + Executed(budget - took, steps[1..])
  }

  function Took(ran: seq<Ran>): (t: nat)
  {
    if ran == [] then 0 else ran[0].took + Took(ran[1..])
  }

  datatype DrainResult = DrainResult(timedOut: bool, stopErrors: seq<nat>)

  const EXIT_OK := 0
  const EXIT_SINGLETON := 77
  const EXIT_DRAIN_TIMEOUT := 79
  const EXIT_INTERNAL := 80

  function ExitCode(r: DrainResult): (code: int)
  {
    if r.stopErrors != [] then EXIT_INTERNAL else if r.timedOut then EXIT_DRAIN_TIMEOUT else EXIT_OK
  }

  /** Drain: the steps in order until the budget is gone, whatever they return.
      The errors are recorded by the number of the step they came from. */
  method RunDrain(budget: int, steps: seq<Stop>) returns (res: DrainResult, ran: seq<Ran>)
    ensures ran == Executed(budget, steps)
    ensures Errors(res.stopErrors, ran)
    ensures res.timedOut <==> |ran| < |steps| || SomeDegraded(ran)
  {
    res, ran := DrainResult(false, []), [];
    var left := budget;
    assert steps[0..] == steps;
    for i := 0 to |steps|
      invariant |ran| == i && ran + Executed(left, steps[i..]) == Executed(budget, steps)
      invariant Errors(res.stopErrors, ran) && (res.timedOut <==> SomeDegraded(ran))
    {
      if left <= 0 {
        res := res.(timedOut := true);
        break;
      }
      var (took, outcome) := steps[i](left);
      assert steps[i..][0] == steps[i] && steps[i..][1..] == steps[i + 1..];
      OneMoreRan(res.stopErrors, ran, Ran(left, took, outcome));
      AppendAssoc(ran, [Ran(left, took, outcome)], Executed(left - took, steps[i + 1..]));
      ran := ran + [Ran(left, took, outcome)];
      left := left - took;
      if outcome.Degraded? {
        res := res.(timedOut := true);
        continue;
      }
      if outcome.OtherError? {
        res := res.(stopErrors := res.stopErrors + [i]);
      }
    }
  }

  /** The errors collected are those of the steps that returned one. */
  ghost predicate Errors(errs: seq<nat>, ran: seq<Ran>)
  {
    forall i :: i in errs <==> 0 <= i < |ran| && ran[i].outcome.OtherError?
  }

  predicate SomeDegraded(ran: seq<Ran>)
  {
    exists i :: 0 <= i < |ran| && ran[i].outcome.Degraded?
  }

  lemma {:induction false} OneMoreRan(errs: seq<nat>, ran: seq<Ran>, r: Ran)
    requires Errors(errs, ran)
    ensures Errors(if r.outcome.OtherError? then errs + [|ran|] else errs, ran + [r])
    ensures SomeDegraded(ran + [r]) <==> SomeDegraded(ran) || r.outcome.Degraded?
  {
    var more := ran + [r];
    assert forall i :: 0 <= i < |ran| ==> more[i] == ran[i];
    assert more[|ran|] == r;
  }

  /** A prefix of the steps runs, each started with time left, and the rest is
      skipped only once the time is gone. */
  lemma {:induction false} DrainRunsAPrefix(budget: int, steps: seq<Stop>)
    ensures var ran := Executed(budget, steps);
            && |ran| <= |steps|
            && (forall i :: 0 <= i < |ran| ==> ran[i].left > 0 && (ran[i].took, ran[i].outcome) == steps[i](ran[i].left))
            && (forall i :: 0 <= i < |ran| ==> ran[i].left == budget - Took(ran[..i]))
            && (|ran| < |steps| ==> budget - Took(ran) <= 0)
    decreases steps
  {
    var ran := Executed(budget, steps);
    if steps != [] && budget > 0 {
      var rest := ran[1..];
      DrainRunsAPrefix(budget - ran[0].took, steps[1..]);
      forall i | 0 <= i < |ran| ensures ran[i].left == budget - Took(ran[..i]) {
        if i > 0 {
          assert ran[i] == rest[i - 1] && ran[..i][1..] == rest[..i - 1];
        }
      }
    }
  }

  /** The process exits 0 exactly when no step was skipped, none was degraded and
      none returned an error other than a context one. */
  lemma {:induction false} ExitCodeMeaning(res: DrainResult, ran: seq<Ran>, budget: int, steps: seq<Stop>)
    requires ran == Executed(budget, steps)
    requires Errors(res.stopErrors, ran) && (res.timedOut <==> |ran| < |steps| || SomeDegraded(ran))
    ensures ExitCode(res) == EXIT_OK <==>
            |ran| >= |steps| && forall i :: 0 <= i < |ran| ==> ran[i].outcome.Clean? || ran[i].outcome.ContextError?
    ensures ExitCode(res) == EXIT_INTERNAL <==> exists i :: 0 <= i < |ran| && ran[i].outcome.OtherError?
  {
    if res.stopErrors != [] {
      assert res.stopErrors[0] in res.stopErrors;
    }
  }

  datatype ManagerEnd = NoError | SingletonConflict | ManagerFailed

  /** The exit code of the process: the manager's own failure wins over whatever
      the drain then reports. */
  function ProcessExit(m: ManagerEnd, drain: DrainResult): (code: int)
    ensures code == EXIT_OK <==> m.NoError? && ExitCode(drain) == EXIT_OK
    ensures m.SingletonConflict? <==> code == EXIT_SINGLETON
    ensures m.ManagerFailed? ==> code == EXIT_INTERNAL
    ensures m.NoError? ==> code == ExitCode(drain)
  {
    var code := match m case NoError => EXIT_OK case SingletonConflict => EXIT_SINGLETON case ManagerFailed => EXIT_INTERNAL;
    if ExitCode(drain) != EXIT_OK && code == EXIT_OK then ExitCode(drain) else code
  }

  // ----- Stopping Postgres

  const TAIL_RESERVE: int := 3000
  const IMMEDIATE_WINDOW: int := 2000
  const FAST_FLOOR: int := 1000

  function Max(a: int, b: int): (m: int) { if a < b then b else a }
  function Min(a: int, b: int): (m: int) { if a < b then a else b }

  /** fastStopWindow, given the time left until the deadline. */
  function FastStopWindow(left: int): (w: int)
    ensures left >= 6000 ==> w == left - 5000
    ensures left < 6000 ==> w == 1000
  {
    Max(left - IMMEDIATE_WINDOW - TAIL_RESERVE, FAST_FLOOR)
  }

  /** Postgres as the step sees it: what IsRunning said and how long it took, and
      for each stop mode how long it takes within its deadline and whether it
      succeeds. */
  datatype Postgres = Postgres(probe: Probe, probed: nat, fast: int -> (nat, bool), immediate: int -> (nat, bool))

  datatype Probe = Running | NotRunning | ProbeFailed

  /** Stop calls return by their deadline. */
  ghost predicate RespectsDeadlines(pg: Postgres)
  {
    && (forall w: int :: pg.fast(w).0 <= Max(w, 0))
    && (forall w: int :: pg.immediate(w).0 <= Max(w, 0))
  }

  datatype StopMode = AlreadyDown | Fast | Immediate | Neither

  datatype Stopped = Stopped(outcome: Outcome, mode: StopMode, left: int)

  /** The step by its three possible calls. */
  function StopSpec(pg: Postgres, left: int): (r: Stopped)
    ensures r.left <= left
  {
    var afterProbe := left - pg.probed;
    var fast := pg.fast(Min(FastStopWindow(afterProbe), afterProbe));
    var afterFast := afterProbe - fast.0;
    var immediate := pg.immediate(Min(IMMEDIATE_WINDOW, afterFast));
    if pg.probe.NotRunning? then Stopped(Clean, AlreadyDown, afterProbe)
    else if fast.1 then Stopped(Clean, Fast, afterFast)
    else if immediate.1 then Stopped(Degraded, Immediate, afterFast - immediate.0)
    else Stopped(OtherError, Neither, afterFast - immediate.0)
  }

  /** Which mode is used and what is reported, from the probe and the two calls.  Fast
      mode has what is left but five seconds, at least one, and no more than is left;
      immediate mode two. */
  predicate StopMeaning(pg: Postgres, left: int, r: Stopped)
  {
    var l := left - pg.probed;
    var fast := pg.fast(Min(if l < 6000 then 1000 else l - 5000, l));
    var immediate := pg.immediate(Min(2000, l - fast.0));
    && (r.mode == AlreadyDown <==> pg.probe.NotRunning?)
    && (r.mode == Fast <==> !pg.probe.NotRunning? && fast.1)
    && (r.mode == Immediate <==> !pg.probe.NotRunning? && !fast.1 && immediate.1)
    && (r.mode == Neither <==> !pg.probe.NotRunning? && !fast.1 && !immediate.1)
    && (r.outcome == Clean <==> r.mode == AlreadyDown || r.mode == Fast)
    && (r.outcome == Degraded <==> r.mode == Immediate)
    && (r.outcome == OtherError <==> r.mode == Neither)
  }

  lemma {:induction false} StopSpecMeaning(pg: Postgres, left: int)
    ensures StopMeaning(pg, left, StopSpec(pg, left))
  {}

  /** The drain step that stops this Postgres. */
  function PostgresStop(pg: Postgres): (s: Stop)
  {
    (left: int) => (left - StopSpec(pg, left).left, StopSpec(pg, left).outcome)
  }

  /** A drain whose Postgres step had to use immediate mode, or had no success at all,
      does not exit 0; one where only that went wrong reports the timeout. */
  lemma {:induction false} EscalationShows(res: DrainResult, ran: seq<Ran>, budget: int, steps: seq<Stop>, i: nat, pg: Postgres)
    requires ran == Executed(budget, steps) && i < |ran| && i < |steps| && steps[i] == PostgresStop(pg)
    requires Errors(res.stopErrors, ran) && (res.timedOut <==> |ran| < |steps| || SomeDegraded(ran))
    ensures var mode := StopSpec(pg, ran[i].left).mode;
            && (ExitCode(res) == EXIT_OK ==> mode == AlreadyDown || mode == Fast)
            && (mode == Neither ==> ExitCode(res) == EXIT_INTERNAL)
            && (mode == Immediate && (forall j :: 0 <= j < |ran| && j != i ==> !ran[j].outcome.OtherError?) ==>
                  ExitCode(res) == EXIT_DRAIN_TIMEOUT)
  {
    DrainRunsAPrefix(budget, steps);
    StopSpecMeaning(pg, ran[i].left);
    ExitCodeMeaning(res, ran, budget, steps);
    assert ran[i].outcome == StopSpec(pg, ran[i].left).outcome;
  }

  /** StopPostgres with `left` milliseconds until its deadline: fast mode within
      its window, then immediate mode within its own, both under the deadline.
      An IsRunning error takes the stop path. */
  method StopPostgres(pg: Postgres, left: int) returns (r: Stopped)
    ensures r == StopSpec(pg, left)
    ensures RespectsDeadlines(pg) ==> r.left >= LeftAtLeast(left - pg.probed)
    ensures StopMeaning(pg, left, r)
  {
    var afterProbe := left - pg.probed;
    if pg.probe.NotRunning? {
      return Stopped(Clean, AlreadyDown, afterProbe);
    }
    var fast := pg.fast(Min(FastStopWindow(afterProbe), afterProbe));
    var afterFast := afterProbe - fast.0;
    if fast.1 {
      return Stopped(Clean, Fast, afterFast);
    }
    var immediate := pg.immediate(Min(IMMEDIATE_WINDOW, afterFast));
    if !immediate.1 {
      return Stopped(OtherError, Neither, afterFast - immediate.0);
    }
    return Stopped(Degraded, Immediate, afterFast - immediate.0);
  }

  /** What the later steps are left with at worst. */
  function LeftAtLeast(left: int): (r: int)
    ensures r >= TAIL_RESERVE <==> left >= TAIL_RESERVE + IMMEDIATE_WINDOW + FAST_FLOOR
  {
    if left >= 6000 then TAIL_RESERVE else Min(left, Max(left - 3000, 0))
  }

  /** The slowest Postgres that still returns by every deadline. */
  function Slowest(): (pg: Postgres)
  {
    var slow := (w: int) => (if w < 0 then 0 else w, false);
    Postgres(Running, 0, slow, slow)
  }

  /** The tail steps are sure of their three seconds exactly when at least six
      remain once IsRunning has returned. */
  lemma {:induction false} TailReserveIsExact(left: int)
    ensures (forall pg: Postgres :: RespectsDeadlines(pg) ==> StopSpec(pg, left + pg.probed).left >= TAIL_RESERVE)
            <==> left >= 6000
  {
    if left < 6000 {
      var pg := Slowest();
      assert RespectsDeadlines(pg);
      assert StopSpec(pg, left + pg.probed).left < TAIL_RESERVE;
    }
  }
}
