/**
  The leadership lease across any number of nodes: who may campaign for it
  (internal/runtime/campaign_gate.go) and what a draining primary does before
  letting it go (the step list of cmd/pgman-proxy/main.go).

  The lease, each node's data directory and each node's WAL are abstract state
  changed by atomic steps.  Asking the gate and the attempt it clears are two
  steps, and so are the cancelling of a node's context and the drain that follows
  it or, after a failed startup, comes without it.  Renewal is taken to last until
  the lease handle is closed or the process dies, and a successful fast stop to
  ship all WAL.
 */
module LeaseHandover {
  import opened Options
  import opened Drain

  // ----- The campaign gate

  /** campaignGate: a stopping node never contests the lease; the Manager decides
      once it exists; before that, the boot-window rule does. */
  predicate CampaignGate(stopping: bool, manager: Option<bool>, boot: bool)
  {
    if stopping then false else if manager.Some? then manager.value else boot
  }

  /** What ClassifyDataDir made of the data directory. */
  datatype Inspection = Complete | Incomplete | Unset | Unreadable

  /** pgdataComplete's value and error. */
  function PgdataComplete(i: Inspection): (r: (bool, bool))
    ensures r.0 ==> i.Complete?
  {
    (i.Complete?, i.Unreadable?)
  }

  /** The boot-window gate with the transitions it has logged. */
  class BootWindowGate {
    var logged: string
    var lines: seq<string>

    constructor ()
      ensures logged == "" && lines == []
    {
      logged, lines := "", [];
    }

    /** allow: open exactly for a complete directory, closed on any inspection
        error; a line is logged exactly when the reason changes. */
    method Allow(i: Inspection) returns (ok: bool)
      modifies this
      ensures ok <==> i.Complete?
      ensures ok <==> logged == ""
      ensures lines == old(lines) + if logged != old(logged) then [logged] else []
      ensures i.Unreadable? <==> logged == "pgdata_unreadable"
      ensures i.Incomplete? || i.Unset? <==> logged == "pgdata_empty"
    {
      var (complete, err) := PgdataComplete(i);
      var reason := if err then "pgdata_unreadable" else if !complete then "pgdata_empty" else "";
      if reason != logged {
        lines := lines + [reason];
        logged := reason;
      }
      ok := reason == "";
    }
  }

  // ----- Nodes and steps

  type NodeId = nat

  datatype Pg = Up | Down

  /** One node.  `cleared` is that the gate has let an attempt pass which has not
      been decided yet, `stopping` that the context is cancelled; `todo` are the drain
      steps still to run and `ran` those that have; `stop` is how its Postgres step
      returned. */
  datatype Node = Node(
    alive: bool, booting: bool, data: Inspection, wants: bool, cleared: bool,
    stopping: bool, draining: bool, todo: seq<StepName>, ran: set<StepName>, closed: bool, stop: Option<StopMode>,
    pg: Pg, wal: nat, shipped: nat)

  datatype Cluster = Cluster(lease: Option<NodeId>, nodes: map<NodeId, Node>)

  datatype Step =
    | Boot
    | Inspect(data: Inspection)
    | Deliberate(wants: bool)
    | Publish   // manager.New returned
    | Consult   // the lease loop asks the gate
    | Attempt(lands: bool)   // and, where it may, tries to create the lease
    | Expire   // the lease of a dead process runs out
    | Resign   // a switchover, by the Manager, which runs until its drain step
    | SelfFence   // the storage monitor closes the lease handle; it may be at it when a shutdown begins
    | Cancel   // a signal, an operator restart, or the Manager returning
    | BeginDrain(res: Resources, stopPostgres: bool, plan: seq<StepName>)
    | RunStep(mode: StopMode)
    | Die(pg: Pg)
    | StartPostgres
    | ManagerStopsPostgres
    | WriteWal
    | ShipWal(upTo: nat)

  predicate ManagerRunning(n: Node)
  {
    n.alive && !n.booting && ManagerStep !in n.ran
  }

  function NewNode(old_: Node): (n: Node)
  {
    Node(true, true, Unset, false, false, false, false, [], {}, false, None, old_.pg, old_.wal, old_.shipped)
  }

  /** The gate's answer as things stand. */
  predicate GateOpen(n: Node)
  {
    CampaignGate(n.stopping, if n.booting then None else Some(n.wants), n.data.Complete?)
  }

  /** What running a drain step does to its node. */
  ghost predicate StepEffect(n: Node, mode: StopMode, n': Node)
    requires n.todo != []
  {
    var s := n.todo[0];
    var stops := s == PostgresStep;
    && (stops ==> (mode.AlreadyDown? <==> n.pg.Down?))
    && n' == n.(todo := n.todo[1..], ran := n.ran + {s}, closed := n.closed || s == ClusterStep,
                stop := if stops then Some(mode) else n.stop,
                pg := if stops && !mode.Neither? then Down else n.pg,
                shipped := if stops && mode.Fast? then n.wal else n.shipped)
  }

  ghost predicate NodeStep(s: Cluster, i: NodeId, step: Step, lease': Option<NodeId>, n': Node)
    requires i in s.nodes
  {
    var n := s.nodes[i];
    match step
    case Boot => !n.alive && n' == NewNode(n) && lease' == s.lease
    case Inspect(d) => n.alive && n' == n.(data := d) && lease' == s.lease
    case Deliberate(w) => n.alive && n' == n.(wants := w) && lease' == s.lease
    case Publish => n.alive && n.booting && !n.draining && n' == n.(booting := false) && lease' == s.lease
    case Consult => n.alive && !n.closed && n' == n.(cleared := GateOpen(n)) && lease' == s.lease
    case Attempt(lands) =>
      && n.alive && !n.closed && n.cleared && n' == n.(cleared := false)
      && lease' == if lands && s.lease.None? then Some(i) else s.lease
    case Expire => !n.alive && s.lease == Some(i) && n' == n && lease'.None?
    case Resign => ManagerRunning(n) && s.lease == Some(i) && n' == n && lease'.None?
    case SelfFence =>
      && n.alive && n' == n.(closed := true)
      && lease' == if s.lease == Some(i) then None else s.lease
    case Cancel => n.alive && !n.stopping && n' == n.(stopping := true) && lease' == s.lease
    case BeginDrain(res, stopPostgres, plan) =>
      // Only a started process stops Postgres; a failed startup drains uncancelled.
      && n.alive && !n.draining && IsPlan(res, stopPostgres, plan) && res.manager == !n.booting
      && (stopPostgres ==> !n.booting && n.stopping)
      && n' == n.(draining := true, todo := plan, ran := {}) && lease' == s.lease
    case RunStep(mode) =>
      && n.alive && n.draining && n.todo != [] && StepEffect(n, mode, n')
      && lease' == if n'.closed && s.lease == Some(i) then None else s.lease
    case Die(pg) => n.alive && n' == n.(alive := false, cleared := false, pg := if n.pg.Down? then Down else pg) && lease' == s.lease
    case StartPostgres => ManagerRunning(n) && n' == n.(pg := Up) && lease' == s.lease
    case ManagerStopsPostgres => ManagerRunning(n) && n' == n.(pg := Down) && lease' == s.lease
    case WriteWal => n.pg.Up? && n' == n.(wal := n.wal + 1) && lease' == s.lease
    case ShipWal(k) => n.pg.Up? && n.shipped <= k <= n.wal && n' == n.(shipped := k) && lease' == s.lease
  }

  ghost predicate Next(s: Cluster, i: NodeId, step: Step, s': Cluster)
  {
    && i in s.nodes && i in s'.nodes
    && NodeStep(s, i, step, s'.lease, s'.nodes[i])
    && s'.nodes == s.nodes[i := s'.nodes[i]]
  }

  datatype Move = Move(node: NodeId, step: Step)

  /** Every node starts as a dead process on some data directory; nobody holds
      the lease. */
  ghost predicate Init(s: Cluster)
  {
    && s.lease.None?
    && forall i :: i in s.nodes ==>
                     var n := s.nodes[i];
                     && !n.alive && !n.cleared && n.shipped <= n.wal
                     && !n.stopping && !n.draining && n.todo == [] && n.ran == {} && n.stop.None?
  }

  ghost predicate IsRun(run: seq<Cluster>, moves: seq<Move>)
  {
    && |run| == |moves| + 1 && Init(run[0])
    && forall k :: 0 <= k < |moves| ==> Next(run[k], moves[k].node, moves[k].step, run[k + 1])
  }

  // ----- The invariant

  /** What has run comes before what is still to run. */
  ghost predicate RanInOrder(ran: set<StepName>, todo: seq<StepName>)
  {
    && InOrder(todo)
    && forall s, k :: s in ran && 0 <= k < |todo| ==> Rank(s) <= Rank(todo[k])
  }

  /** What the steps that have run have done. */
  ghost predicate RanFacts(n: Node)
  {
    && (PostgresStep in n.ran <==> n.stop.Some?)
    && (ClusterStep in n.ran ==> n.closed)
    && (n.stop == Some(Fast) ==> n.pg.Down? && n.shipped == n.wal)
  }

  ghost predicate DrainInv(n: Node)
  {
    && RanInOrder(n.ran, n.todo) && RanFacts(n)
    && (!n.booting ==> ManagerStep in n.ran || ManagerStep in n.todo)
  }

  ghost predicate NodeInv(n: Node)
  {
    && n.shipped <= n.wal
    && (!n.draining ==> n.todo == [] && n.ran == {} && n.stop.None?)
    && (n.draining ==> DrainInv(n))
    && (n.cleared ==> n.alive)
  }

  ghost predicate Inv(s: Cluster)
  {
    && (forall i :: i in s.nodes ==> NodeInv(s.nodes[i]))
    && (s.lease.Some? ==> s.lease.value in s.nodes && (s.nodes[s.lease.value].alive ==> !s.nodes[s.lease.value].closed))
  }

  /** The order the hand-over depends on: when a later step has run, every planned
      earlier one has. */
  lemma {:induction false} EarlierHasRun(n: Node, s: StepName, t: StepName)
    requires RanInOrder(n.ran, n.todo) && Rank(s) < Rank(t) && t in n.ran && (s in n.ran || s in n.todo)
    ensures s in n.ran
  {}

  lemma {:induction false} RunStepKeepsDrainInv(n: Node, mode: StopMode, n': Node)
    requires n.todo != [] && n.shipped <= n.wal && DrainInv(n) && StepEffect(n, mode, n')
    ensures n'.shipped <= n'.wal && DrainInv(n') && n'.draining == n.draining && (n'.cleared ==> n.cleared)
            && n'.alive == n.alive
  {
    RunStepFrame(n, mode, n');
    RunStepLeavesGate(n, mode, n');
    RunStepKeepsFacts(n, mode, n');
    NextStillInOrder(n.ran, n.todo);
    NextIsPlanned(n.todo, ManagerStep);
  }

  lemma {:induction false} RunStepKeepsFacts(n: Node, mode: StopMode, n': Node)
    requires n.todo != [] && n.shipped <= n.wal && RanFacts(n) && StepEffect(n, mode, n')
    ensures n'.shipped <= n'.wal && RanFacts(n')
    ensures n'.todo == n.todo[1..] && n'.ran == n.ran + {n.todo[0]} && n'.booting == n.booting
  {
    RunStepFrame(n, mode, n');
  }

  lemma {:induction false} RunStepFrame(n: Node, mode: StopMode, n': Node)
    requires n.todo != [] && StepEffect(n, mode, n')
    ensures n'.todo == n.todo[1..] && n'.ran == n.ran + {n.todo[0]} && n'.booting == n.booting
            && n'.draining == n.draining
    ensures n'.closed == (n.closed || n.todo[0] == ClusterStep)
  {}

  lemma {:induction false} RunStepLeavesGate(n: Node, mode: StopMode, n': Node)
    requires n.todo != [] && StepEffect(n, mode, n')
    ensures n'.stopping == n.stopping && n'.cleared == n.cleared && n'.alive == n.alive && (n.closed ==> n'.closed)
  {}

  lemma {:induction false} NextStillInOrder(ran: set<StepName>, todo: seq<StepName>)
    requires RanInOrder(ran, todo) && todo != []
    ensures RanInOrder(ran + {todo[0]}, todo[1..])
  {}

  lemma {:induction false} NextIsPlanned(todo: seq<StepName>, s: StepName)
    requires todo != []
    ensures s in todo <==> s == todo[0] || s in todo[1..]
  {}

  lemma {:induction false} NextKeepsNodeInv(s: Cluster, i: NodeId, step: Step, s': Cluster)
    requires Inv(s) && Next(s, i, step, s')
    ensures NodeInv(s'.nodes[i])
  {
    var n, n' := s.nodes[i], s'.nodes[i];
    if step.RunStep? {
      RunStepKeepsDrainInv(n, step.mode, n');
    } else if n.draining && n.stop.Some? && !n.booting {
      EarlierHasRun(n, ManagerStep, PostgresStep);
    }
  }

  lemma {:induction false} NextKeepsInv(s: Cluster, i: NodeId, step: Step, s': Cluster)
    requires Inv(s) && Next(s, i, step, s')
    ensures Inv(s')
  {
    NextKeepsNodeInv(s, i, step, s');
    forall j | j in s'.nodes ensures NodeInv(s'.nodes[j]) {
      if j != i { assert s'.nodes[j] == s.nodes[j]; }
    }
  }

  lemma {:induction false} RunKeepsInv(run: seq<Cluster>, moves: seq<Move>, k: nat)
    requires IsRun(run, moves) && k < |run|
    ensures Inv(run[k])
  {
    if k > 0 {
      RunKeepsInv(run, moves, k - 1);
      NextKeepsInv(run[k - 1], moves[k - 1].node, moves[k - 1].step, run[k]);
    }
  }

  // ----- What every run guarantees

  /** The node's process is the same one from state i to state j. */
  ghost predicate LivesThrough(run: seq<Cluster>, i: nat, j: nat, p: NodeId)
  {
    i <= j < |run| && forall k :: i <= k <= j ==> p in run[k].nodes && run[k].nodes[p].alive
  }

  /** Move k: the gate lets p pass. */
  ghost predicate PassesAt(run: seq<Cluster>, moves: seq<Move>, k: nat, p: NodeId)
    requires k < |run| && k < |moves|
  {
    moves[k] == Move(p, Consult) && p in run[k].nodes && GateOpen(run[k].nodes[p])
  }

  /** Move k is one of p's that settles the attempt before it. */
  predicate SettlesAt(moves: seq<Move>, k: nat, p: NodeId)
    requires k < |moves|
  {
    moves[k].node == p && (moves[k].step.Consult? || moves[k].step.Attempt?)
  }

  /** The attempt that passed the gate at move k is still to be decided in state j. */
  ghost predicate Pending(run: seq<Cluster>, moves: seq<Move>, k: nat, j: nat, p: NodeId)
    requires |run| == |moves| + 1
  {
    && k < j < |run| && PassesAt(run, moves, k, p) && LivesThrough(run, k, j, p)
    && forall m :: k < m < j ==> !SettlesAt(moves, m, p)
  }

  ghost predicate HasPending(run: seq<Cluster>, moves: seq<Move>, j: nat, p: NodeId)
    requires |run| == |moves| + 1
  {
    exists k: nat :: Pending(run, moves, k, j, p)
  }

  /** A node is cleared exactly while an attempt that passed the gate is pending. */
  lemma {:induction false} ClearedMeaning(run: seq<Cluster>, moves: seq<Move>, j: nat, p: NodeId)
    requires IsRun(run, moves) && j < |run| && p in run[j].nodes
    ensures run[j].nodes[p].cleared <==> HasPending(run, moves, j, p)
  {
    if j > 0 {
      var m := moves[j - 1];
      assert Next(run[j - 1], m.node, m.step, run[j]);
      ClearedMeaning(run, moves, j - 1, p);
      RunKeepsInv(run, moves, j - 1);
      ClearedStays(run[j - 1], m.node, m.step, run[j], p);
      PendingStep(run, moves, j, p);
    }
  }

  /** An attempt is pending because it has just passed, or was and is not settled. */
  lemma {:induction false} PendingStep(run: seq<Cluster>, moves: seq<Move>, j: nat, p: NodeId)
    requires |run| == |moves| + 1 && 0 < j < |run| && p in run[j].nodes && p in run[j - 1].nodes
    ensures HasPending(run, moves, j, p) <==>
            && run[j].nodes[p].alive && run[j - 1].nodes[p].alive
            && (PassesAt(run, moves, j - 1, p) || (!SettlesAt(moves, j - 1, p) && HasPending(run, moves, j - 1, p)))
  {
    if k: nat :| Pending(run, moves, k, j, p) {
      if k < j - 1 {
        assert Pending(run, moves, k, j - 1, p);
      }
    }
    if run[j].nodes[p].alive && run[j - 1].nodes[p].alive {
      if PassesAt(run, moves, j - 1, p) {
        assert Pending(run, moves, j - 1, j, p);
      }
      if !SettlesAt(moves, j - 1, p) && HasPending(run, moves, j - 1, p) {
        var k: nat :| Pending(run, moves, k, j - 1, p);
        assert Pending(run, moves, k, j, p);
      }
    }
  }

  /** Only the loop's own moves, a death and a boot change it. */
  lemma {:induction false} ClearedStays(s: Cluster, i: NodeId, step: Step, s': Cluster, p: NodeId)
    requires Inv(s) && Next(s, i, step, s') && p in s.nodes
    ensures i == p && step.Consult? ==> s'.nodes[p].cleared == GateOpen(s.nodes[p])
    ensures i == p && step.Attempt? ==> !s'.nodes[p].cleared
    ensures !(i == p && (step.Consult? || step.Attempt?)) ==>
              s'.nodes[p].cleared == (s.nodes[p].cleared && s'.nodes[p].alive)
    ensures s'.nodes[p].cleared ==> s.nodes[p].alive
  {
    if i == p && step.RunStep? {
      RunStepLeavesGate(s.nodes[p], step.mode, s'.nodes[p]);
    }
  }

  /** Whoever gains the lease passed the gate before, in the same process and with
      nothing settled in between: then it was not shutting down and, if still in its
      boot window, sat on a complete database. */
  lemma {:induction false} WhoGainsTheLease(run: seq<Cluster>, moves: seq<Move>, k: nat, i: NodeId) returns (c: nat)
    requires IsRun(run, moves) && k < |moves|
    requires run[k].lease != Some(i) && run[k + 1].lease == Some(i)
    ensures run[k].lease.None? && Pending(run, moves, c, k, i) && !run[k].nodes[i].closed
    ensures var n := run[c].nodes[i]; n.alive && !n.stopping && if n.booting then n.data.Complete? else n.wants
  {
    assert Next(run[k], moves[k].node, moves[k].step, run[k + 1]);
    ClearedMeaning(run, moves, k, i);
    c :| Pending(run, moves, c, k, i);
  }

  // ----- Who can still come to hold the lease

  /** The node is neither the holder nor able to become it. */
  predicate ShutOut(s: Cluster, p: NodeId)
  {
    && p in s.nodes && s.lease != Some(p)
    && (s.nodes[p].closed || (s.nodes[p].stopping && !s.nodes[p].cleared))
  }

  lemma {:induction false} ShutOutStep(s: Cluster, i: NodeId, step: Step, s': Cluster, p: NodeId)
    requires Next(s, i, step, s') && ShutOut(s, p) && s.nodes[p].alive && p in s'.nodes
    ensures ShutOut(s', p)
  {
    if i == p && step.RunStep? {
      RunStepLeavesGate(s.nodes[p], step.mode, s'.nodes[p]);
    }
  }

  /** A process that is shut out stays so. */
  lemma {:induction false} ShutOutForGood(run: seq<Cluster>, moves: seq<Move>, i: nat, j: nat, p: NodeId)
    requires IsRun(run, moves) && LivesThrough(run, i, j, p) && ShutOut(run[i], p)
    ensures ShutOut(run[j], p)
    decreases j
  {
    if i < j {
      ShutOutForGood(run, moves, i, j - 1, p);
      ShutOutStep(run[j - 1], moves[j - 1].node, moves[j - 1].step, run[j], p);
    }
  }

  /** The longer run goes on from the shorter one, with p alive throughout. */
  ghost predicate GoesOn(run: seq<Cluster>, moves: seq<Move>, run': seq<Cluster>, moves': seq<Move>, p: NodeId)
    requires run != []
  {
    IsRun(run', moves') && run <= run' && moves <= moves' && LivesThrough(run', |run| - 1, |run'| - 1, p)
  }

  /** Some way on from the end of the run makes p the holder. */
  ghost predicate CanGain(run: seq<Cluster>, moves: seq<Move>, p: NodeId)
    requires run != []
  {
    exists run': seq<Cluster>, moves' :: GoesOn(run, moves, run', moves', p) && run'[|run'| - 1].lease == Some(p)
  }

  lemma {:induction false} OneMoreMove(run: seq<Cluster>, moves: seq<Move>, m: Move, s': Cluster)
    requires IsRun(run, moves) && Next(run[|run| - 1], m.node, m.step, s')
    ensures IsRun(run + [s'], moves + [m])
  {
    var longer, all := run + [s'], moves + [m];
    forall k | 0 <= k < |all| ensures Next(longer[k], all[k].node, all[k].step, longer[k + 1]) {
      if k < |moves| {
        assert longer[k] == run[k] && longer[k + 1] == run[k + 1] && all[k] == moves[k];
      }
    }
  }

  /** One step of the node i on the way. */
  lemma {:induction false} OneMoreOnTheWay(
    run: seq<Cluster>, moves: seq<Move>, run': seq<Cluster>, moves': seq<Move>, p: NodeId,
    i: NodeId, step: Step, lease': Option<NodeId>, n': Node)
    returns (run2: seq<Cluster>, moves2: seq<Move>)
    requires run != [] && GoesOn(run, moves, run', moves', p)
    requires var s := run'[|run'| - 1]; i in s.nodes && NodeStep(s, i, step, lease', n') && (i == p ==> n'.alive)
    ensures GoesOn(run, moves, run2, moves2, p)
    ensures run2[|run2| - 1] == Cluster(lease', run'[|run'| - 1].nodes[i := n'])
  {
    var s := run'[|run'| - 1];
    var s' := Cluster(lease', s.nodes[i := n']);
    OneMoreMove(run', moves', Move(i, step), s');
    run2, moves2 := run' + [s'], moves' + [Move(i, step)];
    LivesOn(run', s', |run| - 1, p);
  }

  lemma {:induction false} LivesOn(run: seq<Cluster>, s': Cluster, i: nat, p: NodeId)
    requires i < |run| && LivesThrough(run, i, |run| - 1, p) && p in s'.nodes && s'.nodes[p].alive
    ensures LivesThrough(run + [s'], i, |run|, p)
  {
    var longer := run + [s'];
    forall k | i <= k <= |run| ensures p in longer[k].nodes && longer[k].nodes[p].alive {
      if k < |run| { assert longer[k] == run[k]; }
    }
  }

  /** Another holder can always die and its lease run out. */
  lemma {:induction false} OthersCanGo(run: seq<Cluster>, moves: seq<Move>, p: NodeId)
    returns (run': seq<Cluster>, moves': seq<Move>)
    requires IsRun(run, moves) && p in run[|run| - 1].nodes && run[|run| - 1].nodes[p].alive
    requires run[|run| - 1].lease != Some(p)
    ensures GoesOn(run, moves, run', moves', p)
    ensures var s, s' := run[|run| - 1], run'[|run'| - 1]; s'.lease.None? && p in s'.nodes && s'.nodes[p] == s.nodes[p]
  {
    run', moves' := run, moves;
    var s := run[|run| - 1];
    if s.lease.Some? {
      var q := s.lease.value;
      RunKeepsInv(run, moves, |run| - 1);
      var n := s.nodes[q];
      var gone := n.(alive := false, cleared := false, pg := Down);
      if n.alive {
        run', moves' := OneMoreOnTheWay(run, moves, run', moves', p, q, Die(Down), s.lease, gone);
      }
      var now := run'[|run'| - 1];
      run', moves' := OneMoreOnTheWay(run, moves, run', moves', p, q, Expire, None, now.nodes[q]);
    }
  }

  /** A node whose context is not cancelled can come to be cleared. */
  lemma {:induction false} CanBeCleared(
    run: seq<Cluster>, moves: seq<Move>, run0: seq<Cluster>, moves0: seq<Move>, p: NodeId)
    returns (run': seq<Cluster>, moves': seq<Move>)
    requires run != [] && GoesOn(run, moves, run0, moves0, p)
    requires var n := run0[|run0| - 1].nodes[p]; !n.closed && !n.stopping
    ensures GoesOn(run, moves, run', moves', p)
    ensures var s, s' := run0[|run0| - 1], run'[|run'| - 1];
            s'.lease == s.lease && p in s'.nodes && s'.nodes[p].cleared && !s'.nodes[p].closed
  {
    var s := run0[|run0| - 1];
    var inspected := s.nodes[p].(data := Complete);
    run', moves' := OneMoreOnTheWay(run, moves, run0, moves0, p, p, Inspect(Complete), s.lease, inspected);
    var willing := inspected.(wants := true);
    run', moves' := OneMoreOnTheWay(run, moves, run', moves', p, p, Deliberate(true), s.lease, willing);
    run', moves' := OneMoreOnTheWay(run, moves, run', moves', p, p, Consult, s.lease, willing.(cleared := true));
  }

  lemma {:induction false} WayToTheLease(run: seq<Cluster>, moves: seq<Move>, p: NodeId)
    requires IsRun(run, moves) && p in run[|run| - 1].nodes && run[|run| - 1].nodes[p].alive
    requires run[|run| - 1].lease != Some(p) && !ShutOut(run[|run| - 1], p)
    ensures CanGain(run, moves, p)
  {
    var run', moves' := OthersCanGo(run, moves, p);
    if !run'[|run'| - 1].nodes[p].stopping {
      run', moves' := CanBeCleared(run, moves, run', moves', p);
    }
    var s := run'[|run'| - 1];
    run', moves' := OneMoreOnTheWay(run, moves, run', moves', p, p, Attempt(true), Some(p), s.nodes[p].(cleared := false));
    assert GoesOn(run, moves, run', moves', p) && run'[|run'| - 1].lease == Some(p);
  }

  /** A live process that does not hold the lease can still come to hold it if and
      only if its handle is open and its context is not cancelled, or was cancelled
      when an attempt of its own had already passed the gate. */
  lemma {:induction false} CanGainMeaning(run: seq<Cluster>, moves: seq<Move>, p: NodeId)
    requires IsRun(run, moves) && p in run[|run| - 1].nodes && run[|run| - 1].nodes[p].alive
    requires run[|run| - 1].lease != Some(p)
    ensures var n := run[|run| - 1].nodes[p];
            CanGain(run, moves, p) <==> !n.closed && (n.stopping ==> HasPending(run, moves, |moves|, p))
  {
    ClearedMeaning(run, moves, |moves|, p);
    if run': seq<Cluster>, moves': seq<Move> :| GoesOn(run, moves, run', moves', p) && run'[|run'| - 1].lease == Some(p) {
      if ShutOut(run[|run| - 1], p) {
        assert run'[|run| - 1] == run[|run| - 1];
        ShutOutForGood(run', moves', |run| - 1, |run'| - 1, p);
      }
    }
    if !ShutOut(run[|run| - 1], p) {
      WayToTheLease(run, moves, p);
    }
  }

  // ----- What a draining holder does

  /** The steps of the node's drain, run or not. */
  ghost function DrainSteps(n: Node): (e: set<StepName>)
  {
    n.ran + set s | s in n.todo
  }

  lemma {:induction false} RunStepMovesOn(n: Node, mode: StopMode, n': Node)
    requires n.todo != [] && StepEffect(n, mode, n')
    ensures DrainSteps(n') == DrainSteps(n) && n.ran <= n'.ran && n'.draining == n.draining
    ensures n'.closed ==> n.closed || ClusterStep in n'.ran
  {
    RunStepFrame(n, mode, n');
    StepsMoveOver(n.ran, n.todo, n'.ran, n'.todo);
  }

  lemma {:induction false} StepsMoveOver(ran: set<StepName>, todo: seq<StepName>, ran': set<StepName>,
    todo': seq<StepName>)
    requires todo != [] && todo' == todo[1..] && ran' == ran + {todo[0]}
    ensures ran' + (set s | s in todo') == ran + set s | s in todo
  {
    assert todo == [todo[0]] + todo';
  }

  /** Step k of the run: p itself lets go of the lease, outside its drain. */
  predicate LetsGo(run: seq<Cluster>, moves: seq<Move>, k: nat, p: NodeId)
    requires k < |run| && k < |moves|
  {
    moves[k].node == p && (moves[k].step.Resign? || moves[k].step.SelfFence?) && run[k].lease == Some(p)
  }

  /** Step k of the run: p gains the lease. */
  predicate Gains(run: seq<Cluster>, k: nat, p: NodeId)
    requires k + 1 < |run|
  {
    run[k].lease != Some(p) && run[k + 1].lease == Some(p)
  }

  /** p has let go and not gained the lease again since. */
  ghost predicate HasLetGo(run: seq<Cluster>, moves: seq<Move>, i: nat, j: nat, p: NodeId)
    requires j <= |moves| < |run|
  {
    exists k :: i <= k < j && LetsGo(run, moves, k, p) && forall m :: k < m < j ==> !Gains(run, m, p)
  }

  /** What a step leaves of a drain in progress. */
  lemma {:induction false} DrainGoesOn(s: Cluster, i: NodeId, step: Step, s': Cluster, p: NodeId)
    requires Next(s, i, step, s') && p in s.nodes && s.nodes[p].alive && s.nodes[p].draining
    requires p in s'.nodes && s'.nodes[p].alive
    ensures s'.nodes[p].draining && DrainSteps(s'.nodes[p]) == DrainSteps(s.nodes[p])
            && s.nodes[p].ran <= s'.nodes[p].ran
  {
    if i == p {
      OwnDrainGoesOn(s, p, step, s'.lease, s'.nodes[p]);
    }
  }

  lemma {:induction false} OwnDrainGoesOn(s: Cluster, p: NodeId, step: Step, lease': Option<NodeId>, n': Node)
    requires p in s.nodes && NodeStep(s, p, step, lease', n') && s.nodes[p].alive && s.nodes[p].draining && n'.alive
    ensures n'.draining && DrainSteps(n') == DrainSteps(s.nodes[p]) && s.nodes[p].ran <= n'.ran
  {
    if step.RunStep? {
      RunStepMovesOn(s.nodes[p], step.mode, n');
    } else {
      assert n'.todo == s.nodes[p].todo && n'.ran == s.nodes[p].ran;
    }
  }

  /** A draining holder loses the lease in one step by letting go or by its cluster
      step. */
  lemma {:induction false} HolderStep(s: Cluster, i: NodeId, step: Step, s': Cluster, p: NodeId)
    requires Inv(s) && Next(s, i, step, s') && p in s.nodes && s.nodes[p].draining && s.lease == Some(p)
    requires s.nodes[p].alive && p in s'.nodes && s'.nodes[p].alive
    ensures s'.lease != Some(p) <==> (i == p && (step.Resign? || step.SelfFence?)) || ClusterStep in s'.nodes[p].ran
  {
    if i == p && step.RunStep? {
      RunStepFrame(s.nodes[p], step.mode, s'.nodes[p]);
    }
  }

  lemma {:induction false} NoLeaseAfterClusterStep(s: Cluster, p: NodeId)
    requires Inv(s) && p in s.nodes && s.nodes[p].alive && s.nodes[p].draining && ClusterStep in s.nodes[p].ran
    ensures s.lease != Some(p)
  {
    assert NodeInv(s.nodes[p]);
  }

  /** p is without the lease exactly when it has run its cluster step, or has let go
      itself and not gained it again. */
  ghost predicate LossExplained(run: seq<Cluster>, moves: seq<Move>, i: nat, j: nat, p: NodeId)
    requires j <= |moves| < |run| && p in run[j].nodes
  {
    run[j].lease != Some(p) <==> ClusterStep in run[j].nodes[p].ran || HasLetGo(run, moves, i, j, p)
  }

  lemma {:induction false} StaysDraining(run: seq<Cluster>, moves: seq<Move>, i: nat, j: nat, p: NodeId)
    requires IsRun(run, moves) && LivesThrough(run, i, j, p) && run[i].nodes[p].draining
    ensures run[j].nodes[p].draining && DrainSteps(run[j].nodes[p]) == DrainSteps(run[i].nodes[p])
    decreases j
  {
    if i < j {
      StaysDraining(run, moves, i, j - 1, p);
      DrainGoesOn(run[j - 1], moves[j - 1].node, moves[j - 1].step, run[j], p);
    }
  }

  lemma {:induction false} LossStep(run: seq<Cluster>, moves: seq<Move>, i: nat, j: nat, p: NodeId)
    requires i < j <= |moves| < |run|
    requires p in run[j - 1].nodes && run[j - 1].nodes[p].alive && run[j - 1].nodes[p].draining
    requires p in run[j].nodes && run[j].nodes[p].alive && LossExplained(run, moves, i, j - 1, p)
    requires Inv(run[j - 1]) && Inv(run[j]) && Next(run[j - 1], moves[j - 1].node, moves[j - 1].step, run[j])
    ensures LossExplained(run, moves, i, j, p)
  {
    DrainGoesOn(run[j - 1], moves[j - 1].node, moves[j - 1].step, run[j], p);
    LetGoStep(run, moves, i, j, p);
    if run[j - 1].lease == Some(p) {
      HolderStep(run[j - 1], moves[j - 1].node, moves[j - 1].step, run[j], p);
    } else if ClusterStep in run[j].nodes[p].ran {
      NoLeaseAfterClusterStep(run[j], p);
    }
  }

  /** While its process lives, a draining holder is without the lease exactly when it
      has run its cluster step, or has let go itself and not gained it again. */
  lemma {:induction false} DrainingHolderKeepsLease(run: seq<Cluster>, moves: seq<Move>, i: nat, j: nat, p: NodeId)
    requires IsRun(run, moves) && LivesThrough(run, i, j, p)
    requires run[i].nodes[p].draining && run[i].lease == Some(p)
    ensures run[j].nodes[p].draining && DrainSteps(run[j].nodes[p]) == DrainSteps(run[i].nodes[p])
    ensures run[j].lease != Some(p) <==> ClusterStep in run[j].nodes[p].ran || HasLetGo(run, moves, i, j, p)
  {
    StaysDraining(run, moves, i, j, p);
    LossIsExplained(run, moves, i, j, p);
  }

  lemma {:induction false} LossIsExplained(run: seq<Cluster>, moves: seq<Move>, i: nat, j: nat, p: NodeId)
    requires IsRun(run, moves) && LivesThrough(run, i, j, p)
    requires run[i].nodes[p].draining && run[i].lease == Some(p)
    ensures LossExplained(run, moves, i, j, p)
    decreases j
  {
    RunKeepsInv(run, moves, j);
    if i == j {
      NoLossYet(run, moves, i, p);
    } else {
      LossIsExplained(run, moves, i, j - 1, p);
      RunKeepsInv(run, moves, j - 1);
      StaysDraining(run, moves, i, j - 1, p);
      LossStep(run, moves, i, j, p);
    }
  }

  lemma {:induction false} NoLossYet(run: seq<Cluster>, moves: seq<Move>, i: nat, p: NodeId)
    requires i <= |moves| < |run| && Inv(run[i]) && p in run[i].nodes
    requires run[i].nodes[p].alive && run[i].nodes[p].draining && run[i].lease == Some(p)
    ensures LossExplained(run, moves, i, i, p)
  {
    if ClusterStep in run[i].nodes[p].ran {
      NoLeaseAfterClusterStep(run[i], p);
    }
  }

  lemma {:induction false} LetGoStep(run: seq<Cluster>, moves: seq<Move>, i: nat, j: nat, p: NodeId)
    requires i < j <= |moves| < |run|
    ensures HasLetGo(run, moves, i, j, p) <==>
            (HasLetGo(run, moves, i, j - 1, p) && !Gains(run, j - 1, p)) || LetsGo(run, moves, j - 1, p)
  {
    if HasLetGo(run, moves, i, j - 1, p) && !Gains(run, j - 1, p) {
      var k :| i <= k < j - 1 && LetsGo(run, moves, k, p) && forall m :: k < m < j - 1 ==> !Gains(run, m, p);
      assert LetsGo(run, moves, k, p);
      assert forall m :: k < m < j ==> !Gains(run, m, p);
    }
  }

  /** Once it is cancelled and nothing is pending, letting go is for good. */
  lemma {:induction false} LetGoForGood(run: seq<Cluster>, moves: seq<Move>, k: nat, j: nat, p: NodeId)
    requires IsRun(run, moves) && LivesThrough(run, k, j, p) && k < j
    requires LetsGo(run, moves, k, p) && run[k].nodes[p].stopping && !run[k].nodes[p].cleared
    ensures run[j].lease != Some(p)
  {
    assert Next(run[k], moves[k].node, moves[k].step, run[k + 1]);
    ShutOutForGood(run, moves, k + 1, j, p);
  }

  /** How the Postgres step returned is kept. */
  lemma {:induction false} StopStays(run: seq<Cluster>, moves: seq<Move>, k: nat, j: nat, p: NodeId)
    requires IsRun(run, moves) && LivesThrough(run, k, j, p) && run[k].nodes[p].draining && run[k].nodes[p].stop.Some?
    ensures run[j].nodes[p].draining && run[j].nodes[p].stop.Some?
    decreases j
  {
    if k < j {
      StopStays(run, moves, k, j - 1, p);
      RunKeepsInv(run, moves, j - 1);
      RunKeepsInv(run, moves, j);
      assert Next(run[j - 1], moves[j - 1].node, moves[j - 1].step, run[j]);
      DrainGoesOn(run[j - 1], moves[j - 1].node, moves[j - 1].step, run[j], p);
    }
  }

  /** The lease is gone and Postgres has not been stopped yet. */
  predicate EarlyAt(s: Cluster, p: NodeId)
  {
    p in s.nodes && s.lease != Some(p) && s.nodes[p].stop.None?
  }

  /** A draining primary is without the lease before its Postgres step returned if
      and only if it let go before that itself. */
  lemma {:induction false} LeaseIsFreedAfterPostgres(run: seq<Cluster>, moves: seq<Move>, i: nat, j: nat, p: NodeId)
    requires IsRun(run, moves) && LivesThrough(run, i, j, p)
    requires run[i].nodes[p].draining && run[i].lease == Some(p) && PostgresStep in DrainSteps(run[i].nodes[p])
    ensures (exists m :: i <= m <= j && EarlyAt(run[m], p)) <==>
            exists k :: i <= k < j && LetsGo(run, moves, k, p) && run[k].nodes[p].stop.None?
  {
    if m :| i <= m <= j && EarlyAt(run[m], p) {
      var k := LetGoBefore(run, moves, i, m, p);
      assert LetsGo(run, moves, k, p) && run[k].nodes[p].stop.None?;
    }
    if k :| i <= k < j && LetsGo(run, moves, k, p) && run[k].nodes[p].stop.None? {
      assert Next(run[k], moves[k].node, moves[k].step, run[k + 1]);
      assert EarlyAt(run[k + 1], p);
    }
  }

  lemma {:induction false} LetGoBefore(run: seq<Cluster>, moves: seq<Move>, i: nat, m: nat, p: NodeId) returns (k: nat)
    requires IsRun(run, moves) && LivesThrough(run, i, m, p)
    requires run[i].nodes[p].draining && run[i].lease == Some(p) && PostgresStep in DrainSteps(run[i].nodes[p])
    requires EarlyAt(run[m], p)
    ensures i <= k < m && LetsGo(run, moves, k, p) && run[k].nodes[p].stop.None?
  {
    DrainingHolderKeepsLease(run, moves, i, m, p);
    RunKeepsInv(run, moves, m);
    if ClusterStep in run[m].nodes[p].ran {
      EarlierHasRun(run[m].nodes[p], PostgresStep, ClusterStep);
    }
    k :| i <= k < m && LetsGo(run, moves, k, p);
    DrainingHolderKeepsLease(run, moves, i, k, p);
    if run[k].nodes[p].stop.Some? {
      StopStays(run, moves, k, m, p);
    }
  }

  /** So if it does not, whoever acquires the lease next finds the Postgres step
      returned and, after a successful fast stop, all the WAL shipped. */
  lemma {:induction false} NextHolderFindsAllWal(run: seq<Cluster>, moves: seq<Move>, i: nat, j: nat, p: NodeId)
    requires IsRun(run, moves) && LivesThrough(run, i, j, p)
    requires run[i].nodes[p].draining && run[i].lease == Some(p) && PostgresStep in DrainSteps(run[i].nodes[p])
    requires run[j].lease != Some(p)
             && forall k :: i <= k < j && LetsGo(run, moves, k, p) ==> run[k].nodes[p].stop.Some?
    ensures run[j].nodes[p].stop.Some?
    ensures run[j].nodes[p].stop == Some(Fast)
            ==> run[j].nodes[p].pg.Down? && run[j].nodes[p].shipped == run[j].nodes[p].wal
  {
    LeaseIsFreedAfterPostgres(run, moves, i, j, p);
    assert !EarlyAt(run[j], p);
    RunKeepsInv(run, moves, j);
  }

  /** And a fast stop stays complete for as long as the node is not started
      again, even if its process then dies and the lease runs out instead. */
  lemma {:induction false} FastStopStaysComplete(run: seq<Cluster>, moves: seq<Move>, j: nat, p: NodeId)
    requires IsRun(run, moves) && j < |run| && p in run[j].nodes && run[j].nodes[p].stop == Some(Fast)
    ensures run[j].nodes[p].pg.Down? && run[j].nodes[p].shipped == run[j].nodes[p].wal
  {
    RunKeepsInv(run, moves, j);
  }

  // ----- Runs that show what is not prevented

  function Alone(lease: Option<NodeId>, n: Node): (s: Cluster)
  {
    Cluster(lease, map[0 := n])
  }

  lemma {:induction false} AloneMoves(run: seq<Cluster>, moves: seq<Move>, lease: Option<NodeId>, n: Node, step: Step,
                                      lease': Option<NodeId>, n': Node)
    returns (run': seq<Cluster>, moves': seq<Move>)
    requires IsRun(run, moves) && run[|run| - 1] == Alone(lease, n) && NodeStep(Alone(lease, n), 0, step, lease', n')
    ensures IsRun(run', moves') && run' == run + [Alone(lease', n')] && moves' == moves + [Move(0, step)]
  {
    assert Alone(lease', n').nodes == Alone(lease, n).nodes[0 := n'];
    OneMoreMove(run, moves, Move(0, step), Alone(lease', n'));
    run', moves' := run + [Alone(lease', n')], moves + [Move(0, step)];
  }

  /** A node boots next to a running Postgres, with a complete directory. */
  lemma {:induction false} Boots() returns (run: seq<Cluster>, moves: seq<Move>, n: Node)
    ensures IsRun(run, moves) && run[|run| - 1] == Alone(None, n)
    ensures n == Node(true, true, Complete, false, false, false, false, [], {}, false, None, Up, 0, 0)
  {
    var dead := Node(false, false, Unset, false, false, false, false, [], {}, false, None, Up, 0, 0);
    var fresh' := NewNode(dead);
    n := fresh'.(data := Complete);
    run, moves := [Alone(None, dead)], [];
    run, moves := AloneMoves(run, moves, None, dead, Boot, None, fresh');
    run, moves := AloneMoves(run, moves, None, fresh', Inspect(Complete), None, n);
  }

  /** Its Manager is published, wants the lease, and the gate lets it pass. */
  lemma {:induction false} BootsAndPasses() returns (run: seq<Cluster>, moves: seq<Move>, n: Node)
    ensures IsRun(run, moves) && run[|run| - 1] == Alone(None, n)
    ensures n == Node(true, false, Complete, true, true, false, false, [], {}, false, None, Up, 0, 0)
  {
    var booted;
    run, moves, booted := Boots();
    var started := booted.(booting := false);
    var willing := started.(wants := true);
    n := willing.(cleared := true);
    run, moves := AloneMoves(run, moves, None, booted, Publish, None, started);
    run, moves := AloneMoves(run, moves, None, started, Deliberate(true), None, willing);
    run, moves := AloneMoves(run, moves, None, willing, Consult, None, n);
  }

  /** A node passes the gate, its shutdown begins, and then it gains the lease. */
  lemma {:induction false} GainsWhileStopping() returns (run: seq<Cluster>, moves: seq<Move>, k: nat)
    ensures IsRun(run, moves) && k + 2 == |run| && Gains(run, k, 0)
    ensures 0 in run[k].nodes && run[k].nodes[0].stopping && !run[k].nodes[0].booting
  {
    var n;
    run, moves, n := BootsAndPasses();
    var cancelled := n.(stopping := true);
    run, moves := AloneMoves(run, moves, None, n, Cancel, None, cancelled);
    k := |run| - 1;
    run, moves := AloneMoves(run, moves, None, cancelled, Attempt(true), Some(0), cancelled.(cleared := false));
  }

  /** A startup fails, its teardown begins with the context not cancelled, and the
      gate still lets the node pass: it gains the lease while it drains. */
  lemma {:induction false} GainsInTeardown() returns (run: seq<Cluster>, moves: seq<Move>, k: nat)
    ensures IsRun(run, moves) && k + 2 == |run| && Gains(run, k, 0)
    ensures 0 in run[k].nodes && run[k].nodes[0].draining && PassesAt(run, moves, k - 1, 0)
            && run[k - 1].nodes[0].draining
  {
    var res, plan := Resources(false, false, false, false, false, false, 0, true, true), [PreStopStep, ClusterStep, NatsStep];
    TeardownPlan(res, plan);
    var n;
    run, moves, n := Boots();
    var draining := n.(draining := true, todo := plan, ran := {});
    var passed := draining.(cleared := true);
    run, moves := AloneMoves(run, moves, None, n, BeginDrain(res, false, plan), None, draining);
    run, moves := AloneMoves(run, moves, None, draining, Consult, None, passed);
    k := |run| - 1;
    run, moves := AloneMoves(run, moves, None, passed, Attempt(true), Some(0), draining);
    assert run[k] == Alone(None, passed) && run[k - 1] == Alone(None, draining) && moves[k - 1] == Move(0, Consult);
  }

  lemma {:induction false} TeardownPlan(res: Resources, plan: seq<StepName>)
    requires res == Resources(false, false, false, false, false, false, 0, true, true)
    requires plan == [PreStopStep, ClusterStep, NatsStep]
    ensures IsPlan(res, false, plan)
  {}

  /** A primary begins its shutdown and its drain. */
  lemma {:induction false} PrimaryDrains(plan: seq<StepName>) returns (run: seq<Cluster>, moves: seq<Move>, n: Node)
    requires plan == [ManagerStep, PostgresStep, PreStopStep, ClusterStep, NatsStep]
    ensures IsRun(run, moves) && run[|run| - 1] == Alone(Some(0), n)
    ensures n == Node(true, false, Complete, true, false, true, true, plan, {}, false, None, Up, 0, 0)
  {
    var res := Resources(false, false, false, false, true, true, 0, true, true);
    PrimaryPlan(res, plan);
    var passed;
    run, moves, passed := BootsAndPasses();
    var leader := passed.(cleared := false);
    var cancelled := leader.(stopping := true);
    n := cancelled.(draining := true, todo := plan, ran := {});
    run, moves := AloneMoves(run, moves, None, passed, Attempt(true), Some(0), leader);
    run, moves := AloneMoves(run, moves, Some(0), leader, Cancel, Some(0), cancelled);
    run, moves := AloneMoves(run, moves, Some(0), cancelled, BeginDrain(res, true, plan), Some(0), n);
  }

  /** The storage monitor fences it before its Postgres step: the lease is free while
      Postgres is up. */
  lemma {:induction false} FencedWhileDraining() returns (run: seq<Cluster>, moves: seq<Move>, i: nat)
    ensures IsRun(run, moves) && i + 2 == |run| && LivesThrough(run, i, i + 1, 0)
    ensures run[i].nodes[0].draining && run[i].lease == Some(0) && PostgresStep in DrainSteps(run[i].nodes[0])
    ensures EarlyAt(run[i + 1], 0) && run[i + 1].nodes[0].pg.Up?
  {
    var plan := [ManagerStep, PostgresStep, PreStopStep, ClusterStep, NatsStep];
    var n;
    run, moves, n := PrimaryDrains(plan);
    i := |run| - 1;
    var fenced := n.(closed := true);
    run, moves := AloneMoves(run, moves, Some(0), n, SelfFence, None, fenced);
    assert run[i] == Alone(Some(0), n) && run[i + 1] == Alone(None, fenced);
    assert PostgresStep == plan[1];
  }

  lemma {:induction false} PrimaryPlan(res: Resources, plan: seq<StepName>)
    requires res == Resources(false, false, false, false, true, true, 0, true, true)
    requires plan == [ManagerStep, PostgresStep, PreStopStep, ClusterStep, NatsStep]
    ensures IsPlan(res, true, plan)
  {}
}
