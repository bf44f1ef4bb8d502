/**
  Provisioning of the cluster KV bucket by any number of peers at once
  (internal/embedded/bucket.go).

  The bucket is one shared cell.  A peer is the position it has reached inside
  one attempt.  Every step is one JetStream request; steps of different peers
  interleave freely, and any attempt may be cut off at any point, with or
  without the request in flight having taken effect.
 */
module BucketProvisioning {
  import opened Options

  /** The two settings of the bucket's stream this protocol writes. */
  datatype Bucket = Bucket(replicas: nat, allowDirect: bool)

  type Cell = Option<Bucket>

  /** The next request of a peer inside one attempt. */
  datatype Pc =
    | LookUp
    | Create
    | Refetch
    | Status
    | Update
    | FetchStream
    | Disable(cached: Bucket)
    | Succeeded
    | GaveUp

  type Peer = nat

  datatype Cluster = Cluster(bucket: Cell, pcs: map<Peer, Pc>)

  // ----- One request

  /** What the request a peer is about to send does to the bucket.  Creating and
      updating go through the KV layer, which picks AllowDirect itself. */
  ghost predicate Effect(target: nat, b: Cell, pc: Pc, b': Cell)
  {
    match pc
    case Create => if b.None? then b'.Some? && b'.value.replicas == target else b' == b
    case Update => b.Some? && b'.Some? && b'.value.replicas == target
    case Disable(cached) => b.Some? && b' == Some(Bucket(cached.replicas, false))
    case _ => b' == b
  }

  /** Where the answer to that request takes the peer. */
  ghost predicate Answer(target: nat, b: Cell, pc: Pc, pc': Pc)
  {
    match pc
    case LookUp => pc' == if b.None? then Create else Status
    case Create => pc' == Status || (b.Some? && pc' == Refetch)
    case Refetch => b.Some? && pc' == Status
    case Status =>
      b.Some? && pc' == (if b.value.replicas > target then LookUp
                         else if b.value.replicas < target then Update
                         else FetchStream)
    case Update => pc' == FetchStream
    case FetchStream => b.Some? && pc' == if b.value.allowDirect then Disable(b.value) else Succeeded
    case Disable(_) => pc' == Succeeded
    case Succeeded => false
    case GaveUp => false
  }

  /** One step of one peer: a request answered; an attempt cut off, its request
      applied or not, then retried or given up; or a process starting over. */
  ghost predicate PeerStep(target: nat, b: Cell, pc: Pc, b': Cell, pc': Pc)
  {
    || (Effect(target, b, pc, b') && Answer(target, b, pc, pc'))
    || (!pc.Succeeded? && !pc.GaveUp? && (b' == b || Effect(target, b, pc, b')) && (pc'.LookUp? || pc'.GaveUp?))
    || (b' == b && pc'.LookUp?)
  }

  ghost predicate StepBy(target: nat, s: Cluster, s': Cluster, p: Peer)
  {
    && p in s.pcs && p in s'.pcs
    && s'.pcs == s.pcs[p := s'.pcs[p]]
    && PeerStep(target, s.bucket, s.pcs[p], s'.bucket, s'.pcs[p])
  }

  /** Peers start at the look-up; the bucket may be absent or left over from
      anything, with any settings. */
  ghost predicate Init(s: Cluster)
  {
    s.pcs != map[] && forall p :: p in s.pcs ==> s.pcs[p] == LookUp
  }

  /** A run and who made each of its steps. */
  ghost predicate IsRun(target: nat, run: seq<Cluster>, movers: seq<Peer>)
  {
    && |run| == |movers| + 1
    && Init(run[0])
    && forall k :: 0 <= k < |movers| ==> StepBy(target, run[k], run[k + 1], movers[k])
  }

  // ----- The inductive invariant

  ghost predicate PastStatus(pc: Pc)
  {
    pc.FetchStream? || pc.Disable? || pc.Succeeded?
  }

  ghost predicate PeerInv(target: nat, b: Cell, pc: Pc)
  {
    && (pc.Refetch? || pc.Status? ==> b.Some?)
    && (pc.Update? ==> b.Some? && b.value.replicas <= target)
    && (PastStatus(pc) ==> b.Some? && b.value.replicas == target)
    && (pc.Disable? ==> pc.cached.replicas == target)
  }

  ghost predicate Inv(target: nat, s: Cluster)
  {
    && (forall p :: p in s.pcs ==> PeerInv(target, s.bucket, s.pcs[p]))
    && (s.bucket.Some? && s.bucket.value.allowDirect ==> exists p :: p in s.pcs && !s.pcs[p].Succeeded?)
  }

  /** What one peer may rely on from all the others: the bucket is only ever
      overwritten with the target, and never when it is above the target. */
  ghost predicate Rely(target: nat, b: Cell, b': Cell)
  {
    || b' == b
    || (b'.Some? && b'.value.replicas == target && (b.Some? ==> b.value.replicas <= target))
  }

  /** Every step of every other peer is one this peer relies on. */
  lemma {:induction false} StepObeysRely(target: nat, s: Cluster, s': Cluster, p: Peer)
    requires Inv(target, s) && StepBy(target, s, s', p)
    ensures Rely(target, s.bucket, s'.bucket)
    ensures PeerInv(target, s'.bucket, s'.pcs[p])
    ensures s'.pcs[p].Succeeded? ==> s'.bucket.Some? && !s'.bucket.value.allowDirect
  {
    assert PeerInv(target, s.bucket, s.pcs[p]);
  }

  lemma {:induction false} RelyIsTransitive(target: nat, a: Cell, b: Cell, c: Cell)
    requires Rely(target, a, b) && Rely(target, b, c)
    ensures Rely(target, a, c)
  {}

  /** What a peer knows survives whatever the others do. */
  lemma {:induction false} PeerInvIsStable(target: nat, b: Cell, b': Cell, pc: Pc)
    requires PeerInv(target, b, pc) && Rely(target, b, b')
    ensures PeerInv(target, b', pc)
  {}

  lemma {:induction false} InitEstablishesInv(target: nat, s: Cluster)
    requires Init(s)
    ensures Inv(target, s)
  {
    var p :| p in s.pcs;
    assert !s.pcs[p].Succeeded?;
  }

  lemma {:induction false} StepPreservesInv(target: nat, s: Cluster, s': Cluster, p: Peer)
    requires Inv(target, s) && StepBy(target, s, s', p)
    ensures Inv(target, s')
  {
    StepObeysRely(target, s, s', p);
    forall q | q in s'.pcs ensures PeerInv(target, s'.bucket, s'.pcs[q]) {
      if q != p {
        assert s'.pcs[q] == s.pcs[q];
        PeerInvIsStable(target, s.bucket, s'.bucket, s.pcs[q]);
      }
    }
    // AllowDirect still on: either this peer switched it on and has yet to
    // switch it off, or the peer that was unfinished before still is.
    if s'.bucket.Some? && s'.bucket.value.allowDirect {
      assert !s'.pcs[p].Succeeded?;
    }
  }

  lemma {:induction false} RunKeepsInv(target: nat, run: seq<Cluster>, movers: seq<Peer>, i: nat)
    requires IsRun(target, run, movers) && i < |run|
    ensures Inv(target, run[i])
  {
    if i == 0 {
      InitEstablishesInv(target, run[0]);
    } else {
      RunKeepsInv(target, run, movers, i - 1);
      StepPreservesInv(target, run[i - 1], run[i], movers[i - 1]);
    }
  }

  lemma {:induction false} RunObeysRely(target: nat, run: seq<Cluster>, movers: seq<Peer>, i: nat, j: nat)
    requires IsRun(target, run, movers) && i <= j < |run|
    ensures Rely(target, run[i].bucket, run[j].bucket)
    decreases j
  {
    if i < j {
      RunObeysRely(target, run, movers, i, j - 1);
      RunKeepsInv(target, run, movers, j - 1);
      StepObeysRely(target, run[j - 1], run[j], movers[j - 1]);
      RelyIsTransitive(target, run[i].bucket, run[j - 1].bucket, run[j].bucket);
    }
  }

  // ----- What every run guarantees

  /** The bucket never disappears and its replica count never goes down. */
  lemma {:induction false} ReplicasNeverDecrease(target: nat, run: seq<Cluster>, movers: seq<Peer>, i: nat, j: nat)
    requires IsRun(target, run, movers) && i <= j < |run|
    requires run[i].bucket.Some?
    ensures run[j].bucket.Some? && run[i].bucket.value.replicas <= run[j].bucket.value.replicas
  {
    RunObeysRely(target, run, movers, i, j);
  }

  /** A bucket above the target is left exactly as it was by everyone. */
  lemma {:induction false} AboveTargetIsNeverTouched(target: nat, run: seq<Cluster>, movers: seq<Peer>, i: nat, j: nat)
    requires IsRun(target, run, movers) && i <= j < |run|
    requires run[i].bucket.Some? && run[i].bucket.value.replicas > target
    ensures run[j].bucket == run[i].bucket
  {
    RunObeysRely(target, run, movers, i, j);
  }

  /** A peer sent on by the status check sees the target or less, one past it the
      target only, from there to the end of the run; and the stream settings it
      has cached say the target. */
  lemma {:induction false} PastStatusSeesTarget(target: nat, run: seq<Cluster>, movers: seq<Peer>, i: nat, j: nat,
    p: Peer)
    requires IsRun(target, run, movers) && i <= j < |run| && p in run[i].pcs
    ensures run[i].pcs[p].Update? ==> run[j].bucket.Some? && run[j].bucket.value.replicas <= target
    ensures PastStatus(run[i].pcs[p]) ==> run[j].bucket.Some? && run[j].bucket.value.replicas == target
    ensures run[i].pcs[p].Disable? ==> run[i].pcs[p].cached.replicas == target
  {
    RunKeepsInv(target, run, movers, i);
    assert PeerInv(target, run[i].bucket, run[i].pcs[p]);
    RunObeysRely(target, run, movers, i, j);
  }

  /** Whatever step changes the bucket, it leaves the target. */
  lemma {:induction false} WritesLeaveTarget(target: nat, run: seq<Cluster>, movers: seq<Peer>, k: nat)
    requires IsRun(target, run, movers) && k < |movers| && run[k + 1].bucket != run[k].bucket
    ensures run[k + 1].bucket.Some? && run[k + 1].bucket.value.replicas == target
    ensures run[k].bucket.Some? ==> run[k].bucket.value.replicas <= target
  {
    RunObeysRely(target, run, movers, k, k + 1);
  }

  /** Once every peer has returned success the bucket has the target replicas
      and serves reads through its leader. */
  lemma {:induction false} AllSucceededMeansProvisioned(target: nat, run: seq<Cluster>, movers: seq<Peer>, i: nat)
    requires IsRun(target, run, movers) && i < |run|
    requires forall p :: p in run[i].pcs ==> run[i].pcs[p].Succeeded?
    ensures run[i].bucket == Some(Bucket(target, false))
  {
    RunKeepsInv(target, run, movers, i);
    PeersStay(target, run, movers, i);
    var p :| p in run[i].pcs;
    assert PeerInv(target, run[i].bucket, run[i].pcs[p]);
  }

  lemma {:induction false} PeersStay(target: nat, run: seq<Cluster>, movers: seq<Peer>, i: nat)
    requires IsRun(target, run, movers) && i < |run|
    ensures run[i].pcs.Keys == run[0].pcs.Keys && run[i].pcs.Keys != {}
  {
    if i == 0 {
      var p :| p in run[0].pcs;
    } else {
      PeersStay(target, run, movers, i - 1);
      assert StepBy(target, run[i - 1], run[i], movers[i - 1]);
    }
  }

  // ----- Peers that want different counts

  /** A run in which each peer has its own target. */
  ghost predicate IsMixedRun(targets: map<Peer, nat>, run: seq<Cluster>, movers: seq<Peer>)
  {
    && |run| == |movers| + 1
    && Init(run[0]) && run[0].pcs.Keys == targets.Keys
    && forall k :: 0 <= k < |movers| ==> movers[k] in targets && StepBy(targets[movers[k]], run[k], run[k + 1], movers[k])
  }

  predicate OneTarget(targets: map<Peer, nat>)
  {
    forall p, q :: p in targets && q in targets ==> targets[p] == targets[q]
  }

  ghost predicate NeverShrinks(run: seq<Cluster>)
  {
    forall i, j :: 0 <= i <= j < |run| && run[i].bucket.Some? ==>
                     run[j].bucket.Some? && run[i].bucket.value.replicas <= run[j].bucket.value.replicas
  }

  lemma {:induction false} OneTargetNeverShrinks(targets: map<Peer, nat>, run: seq<Cluster>, movers: seq<Peer>)
    requires OneTarget(targets) && IsMixedRun(targets, run, movers)
    ensures NeverShrinks(run)
  {
    var p :| p in run[0].pcs;
    assert p in targets;
    forall k | 0 <= k < |movers| ensures StepBy(targets[p], run[k], run[k + 1], movers[k]) {
      assert movers[k] in targets;
    }
    forall i, j | 0 <= i <= j < |run| && run[i].bucket.Some?
      ensures run[j].bucket.Some? && run[i].bucket.value.replicas <= run[j].bucket.value.replicas
    {
      ReplicasNeverDecrease(targets[p], run, movers, i, j);
    }
  }

  ghost predicate Reachable(targets: map<Peer, nat>, s: Cluster)
  {
    exists run, movers :: IsMixedRun(targets, run, movers) && run[|run| - 1] == s
  }

  /** One more step at the end of a run. */
  lemma {:induction false} OneMoreStep(targets: map<Peer, nat>, run: seq<Cluster>, movers: seq<Peer>, p: Peer,
    s': Cluster)
    requires IsMixedRun(targets, run, movers) && p in targets && StepBy(targets[p], run[|run| - 1], s', p)
    ensures IsMixedRun(targets, run + [s'], movers + [p])
  {
    var longer, who := run + [s'], movers + [p];
    forall k | 0 <= k < |who| ensures who[k] in targets && StepBy(targets[who[k]], longer[k], longer[k + 1], who[k]) {
      if k < |movers| {
        assert longer[k] == run[k] && longer[k + 1] == run[k + 1] && who[k] == movers[k];
      }
    }
  }

  lemma {:induction false} ReachStep(targets: map<Peer, nat>, s: Cluster, p: Peer, b: Cell, pc: Pc)
    returns (s': Cluster)
    requires Reachable(targets, s) && p in targets && p in s.pcs
    requires Effect(targets[p], s.bucket, s.pcs[p], b) && Answer(targets[p], s.bucket, s.pcs[p], pc)
    ensures s' == Cluster(b, s.pcs[p := pc]) && Reachable(targets, s')
  {
    var run, movers :| IsMixedRun(targets, run, movers) && run[|run| - 1] == s;
    s' := Cluster(b, s.pcs[p := pc]);
    assert StepBy(targets[p], s, s', p);
    OneMoreStep(targets, run, movers, p, s');
    assert (run + [s'])[|run + [s']| - 1] == s';
  }

  /** The peer wanting less gets as far as caching the stream settings. */
  lemma {:induction false} CachesLess(targets: map<Peer, nat>, p: Peer) returns (s: Cluster)
    requires p in targets
    ensures Reachable(targets, s) && s.bucket == Some(Bucket(targets[p], true)) && s.pcs.Keys == targets.Keys
    ensures s.pcs[p] == Disable(Bucket(targets[p], true)) && forall q :: q in targets && q != p ==> s.pcs[q] == LookUp
  {
    var less := Some(Bucket(targets[p], true));
    var s0, s2 := GetsToFetch(targets, p, less);
    s := ReachStep(targets, s2, p, less, Disable(less.value));
    assert s.pcs == s0.pcs[p := Disable(less.value)];
  }

  lemma {:induction false} GetsToFetch(targets: map<Peer, nat>, p: Peer, b: Cell) returns (s0: Cluster, s: Cluster)
    requires p in targets && b.Some? && b.value.replicas == targets[p]
    ensures s0.pcs.Keys == targets.Keys && forall q :: q in targets ==> s0.pcs[q] == LookUp
    ensures Reachable(targets, s) && s == Cluster(b, s0.pcs[p := FetchStream])
  {
    s0 := Begins(targets, b, p);
    var s1 := ReachStep(targets, s0, p, b, Status);
    s := ReachStep(targets, s1, p, b, FetchStream);
    assert s.pcs == s0.pcs[p := FetchStream];
  }

  lemma {:induction false} Begins(targets: map<Peer, nat>, b: Cell, p: Peer) returns (s: Cluster)
    requires p in targets
    ensures s.bucket == b && s.pcs.Keys == targets.Keys && (forall q :: q in targets ==> s.pcs[q] == LookUp)
    ensures Reachable(targets, s)
  {
    s := Cluster(b, map x | x in targets :: LookUp);
    assert p in s.pcs && s.pcs.Keys == targets.Keys;
    assert IsMixedRun(targets, [s], []) && [s][|[s]| - 1] == s;
  }

  /** The other then raises the count. */
  lemma {:induction false} RaisesCount(targets: map<Peer, nat>, s0: Cluster, q: Peer) returns (s: Cluster)
    requires Reachable(targets, s0) && q in targets && q in s0.pcs && s0.pcs[q] == LookUp
    requires s0.bucket.Some? && s0.bucket.value.replicas < targets[q]
    ensures Reachable(targets, s) && s.bucket == Some(Bucket(targets[q], true)) && s.pcs == s0.pcs[q := FetchStream]
  {
    var s1 := ReachStep(targets, s0, q, s0.bucket, Status);
    var s2 := ReachStep(targets, s1, q, s0.bucket, Update);
    s := ReachStep(targets, s2, q, Some(Bucket(targets[q], true)), FetchStream);
  }

  /** And the last request of the first, with the settings it has cached, writes the
      old count back. */
  lemma {:induction false} TwoTargetsShrink(targets: map<Peer, nat>, p: Peer, q: Peer)
    returns (run: seq<Cluster>, movers: seq<Peer>)
    requires p in targets && q in targets && targets[p] < targets[q]
    ensures IsMixedRun(targets, run, movers) && !NeverShrinks(run)
  {
    var s := CachesLess(targets, p);
    s := RaisesCount(targets, s, q);
    run, movers :| IsMixedRun(targets, run, movers) && run[|run| - 1] == s;
    var s' := Cluster(Some(Bucket(targets[p], false)), s.pcs[p := Succeeded]);
    assert StepBy(targets[p], s, s', p);
    OneMoreStep(targets, run, movers, p, s');
    run, movers := run + [s'], movers + [p];
    assert run[|run| - 2].bucket.value.replicas > run[|run| - 1].bucket.value.replicas;
  }

  /** The bucket never shrinks in any run if and only if all peers have one target. */
  lemma {:induction false} NeverShrinksIffOneTarget(targets: map<Peer, nat>)
    ensures (forall run, movers :: IsMixedRun(targets, run, movers) ==> NeverShrinks(run)) <==> OneTarget(targets)
  {
    if OneTarget(targets) {
      forall run, movers | IsMixedRun(targets, run, movers) ensures NeverShrinks(run) {
        OneTargetNeverShrinks(targets, run, movers);
      }
    } else {
      var p, q :| p in targets && q in targets && targets[p] < targets[q];
      var run, movers := TwoTargetsShrink(targets, p, q);
    }
  }

  // ----- The code of one peer, run among the others

  /** The shared bucket as one peer reaches it. */
  class JetStream {
    var bucket: Cell

    constructor (bucket: Cell)
      ensures this.bucket == bucket
    {
      this.bucket := bucket;
    }
  }

  /** What the outside world does during one attempt: how the other peers change
      the bucket just before request number k, which AllowDirect the KV layer
      picks, at which request the attempt is cut off, and whether that request
      was applied.  A create that finds the bucket may report it or return it. */
  datatype World = World(others: (nat, Cell) -> Cell, direct: bool, cut: nat, applied: bool, reportsExisting: bool)

  ghost predicate ObeysRely(target: nat, w: World)
  {
    forall k: nat, b: Cell :: Rely(target, b, w.others(k, b))
  }

  /** One step of this peer as it happened. */
  datatype Move = Move(before: Cell, at: Pc, after: Cell, next: Pc)

  /** The moves are steps of the peer, each starting where the last one ended,
      with only relied-upon changes by others in between. */
  ghost predicate IsPath(target: nat, path: seq<Move>)
  {
    && (forall i :: 0 <= i < |path| ==> PeerStep(target, path[i].before, path[i].at, path[i].after, path[i].next))
    && (forall i {:trigger path[i]} :: 0 < i < |path| ==>
                                        && path[i].at == path[i - 1].next
                                        && Rely(target, path[i - 1].after, path[i].before))
  }

  /** The moves so far led from bucket b0 at the look-up to bucket b at pc. */
  ghost predicate Reached(target: nat, b0: Cell, path: seq<Move>, b: Cell, pc: Pc)
  {
    && IsPath(target, path)
    && Rely(target, b0, b) && PeerInv(target, b, pc)
    && (pc.Succeeded? ==> b.Some? && !b.value.allowDirect)
    && if path == [] then b == b0 && pc == LookUp
       else && path[0].at == LookUp && Rely(target, b0, path[0].before)
            && path[|path| - 1].after == b && path[|path| - 1].next == pc
  }

  lemma {:induction false} Extend(target: nat, b0: Cell, path: seq<Move>, b: Cell, m: Move)
    requires Reached(target, b0, path, b, m.at)
    requires Rely(target, b, m.before)
    requires PeerStep(target, m.before, m.at, m.after, m.next)
    ensures Reached(target, b0, path + [m], m.after, m.next)
  {
    StepKeepsFacts(target, b0, b, m);
    PathGrows(target, path, m);
  }

  lemma {:induction false} PathGrows(target: nat, path: seq<Move>, m: Move)
    requires IsPath(target, path) && PeerStep(target, m.before, m.at, m.after, m.next)
    requires path != [] ==> path[|path| - 1].next == m.at && Rely(target, path[|path| - 1].after, m.before)
    ensures IsPath(target, path + [m])
  {
    var more := path + [m];
    assert forall i :: 0 <= i < |path| ==> more[i] == path[i];
    assert more[|path|] == m;
  }

  /** What one more step of the peer does to the bucket, whoever moved before it. */
  lemma {:induction false} StepKeepsFacts(target: nat, b0: Cell, b: Cell, m: Move)
    requires Rely(target, b0, b) && PeerInv(target, b, m.at) && Rely(target, b, m.before)
    requires PeerStep(target, m.before, m.at, m.after, m.next)
    ensures Rely(target, b0, m.before) && Rely(target, b0, m.after) && PeerInv(target, m.after, m.next)
    ensures m.next.Succeeded? ==> m.after.Some? && !m.after.value.allowDirect
  {
    PeerInvIsStable(target, b, m.before, m.at);
    assert Rely(target, m.before, m.after);
    RelyIsTransitive(target, b0, b, m.before);
    RelyIsTransitive(target, b0, m.before, m.after);
  }

  function Applied(target: nat, b: Cell, pc: Pc, direct: bool): (b': Cell)
    ensures (pc.Update? || pc.Disable? ==> b.Some?) ==> Effect(target, b, pc, b')
  {
    match pc
    case Create => if b.None? then Some(Bucket(target, direct)) else b
    case Update => Some(Bucket(target, direct))
    case Disable(cached) => Some(Bucket(cached.replicas, false))
    case _ => b
  }

  /** One request: the others move first, then it is answered or cut off. */
  method Send(js: JetStream, target: nat, w: World, k: nat, pc: Pc) returns (alive: bool, seen: Cell)
    modifies js
    ensures seen == w.others(k, old(js.bucket)) && alive == (w.cut != k)
    ensures js.bucket == if alive || w.applied then Applied(target, seen, pc, w.direct) else seen
  {
    js.bucket := w.others(k, js.bucket);
    seen := js.bucket;
    alive := w.cut != k;
    if alive || w.applied {
      js.bucket := Applied(target, seen, pc, w.direct);
    }
  }

  /** There is no bucket yet, or one that need not shrink. */
  predicate NotAbove(target: nat, b: Cell)
  {
    b.Some? ==> b.value.replicas <= target
  }

  /** tryPreCreateClusterKV: its requests one after the other, the others' steps
      in between.  Every request is a step of the machine above; an attempt that
      returns nil leaves the bucket provisioned, one that is not cut off does return
      nil unless the bucket is above the target, and no attempt does to the bucket
      what a peer may not do. */
  method TryPreCreate(js: JetStream, target: nat, w: World) returns (ok: bool, ghost path: seq<Move>)
    requires ObeysRely(target, w)
    modifies js
    ensures Reached(target, old(js.bucket), path, js.bucket, if ok then Succeeded else LookUp)
    ensures Rely(target, old(js.bucket), js.bucket)
    ensures ok ==> js.bucket == Some(Bucket(target, false))
    ensures w.cut > 6 && NotAbove(target, old(js.bucket)) ==> ok
  {
    ok, path := FindOrCreate(js, target, w);
    if !ok { return false, path; }
    ghost var b0 := old(js.bucket);
    ok, path := TuneReplicas(js, target, w, b0, path);
    if !ok { return false, path; }
    ok, path := TuneReads(js, target, w, b0, path);
  }

  /** The look-up, and the create when there is nothing. */
  method FindOrCreate(js: JetStream, target: nat, w: World) returns (ok: bool, ghost path: seq<Move>)
    requires ObeysRely(target, w)
    modifies js
    ensures Reached(target, old(js.bucket), path, js.bucket, if ok then Status else LookUp)
    ensures w.cut > 2 ==> ok
  {
    ghost var b0 := js.bucket;
    ghost var b := b0;

    var alive, seen := Send(js, target, w, 0, LookUp);
    ghost var m := Move(seen, LookUp, js.bucket, if !alive then LookUp else if seen.None? then Create else Status);
    Extend(target, b0, [], b, m);
    path, b := [] + [m], js.bucket;
    if !alive || seen.Some? { return alive, path; }

    alive, seen := Send(js, target, w, 1, Create);
    var lost := seen.Some? && w.reportsExisting;
    m := Move(seen, Create, js.bucket, if !alive then LookUp else if lost then Refetch else Status);
    Extend(target, b0, path, b, m);
    path, b := path + [m], js.bucket;
    if !alive || !lost { return alive, path; }

    alive, seen := Send(js, target, w, 2, Refetch);
    m := Move(seen, Refetch, js.bucket, if alive then Status else LookUp);
    Extend(target, b0, path, b, m);
    path := path + [m];
    ok := alive;
  }

  /** From the status check on: the replica count. */
  method TuneReplicas(js: JetStream, target: nat, w: World, ghost b0: Cell, ghost soFar: seq<Move>)
    returns (ok: bool, ghost path: seq<Move>)
    requires ObeysRely(target, w)
    requires Reached(target, b0, soFar, js.bucket, Status)
    modifies js
    ensures Reached(target, b0, path, js.bucket, if ok then FetchStream else LookUp)
    ensures w.cut > 4 && NotAbove(target, old(js.bucket)) ==> ok
  {
    ghost var b := js.bucket;
    var alive, seen := Send(js, target, w, 3, Status);
    var current := seen.value.replicas;
    ghost var m := Move(seen, Status, js.bucket,
                        if !alive || current > target then LookUp else if current < target then Update else FetchStream);
    Extend(target, b0, soFar, b, m);
    path, b := soFar + [m], js.bucket;
    if !alive || current > target { return false, path; }

    if current < target {
      alive, seen := Send(js, target, w, 4, Update);
      m := Move(seen, Update, js.bucket, if alive then FetchStream else LookUp);
      Extend(target, b0, path, b, m);
      path := path + [m];
      if !alive { return false, path; }
    }
    ok := true;
  }

  /** And the direct reads. */
  method TuneReads(js: JetStream, target: nat, w: World, ghost b0: Cell, ghost soFar: seq<Move>)
    returns (ok: bool, ghost path: seq<Move>)
    requires ObeysRely(target, w)
    requires Reached(target, b0, soFar, js.bucket, FetchStream)
    modifies js
    ensures Reached(target, b0, path, js.bucket, if ok then Succeeded else LookUp)
    ensures w.cut > 6 ==> ok
  {
    ghost var b := js.bucket;
    var alive, seen := Send(js, target, w, 5, FetchStream);
    var scfg := seen.value;
    ghost var m := Move(seen, FetchStream, js.bucket,
                        if !alive then LookUp else if scfg.allowDirect then Disable(scfg) else Succeeded);
    Extend(target, b0, soFar, b, m);
    path, b := soFar + [m], js.bucket;
    if !alive { return false, path; }

    if scfg.allowDirect {
      alive, seen := Send(js, target, w, 6, Disable(scfg));
      m := Move(seen, Disable(scfg), js.bucket, if alive then Succeeded else LookUp);
      Extend(target, b0, path, b, m);
      path := path + [m];
      if !alive { return false, path; }
    }
    ok := true;
  }

  datatype Outcome = Provisioned | BadReplicas | OutOfAttempts

  /** PreCreateClusterKV: attempts until one succeeds or the budget, here one
      world per attempt it still pays for, runs out. */
  method PreCreateClusterKV(js: JetStream, replicas: int, budget: seq<World>) returns (outcome: Outcome)
    requires replicas >= 1 ==> forall w :: w in budget ==> ObeysRely(replicas, w)
    modifies js
    ensures outcome.BadReplicas? <==> replicas < 1
    ensures replicas < 1 ==> js.bucket == old(js.bucket)
    ensures replicas >= 1 ==> Rely(replicas, old(js.bucket), js.bucket)
    ensures outcome.Provisioned? ==> js.bucket == Some(Bucket(replicas, false))
    ensures replicas >= 1 && old(js.bucket).Some? && old(js.bucket).value.replicas > replicas ==>
              outcome.OutOfAttempts? && js.bucket == old(js.bucket)
    ensures replicas >= 1 && NotAbove(replicas, old(js.bucket)) && (exists w :: w in budget && w.cut > 6) ==>
              outcome.Provisioned?
  {
    if replicas < 1 { return BadReplicas; }
    for attempt := 0 to |budget|
      invariant Rely(replicas, old(js.bucket), js.bucket)
      invariant NotAbove(replicas, old(js.bucket)) ==> forall i :: 0 <= i < attempt ==> budget[i].cut <= 6
    {
      ghost var before := js.bucket;
      var ok, _ := TryPreCreate(js, replicas, budget[attempt]);
      RelyIsTransitive(replicas, old(js.bucket), before, js.bucket);
      if ok { return Provisioned; }
    }
    return OutOfAttempts;
  }
}
