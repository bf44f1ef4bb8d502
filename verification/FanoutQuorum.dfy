/**
  One status request to all peers and what is made of the answers: the broadcast
  (internal/fanout/client.go), the aggregated status (internal/runtime/aggregator.go)
  and the two quorum verdicts (internal/control/doctor_checks.go and
  internal/pgmctl/cmd/status.go).
 */
module FanoutQuorum {
  import opened Options
  import opened Text

  const PRIMARY: int := 1   // pg-manager's role and state ordinals
  const UNKNOWN: int := 0
  const RUNNING: int := 3
  const FAILED: int := 8
  const STOPPED: int := 9

  /** The SliceStatus payload of one peer. */
  datatype Payload = Payload(node: string, role: int, state: int, reachable: bool, timestamp: Option<int>)

  /** A reply; data is absent when nil or undecodable. */
  datatype Reply = Reply(node: string, ok: bool, data: Option<Payload>, at: int)

  function Nodes(rs: seq<Reply>): (ns: seq<string>)
    ensures |ns| == |rs| && forall i :: 0 <= i < |rs| ==> ns[i] == rs[i].node
  {
    seq(|rs|, i requires 0 <= i < |rs| => rs[i].node)
  }

  // ----- Broadcast

  /** The first reply of every node, in order of arrival; a message that does not
      decode is nobody's reply. */
  function FirstReplies(arrivals: seq<Option<Reply>>): (got: seq<Reply>)
    ensures Distinct(Nodes(got))
  {
    if arrivals == [] then []
    else
      var got, last := FirstReplies(arrivals[..|arrivals| - 1]), arrivals[|arrivals| - 1];
      if last.None? || last.value.node in Nodes(got) then got else got + [last.value]
  }

  function Unreachable(node: string, now: int): (r: Reply)
  {
    Reply(node, false, None, now)
  }

  /** The synthesized replies for the expected nodes that did not answer. */
  function Synthesized(expected: seq<string>, seen: seq<string>, now: int): (rs: seq<Reply>)
  {
    if expected == [] then []
    else (if expected[0] in seen then [] else [Unreachable(expected[0], now)]) + Synthesized(expected[1..], seen, now)
  }

  function Replies(arrivals: seq<Option<Reply>>, expected: seq<string>, now: int): (rs: seq<Reply>)
  {
    var got := FirstReplies(arrivals);
    got + Synthesized(expected, Nodes(got), now)
  }

  /** Messages the receive loop takes before it has heard enough. */
  predicate Gathered(arrivals: seq<Option<Reply>>, enough: nat)
  {
    enough > 0 ==> forall k :: 0 <= k < |arrivals| ==> |FirstReplies(arrivals[..k])| < enough
  }

  /** The receive loop: replies until the deadline, which here is the end of the
      arrivals, or until as many distinct nodes answered as were expected. */
  method Gather(arrivals: seq<Option<Reply>>, enough: nat) returns (got: seq<Reply>, seen: set<string>, consumed: nat)
    ensures consumed <= |arrivals| && got == FirstReplies(arrivals[..consumed])
    ensures consumed < |arrivals| ==> 0 < enough <= |got|
    ensures Gathered(arrivals[..consumed], enough)
    ensures forall n :: n in seen <==> n in Nodes(got)
  {
    got, seen, consumed := [], {}, 0;
    while consumed < |arrivals|
      invariant consumed <= |arrivals| && got == FirstReplies(arrivals[..consumed])
      invariant Gathered(arrivals[..consumed], enough) && (enough > 0 ==> |got| < enough)
      invariant forall n :: n in seen <==> n in Nodes(got)
    {
      var msg := arrivals[consumed];
      assert arrivals[..consumed + 1][..consumed] == arrivals[..consumed];
      GatheredMore(arrivals, consumed, enough);
      consumed := consumed + 1;
      if msg.None? {
        continue;
      }
      if msg.value.node !in seen {
        assert Nodes(got + [msg.value]) == Nodes(got) + [msg.value.node];
        seen := seen + {msg.value.node};
        got := got + [msg.value];
      }
      if enough > 0 && |got| >= enough {
        break;
      }
    }
  }

  lemma {:induction false} GatheredMore(arrivals: seq<Option<Reply>>, k: nat, enough: nat)
    requires k < |arrivals| && Gathered(arrivals[..k], enough)
    requires enough > 0 ==> |FirstReplies(arrivals[..k])| < enough
    ensures Gathered(arrivals[..k + 1], enough)
  {
    var more := arrivals[..k + 1];
    forall j | 0 <= j < |more| && enough > 0 ensures |FirstReplies(more[..j])| < enough {
      assert more[..j] == arrivals[..j];
      if j < k {
        assert arrivals[..k][..j] == arrivals[..j];
      }
    }
  }

  method Broadcast(arrivals: seq<Option<Reply>>, expected: seq<string>, now: int)
    returns (replies: seq<Reply>, consumed: nat)
    ensures consumed <= |arrivals|
    ensures consumed < |arrivals| ==> 0 < |expected| <= |FirstReplies(arrivals[..consumed])|
    ensures replies == Replies(arrivals[..consumed], expected, now) && Gathered(arrivals[..consumed], |expected|)
  {
    var got, seen;
    got, seen, consumed := Gather(arrivals, |expected|);
    var missing: seq<Reply> := [];
    assert expected[0..] == expected;
    for i := 0 to |expected|
      invariant missing + Synthesized(expected[i..], Nodes(got), now) == Synthesized(expected, Nodes(got), now)
    {
      assert expected[i..][1..] == expected[i + 1..];
      if expected[i] !in seen {
        missing := missing + [Unreachable(expected[i], now)];
      }
    }
    replies := got + missing;
  }

  lemma {:induction false} SynthesizedEach(expected: seq<string>, seen: seq<string>, now: int, i: nat)
    requires i < |Synthesized(expected, seen, now)|
    ensures var r := Synthesized(expected, seen, now)[i];
            r == Unreachable(r.node, now) && r.node in expected && r.node !in seen
  {
    assert expected == [expected[0]] + expected[1..];
    if expected[0] in seen {
      SynthesizedEach(expected[1..], seen, now, i);
    } else if i > 0 {
      SynthesizedEach(expected[1..], seen, now, i - 1);
    }
  }

  lemma {:induction false} SynthesizedStep(expected: seq<string>, seen: seq<string>, now: int)
    requires expected != []
    ensures Nodes(Synthesized(expected, seen, now))
         == (if expected[0] in seen then [] else [expected[0]]) + Nodes(Synthesized(expected[1..], seen, now))
  {}

  lemma {:induction false} SynthesizedDistinct(expected: seq<string>, seen: seq<string>, now: int)
    ensures forall n :: n in Nodes(Synthesized(expected, seen, now)) <==> n in expected && n !in seen
    ensures Distinct(expected) ==> Distinct(Nodes(Synthesized(expected, seen, now)))
  {
    if expected != [] {
      assert expected == [expected[0]] + expected[1..];
      SynthesizedDistinct(expected[1..], seen, now);
      SynthesizedStep(expected, seen, now);
    }
  }

  lemma {:induction false} SynthesizedNodes(expected: seq<string>, seen: seq<string>, now: int)
    ensures var syn := Synthesized(expected, seen, now);
            && (forall i :: 0 <= i < |syn| ==> syn[i] == Unreachable(syn[i].node, now) && syn[i].node in expected && syn[i].node !in seen)
            && (forall n :: n in expected && n !in seen ==> n in Nodes(syn))
            && (Distinct(expected) ==> Distinct(Nodes(syn)))
  {
    SynthesizedDistinct(expected, seen, now);
    forall i | 0 <= i < |Synthesized(expected, seen, now)| {
      SynthesizedEach(expected, seen, now, i);
    }
  }

  /** Each expected node is in the result exactly once, whoever else answered and
      in whatever order, and so is every other node that answered. */
  lemma {:induction false} EachExpectedNodeOnce(arrivals: seq<Option<Reply>>, expected: seq<string>, now: int)
    requires Distinct(expected)
    ensures var ns := Nodes(Replies(arrivals, expected, now));
            && Distinct(ns)
            && forall n :: n in ns <==> n in expected || n in Nodes(FirstReplies(arrivals))
  {
    var got := FirstReplies(arrivals);
    var syn := Synthesized(expected, Nodes(got), now);
    SynthesizedNodes(expected, Nodes(got), now);
    assert Nodes(got + syn) == Nodes(got) + Nodes(syn);
    DistinctAppend(Nodes(got), Nodes(syn));
    forall n ensures n in Nodes(syn) <==> n in expected && n !in Nodes(got) {
      if n in Nodes(syn) {
        var i :| 0 <= i < |syn| && Nodes(syn)[i] == n;
      }
    }
  }

  lemma {:induction false} DistinctAppend(a: seq<string>, b: seq<string>)
    requires Distinct(a) && Distinct(b) && forall i :: 0 <= i < |b| ==> b[i] !in a
    ensures Distinct(a + b)
  {}

  /** Some message came from the node. */
  predicate Spoke(arrivals: seq<Option<Reply>>, node: string)
  {
    exists i :: 0 <= i < |arrivals| && arrivals[i].Some? && arrivals[i].value.node == node
  }

  /** The reply is the first message of its sender. */
  predicate IsFirstOf(arrivals: seq<Option<Reply>>, r: Reply)
  {
    exists i :: 0 <= i < |arrivals| && arrivals[i] == Some(r) && !Spoke(arrivals[..i], r.node)
  }

  lemma {:induction false} RepliedIffSpoke(arrivals: seq<Option<Reply>>, node: string)
    ensures node in Nodes(FirstReplies(arrivals)) <==> Spoke(arrivals, node)
  {
    if arrivals != [] {
      var init, last := arrivals[..|arrivals| - 1], arrivals[|arrivals| - 1];
      RepliedIffSpoke(init, node);
      assert arrivals == init + [last];
      assert Spoke(arrivals, node) <==> Spoke(init, node) || (last.Some? && last.value.node == node) by {
        assert Spoke(init, node) ==> Spoke(arrivals, node);
        assert arrivals[|init|] == last;
      }
      var got := FirstReplies(init);
      if last.Some? {
        assert Nodes(got + [last.value]) == Nodes(got) + [last.value.node];
      }
    }
  }

  /** FirstReplies keeps exactly the first reply of each sender. */
  lemma {:induction false} FirstRepliesAreFirst(arrivals: seq<Option<Reply>>, r: Reply)
    ensures r in FirstReplies(arrivals) <==> IsFirstOf(arrivals, r)
  {
    if arrivals != [] {
      var init, last := arrivals[..|arrivals| - 1], arrivals[|arrivals| - 1];
      FirstRepliesAreFirst(init, r);
      RepliedIffSpoke(init, r.node);
      FirstOfLonger(init, last, r);
      assert arrivals == init + [last];
    }
  }

  lemma {:induction false} FirstOfLonger(init: seq<Option<Reply>>, last: Option<Reply>, r: Reply)
    ensures IsFirstOf(init + [last], r) <==> IsFirstOf(init, r) || (last == Some(r) && !Spoke(init, r.node))
  {
    var all := init + [last];
    forall i | 0 <= i <= |init| ensures all[..i] == init[..i] {}
    assert init[..|init|] == init && all[|init|] == last;
    if IsFirstOf(init, r) {
      var i :| 0 <= i < |init| && init[i] == Some(r) && !Spoke(init[..i], r.node);
      assert all[i] == Some(r) && !Spoke(all[..i], r.node);
    }
  }

  // ----- The aggregated status

  datatype PeerReply = PeerReply(node: string, at: int, status: Option<Payload>)

  datatype Instance = Instance(node: string, role: int, state: int, up: bool, seenAt: int)

  datatype Status = Status(primary: string, syncStandbys: seq<string>, instances: seq<Instance>)

  /** One decoded reply; the payload's own name wins over the envelope's. */
  function Decoded(r: Reply): (p: PeerReply)
  {
    if r.ok && r.data.Some?
    then PeerReply(if r.data.value.node != "" then r.data.value.node else r.node, r.at, r.data)
    else PeerReply(r.node, r.at, None)
  }

  method Collect(replies: seq<Reply>) returns (out: seq<PeerReply>)
    ensures |out| == |replies| && forall i :: 0 <= i < |replies| ==> out[i] == Decoded(replies[i])
  {
    out := [];
    for k := 0 to |replies|
      invariant |out| == k && forall i :: 0 <= i < k ==> out[i] == Decoded(replies[i])
    {
      out := out + [Decoded(replies[k])];
    }
  }

  function InstanceOf(r: PeerReply): (inst: Instance)
    ensures inst.node == r.node
    ensures r.status.None? ==> inst.state == UNKNOWN && !inst.up
  {
    if r.status.None? then Instance(r.node, 0, UNKNOWN, false, r.at)
    else
      var p := r.status.value;
      Instance(r.node, p.role, p.state,
        p.reachable && p.state != FAILED && p.state != STOPPED && p.state != UNKNOWN,
        if p.timestamp.Some? then p.timestamp.value else r.at)
  }

  /** How a reply is shown: a real answer with what it says of itself, anything else as
      unknown and down. */
  lemma {:induction false} ShownAs(r: Reply)
    ensures var i := InstanceOf(Decoded(r));
            if r.ok && r.data.Some? then
              var p := r.data.value;
              && i.node == (if p.node == "" then r.node else p.node) && i.role == p.role && i.state == p.state
              && (i.up <==> p.reachable && p.state !in {UNKNOWN, FAILED, STOPPED})
              && i.seenAt == match p.timestamp case Some(at) => at case None => r.at
            else i == Instance(r.node, 0, UNKNOWN, false, r.at)
  {}

  predicate ClaimsPrimary(r: PeerReply)
  {
    r.status.Some? && r.status.value.role == PRIMARY && r.status.value.node != ""
  }

  /** The primary reported: the local one when known, else the first peer that
      claims the role, else none. */
  predicate IsPrimary(primary: string, local: string, replies: seq<PeerReply>)
  {
    if local != "" then primary == local
    else
      || (primary == "" && forall i :: 0 <= i < |replies| ==> !ClaimsPrimary(replies[i]))
      || exists i :: 0 <= i < |replies| && ClaimsPrimary(replies[i]) && primary == replies[i].status.value.node
                     && forall j :: 0 <= j < i ==> !ClaimsPrimary(replies[j])
  }

  lemma {:induction false} PrimaryStep(primary: string, local: string, replies: seq<PeerReply>, r: PeerReply)
    requires IsPrimary(primary, local, replies)
    ensures IsPrimary(if r.status.Some? && r.status.value.role == PRIMARY && primary == "" then r.status.value.node else primary,
                      local, replies + [r])
  {
    var more := replies + [r];
    assert forall i :: 0 <= i < |replies| ==> more[i] == replies[i];
    assert more[|replies|] == r;
    if local == "" && primary != "" {
      var i :| 0 <= i < |replies| && ClaimsPrimary(replies[i]) && primary == replies[i].status.value.node
               && forall j :: 0 <= j < i ==> !ClaimsPrimary(replies[j]);
      assert ClaimsPrimary(more[i]);
    }
  }

  function Without(s: seq<string>, x: string): (w: seq<string>)
  {
    if s == [] then []
    else (if s[0] == x then [] else [s[0]]) + Without(s[1..], x)
  }

  /** Without removes every copy of its node and nothing else. */
  lemma {:induction false} WithoutRemoves(s: seq<string>, x: string)
    ensures multiset(Without(s, x)) == multiset(s)[x := 0]
  {
    if s != [] {
      WithoutRemoves(s[1..], x);
      assert s == [s[0]] + s[1..];
    }
  }

  /** Without keeps the order of what it keeps. */
  lemma {:induction false} WithoutKeepsOrder(s: seq<string>, t: seq<string>, x: string)
    ensures Without(s + t, x) == Without(s, x) + Without(t, x)
  {
    if s == [] {
      assert s + t == t;
    } else {
      WithoutKeepsOrder(s[1..], t, x);
      assert (s + t)[1..] == s[1..] + t;
      AppendAssoc(if s[0] == x then [] else [s[0]], Without(s[1..], x), Without(t, x));
    }
  }

  method EnrichStatus(local: Status, replies: seq<PeerReply>) returns (out: Status)
    ensures |out.instances| == |replies|
    ensures forall i :: 0 <= i < |replies| ==> out.instances[i] == InstanceOf(replies[i])
    ensures IsPrimary(out.primary, local.primary, replies)
    ensures out.syncStandbys == if out.primary == "" then local.syncStandbys else Without(local.syncStandbys, out.primary)
  {
    var primary, instances := local.primary, [];
    for k := 0 to |replies|
      invariant |instances| == k && forall i :: 0 <= i < k ==> instances[i] == InstanceOf(replies[i])
      invariant IsPrimary(primary, local.primary, replies[..k])
    {
      var r := replies[k];
      PrimaryStep(primary, local.primary, replies[..k], r);
      assert replies[..k + 1] == replies[..k] + [r];
      if r.status.Some? && r.status.value.role == PRIMARY && primary == "" {
        primary := r.status.value.node;
      }
      instances := instances + [InstanceOf(r)];
    }
    assert replies[..|replies|] == replies;
    var standbys := local.syncStandbys;
    if primary != "" && |standbys| > 0 {
      standbys := DropNode(standbys, primary);
    }
    out := Status(primary, standbys, instances);
  }

  method DropNode(nodes: seq<string>, x: string) returns (filtered: seq<string>)
    ensures filtered == Without(nodes, x)
  {
    filtered := [];
    for k := 0 to |nodes|
      invariant filtered == Without(nodes[..k], x)
    {
      WithoutKeepsOrder(nodes[..k], [nodes[k]], x);
      assert nodes[..k + 1] == nodes[..k] + [nodes[k]];
      if nodes[k] != x {
        filtered := filtered + [nodes[k]];
      }
    }
    assert nodes[..|nodes|] == nodes;
  }

  // ----- One instance per peer

  function InstanceNodes(v: seq<Instance>): (ns: seq<string>)
    ensures |ns| == |v| && forall i :: 0 <= i < |v| ==> ns[i] == v[i].node
  {
    seq(|v|, i requires 0 <= i < |v| => v[i].node)
  }

  /** The instances the status shows for these arrivals. */
  function View(arrivals: seq<Option<Reply>>, peers: seq<string>, now: int): (v: seq<Instance>)
  {
    var rs := Replies(arrivals, peers, now);
    seq(|rs|, i requires 0 <= i < |rs| => InstanceOf(Decoded(rs[i])))
  }

  /** Every decodable payload carries the name its envelope carries, or none. */
  predicate Honest(arrivals: seq<Option<Reply>>)
  {
    forall i :: 0 <= i < |arrivals| && arrivals[i].Some? ==> HonestReply(arrivals[i].value)
  }

  predicate HonestReply(r: Reply)
  {
    Decoded(r).node == r.node
  }

  method ClusterStatus(local: Status, peers: seq<string>, arrivals: seq<Option<Reply>>, now: int)
    returns (out: Status, consumed: nat)
    ensures peers == [] ==> out == local
    ensures peers != [] ==>
              && consumed <= |arrivals| && out.instances == View(arrivals[..consumed], peers, now)
              && Gathered(arrivals[..consumed], |peers|)
              && (out.primary != "" ==> out.syncStandbys == Without(local.syncStandbys, out.primary))
  {
    if |peers| == 0 {
      return local, 0;
    }
    var replies, collected;
    replies, consumed := Broadcast(arrivals, peers, now);
    collected := Collect(replies);
    out := EnrichStatus(local, collected);
  }

  lemma {:induction false} FirstRepliesAreHonest(arrivals: seq<Option<Reply>>)
    requires Honest(arrivals)
    ensures forall k :: 0 <= k < |FirstReplies(arrivals)| ==> HonestReply(FirstReplies(arrivals)[k])
  {
    if arrivals != [] {
      FirstRepliesAreHonest(arrivals[..|arrivals| - 1]);
    }
  }

  /** The instances are those of the peers and of the strangers that answered, one each. */
  lemma {:induction false} OneInstancePerPeer(arrivals: seq<Option<Reply>>, peers: seq<string>, now: int)
    requires Distinct(peers) && Honest(arrivals)
    ensures var ns := InstanceNodes(View(arrivals, peers, now));
            Distinct(ns) && forall n :: n in ns <==> n in peers || Spoke(arrivals, n)
  {
    var got, rs := FirstReplies(arrivals), Replies(arrivals, peers, now);
    EachExpectedNodeOnce(arrivals, peers, now);
    FirstRepliesAreHonest(arrivals);
    SynthesizedNodes(peers, Nodes(got), now);
    forall i | 0 <= i < |rs| ensures Decoded(rs[i]).node == rs[i].node {
      if i < |got| {
        assert rs[i] == got[i];
      } else {
        assert rs[i] == Synthesized(peers, Nodes(got), now)[i - |got|];
      }
    }
    assert InstanceNodes(View(arrivals, peers, now)) == Nodes(rs);
    forall n ensures n in Nodes(got) <==> Spoke(arrivals, n) {
      RepliedIffSpoke(arrivals, n);
    }
  }

  // ----- Quorum

  /** The instances that gave a real answer, counted. */
  function CountResponding(v: seq<Instance>): (n: nat)
    ensures n <= |v|
  {
    if v == [] then 0 else CountResponding(v[..|v| - 1]) + if v[|v| - 1].state != UNKNOWN then 1 else 0
  }

  datatype Severity = Pass | Fail | Unknown

  method CheckClusterQuorum(v: seq<Instance>) returns (verdict: Severity)
    ensures verdict == if |v| == 0 then Unknown else if 2 * CountResponding(v) > |v| then Pass else Fail
  {
    var total, reachable := |v|, 0;
    for k := 0 to total
      invariant reachable == CountResponding(v[..k])
    {
      assert v[..k + 1][..k] == v[..k];
      if v[k].state != UNKNOWN {
        reachable := reachable + 1;
      }
    }
    assert v[..total] == v;
    var quorum := total / 2 + 1;
    verdict := if total == 0 then Unknown else if reachable >= quorum then Pass else Fail;
  }

  /** The name pgmctl shows for a state ordinal on the wire. */
  function StateName(state: int): (name: string)
  {
    match state
    case 0 => "unknown"
    case 1 => "init"
    case 2 => "bootstrapping"
    case 3 => "running"
    case 4 => "promoting"
    case 5 => "demoting"
    case 6 => "rewinding"
    case 7 => "fenced"
    case 8 => "failed"
    case 9 => "stopped"
    case _ => "invalid(" + Decimal(state) + ")"
  }

  /** Of all ordinals, known or not, only StateUnknown reads as no answer and only
      StateRunning as running. */
  lemma {:induction false} StateNamesTell(state: int)
    ensures var l := ToLower(StateName(state));
            && (l != "" && l != "unknown" <==> state != UNKNOWN)
            && (l == "running" <==> state == RUNNING)
  {
    var name := StateName(state);
    var l := ToLower(name);
    if state == UNKNOWN {
      assert l == "unknown" && l[0] == 'u';
    } else if state == RUNNING {
      assert l == "running" && l[0] == 'r';
    } else {
      assert l[0] == LowerChar(name[0]) && l[0] != 'u';
      assert l[0] != 'r' || |l| != 7;
    }
  }

  function CountHealthy(v: seq<Instance>): (n: nat)
    ensures n <= CountResponding(v)
  {
    if v == [] then 0 else CountHealthy(v[..|v| - 1]) + if v[|v| - 1].state == RUNNING && v[|v| - 1].up then 1 else 0
  }

  /** The rows of the nodes that are up and running. */
  function HealthyRows(v: seq<Instance>): (rows: set<int>)
  {
    set i | 0 <= i < |v| && v[i].state == RUNNING && v[i].up
  }

  lemma {:induction false} HealthyOneMore(v: seq<Instance>)
    requires v != []
    ensures HealthyRows(v) == HealthyRows(v[..|v| - 1])
                              + if v[|v| - 1].state == RUNNING && v[|v| - 1].up then {|v| - 1} else {}
  {
    assert forall i :: 0 <= i < |v| - 1 ==> v[..|v| - 1][i] == v[i];
  }

  lemma {:induction false} HealthyCount(v: seq<Instance>)
    ensures CountHealthy(v) == |HealthyRows(v)|
  {
    if v != [] {
      HealthyCount(v[..|v| - 1]);
      HealthyOneMore(v);
    }
  }

  method PeerCounts(v: seq<Instance>) returns (responding: nat, healthy: nat, total: nat)
    ensures total == |v| && responding == CountResponding(v) && healthy == CountHealthy(v)
  {
    responding, healthy, total := 0, 0, |v|;
    for k := 0 to |v|
      invariant responding == CountResponding(v[..k]) && healthy == CountHealthy(v[..k])
    {
      assert v[..k + 1][..k] == v[..k];
      StateNamesTell(v[k].state);
      var state := ToLower(StateName(v[k].state));
      if state != "" && state != "unknown" {
        responding := responding + 1;
      }
      if v[k].up && state == "running" {
        healthy := healthy + 1;
      }
    }
    assert v[..|v|] == v;
  }

  datatype SubstrateQuorum = SubstrateQuorum(required: nat, responding: nat, total: nat, quorate: bool)

  /** Quorate means a strict majority; nobody at all is not quorate. */
  function ComputeSubstrateQuorum(responding: nat, total: nat): (q: SubstrateQuorum)
    ensures q.quorate <==> total > 0 && 2 * responding > total
    ensures q.total == total && q.responding == responding
    ensures if total > 0 then 2 * q.required > total >= 2 * (q.required - 1) else q.required == 0
  {
    var required := if total > 0 then total / 2 + 1 else 0;
    SubstrateQuorum(required, responding, total, total > 0 && responding >= required)
  }

  /** Which beliefs to mark as stale. */
  function BeliefsStale(leader: string, primary: string, q: SubstrateQuorum): (stale: (bool, bool))
  {
    if q.total == 0 || q.quorate then (false, false) else (leader != "", primary != "")
  }

  predicate Quorate(v: seq<Instance>)
  {
    ComputeSubstrateQuorum(CountResponding(v), |v|).quorate
  }

  /** The doctor and pgmctl judge every status alike, and a belief is marked
      stale only when the doctor fails the cluster. */
  method BothVerdicts(v: seq<Instance>, leader: string, primary: string)
    returns (doctor: Severity, pgmctl: SubstrateQuorum, stale: (bool, bool))
    ensures doctor == Pass <==> pgmctl.quorate
    ensures pgmctl.quorate <==> Quorate(v)
    ensures stale == (doctor == Fail && leader != "", doctor == Fail && primary != "")
  {
    doctor := CheckClusterQuorum(v);
    var responding, healthy, total := PeerCounts(v);
    pgmctl := ComputeSubstrateQuorum(responding, total);
    stale := BeliefsStale(leader, primary, pgmctl);
  }

  /** The nodes that gave a real answer. */
  function Responding(v: seq<Instance>): (ns: set<string>)
  {
    set i | 0 <= i < |v| && v[i].state != UNKNOWN :: v[i].node
  }

  function NodeSet(ns: seq<string>): (s: set<string>)
  {
    set i | 0 <= i < |ns| :: ns[i]
  }

  lemma {:induction false} CountIsSize(v: seq<Instance>)
    requires Distinct(InstanceNodes(v))
    ensures CountResponding(v) == |Responding(v)|
  {
    if v != [] {
      var init, last := v[..|v| - 1], v[|v| - 1];
      assert v == init + [last];
      assert forall i :: 0 <= i < |init| ==> InstanceNodes(init)[i] == InstanceNodes(v)[i];
      CountIsSize(init);
      assert forall i :: 0 <= i < |init| ==> init[i].node != InstanceNodes(v)[|v| - 1];
      RespondingOneMore(init, last);
    }
  }

  lemma {:induction false} RespondingOneMore(v: seq<Instance>, last: Instance)
    requires forall i :: 0 <= i < |v| ==> v[i].node != last.node
    ensures |Responding(v + [last])| == |Responding(v)| + if last.state != UNKNOWN then 1 else 0
  {
    var more := v + [last];
    assert forall i :: 0 <= i < |v| ==> more[i] == v[i];
    assert more[|v|] == last;
    assert last.node !in Responding(v);
    assert Responding(more) == Responding(v) + if last.state != UNKNOWN then {last.node} else {};
  }

  lemma {:induction false} DistinctSize(ns: seq<string>)
    requires Distinct(ns)
    ensures |NodeSet(ns)| == |ns|
  {
    if ns != [] {
      var init := ns[..|ns| - 1];
      DistinctSize(init);
      assert ns[|ns| - 1] !in NodeSet(init);
      assert NodeSet(ns) == NodeSet(init) + {ns[|ns| - 1]};
    }
  }

  predicate RealAnswer(r: Reply)
  {
    r.ok && r.data.Some? && r.data.value.state != UNKNOWN
  }

  /** A node counts as responding exactly when its first reply is a real answer. */
  lemma {:induction false} RespondingMeaning(arrivals: seq<Option<Reply>>, peers: seq<string>, now: int, n: string)
    requires Honest(arrivals)
    ensures n in Responding(View(arrivals, peers, now)) <==>
            exists r :: r in FirstReplies(arrivals) && r.node == n && RealAnswer(r)
  {
    var got, rs, v := FirstReplies(arrivals), Replies(arrivals, peers, now), View(arrivals, peers, now);
    FirstRepliesAreHonest(arrivals);
    SynthesizedNodes(peers, Nodes(got), now);
    forall i | 0 <= i < |rs|
      ensures v[i].state != UNKNOWN ==> i < |got| && rs[i] == got[i] && RealAnswer(got[i]) && v[i].node == got[i].node
      ensures i < |got| ==> rs[i] == got[i] && HonestReply(got[i])
    {
      if i < |got| {
        assert rs[i] == got[i];
      } else {
        assert rs[i] == Synthesized(peers, Nodes(got), now)[i - |got|];
      }
    }
    if r :| r in got && r.node == n && RealAnswer(r) {
      var k :| 0 <= k < |got| && got[k] == r;
      assert v[k].node == n && v[k].state != UNKNOWN;
    }
  }

  /** The nodes shown that are no peers. */
  function Strangers(v: seq<Instance>, peers: seq<string>): (s: set<string>)
  {
    NodeSet(InstanceNodes(v)) - NodeSet(peers)
  }

  lemma {:induction false} SplitSize(s: set<string>, p: set<string>)
    ensures |s| == |s * p| + |s - p|
  {
    assert s == (s * p) + (s - p);
  }

  /** The verdict in terms of who answered: strangers count on both sides. */
  lemma {:induction false} QuorateMeaning(arrivals: seq<Option<Reply>>, peers: seq<string>, now: int)
    requires Distinct(peers) && Honest(arrivals)
    ensures var v := View(arrivals, peers, now);
            var answered := Responding(v);
            && Quorate(v) <==> 2 * |answered * NodeSet(peers)| + 2 * |answered - NodeSet(peers)| > |peers| + |Strangers(v, peers)|
  {
    var v := View(arrivals, peers, now);
    var ns := InstanceNodes(v);
    OneInstancePerPeer(arrivals, peers, now);
    CountIsSize(v);
    DistinctSize(ns);
    DistinctSize(peers);
    SplitSize(Responding(v), NodeSet(peers));
    SplitSize(NodeSet(ns), NodeSet(peers));
    assert NodeSet(ns) * NodeSet(peers) == NodeSet(peers) by {
      forall n | n in NodeSet(peers) ensures n in NodeSet(ns) {
        assert n in peers;
        assert n in ns;
      }
    }
  }

  predicate OnlyPeers(arrivals: seq<Option<Reply>>, peers: seq<string>)
  {
    forall i :: 0 <= i < |arrivals| && arrivals[i].Some? ==> arrivals[i].value.node in peers
  }

  /** With answers from peers only, quorate is a majority of the peers. */
  lemma {:induction false} QuorateIsMajority(arrivals: seq<Option<Reply>>, peers: seq<string>, now: int)
    requires Distinct(peers) && Honest(arrivals) && OnlyPeers(arrivals, peers)
    ensures var v := View(arrivals, peers, now);
            Responding(v) <= NodeSet(peers) && (Quorate(v) <==> 2 * |Responding(v)| > |peers|)
  {
    var v := View(arrivals, peers, now);
    OneInstancePerPeer(arrivals, peers, now);
    QuorateMeaning(arrivals, peers, now);
    NobodyElse(arrivals, peers, now);
    RespondingIsShown(v, peers);
    assert Responding(v) * NodeSet(peers) == Responding(v);
    assert Responding(v) - NodeSet(peers) == {};
  }

  /** Two observers that hear from no peer in common are both told quorate. */
  ghost predicate BothQuorate(peers: seq<string>, one: seq<Option<Reply>>, two: seq<Option<Reply>>, now: int,
    later: int)
  {
    var v, w := View(one, peers, now), View(two, peers, later);
    && Honest(one) && Honest(two)
    && Responding(v) * NodeSet(peers) !! Responding(w) * NodeSet(peers)
    && Quorate(v) && Quorate(w)
  }

  /** And the messages are those the receive loop takes. */
  ghost predicate Split(peers: seq<string>, one: seq<Option<Reply>>, two: seq<Option<Reply>>, now: int, later: int)
  {
    BothQuorate(peers, one, two, now, later) && Gathered(one, |peers|) && Gathered(two, |peers|)
  }

  /** The nodes the two observers are shown that are no peers, counted on each side. */
  ghost function StrangersShown(peers: seq<string>, one: seq<Option<Reply>>, two: seq<Option<Reply>>, now: int,
    later: int): (n: nat)
  {
    |Strangers(View(one, peers, now), peers)| + |Strangers(View(two, peers, later), peers)|
  }

  /** Whoever answers is shown. */
  lemma {:induction false} RespondingIsShown(v: seq<Instance>, peers: seq<string>)
    ensures Responding(v) <= NodeSet(peers) + Strangers(v, peers)
  {
    forall i | 0 <= i < |v| ensures v[i].node in NodeSet(InstanceNodes(v)) {
      assert InstanceNodes(v)[i] == v[i].node;
    }
  }

  /** A split takes two strangers. */
  lemma {:induction false} SplitTakesTwoStrangers(peers: seq<string>, one: seq<Option<Reply>>, two: seq<Option<Reply>>,
    now: int, later: int)
    requires Distinct(peers) && BothQuorate(peers, one, two, now, later)
    ensures StrangersShown(peers, one, two, now, later) >= 2
  {
    var v, w, ps := View(one, peers, now), View(two, peers, later), NodeSet(peers);
    var a, b := Responding(v), Responding(w);
    QuorateMeaning(one, peers, now);
    QuorateMeaning(two, peers, later);
    RespondingIsShown(v, peers);
    RespondingIsShown(w, peers);
    SubsetSize(a - ps, Strangers(v, peers));
    SubsetSize(b - ps, Strangers(w, peers));
    SubsetSize(a * ps + b * ps, ps);
    DistinctSize(peers);
    assert |a * ps + b * ps| == |a * ps| + |b * ps|;
  }

  /** At most as many answer as were heard, and at most as many are heard as there
      are peers. */
  lemma {:induction false} RespondingAtMost(arrivals: seq<Option<Reply>>, peers: seq<string>, now: int)
    requires Honest(arrivals) && Gathered(arrivals, |peers|) && peers != []
    ensures |Responding(View(arrivals, peers, now))| <= |peers|
  {
    var got := FirstReplies(arrivals);
    forall n | n in Responding(View(arrivals, peers, now)) ensures n in NodeSet(Nodes(got)) {
      RespondingMeaning(arrivals, peers, now, n);
      var r :| r in got && r.node == n;
      var k :| 0 <= k < |got| && got[k] == r;
      assert Nodes(got)[k] == n;
    }
    SubsetSize(Responding(View(arrivals, peers, now)), NodeSet(Nodes(got)));
    DistinctSize(Nodes(got));
    if arrivals != [] {
      assert |FirstReplies(arrivals[..|arrivals| - 1])| < |peers|;
    }
  }

  /** In a cluster of one the loop stops at the first reply, and one stranger is no
      majority. */
  lemma {:induction false} LonePeerVerdict(arrivals: seq<Option<Reply>>, p: string, now: int)
    requires Honest(arrivals) && Gathered(arrivals, 1) && Quorate(View(arrivals, [p], now))
    ensures p in Responding(View(arrivals, [p], now)) * NodeSet([p])
  {
    var v := View(arrivals, [p], now);
    var a, ps := Responding(v), NodeSet([p]);
    QuorateMeaning(arrivals, [p], now);
    RespondingAtMost(arrivals, [p], now);
    RespondingIsShown(v, [p]);
    SplitSize(a, ps);
    SubsetSize(a - ps, Strangers(v, [p]));
    assert a * ps != {};
    assert forall n :: n in ps ==> n == p;
  }

  /** In particular two observers that hear from disjoint sets of peers, and from
      nobody else, are never both told quorate. */
  lemma {:induction false} NoSplitQuorum(peers: seq<string>, one: seq<Option<Reply>>, two: seq<Option<Reply>>,
    now: int, later: int)
    requires Distinct(peers) && OnlyPeers(one, peers) && OnlyPeers(two, peers)
    ensures !BothQuorate(peers, one, two, now, later)
  {
    if BothQuorate(peers, one, two, now, later) {
      NobodyElse(one, peers, now);
      NobodyElse(two, peers, later);
      SplitTakesTwoStrangers(peers, one, two, now, later);
    }
  }

  lemma {:induction false} NobodyElse(arrivals: seq<Option<Reply>>, peers: seq<string>, now: int)
    requires Distinct(peers) && Honest(arrivals) && OnlyPeers(arrivals, peers)
    ensures Strangers(View(arrivals, peers, now), peers) == {}
  {
    OneInstancePerPeer(arrivals, peers, now);
    forall n | n in InstanceNodes(View(arrivals, peers, now)) ensures n in NodeSet(peers) {
      assert n in peers;
    }
  }

  /** Each of these nodes answers that it is running. */
  function Running(ns: seq<string>): (arrivals: seq<Option<Reply>>)
  {
    if ns == [] then []
    else
      var n := ns[|ns| - 1];
      Running(ns[..|ns| - 1]) + [Some(Reply(n, true, Some(Payload(n, 2, RUNNING, true, None)), 0))]
  }

  lemma {:induction false} RunningAnswers(ns: seq<string>)
    requires Distinct(ns)
    ensures Honest(Running(ns)) && Nodes(FirstReplies(Running(ns))) == ns
    ensures forall r :: r in FirstReplies(Running(ns)) ==> RealAnswer(r)
  {
    if ns != [] {
      var init := ns[..|ns| - 1];
      var all := Running(ns);
      RunningAnswers(init);
      assert all[..|all| - 1] == Running(init);
      assert ns[|ns| - 1] !in init;
      assert Nodes(FirstReplies(all)) == init + [ns[|ns| - 1]];
    }
  }

  lemma {:induction false} RunningResponds(ns: seq<string>, peers: seq<string>, now: int)
    requires Distinct(ns)
    ensures Responding(View(Running(ns), peers, now)) == NodeSet(ns)
  {
    var got := FirstReplies(Running(ns));
    RunningAnswers(ns);
    forall n ensures n in Responding(View(Running(ns), peers, now)) <==> n in NodeSet(ns) {
      RespondingMeaning(Running(ns), peers, now, n);
      if n in NodeSet(ns) {
        var k :| 0 <= k < |ns| && ns[k] == n;
        assert Nodes(got)[k] == got[k].node == n && got[k] in got;
      }
    }
  }

  lemma {:induction false} RunningStrangers(ns: seq<string>, peers: seq<string>, now: int)
    requires Distinct(ns) && Distinct(peers)
    ensures Strangers(View(Running(ns), peers, now), peers) == NodeSet(ns) - NodeSet(peers)
  {
    var shown := InstanceNodes(View(Running(ns), peers, now));
    RunningAnswers(ns);
    OneInstancePerPeer(Running(ns), peers, now);
    forall n ensures n in NodeSet(shown) <==> n in NodeSet(peers) || n in NodeSet(ns) {
      RepliedIffSpoke(Running(ns), n);
      InNodeSet(shown, n);
      InNodeSet(peers, n);
      InNodeSet(ns, n);
    }
  }

  lemma {:induction false} InNodeSet(ns: seq<string>, n: string)
    ensures n in NodeSet(ns) <==> n in ns
  {}

  /** Whoever answers, peers or strangers: the verdict compares all answers with
      the peers and the strangers together. */
  lemma {:induction false} RunningVerdict(ns: seq<string>, peers: seq<string>, now: int)
    requires Distinct(ns) && Distinct(peers)
    ensures Quorate(View(Running(ns), peers, now)) <==> 2 * |ns| > |peers| + |NodeSet(ns) - NodeSet(peers)|
  {
    RunningAnswers(ns);
    RunningResponds(ns, peers, now);
    RunningStrangers(ns, peers, now);
    QuorateMeaning(Running(ns), peers, now);
    SplitSize(NodeSet(ns), NodeSet(peers));
    DistinctSize(ns);
  }

  lemma {:induction false} SetOfAppend(a: seq<string>, b: seq<string>)
    ensures NodeSet(a + b) == NodeSet(a) + NodeSet(b)
  {
    forall n ensures n in NodeSet(a + b) <==> n in NodeSet(a) + NodeSet(b) {
      InNodeSet(a + b, n);
      InNodeSet(a, n);
      InNodeSet(b, n);
    }
  }

  /** Peers and strangers together answer; so many strangers are shown. */
  lemma {:induction false} MixedVerdict(ps: seq<string>, ss: seq<string>, peers: seq<string>, now: int)
    requires Distinct(peers) && Distinct(ps) && Distinct(ss)
    requires (forall i :: 0 <= i < |ps| ==> ps[i] in peers) && (forall i :: 0 <= i < |ss| ==> ss[i] !in peers)
    ensures var v := View(Running(ps + ss), peers, now);
            && Honest(Running(ps + ss)) && Responding(v) == NodeSet(ps) + NodeSet(ss)
            && |Strangers(v, peers)| == |ss| && (Quorate(v) <==> 2 * |ps| + |ss| > |peers|)
  {
    DistinctAppend(ps, ss);
    SetOfAppend(ps, ss);
    RunningAnswers(ps + ss);
    RunningResponds(ps + ss, peers, now);
    RunningStrangers(ps + ss, peers, now);
    RunningVerdict(ps + ss, peers, now);
    DistinctSize(ss);
    forall n ensures n in NodeSet(ps + ss) - NodeSet(peers) <==> n in NodeSet(ss) {
      InNodeSet(ps, n);
      InNodeSet(ss, n);
      InNodeSet(peers, n);
    }
    assert NodeSet(ps + ss) - NodeSet(peers) == NodeSet(ss);
  }

  /** With two strangers any cluster can be split: an odd one with both on the side
      of the fewer peers, an even one with one on each side. */
  lemma {:induction false} TwoStrangersSplit(peers: seq<string>, x: string, y: string)
    returns (one: seq<Option<Reply>>, two: seq<Option<Reply>>)
    requires Distinct(peers) && |peers| > 1 && x !in peers && y !in peers && x != y
    ensures Split(peers, one, two, 0, 0) && StrangersShown(peers, one, two, 0, 0) == 2
  {
    var k := |peers| / 2;
    if |peers| % 2 == 1 {
      one, two := SplitAt(peers, k, [x, y], []);
    } else {
      one, two := SplitAt(peers, k, [x], [y]);
    }
  }

  /** The first k peers answer with some strangers, the others with other strangers. */
  lemma {:induction false} SplitAt(peers: seq<string>, k: nat, xs: seq<string>, ys: seq<string>)
    returns (one: seq<Option<Reply>>, two: seq<Option<Reply>>)
    requires Distinct(peers) && k <= |peers| && Distinct(xs + ys)
    requires forall i :: 0 <= i < |xs + ys| ==> (xs + ys)[i] !in peers
    requires 2 * k + |xs| > |peers| && 2 * (|peers| - k) + |ys| > |peers|
    requires k + |xs| <= |peers| && |peers| - k + |ys| <= |peers|
    ensures Split(peers, one, two, 0, 0) && StrangersShown(peers, one, two, 0, 0) == |xs| + |ys|
  {
    one, two := Running(peers[..k] + xs), Running(peers[k..] + ys);
    PartsOf(xs, ys, peers);
    MixedVerdict(peers[..k], xs, peers, 0);
    MixedVerdict(peers[k..], ys, peers, 0);
    SidesApart(peers, k, xs, ys);
    DistinctAppend(peers[..k], xs);
    DistinctAppend(peers[k..], ys);
    RunningIsGathered(peers[..k] + xs, |peers|);
    RunningIsGathered(peers[k..] + ys, |peers|);
  }

  lemma {:induction false} RunningIsGathered(ns: seq<string>, enough: nat)
    requires Distinct(ns) && |ns| <= enough
    ensures Gathered(Running(ns), enough)
  {
    RunningPrefix(ns, 0);
    forall k | 0 <= k < |Running(ns)| ensures |FirstReplies(Running(ns)[..k])| < enough {
      RunningPrefix(ns, k);
      RunningAnswers(ns[..k]);
      assert |Nodes(FirstReplies(Running(ns[..k])))| == k;
    }
  }

  lemma {:induction false} RunningPrefix(ns: seq<string>, k: nat)
    requires k <= |ns|
    ensures |Running(ns)| == |ns| && Running(ns)[..k] == Running(ns[..k])
  {
    if ns == [] {
      assert ns[..k] == ns;
    } else if k == |ns| {
      RunningPrefix(ns[..|ns| - 1], 0);
      assert ns[..k] == ns && Running(ns)[..k] == Running(ns);
    } else {
      var init := ns[..|ns| - 1];
      RunningPrefix(init, k);
      assert init[..k] == ns[..k];
      assert Running(ns)[..k] == Running(init)[..k];
    }
  }

  lemma {:induction false} PartsOf(xs: seq<string>, ys: seq<string>, peers: seq<string>)
    requires Distinct(xs + ys) && forall i :: 0 <= i < |xs + ys| ==> (xs + ys)[i] !in peers
    ensures Distinct(xs) && Distinct(ys)
    ensures (forall i :: 0 <= i < |xs| ==> xs[i] !in peers) && (forall i :: 0 <= i < |ys| ==> ys[i] !in peers)
  {
    var all := xs + ys;
    assert forall i :: 0 <= i < |xs| ==> xs[i] == all[i];
    assert forall i :: 0 <= i < |ys| ==> ys[i] == all[|xs| + i];
  }

  lemma {:induction false} SidesApart(peers: seq<string>, k: nat, xs: seq<string>, ys: seq<string>)
    requires Distinct(peers) && k <= |peers| && Distinct(xs + ys)
    requires forall i :: 0 <= i < |xs + ys| ==> (xs + ys)[i] !in peers
    ensures NodeSet(peers[..k]) + NodeSet(xs) !! NodeSet(peers[k..]) + NodeSet(ys)
  {
    forall n | n in NodeSet(xs) ensures n !in peers && n !in NodeSet(ys) {
      var i :| 0 <= i < |xs| && xs[i] == n;
      assert (xs + ys)[i] == n;
      assert forall j :: 0 <= j < |ys| ==> (xs + ys)[|xs| + j] == ys[j];
    }
    forall n | n in NodeSet(ys) ensures n !in peers {
      var i :| 0 <= i < |ys| && ys[i] == n;
      assert (xs + ys)[|xs| + i] == n;
    }
  }

  /** A name longer than all of these. */
  lemma {:induction false} LongerName(ns: seq<string>) returns (x: string)
    ensures |x| > 0 && forall i :: 0 <= i < |ns| ==> |ns[i]| < |x|
  {
    if ns == [] {
      x := "x";
    } else {
      x := LongerName(ns[..|ns| - 1]);
      x := x + ns[|ns| - 1];
    }
  }

  /** Partition safety holds for as long as at most n strangers are shown if and only
      if n is at most one or there is only one peer. */
  lemma {:induction false} SafeUpToOneStranger(peers: seq<string>, n: nat)
    requires Distinct(peers) && peers != []
    ensures (forall one, two, now, later :: Split(peers, one, two, now, later) ==> StrangersShown(peers, one, two, now, later) > n)
            <==> n <= 1 || |peers| == 1
  {
    if n <= 1 {
      forall one, two, now, later | Split(peers, one, two, now, later)
        ensures StrangersShown(peers, one, two, now, later) > n
      {
        SplitTakesTwoStrangers(peers, one, two, now, later);
      }
    } else if |peers| == 1 {
      forall one, two, now, later ensures !Split(peers, one, two, now, later) {
        LonePeerIsSafe(peers[0], one, two, now, later);
        assert peers == [peers[0]];
      }
    } else {
      var x := LongerName(peers);
      var y := LongerName(peers + [x]);
      assert (peers + [x])[|peers|] == x;
      assert forall i :: 0 <= i < |peers| ==> (peers + [x])[i] == peers[i];
      var one, two := TwoStrangersSplit(peers, x, y);
    }
  }

  lemma {:induction false} LonePeerIsSafe(p: string, one: seq<Option<Reply>>, two: seq<Option<Reply>>, now: int,
    later: int)
    ensures !Split([p], one, two, now, later)
  {
    if Split([p], one, two, now, later) {
      LonePeerVerdict(one, p, now);
      LonePeerVerdict(two, p, later);
    }
  }
}
