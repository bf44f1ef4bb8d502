/**
  Which peer records a coordination event (internal/cluster/events.go). Every event
  is broadcast to all peers; the one it names records it, so that the history holds
  each event once.
 */
module EmitterFilter {
  import opened Text

  /** An event; nodeId and reason are empty when the payload has no such string. */
  datatype Event = Event(subject: string, nodeId: string, reason: string)

  /** A record in the history stream; derived marks a leader change made up from a
      state transition. */
  datatype Record = Record(kind: string, emitter: string, derived: bool)

  const LEADER_CHANGED: string := "proxy.leader_changed"

  /** Where the first dot is, or the length. */
  function Dot(s: string): (i: nat)
    ensures i <= |s| && '.' !in s[..i] && (i < |s| ==> s[i] == '.')
  {
    if s == "" || s[0] == '.' then 0
    else
      var i := Dot(s[1..]) + 1;
      assert s[..i] == [s[0]] + s[1..][..i - 1];
      i
  }

  /** What follows the second dot, or the whole subject. */
  function SubjectTail(subject: string): (t: string)
  {
    var i := Dot(subject);
    if i == |subject| then subject
    else
      var rest := subject[i + 1..];
      var j := Dot(rest);
      if j == |rest| then subject else rest[j + 1..]
  }

  lemma {:induction false} DotAfter(a: string, b: string)
    requires '.' !in a
    ensures Dot(a + "." + b) == |a|
  {
    var s := a + "." + b;
    if a != "" {
      assert s[1..] == a[1..] + "." + b;
      assert a[0] in a;
      DotAfter(a[1..], b);
    }
  }

  /** The tail of pgmanager.<cluster>.<topic> is the topic, with any dots of its own. */
  lemma {:induction false} TailIsTopic(prefix: string, cluster: string, topic: string)
    requires '.' !in prefix && '.' !in cluster
    ensures SubjectTail(prefix + "." + cluster + "." + topic) == topic
  {
    var s := prefix + "." + cluster + "." + topic;
    var rest := cluster + "." + topic;
    assert s == prefix + "." + rest;
    DotAfter(prefix, rest);
    assert s[|prefix| + 1..] == rest;
    DotAfter(cluster, topic);
    assert rest[|cluster| + 1..] == topic;
  }

  /** The transition crosses a leadership edge. */
  predicate LeaderEdge(e: Event)
  {
    SubjectTail(e.subject) == "state_transition" && (e.reason == "became_leader" || e.reason == "lost_leader")
  }

  /** The peer that runs here is to record the event. */
  predicate Owns(self: string, e: Event)
  {
    e.nodeId == "" || e.nodeId == self
  }

  method HandleCoordinationEvent(e: Event, self: string) returns (published: seq<Record>)
    ensures published == Published(e, self)
  {
    published := [];
    if e.nodeId == "" || e.nodeId == self {
      var kind := SubjectTail(e.subject);
      published := published + [Record(kind, e.nodeId, false)];
      if kind == "state_transition" {
        if e.reason == "became_leader" || e.reason == "lost_leader" {
          published := published + [Record(LEADER_CHANGED, e.nodeId, true)];
        }
      }
    }
  }

  function Published(e: Event, self: string): (rs: seq<Record>)
  {
    if !Owns(self, e) then []
    else [Record(SubjectTail(e.subject), e.nodeId, false)] + if LeaderEdge(e) then [Record(LEADER_CHANGED, e.nodeId, true)] else []
  }

  /** For an event on pgmanager.<cluster>.<topic>, spelled out: the peer it names, or
      everybody if it names none, records the topic; and a leader change besides, if the
      topic is a state transition and its reason that a leader came or went. */
  lemma {:induction false} PublishedMeaning(prefix: string, cluster: string, topic: string, node: string, reason: string, self: string)
    requires '.' !in prefix && '.' !in cluster
    ensures Published(Event(prefix + "." + cluster + "." + topic, node, reason), self) ==
            if node != "" && node != self then []
            else if topic == "state_transition" && (reason == "became_leader" || reason == "lost_leader")
            then [Record(topic, node, false), Record("proxy.leader_changed", node, true)]
            else [Record(topic, node, false)]
  {
    TailIsTopic(prefix, cluster, topic);
  }

  // ----- The whole cluster

  /** Event number event reaches peer number peer. */
  datatype Delivery = Delivery(event: nat, peer: nat)

  predicate InRange(d: Delivery, peers: seq<string>, events: seq<Event>)
  {
    d.event < |events| && d.peer < |peers|
  }

  /** Every event is delivered once to every peer, in any order. */
  ghost predicate IsRun(peers: seq<string>, events: seq<Event>, ds: seq<Delivery>)
  {
    && Distinct(peers) && Distinct(ds)
    && (forall i :: 0 <= i < |ds| ==> InRange(ds[i], peers, events))
    && forall e: nat, p: nat :: e < |events| && p < |peers| ==> Delivery(e, p) in ds
  }

  /** A record and the number of the event it is about. */
  datatype Entry = Entry(event: nat, record: Record)

  function Entries(event: nat, rs: seq<Record>): (es: seq<Entry>)
    ensures |es| == |rs| && forall i :: 0 <= i < |rs| ==> es[i] == Entry(event, rs[i])
  {
    seq(|rs|, i requires 0 <= i < |rs| => Entry(event, rs[i]))
  }

  /** The history after these deliveries. */
  function History(peers: seq<string>, events: seq<Event>, ds: seq<Delivery>): (h: seq<Entry>)
    requires forall i :: 0 <= i < |ds| ==> InRange(ds[i], peers, events)
  {
    if ds == [] then []
    else
      var d := ds[|ds| - 1];
      assert InRange(d, peers, events);
      History(peers, events, ds[..|ds| - 1]) + Entries(d.event, Published(events[d.event], peers[d.peer]))
  }

  /** How many records the history has about an event, as itself or as a leader change. */
  function Count(h: seq<Entry>, event: nat, derived: bool): (n: nat)
  {
    if h == [] then 0
    else Count(h[..|h| - 1], event, derived) + if h[|h| - 1].event == event && h[|h| - 1].record.derived == derived then 1 else 0
  }

  lemma {:induction false} CountAppend(h: seq<Entry>, g: seq<Entry>, event: nat, derived: bool)
    ensures Count(h + g, event, derived) == Count(h, event, derived) + Count(g, event, derived)
  {
    if g == [] {
      assert h + g == h;
    } else {
      CountAppend(h, g[..|g| - 1], event, derived);
      assert (h + g)[..|h + g| - 1] == h + g[..|g| - 1];
    }
  }

  lemma {:induction false} CountOne(r: Entry, event: nat, derived: bool)
    ensures Count([r], event, derived) == if r.event == event && r.record.derived == derived then 1 else 0
  {
    assert [r][..0] == [];
  }

  /** An owner records this: the event always, a leader change on a leadership edge. */
  predicate Due(e: Event, derived: bool)
  {
    derived ==> LeaderEdge(e)
  }

  lemma {:induction false} CountPublished(e: Event, self: string, event: nat, at: nat, derived: bool)
    ensures Count(Entries(at, Published(e, self)), event, derived) == if at == event && Owns(self, e) && Due(e, derived) then 1 else 0
  {
    if Owns(self, e) {
      var first := Entry(at, Record(SubjectTail(e.subject), e.nodeId, false));
      CountOne(first, event, derived);
      if LeaderEdge(e) {
        var second := Entry(at, Record(LEADER_CHANGED, e.nodeId, true));
        assert Entries(at, Published(e, self)) == [first] + [second];
        CountAppend([first], [second], event, derived);
        CountOne(second, event, derived);
      } else {
        assert Entries(at, Published(e, self)) == [first];
      }
    }
  }

  /** The peers that own an event and have got it. */
  function Owners(peers: seq<string>, e: Event, event: nat, ds: seq<Delivery>): (ps: set<nat>)
    requires forall i :: 0 <= i < |ds| ==> ds[i].peer < |peers|
  {
    set i | 0 <= i < |ds| && ds[i].event == event && Owns(peers[ds[i].peer], e) :: ds[i].peer
  }

  /** The peer has got the event. */
  predicate Got(ds: seq<Delivery>, event: nat, peer: nat)
  {
    exists i :: 0 <= i < |ds| && ds[i] == Delivery(event, peer)
  }

  lemma {:induction false} GotStep(ds: seq<Delivery>, d: Delivery, event: nat, peer: nat)
    ensures Got(ds + [d], event, peer) <==> Got(ds, event, peer) || d == Delivery(event, peer)
  {
    var all := ds + [d];
    if Got(ds, event, peer) {
      var i :| 0 <= i < |ds| && ds[i] == Delivery(event, peer);
      assert all[i] == ds[i];
    }
    assert all[|ds|] == d;
  }

  lemma {:induction false} OwnersMeaning(peers: seq<string>, e: Event, event: nat, ds: seq<Delivery>, p: nat)
    requires forall i :: 0 <= i < |ds| ==> ds[i].peer < |peers|
    ensures p in Owners(peers, e, event, ds) <==> p < |peers| && Owns(peers[p], e) && Got(ds, event, p)
  {}

  lemma {:induction false} OwnersStep(peers: seq<string>, e: Event, event: nat, ds: seq<Delivery>, d: Delivery)
    requires d !in ds && d.peer < |peers| && forall i :: 0 <= i < |ds| ==> ds[i].peer < |peers|
    ensures |Owners(peers, e, event, ds + [d])|
            == |Owners(peers, e, event, ds)| + if d.event == event && Owns(peers[d.peer], e) then 1 else 0
  {
    var was, now := Owners(peers, e, event, ds), Owners(peers, e, event, ds + [d]);
    var mine := d.event == event && Owns(peers[d.peer], e);
    forall p: nat ensures p in now <==> p in was || (mine && p == d.peer) {
      OwnersMeaning(peers, e, event, ds, p);
      OwnersMeaning(peers, e, event, ds + [d], p);
      GotStep(ds, d, event, p);
    }
    OwnersMeaning(peers, e, event, ds, d.peer);
    assert mine ==> d.peer !in was;
    assert now == if mine then was + {d.peer} else was;
  }

  /** One more delivery adds the records of its owner. */
  lemma {:induction false} CountStep(peers: seq<string>, events: seq<Event>, ds: seq<Delivery>, d: Delivery,
    event: nat, derived: bool)
    requires event < |events| && InRange(d, peers, events)
             && forall i :: 0 <= i < |ds| ==> InRange(ds[i], peers, events)
    ensures Count(History(peers, events, ds + [d]), event, derived)
            == Count(History(peers, events, ds), event, derived)
               + if d.event == event && Owns(peers[d.peer], events[event]) && Due(events[event], derived) then 1 else 0
  {
    assert (ds + [d])[..|ds|] == ds && (ds + [d])[|ds|] == d;
    CountAppend(History(peers, events, ds), Entries(d.event, Published(events[d.event], peers[d.peer])), event, derived);
    CountPublished(events[d.event], peers[d.peer], event, d.event, derived);
  }

  lemma {:induction false} CountIsOwners(peers: seq<string>, events: seq<Event>, ds: seq<Delivery>, event: nat,
    derived: bool)
    requires event < |events| && Distinct(ds) && forall i :: 0 <= i < |ds| ==> InRange(ds[i], peers, events)
    ensures Count(History(peers, events, ds), event, derived)
            == if Due(events[event], derived) then |Owners(peers, events[event], event, ds)| else 0
  {
    if ds != [] {
      var init, d := ds[..|ds| - 1], ds[|ds| - 1];
      assert ds == init + [d] && d !in init;
      CountIsOwners(peers, events, init, event, derived);
      CountStep(peers, events, init, d, event, derived);
      OwnersStep(peers, events[event], event, init, d);
    }
  }

  /** How many peers own an event: the one it names, nobody if that is no peer, and
      everybody if it names none. */
  function OwnerCount(peers: seq<string>, e: Event): (n: nat)
  {
    if e.nodeId == "" then |peers| else if e.nodeId in peers then 1 else 0
  }

  lemma {:induction false} OwnersOfRun(peers: seq<string>, events: seq<Event>, ds: seq<Delivery>, event: nat)
    requires IsRun(peers, events, ds) && event < |events|
    ensures |Owners(peers, events[event], event, ds)| == OwnerCount(peers, events[event])
  {
    var e := events[event];
    var owners := Owners(peers, e, event, ds);
    forall p: nat ensures p in owners <==> p < |peers| && Owns(peers[p], e) {
      OwnersMeaning(peers, e, event, ds, p);
      if p < |peers| {
        assert Delivery(event, p) in ds;
        assert Got(ds, event, p);
      }
    }
    if e.nodeId == "" {
      FullSize(owners, |peers|);
    } else if e.nodeId in peers {
      var p :| 0 <= p < |peers| && peers[p] == e.nodeId;
      assert owners == {p};
    } else {
      assert owners == {};
    }
  }

  lemma {:induction false} FullSize(s: set<nat>, n: nat)
    requires forall p: nat :: p in s <==> p < n
    ensures |s| == n
  {
    if n > 0 {
      FullSize(s - {n - 1}, n - 1);
    } else {
      assert s == {};
    }
  }

  /** Whatever the order of delivery: an event that names a peer is recorded once in
      the whole cluster, one that names none once by every peer, one that names
      somebody else never; and a leadership edge adds one leader change each time. */
  lemma {:induction false} RecordedOnce(peers: seq<string>, events: seq<Event>, ds: seq<Delivery>, event: nat)
    requires IsRun(peers, events, ds) && event < |events|
    ensures Count(History(peers, events, ds), event, false) == OwnerCount(peers, events[event])
    ensures Count(History(peers, events, ds), event, true) == if LeaderEdge(events[event]) then OwnerCount(peers, events[event]) else 0
  {
    CountIsOwners(peers, events, ds, event, false);
    CountIsOwners(peers, events, ds, event, true);
    OwnersOfRun(peers, events, ds, event);
  }

  // ----- Publishes that fail

  /** What is left of the history when some publishes fail, which the handler ignores. */
  function Landed(h: seq<Entry>, ok: seq<bool>): (g: seq<Entry>)
    requires |ok| == |h|
  {
    if h == [] then []
    else Landed(h[..|h| - 1], ok[..|h| - 1]) + if ok[|h| - 1] then [h[|h| - 1]] else []
  }

  /** The entry is one of those counted. */
  predicate IsAbout(x: Entry, event: nat, derived: bool)
  {
    x.event == event && x.record.derived == derived
  }

  /** Every record about the event landed. */
  predicate AllLanded(h: seq<Entry>, ok: seq<bool>, event: nat, derived: bool)
    requires |ok| == |h|
  {
    forall i :: 0 <= i < |h| && IsAbout(h[i], event, derived) ==> ok[i]
  }

  lemma {:induction false} CountLanded(h: seq<Entry>, ok: seq<bool>, event: nat, derived: bool)
    requires |ok| == |h|
    ensures Count(Landed(h, ok), event, derived) <= Count(h, event, derived)
    ensures Count(Landed(h, ok), event, derived) == Count(h, event, derived) <==> AllLanded(h, ok, event, derived)
  {
    if h != [] {
      var n := |h| - 1;
      CountLanded(h[..n], ok[..n], event, derived);
      AllLandedInit(h, ok, event, derived);
      if ok[n] {
        CountAppend(Landed(h[..n], ok[..n]), [h[n]], event, derived);
        CountOne(h[n], event, derived);
      } else {
        assert Landed(h[..n], ok[..n]) + [] == Landed(h[..n], ok[..n]);
      }
    }
  }

  lemma {:induction false} AllLandedInit(h: seq<Entry>, ok: seq<bool>, event: nat, derived: bool)
    requires |ok| == |h| > 0
    ensures var n := |h| - 1;
            AllLanded(h, ok, event, derived) <==>
            AllLanded(h[..n], ok[..n], event, derived) && (IsAbout(h[n], event, derived) ==> ok[n])
  {
    var n := |h| - 1;
    assert forall i :: 0 <= i < n ==> h[..n][i] == h[i] && ok[..n][i] == ok[i];
    if AllLanded(h[..n], ok[..n], event, derived) {
      forall i | 0 <= i < n && IsAbout(h[i], event, derived) ensures ok[i] {
        assert IsAbout(h[..n][i], event, derived);
      }
    }
    if AllLanded(h, ok, event, derived) {
      forall i | 0 <= i < n && IsAbout(h[..n][i], event, derived) ensures ok[..n][i] {
        assert IsAbout(h[i], event, derived);
      }
    }
  }

  /** So failures can only take records away, and the counts are as promised exactly
      when none of the event's own publishes failed. */
  lemma {:induction false} NeverRecordedTwice(
    peers: seq<string>, events: seq<Event>, ds: seq<Delivery>, ok: seq<bool>, event: nat)
    requires IsRun(peers, events, ds) && event < |events| && |ok| == |History(peers, events, ds)|
    ensures var h := History(peers, events, ds);
            && Count(Landed(h, ok), event, false) <= OwnerCount(peers, events[event])
            && (Count(Landed(h, ok), event, false) == OwnerCount(peers, events[event]) <==> AllLanded(h, ok, event, false))
            && Count(Landed(h, ok), event, true) <= (if LeaderEdge(events[event]) then OwnerCount(peers, events[event]) else 0)
  {
    RecordedOnce(peers, events, ds, event);
    CountLanded(History(peers, events, ds), ok, event, false);
    CountLanded(History(peers, events, ds), ok, event, true);
  }
}
