/**
  The route watcher (internal/embedded/route_watcher.go): each tick compares the
  server's routes with the peers known and emits route_up and route_down events.
 */
module RouteWatcher {
  import opened Options

  /** One route of a snapshot; the name is empty while the handshake runs. */
  datatype Route = Route(remoteName: string, url: string)

  type Snapshot = seq<Option<Route>>

  datatype Event = Up(peer: string) | Down(peer: string)

  predicate Names(r: Option<Route>, peer: string)
  {
    r.Some? && r.value.remoteName == peer && peer != ""
  }

  /** The peers a snapshot names. */
  function Peers(s: Snapshot): (ps: set<string>)
  {
    set i | 0 <= i < |s| && s[i].Some? && s[i].value.remoteName != "" :: s[i].value.remoteName
  }

  /** How often a snapshot names the peer. */
  function Count(s: Snapshot, peer: string): (n: nat)
    ensures n > 0 <==> peer in Peers(s)
  {
    if s == [] then 0
    else
      var init := s[..|s| - 1];
      PeersOfLonger(init, s[|s| - 1]);
      assert s == init + [s[|s| - 1]];
      Count(init, peer) + if Names(s[|s| - 1], peer) then 1 else 0
  }

  /** Who is up after these events. */
  function Replay(up: set<string>, es: seq<Event>): (ps: set<string>)
  {
    if es == [] then up
    else
      var before := Replay(up, es[..|es| - 1]);
      match es[|es| - 1]
      case Up(p) => before + {p}
      case Down(p) => before - {p}
  }

  /** The events about one peer: true for up. */
  function Of(es: seq<Event>, peer: string): (us: seq<bool>)
  {
    if es == [] then []
    else Of(es[..|es| - 1], peer) + if es[|es| - 1].peer == peer then [es[|es| - 1].Up?] else []
  }

  function Ups(n: nat): (us: seq<bool>)
    ensures |us| == n && forall i :: 0 <= i < n ==> us[i]
  {
    if n == 0 then [] else Ups(n - 1) + [true]
  }

  /** What one tick says about a peer. */
  function TickOf(known: set<string>, s: Snapshot, peer: string): (us: seq<bool>)
  {
    if peer !in known then Ups(Count(s, peer)) else if peer in Peers(s) then [] else [false]
  }

  lemma {:induction false} ReplayAppend(up: set<string>, a: seq<Event>, b: seq<Event>)
    ensures Replay(up, a + b) == Replay(Replay(up, a), b)
  {
    if b == [] {
      assert a + b == a;
    } else {
      ReplayAppend(up, a, b[..|b| - 1]);
      assert (a + b)[..|a + b| - 1] == a + b[..|b| - 1];
    }
  }

  lemma {:induction false} OfAppend(a: seq<Event>, b: seq<Event>, peer: string)
    ensures Of(a + b, peer) == Of(a, peer) + Of(b, peer)
  {
    if b == [] {
      assert a + b == a;
    } else {
      OfAppend(a, b[..|b| - 1], peer);
      assert (a + b)[..|a + b| - 1] == a + b[..|b| - 1];
    }
  }

  class Watcher {
    var known: map<string, Route>

    constructor ()
      ensures known == map[]
    {
      known := map[];
    }

    /** One tick with a snapshot; a failed Routez call leaves everything alone. */
    method Tick(snapshot: Option<Snapshot>) returns (es: seq<Event>)
      modifies this
      ensures snapshot.None? ==> es == [] && known == old(known)
      ensures snapshot.Some? ==>
                && known.Keys == Peers(snapshot.value) == Replay(old(known.Keys), es)
                && forall p :: Of(es, p) == TickOf(old(known.Keys), snapshot.value, p)
    {
      if snapshot.None? {
        return [];
      }
      var current, ups := Arrivals(snapshot.value);
      var downs := Departures(current);
      es := ups + downs;
      ReplayAppend(known.Keys, ups, downs);
      forall p ensures Of(es, p) == TickOf(known.Keys, snapshot.value, p) {
        TickFor(known.Keys, snapshot.value, ups, downs, p);
      }
      known := current;
    }

    /** The first loop: the peers named now, and an event for each naming of a peer
        that was not known. */
    method Arrivals(s: Snapshot) returns (current: map<string, Route>, es: seq<Event>)
      ensures current.Keys == Peers(s) && Arrived(known.Keys, s, es)
    {
      current, es := map[], [];
      for k := 0 to |s|
        invariant current.Keys == Peers(s[..k]) && Arrived(known.Keys, s[..k], es)
      {
        assert s[..k + 1] == s[..k] + [s[k]];
        ArrivedStep(known.Keys, s[..k], s[k], es);
        PeersOfLonger(s[..k], s[k]);
        ghost var was := es;
        if s[k].Some? && s[k].value.remoteName != "" {
          var ri := s[k].value;
          current := current[ri.remoteName := ri];
          if ri.remoteName !in known {
            es := es + [Up(ri.remoteName)];
          }
        }
        assert es == was + News(known.Keys, s[k]);
      }
      assert s[..|s|] == s;
    }

    /** The second loop: the known peers no longer named, in any order. */
    method Departures(current: map<string, Route>) returns (es: seq<Event>)
      ensures Departed(known.Keys, current.Keys, {}, es)
    {
      es := [];
      var left := known.Keys;
      while left != {}
        invariant left <= known.Keys && Departed(known.Keys, current.Keys, left, es)
        decreases |left|
      {
        var peer :| peer in left;
        DepartedStep(known.Keys, current.Keys, left, es, peer);
        if peer !in current {
          es := es + [Down(peer)];
        }
        left := left - {peer};
      }
    }
  }

  /** The ups of a snapshot about one peer, seen against the peers known before. */
  predicate ArrivedFor(known: set<string>, s: Snapshot, es: seq<Event>, p: string)
  {
    Of(es, p) == if p in known then [] else Ups(Count(s, p))
  }

  ghost predicate Arrived(known: set<string>, s: Snapshot, es: seq<Event>)
  {
    Replay(known, es) == known + Peers(s) && forall p :: ArrivedFor(known, s, es, p)
  }

  /** The downs about one peer when the peers left are still to look at. */
  predicate DepartedFor(known: set<string>, current: set<string>, left: set<string>, es: seq<Event>, p: string)
  {
    Of(es, p) == if p in known && p !in left && p !in current then [false] else []
  }

  ghost predicate Departed(known: set<string>, current: set<string>, left: set<string>, es: seq<Event>)
  {
    Replay(known + current, es) == left + current && forall p :: DepartedFor(known, current, left, es, p)
  }

  lemma {:induction false} CountOfLonger(s: Snapshot, r: Option<Route>, p: string)
    ensures Count(s + [r], p) == Count(s, p) + if Names(r, p) then 1 else 0
  {
    assert (s + [r])[..|s|] == s;
  }

  /** The event a route gives rise to, if any. */
  function News(known: set<string>, r: Option<Route>): (es: seq<Event>)
  {
    if r.Some? && r.value.remoteName != "" && r.value.remoteName !in known then [Up(r.value.remoteName)] else []
  }

  lemma {:induction false} ArrivedForStep(known: set<string>, s: Snapshot, r: Option<Route>, es: seq<Event>, p: string)
    requires ArrivedFor(known, s, es, p)
    ensures ArrivedFor(known, s + [r], es + News(known, r), p)
  {
    CountOfLonger(s, r, p);
    if News(known, r) == [] {
      assert es + [] == es;
    } else {
      OfOneMore(es, Up(r.value.remoteName), p);
    }
  }

  lemma {:induction false} ArrivedStep(known: set<string>, s: Snapshot, r: Option<Route>, es: seq<Event>)
    requires Arrived(known, s, es)
    ensures Arrived(known, s + [r], es + News(known, r))
  {
    PeersOfLonger(s, r);
    if News(known, r) == [] {
      assert es + [] == es;
      assert known + Peers(s + [r]) == known + Peers(s);
    } else {
      ReplayOneMore(known, es, Up(r.value.remoteName));
      assert known + Peers(s + [r]) == known + Peers(s) + {r.value.remoteName};
    }
    forall p ensures ArrivedFor(known, s + [r], es + News(known, r), p) {
      ArrivedForStep(known, s, r, es, p);
    }
  }

  lemma {:induction false} DepartedForStep(known: set<string>, current: set<string>, left: set<string>, es: seq<Event>,
    peer: string, p: string)
    requires DepartedFor(known, current, left, es, p) && left <= known && peer in left
    ensures DepartedFor(known, current, left - {peer}, if peer in current then es else es + [Down(peer)], p)
  {
    OfOneMore(es, Down(peer), p);
  }

  lemma {:induction false} DepartedStep(known: set<string>, current: set<string>, left: set<string>, es: seq<Event>,
    peer: string)
    requires Departed(known, current, left, es) && left <= known && peer in left
    ensures Departed(known, current, left - {peer}, if peer in current then es else es + [Down(peer)])
  {
    var new' := if peer in current then es else es + [Down(peer)];
    if peer in current {
      assert left - {peer} + current == left + current;
    } else {
      ReplayOneMore(known + current, es, Down(peer));
      assert left - {peer} + current == left + current - {peer};
    }
    forall p ensures DepartedFor(known, current, left - {peer}, new', p) {
      DepartedForStep(known, current, left, es, peer, p);
    }
  }

  /** The two loops together are the tick. */
  lemma {:induction false} TickFor(known: set<string>, s: Snapshot, ups: seq<Event>, downs: seq<Event>, p: string)
    requires ArrivedFor(known, s, ups, p) && DepartedFor(known, Peers(s), {}, downs, p)
    ensures Of(ups + downs, p) == TickOf(known, s, p)
  {
    OfAppend(ups, downs, p);
    assert Ups(0) == [];
  }

  lemma {:induction false} ReplayOneMore(up: set<string>, es: seq<Event>, e: Event)
    ensures Replay(up, es + [e]) == if e.Up? then Replay(up, es) + {e.peer} else Replay(up, es) - {e.peer}
  {
    assert (es + [e])[..|es|] == es;
  }

  lemma {:induction false} OfOneMore(es: seq<Event>, e: Event, p: string)
    ensures Of(es + [e], p) == Of(es, p) + if e.peer == p then [e.Up?] else []
  {
    assert (es + [e])[..|es|] == es;
  }

  lemma {:induction false} PeersOfLonger(s: Snapshot, r: Option<Route>)
    ensures Peers(s + [r]) == Peers(s) + if r.Some? && r.value.remoteName != "" then {r.value.remoteName} else {}
  {
    var t := s + [r];
    assert t[|s|] == r;
    forall i | 0 <= i < |s| ensures t[i] == s[i] {}
  }

  // ----- Runs

  /** The peers known after a run: those of the last snapshot. */
  function KnownAfter(ss: seq<Snapshot>): (ps: set<string>)
  {
    if ss == [] then {} else Peers(ss[|ss| - 1])
  }

  /** What a whole run says about a peer. */
  function RunOf(ss: seq<Snapshot>, peer: string): (us: seq<bool>)
  {
    if ss == [] then []
    else RunOf(ss[..|ss| - 1], peer) + TickOf(KnownAfter(ss[..|ss| - 1]), ss[|ss| - 1], peer)
  }

  /** The snapshots of the Routez calls that succeeded. */
  function Successes(polls: seq<Option<Snapshot>>): (ss: seq<Snapshot>)
  {
    if polls == [] then []
    else
      var last := polls[|polls| - 1];
      Successes(polls[..|polls| - 1]) + if last.Some? then [last.value] else []
  }

  lemma {:induction false} OneMoreSuccess(ss: seq<Snapshot>, s: Snapshot, p: string)
    ensures KnownAfter(ss + [s]) == Peers(s) && RunOf(ss + [s], p) == RunOf(ss, p) + TickOf(KnownAfter(ss), s, p)
  {
    assert (ss + [s])[..|ss|] == ss;
  }

  /** The polling loop: replaying all events from nothing gives the peers of the
      last snapshot; failed calls leave no trace. */
  method Poll(polls: seq<Option<Snapshot>>) returns (es: seq<Event>)
    ensures Replay({}, es) == KnownAfter(Successes(polls))
    ensures forall p :: Of(es, p) == RunOf(Successes(polls), p)
  {
    var w := new Watcher();
    es := [];
    for k := 0 to |polls|
      invariant w.known.Keys == KnownAfter(Successes(polls[..k])) == Replay({}, es)
      invariant forall p :: Of(es, p) == RunOf(Successes(polls[..k]), p)
    {
      var new' := w.Tick(polls[k]);
      ghost var ss := Successes(polls[..k]);
      assert polls[..k + 1][..k] == polls[..k];
      if polls[k].None? {
        assert ss + [] == ss && es + new' == es;
      } else {
        ReplayAppend({}, es, new');
        forall p ensures Of(es + new', p) == RunOf(ss + [polls[k].value], p) {
          OfAppend(es, new', p);
          OneMoreSuccess(ss, polls[k].value, p);
        }
        OneMoreSuccess(ss, polls[k].value, "");
      }
      es := es + new';
    }
    assert polls[..|polls|] == polls;
  }

  predicate Alternates(us: seq<bool>)
  {
    forall i :: 0 <= i < |us| ==> us[i] == (i % 2 == 0)
  }

  /** Some snapshot names the peer twice while it is not known. */
  predicate RepeatsUnknown(ss: seq<Snapshot>, peer: string)
  {
    exists k :: 0 <= k < |ss| && peer !in KnownAfter(ss[..k]) && Count(ss[k], peer) > 1
  }

  lemma {:induction false} AlternatesAppend(us: seq<bool>, vs: seq<bool>)
    ensures Alternates(us + vs) <==> Alternates(us) && forall i :: 0 <= i < |vs| ==> vs[i] == ((|us| + i) % 2 == 0)
  {
    var all := us + vs;
    if Alternates(all) {
      forall i | 0 <= i < |us| ensures us[i] == (i % 2 == 0) {
        assert all[i] == us[i];
      }
      forall i | 0 <= i < |vs| ensures vs[i] == ((|us| + i) % 2 == 0) {
        assert all[|us| + i] == vs[i];
      }
    }
  }

  lemma {:induction false} RepeatsInit(ss: seq<Snapshot>, peer: string)
    requires ss != []
    ensures var init := ss[..|ss| - 1];
            RepeatsUnknown(ss, peer) <==>
            RepeatsUnknown(init, peer) || (peer !in KnownAfter(init) && Count(ss[|ss| - 1], peer) > 1)
  {
    var init := ss[..|ss| - 1];
    forall k | 0 <= k <= |init| ensures init[..k] == ss[..k] {}
    assert init == ss[..|init|];
    if RepeatsUnknown(init, peer) {
      var k :| 0 <= k < |init| && peer !in KnownAfter(init[..k]) && Count(init[k], peer) > 1;
      assert ss[k] == init[k];
    }
  }

  /** One tick keeps the events of a peer alternating unless it brings several ups. */
  lemma {:induction false} TickAlternates(us: seq<bool>, known: set<string>, s: Snapshot, peer: string)
    requires Alternates(us) && (|us| % 2 == 1 <==> peer in known)
    ensures var all := us + TickOf(known, s, peer);
            && (Alternates(all) <==> peer in known || Count(s, peer) <= 1)
            && (Alternates(all) ==> (|all| % 2 == 1 <==> peer in Peers(s)))
  {
    if peer !in known {
      UpsAlternate(us, Count(s, peer));
    } else if peer in Peers(s) {
      assert us + [] == us;
    } else {
      AlternatesAppend(us, [false]);
    }
  }

  lemma {:induction false} UpsAlternate(us: seq<bool>, n: nat)
    requires Alternates(us) && |us| % 2 == 0
    ensures Alternates(us + Ups(n)) <==> n <= 1
  {
    AlternatesAppend(us, Ups(n));
    if n > 1 {
      assert Ups(n)[1] && (|us| + 1) % 2 == 1;
    }
  }

  /** A peer's events alternate, starting with up, exactly when no snapshot names it
      twice while it is not known; the peer is known exactly after an odd number. */
  lemma {:induction false} EventsAlternate(ss: seq<Snapshot>, peer: string)
    ensures Alternates(RunOf(ss, peer)) <==> !RepeatsUnknown(ss, peer)
    ensures !RepeatsUnknown(ss, peer) ==> (|RunOf(ss, peer)| % 2 == 1 <==> peer in KnownAfter(ss))
  {
    if ss != [] {
      var init, last := ss[..|ss| - 1], ss[|ss| - 1];
      EventsAlternate(init, peer);
      RepeatsInit(ss, peer);
      if RepeatsUnknown(init, peer) {
        AlternatesAppend(RunOf(init, peer), TickOf(KnownAfter(init), last, peer));
      } else {
        TickAlternates(RunOf(init, peer), KnownAfter(init), last, peer);
      }
    }
  }

  /** Two routes to a new peer in one snapshot give two ups in a row. */
  lemma {:induction false} TwoUpsInARow(peer: string, url: string)
    requires peer != ""
    ensures RunOf([[Some(Route(peer, url)), Some(Route(peer, url))]], peer) == [true, true]
  {
    var r := Some(Route(peer, url));
    assert [r, r][..1] == [r];
    assert Count([r], peer) == 1 && Count([r, r], peer) == 2;
    assert [[r, r]][..0] == [];
    assert Ups(1) == [true] && Ups(2) == [true, true];
  }
}
