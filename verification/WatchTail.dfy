/**
  A watch on an append topic from the history stream to the client: the
  server-side subscription (internal/history/watcher.go), the frames written by
  handleWatchHistoryStream (internal/control/handlers_watch.go), and the client's
  reconnect loop (internal/pgmctl/watch/sse.go).
 */
module WatchTail {
  import opened Text
  import opened History
  import opened Options
  import opened Sse

  // ----- The subscription

  /** Watcher.run: skips through the cursor, then hands on every wanted record.
      The messages are those the ordered consumer delivers. */
  method Watch(f: Filter, msgs: seq<Message>, cursor: string) returns (events: seq<Record>)
    ensures events == Due(f, msgs, 0, cursor)
  {
    events := [];
    var cursorSeen := cursor == "";
    assert msgs[0..] == msgs;
    for k := 0 to |msgs|
      invariant Due(f, msgs, 0, cursor) == events + Due(f, msgs[k..], 0, if cursorSeen then "" else cursor)
      invariant !cursorSeen ==> cursor != ""
    {
      var m := msgs[k];
      assert msgs[k..][0..] == msgs[k..] && msgs[k..][1..] == msgs[k + 1..] && msgs[k + 1..][0..] == msgs[k + 1..];
      if Readable(f, m) {
        if !cursorSeen {
          if m.record.id == cursor {
            cursorSeen := true;
          }
        } else if Wanted(f, m.record) {
          AppendAssoc(events, [m.record], Due(f, msgs[k + 1..], 0, ""));
          events := events + [m.record];
        }
      }
    }
  }

  // ----- One connection

  /** A topic: its filter, its frame name and the JSON encoding of a record. */
  datatype Topic = Topic(filter: Filter, name: string, json: Record -> string)

  ghost predicate TopicOk(t: Topic)
  {
    Value(t.name) && t.name != "" && forall r :: Value(t.json(r))
  }

  function ToFrame(t: Topic, r: Record): (f: Frame)
  {
    Frame(t.name, r.id, t.json(r))
  }

  function ToFrames(t: Topic, rs: seq<Record>): (fs: seq<Frame>)
    ensures |fs| == |rs| && forall i :: 0 <= i < |rs| ==> fs[i] == ToFrame(t, rs[i])
  {
    seq(|rs|, i requires 0 <= i < |rs| => ToFrame(t, rs[i]))
  }

  /** The frames that carry a record; gap markers and errors have no id. */
  function Identified(fs: seq<Frame>): (out: seq<Frame>)
    ensures forall f :: f in out ==> f.id != ""
  {
    if fs == [] then []
    else if fs[0].id != "" then [fs[0]] + Identified(fs[1..])
    else Identified(fs[1..])
  }

  /** What happened on one connection: the log when it ended, the oldest message
      still retained, where a live-only subscription began, everything the server
      wrote, how many bytes arrived and how the stream ended. */
  datatype Connection = Connection(log: seq<Message>, base: nat, live: nat, items: seq<Item>, arrived: nat, end: End)

  /** Where the subscription for this Last-Event-ID starts reading. */
  function Start(c: Connection, lastID: string): (n: nat)
  {
    if lastID == "" then c.live else c.base
  }

  /** A clean end after n bytes does not fall between the first character of an id and
      the last one of the frame's values. */
  predicate EndsWell(items: seq<Item>, n: nat)
  {
    var k, m := Arrived(items, n), Into(items, n);
    CutsFrame(items, n) && items[k].frame.id != "" && m > EventEnd(items[k].frame) + |Key(IdLine)| ==>
      Whole(items[k].frame, m)
  }

  /** The server wrote, in order, frames for the first so many records due, with
      keepalives and id-less frames anywhere among them.  The record the client
      resumes from is still in the log.  The bytes stop anywhere with an error, or
      cleanly where that ends well. */
  ghost predicate Served(t: Topic, c: Connection, lastID: string)
  {
    && UniqueLog(c.log) && c.base <= |c.log| && c.live <= |c.log|
    && (forall i :: 0 <= i < |c.log| && c.log[i].Stored? ==> Value(c.log[i].record.id))
    && (forall k :: 0 <= k < c.base && c.log[k].Stored? ==> c.log[k].record.id != lastID)
    && AllPrintable(c.items)
    && Identified(Frames(c.items)) <= ToFrames(t, Due(t.filter, c.log, Start(c, lastID), lastID))
    && c.arrived <= |PrintAll(c.items)| && (c.end.Eof? ==> EndsWell(c.items, c.arrived))
  }

  /** The bytes that reached the client. */
  function Bytes(c: Connection): (s: string)
  {
    if c.arrived <= |PrintAll(c.items)| then PrintAll(c.items)[..c.arrived] else PrintAll(c.items)
  }

  function Received(c: Connection): (fs: seq<Frame>)
  {
    Parse(Bytes(c), c.end)
  }

  lemma {:induction false} IdentifiedAppend(a: seq<Frame>, b: seq<Frame>)
    ensures Identified(a + b) == Identified(a) + Identified(b)
  {
    if a == [] {
      assert a + b == b;
    } else {
      assert (a + b)[1..] == a[1..] + b;
      IdentifiedAppend(a[1..], b);
    }
  }

  /** The frames with an id handed on at a clean end are ones the server printed exactly
      when it ends well. */
  lemma {:induction false} EndsWellMeaning(items: seq<Item>, n: nat)
    requires AllPrintable(items) && n <= |PrintAll(items)|
    ensures Identified(Parse(PrintAll(items)[..n], Eof)) <= Identified(Frames(items)) <==> EndsWell(items, n)
  {
    var k, m := Arrived(items, n), Into(items, n);
    CleanEnd(items, n);
    FramesAround(items, k);
    if CutsFrame(items, n) {
      assert items[k] in items;
      SeenMeaning(items[k].frame, m);
      LastFrame(Frames(items[..k]), items[k].frame, Frames(items[k + 1..]), Frames(items), Seen(items[k].frame, m));
    } else {
      assert Frames(items[..k]) + [] == Frames(items[..k]);
      IdentifiedPrefix(Frames(items[..k]), Frames(items));
    }
  }

  lemma {:induction false} LastFrame(a: seq<Frame>, f: Frame, b: seq<Frame>, all: seq<Frame>, g: Frame)
    requires all == a + [f] + b && (g.id != "" ==> f.id != "")
    ensures Identified(a + [g]) <= Identified(all) <==> g.id == "" || g == f
  {
    IdentifiedAppend(a, [g]);
    IdentifiedAppend(a + [f], b);
    IdentifiedAppend(a, [f]);
    if g.id != "" {
      OneMoreFrame(Identified(a), f, Identified(b), Identified(all), g);
    }
  }

  /** A stream that arrived to its end ends well. */
  lemma {:induction false} TheEndIsWell(items: seq<Item>)
    ensures EndsWell(items, |PrintAll(items)|)
  {
    AllArrived(items);
  }

  lemma {:induction false} AllArrived(items: seq<Item>)
    ensures Arrived(items, |PrintAll(items)|) == |items|
  {
    if items != [] {
      AllArrived(items[1..]);
    }
  }

  lemma {:induction false} IdentifiedPrefix(fs: seq<Frame>, gs: seq<Frame>)
    requires fs <= gs
    ensures Identified(fs) <= Identified(gs)
  {
    assert gs == fs + gs[|fs|..];
    IdentifiedAppend(fs, gs[|fs|..]);
  }

  /** What the handler's select found ready. */
  datatype Ready = EventReady | KeepaliveDue | SubscriptionFailed(json: string) | SubscriptionClosed(json: string) | ClientGone

  /** The handler returns on this. */
  predicate Ends(r: Ready)
  {
    r.SubscriptionFailed? || r.SubscriptionClosed? || r.ClientGone?
  }

  /** It returns at element e, or has dealt with all. */
  ghost predicate ReturnsAt(ready: seq<Ready>, e: nat)
  {
    e <= |ready| && (forall i :: 0 <= i < e ==> !Ends(ready[i])) && (e < |ready| ==> Ends(ready[e]))
  }

  function Min(a: nat, b: nat): (m: nat)
  {
    if a < b then a else b
  }

  /** How often an event, or a keepalive, was ready before element e. */
  function EventsReady(ready: seq<Ready>, e: nat): (n: nat)
    requires e <= |ready|
  {
    multiset(ready[..e])[EventReady]
  }

  function KeepalivesDue(ready: seq<Ready>, e: nat): (n: nat)
    requires e <= |ready|
  {
    multiset(ready[..e])[KeepaliveDue]
  }

  lemma {:induction false} OneMoreReady(ready: seq<Ready>, k: nat)
    requires k < |ready|
    ensures EventsReady(ready, k + 1) == EventsReady(ready, k) + if ready[k].EventReady? then 1 else 0
    ensures KeepalivesDue(ready, k + 1) == KeepalivesDue(ready, k) + if ready[k].KeepaliveDue? then 1 else 0
  {
    assert ready[..k + 1] == ready[..k] + [ready[k]];
  }

  /** The handler has written the frames of the first `sent` events. */
  ghost predicate Written(t: Topic, events: seq<Record>, sent: nat, items: seq<Item>)
  {
    sent <= |events| && AllPrintable(items) && Identified(Frames(items)) == ToFrames(t, events[..sent])
  }

  lemma {:induction false} WroteEvent(t: Topic, events: seq<Record>, sent: nat, items: seq<Item>)
    requires TopicOk(t) && Written(t, events, sent, items)
    requires sent < |events| && Value(events[sent].id) && events[sent].id != ""
    ensures Written(t, events, sent + 1, items + [Event(ToFrame(t, events[sent]))])
  {
    var f := ToFrame(t, events[sent]);
    FramesAppend(items, [Event(f)]);
    assert Frames([Event(f)]) == [f];
    IdentifiedAppend(Frames(items), [f]);
    assert Identified([f]) == [f];
  }

  lemma {:induction false} WroteOther(t: Topic, events: seq<Record>, sent: nat, items: seq<Item>, item: Item)
    requires Written(t, events, sent, items)
    requires item.Event? ==> item.frame.id == "" && Printable(item.frame)
    ensures Written(t, events, sent, items + [item])
  {
    FramesAppend(items, [item]);
    IdentifiedAppend(Frames(items), Frames([item]));
    assert [item][1..] == [] && Identified(Frames([item])) == [];
  }

  /** The frame an ended subscription leaves behind: writeSSEError's or
      writeGapMarker's. */
  function ClosingFrame(r: Ready): (f: Frame)
    requires r.SubscriptionFailed? || r.SubscriptionClosed?
  {
    Frame(if r.SubscriptionFailed? then "error" else "gap_marker", "", r.json)
  }

  lemma {:induction false} ClosingFrameIsPrintable(r: Ready)
    requires (r.SubscriptionFailed? || r.SubscriptionClosed?) && Value(r.json)
    ensures ClosingFrame(r).id == "" && Printable(ClosingFrame(r)) && ClosingFrame(r).data == r.json
    ensures if r.SubscriptionFailed? then ClosingFrame(r).event == "error" else ClosingFrame(r).event == "gap_marker"
  {
    LetterIsNotSpace('e');
    LetterIsNotSpace('r');
    LetterIsNotSpace('g');
  }

  /** Records have ids that fit on a line. */
  predicate HaveIds(events: seq<Record>)
  {
    forall r :: r in events ==> Value(r.id) && r.id != ""
  }

  /** The payload of a closing frame fits on a line. */
  predicate CloseCleanly(ready: seq<Ready>)
  {
    forall r :: r in ready && (r.SubscriptionFailed? || r.SubscriptionClosed?) ==> Value(r.json)
  }

  /** No frame without an id. */
  predicate OnlyIdentified(items: seq<Item>)
  {
    forall i :: 0 <= i < |items| && items[i].Event? ==> items[i].frame.id != ""
  }

  /** What was written for the first k elements, none of which ends the loop: as many
      events as were ready, as many keepalives as were due, nothing else. */
  ghost predicate Looped(t: Topic, events: seq<Record>, ready: seq<Ready>, k: nat, items: seq<Item>)
  {
    && k <= |ready| && (forall i :: 0 <= i < k ==> !Ends(ready[i]))
    && Written(t, events, Min(EventsReady(ready, k), |events|), items)
    && multiset(items)[Keepalive] == KeepalivesDue(ready, k) && OnlyIdentified(items)
  }

  lemma {:induction false} LoopedEvent(t: Topic, events: seq<Record>, ready: seq<Ready>, k: nat, items: seq<Item>)
    requires TopicOk(t) && HaveIds(events) && Looped(t, events, ready, k, items) && k < |ready| && ready[k].EventReady?
    ensures var sent := EventsReady(ready, k);
            && EventsReady(ready, k + 1) == sent + 1
            && Looped(t, events, ready, k + 1, if sent < |events| then items + [Event(ToFrame(t, events[sent]))] else items)
  {
    OneMoreReady(ready, k);
    var sent := EventsReady(ready, k);
    if sent < |events| {
      assert events[sent] in events;
      WroteEvent(t, events, sent, items);
    }
  }

  lemma {:induction false} LoopedKeepalive(t: Topic, events: seq<Record>, ready: seq<Ready>, k: nat, items: seq<Item>)
    requires Looped(t, events, ready, k, items) && k < |ready| && ready[k].KeepaliveDue?
    ensures EventsReady(ready, k + 1) == EventsReady(ready, k) && Looped(t, events, ready, k + 1, items + [Keepalive])
  {
    OneMoreReady(ready, k);
    WroteOther(t, events, Min(EventsReady(ready, k), |events|), items, Keepalive);
  }

  /** What the handler has written when it returns at element e: the frames of as many
      events as were ready before, keepalives as they were due, and at the very end an
      error or a gap marker if the subscription failed or closed. */
  ghost predicate WroteAll(t: Topic, events: seq<Record>, ready: seq<Ready>, e: nat, items: seq<Item>)
    requires e <= |ready|
  {
    && AllPrintable(items)
    && Identified(Frames(items)) == ToFrames(t, events[..Min(EventsReady(ready, e), |events|)])
    && multiset(items)[Keepalive] == KeepalivesDue(ready, e)
    && if e < |ready| && (ready[e].SubscriptionFailed? || ready[e].SubscriptionClosed?)
       then items != [] && OnlyIdentified(items[..|items| - 1])
            && items[|items| - 1] == Event(Frame(if ready[e].SubscriptionFailed? then "error" else "gap_marker", "", ready[e].json))
       else OnlyIdentified(items)
  }

  lemma {:induction false} LoopedClosing(t: Topic, events: seq<Record>, ready: seq<Ready>, k: nat, items: seq<Item>)
    requires Looped(t, events, ready, k, items) && k < |ready| && CloseCleanly(ready)
    requires ready[k].SubscriptionFailed? || ready[k].SubscriptionClosed?
    ensures WroteAll(t, events, ready, k, items + [Event(ClosingFrame(ready[k]))])
  {
    var closing := Event(ClosingFrame(ready[k]));
    ClosingFrameIsPrintable(ready[k]);
    WroteOther(t, events, Min(EventsReady(ready, k), |events|), items, closing);
    assert (items + [closing])[..|items|] == items;
  }

  /** handleWatchHistoryStream's loop, whatever becomes ready in whatever order. */
  method HandleWatch(t: Topic, events: seq<Record>, ready: seq<Ready>) returns (items: seq<Item>, ghost e: nat)
    requires TopicOk(t) && HaveIds(events) && CloseCleanly(ready)
    ensures ReturnsAt(ready, e) && WroteAll(t, events, ready, e, items)
  {
    items := [];
    var sent := 0;
    for k := 0 to |ready|
      invariant Looped(t, events, ready, k, items) && sent == Min(EventsReady(ready, k), |events|)
    {
      match ready[k] {
        case ClientGone =>
          e := k;
          return;
        case EventReady =>
          LoopedEvent(t, events, ready, k, items);
          if sent < |events| {
            items := items + [Event(ToFrame(t, events[sent]))];
            sent := sent + 1;
          }
        case KeepaliveDue =>
          LoopedKeepalive(t, events, ready, k, items);
          items := items + [Keepalive];
        case _ =>
          LoopedClosing(t, events, ready, k, items);
          items := items + [Event(ClosingFrame(ready[k]))];
          e := k;
          return;
      }
    }
    e := |ready|;
  }

  /** Before the handler returns, at least n events become ready. */
  ghost predicate Thorough(ready: seq<Ready>, n: nat)
  {
    exists e :: ReturnsAt(ready, e) && EventsReady(ready, e) >= n
  }

  lemma {:induction false} ReturnsOnce(ready: seq<Ready>, d: nat, e: nat)
    requires ReturnsAt(ready, d) && ReturnsAt(ready, e)
    ensures d == e
  {}

  /** The log a subscription can rely on, and what of it is still there. */
  ghost predicate LogOk(log: seq<Message>, base: nat, live: nat, lastID: string)
  {
    && UniqueLog(log) && base <= |log| && live <= |log|
    && (forall i :: 0 <= i < |log| && log[i].Stored? ==> Value(log[i].record.id))
    && (forall k :: 0 <= k < base && log[k].Stored? ==> log[k].record.id != lastID)
  }

  /** One request: subscribe behind the Last-Event-ID, or live without one, and write
      what becomes ready; the bytes stop after `cut`, or at the end, one way or the
      other.  This is how the server comes to serve a connection. */
  method ServeConnection(
    t: Topic, log: seq<Message>, base: nat, live: nat, lastID: string, ready: seq<Ready>, cut: nat, end: End)
    returns (c: Connection)
    requires TopicOk(t) && LogOk(log, base, live, lastID) && CloseCleanly(ready)
    ensures Served(t, c, lastID) <==> (end.Eof? ==> EndsWell(c.items, c.arrived))
    ensures c.log == log && c.end == end && c.arrived == if cut < |PrintAll(c.items)| then cut else |PrintAll(c.items)|
    ensures Start(c, lastID) <= |log| && (Thorough(ready, |log|) && c.arrived == |PrintAll(c.items)| ==> DeliversAll(t, c, lastID))
  {
    var start := if lastID == "" then live else base;
    var events := Watch(t.filter, log[start..], lastID);
    DueHasIds(t.filter, log, start, lastID);
    assert log[start..][0..] == log[start..];
    var items;
    ghost var e;
    items, e := HandleWatch(t, events, ready);
    var bytes := |PrintAll(items)|;
    c := Connection(log, base, live, items, if cut < bytes then cut else bytes, end);
    WroteIsServed(t, c, lastID, ready, e, events);
    DueIsShorter(t.filter, log, start, lastID);
    if Thorough(ready, |log|) && c.arrived == bytes {
      HadTime(t, events, ready, e, c, |log|);
    }
  }

  lemma {:induction false} WroteIsServed(
    t: Topic, c: Connection, lastID: string, ready: seq<Ready>, e: nat, events: seq<Record>)
    requires LogOk(c.log, c.base, c.live, lastID) && events == Due(t.filter, c.log, Start(c, lastID), lastID)
    requires e <= |ready| && WroteAll(t, events, ready, e, c.items) && c.arrived <= |PrintAll(c.items)|
    ensures Served(t, c, lastID) <==> (c.end.Eof? ==> EndsWell(c.items, c.arrived))
  {
    FirstEvents(t, events, Min(EventsReady(ready, e), |events|));
  }

  lemma {:induction false} HadTime(t: Topic, events: seq<Record>, ready: seq<Ready>, e: nat, c: Connection, n: nat)
    requires ReturnsAt(ready, e) && WroteAll(t, events, ready, e, c.items) && Thorough(ready, n) && |events| <= n
    requires c.arrived == |PrintAll(c.items)|
    ensures Identified(Received(c)) == ToFrames(t, events)
  {
    var d :| ReturnsAt(ready, d) && EventsReady(ready, d) >= n;
    ReturnsOnce(ready, d, e);
    assert events[..|events|] == events;
    UncutIsAllReceived(c);
  }

  /** Everything due on the connection reached the client. */
  ghost predicate DeliversAll(t: Topic, c: Connection, lastID: string)
    requires Start(c, lastID) <= |c.log|
  {
    Identified(Received(c)) == ToFrames(t, Due(t.filter, c.log, Start(c, lastID), lastID))
  }

  lemma {:induction false} UncutIsAllReceived(c: Connection)
    requires AllPrintable(c.items) && c.arrived == |PrintAll(c.items)|
    ensures Received(c) == Frames(c.items)
  {
    assert PrintAll(c.items)[..c.arrived] == PrintAll(c.items);
    ParsePrinted(c.items, c.end);
  }

  lemma {:induction false} DueIsShorter(f: Filter, log: seq<Message>, start: nat, cursor: string)
    requires start <= |log|
    ensures |Due(f, log, start, cursor)| <= |log|
  {
    var b := DueSuffix(f, log, start, cursor);
    DecodeIsShorter(f, log);
    SelectIsShorter(f, Decode(f, log)[b..]);
  }

  lemma {:induction false} DecodeIsShorter(f: Filter, log: seq<Message>)
    ensures |Decode(f, log)| <= |log|
  {
    if log != [] {
      DecodeIsShorter(f, log[1..]);
    }
  }

  lemma {:induction false} SelectIsShorter(f: Filter, rs: seq<Record>)
    ensures |Select(f, rs)| <= |rs|
  {
    if rs != [] {
      SelectIsShorter(f, rs[1..]);
    }
  }

  lemma {:induction false} FirstEvents(t: Topic, events: seq<Record>, n: nat)
    requires n <= |events|
    ensures ToFrames(t, events[..n]) <= ToFrames(t, events)
  {}

  lemma {:induction false} DueHasIds(f: Filter, log: seq<Message>, start: nat, cursor: string)
    requires start <= |log| && UniqueLog(log)
    requires forall i :: 0 <= i < |log| && log[i].Stored? ==> Value(log[i].record.id)
    ensures HaveIds(Due(f, log, start, cursor))
  {
    var due := Due(f, log, start, cursor);
    var b := DueSuffix(f, log, start, cursor);
    forall i | 0 <= i < |due| ensures Value(due[i].id) && due[i].id != "" {
      var j := SelectedFrom(f, Decode(f, log)[b..], i);
      var k := DecodedFrom(f, log, b + j);
    }
  }

  /** Over the wire, the client gets the first so many of the records due. */
  lemma {:induction false} ReceivesAPrefix(t: Topic, c: Connection, lastID: string)
    requires TopicOk(t) && Served(t, c, lastID)
    ensures Identified(Received(c)) <= ToFrames(t, Due(t.filter, c.log, Start(c, lastID), lastID))
  {
    if c.end.Eof? {
      EndsWellMeaning(c.items, c.arrived);
    } else {
      var k := Arrived(c.items, c.arrived);
      ParseBroken(c.items, c.arrived);
      FramesAround(c.items, k);
      IdentifiedPrefix(Frames(c.items[..k]), Frames(c.items));
    }
  }

  // ----- The client across connections

  /** pipeFrames' bookkeeping: the id to resume from is the last one seen. */
  function LastId(lastID: string, fs: seq<Frame>): (id: string)
    decreases fs
  {
    if fs == [] then lastID else LastId(if fs[0].id != "" then fs[0].id else lastID, fs[1..])
  }

  lemma {:induction false} LastIdIsIdentified(lastID: string, fs: seq<Frame>)
    ensures LastId(lastID, fs) == if Identified(fs) == [] then lastID else Identified(fs)[|Identified(fs)| - 1].id
    decreases fs
  {
    if fs != [] {
      LastIdIsIdentified(if fs[0].id != "" then fs[0].id else lastID, fs[1..]);
    }
  }

  /** Everything passed on so far and the id to resume from. */
  datatype Client = Client(out: seq<Frame>, lastID: string)

  /** A network answers connection k for a given Last-Event-ID. */
  type Network = (nat, string) -> Connection

  function Connect(c: Client, conn: Connection): (c': Client)
  {
    Client(c.out + Received(conn), LastId(c.lastID, Received(conn)))
  }

  function After(net: Network, seed: string, n: nat): (c: Client)
  {
    if n == 0 then Client([], seed)
    else var c := After(net, seed, n - 1); Connect(c, net(n - 1, c.lastID))
  }

  /** Connection k always ends on the same log, whatever was asked for, and the
      logs only grow. */
  ghost predicate Honest(t: Topic, net: Network, logs: nat -> seq<Message>)
  {
    && (forall k: nat, id: string :: Served(t, net(k, id), id) && net(k, id).log == logs(k))
    && (forall j: nat, k: nat :: j <= k ==> logs(j) <= logs(k))
  }

  /** What is due from anywhere is an end of the filtered stream. */
  lemma {:induction false} DueIsSuffix(f: Filter, log: seq<Message>, start: nat, cursor: string) returns (m: nat)
    requires start <= |log|
    ensures m <= |Matches(f, log)| && Due(f, log, start, cursor) == Matches(f, log)[m..]
  {
    var b := DueSuffix(f, log, start, cursor);
    m := SelectSuffix(f, Decode(f, log), b);
  }

  /** Identified frames received so far are the records [a, b) of the filtered
      stream, and the client will ask for what follows. */
  ghost predicate Caught(t: Topic, c: Client, log: seq<Message>, a: nat, b: nat)
  {
    var all := Matches(t.filter, log);
    && a <= b <= |all| && 0 < b
    && Identified(c.out) == ToFrames(t, all[a..b])
    && c.lastID == all[b - 1].id
  }

  lemma {:induction false} ToFramesSlice(t: Topic, all: seq<Record>, a: nat, b: nat, fs: seq<Frame>)
    requires a <= b <= |all| && fs <= ToFrames(t, all[b..])
    ensures b + |fs| <= |all| && ToFrames(t, all[a..b]) + fs == ToFrames(t, all[a..b + |fs|])
    ensures fs != [] ==> fs[|fs| - 1].id == all[b + |fs| - 1].id
  {}

  /** What one connection adds when what is due on it is all[b..]. */
  lemma {:induction false} DeliverySlice(t: Topic, c: Client, conn: Connection, a: nat, b: nat) returns (b': nat)
    requires TopicOk(t) && Served(t, conn, c.lastID)
    requires a <= b <= |Matches(t.filter, conn.log)|
    requires Due(t.filter, conn.log, Start(conn, c.lastID), c.lastID) == Matches(t.filter, conn.log)[b..]
    requires Identified(c.out) == ToFrames(t, Matches(t.filter, conn.log)[a..b])
    ensures b <= b' <= |Matches(t.filter, conn.log)|
    ensures Identified(Connect(c, conn).out) == ToFrames(t, Matches(t.filter, conn.log)[a..b'])
    ensures Connect(c, conn).lastID == if b' == b then c.lastID else Matches(t.filter, conn.log)[b' - 1].id
    ensures DeliversAll(t, conn, c.lastID) ==> b' == |Matches(t.filter, conn.log)|
  {
    ReceivesAPrefix(t, conn, c.lastID);
    b' := SliceGrows(t, Matches(t.filter, conn.log), c, Received(conn), a, b);
  }

  lemma {:induction false} SliceGrows(t: Topic, all: seq<Record>, c: Client, received: seq<Frame>, a: nat, b: nat)
    returns (b': nat)
    requires a <= b <= |all| && Identified(received) <= ToFrames(t, all[b..])
             && Identified(c.out) == ToFrames(t, all[a..b])
    ensures b <= b' <= |all| && Identified(c.out + received) == ToFrames(t, all[a..b'])
    ensures LastId(c.lastID, received) == if b' == b then c.lastID else all[b' - 1].id
    ensures b' == b + |Identified(received)|
  {
    b' := b + |Identified(received)|;
    ToFramesSlice(t, all, a, b, Identified(received));
    assert Identified(c.out + received) == ToFrames(t, all[a..b']) by {
      IdentifiedAppend(c.out, received);
    }
    LastIdIsIdentified(c.lastID, received);
  }

  /** Resuming from the last delivered record, what is due is what follows it. */
  lemma {:induction false} NextDue(f: Filter, log: seq<Message>, b: nat, lastID: string, conn: Connection)
    requires log <= conn.log && UniqueLog(conn.log) && conn.base <= |conn.log|
    requires 0 < b <= |Matches(f, log)| && lastID == Matches(f, log)[b - 1].id
    requires forall k :: 0 <= k < conn.base && conn.log[k].Stored? ==> conn.log[k].record.id != lastID
    ensures Matches(f, log) <= Matches(f, conn.log) && lastID != ""
    ensures Due(f, conn.log, conn.base, lastID) == Matches(f, conn.log)[b..]
  {
    MatchesGrow(f, log, conn.log);
    NoCursorIsAll(f, log);
    NoCursorIsAll(f, conn.log);
    Resume(f, log, 0, "", b - 1, conn.log, conn.base);
    WantedHasId(f, conn.log, b - 1);
  }

  /** A connection after the first delivered record: it continues exactly where
      the last one stopped. */
  lemma {:induction false} CaughtContinues(t: Topic, c: Client, log: seq<Message>, a: nat, b: nat, conn: Connection)
    returns (b': nat)
    requires TopicOk(t) && Caught(t, c, log, a, b) && log <= conn.log && Served(t, conn, c.lastID)
    ensures b <= b' && Caught(t, Connect(c, conn), conn.log, a, b')
    ensures DeliversAll(t, conn, c.lastID) ==> b' == |Matches(t.filter, conn.log)|
  {
    NextDue(t.filter, log, b, c.lastID, conn);
    assert Matches(t.filter, log)[a..b] == Matches(t.filter, conn.log)[a..b];
    b' := DeliverySlice(t, c, conn, a, b);
  }

  lemma {:induction false} NoCursorIsAll(f: Filter, log: seq<Message>)
    ensures Due(f, log, 0, "") == Matches(f, log)
  {
    assert log[0..] == log;
  }

  lemma {:induction false} WantedHasId(f: Filter, log: seq<Message>, i: nat)
    requires UniqueLog(log) && i < |Matches(f, log)|
    ensures Matches(f, log)[i].id != ""
  {
    DecodeIsUnique(f, log);
    var j := SelectedFrom(f, Decode(f, log), i);
  }

  /** A connection before anything was delivered: it starts somewhere. */
  lemma {:induction false} FirstDelivery(t: Topic, c: Client, conn: Connection) returns (a: nat, b: nat)
    requires TopicOk(t) && Identified(c.out) == [] && Served(t, conn, c.lastID)
    ensures Identified(Connect(c, conn).out) == [] ==> Connect(c, conn).lastID == c.lastID
    ensures Identified(Connect(c, conn).out) != [] ==> a < b && Caught(t, Connect(c, conn), conn.log, a, b)
    ensures DeliversAll(t, conn, c.lastID) ==> b == |Matches(t.filter, conn.log)|
  {
    a := DueIsSuffix(t.filter, conn.log, Start(conn, c.lastID), c.lastID);
    b := DeliverySlice(t, c, conn, a, a);
  }

  /** From the first delivered record on: a contiguous run [a, b) of the filtered
      stream.  Until then: still asking for the seed. */
  ghost predicate Progress(t: Topic, c: Client, log: seq<Message>, seed: string, a: nat, b: nat)
  {
    if Identified(c.out) == [] then c.lastID == seed else a < b && Caught(t, c, log, a, b)
  }

  lemma {:induction false} ProgressContinues(t: Topic, c: Client, log: seq<Message>, seed: string, a: nat, b: nat,
    conn: Connection)
    returns (a': nat, b': nat)
    requires TopicOk(t) && Progress(t, c, log, seed, a, b) && log <= conn.log && Served(t, conn, c.lastID)
    ensures Progress(t, Connect(c, conn), conn.log, seed, a', b')
    ensures Identified(c.out) != [] ==> a' == a && b' >= b
    ensures DeliversAll(t, conn, c.lastID) ==> b' == |Matches(t.filter, conn.log)|
  {
    if Identified(c.out) == [] {
      a', b' := FirstDelivery(t, c, conn);
    } else {
      a' := a;
      b' := CaughtContinues(t, c, log, a, b, conn);
    }
  }

  lemma {:induction false} HonestAt(t: Topic, net: Network, logs: nat -> seq<Message>, k: nat, id: string)
    requires Honest(t, net, logs)
    ensures Served(t, net(k, id), id) && net(k, id).log == logs(k)
    ensures k > 0 ==> logs(k - 1) <= logs(k)
  {}

  /** Across any sequence of disconnects and reconnects, from the first delivered
      record on, the records delivered are a contiguous, in-order run of the
      filtered stream, none of them twice. */
  lemma {:induction false} DeliveredExactlyOnce(t: Topic, net: Network, logs: nat -> seq<Message>, seed: string, n: nat)
    returns (a: nat, b: nat)
    requires TopicOk(t) && Honest(t, net, logs) && n > 0
    ensures Progress(t, After(net, seed, n), logs(n - 1), seed, a, b)
    ensures NoneTwice(Identified(After(net, seed, n).out))
  {
    var before := After(net, seed, n - 1);
    HonestAt(t, net, logs, n - 1, before.lastID);
    var log := [];
    a, b := 0, 0;
    if n > 1 {
      a, b := DeliveredExactlyOnce(t, net, logs, seed, n - 1);
      log := logs(n - 2);
    }
    a, b := ProgressContinues(t, before, log, seed, a, b, net(n - 1, before.lastID));
    ProgressHasNoneTwice(t, After(net, seed, n), logs(n - 1), seed, a, b);
  }

  /** What is delivered is the record as sent: the topic's name, the record's id and its
      encoding. */
  lemma {:induction false} DeliveredAsSent(t: Topic, c: Client, log: seq<Message>, seed: string, a: nat, b: nat, i: nat)
    requires Progress(t, c, log, seed, a, b) && i < |Identified(c.out)|
    ensures a + i < b <= |Matches(t.filter, log)|
    ensures var f, r := Identified(c.out)[i], Matches(t.filter, log)[a + i];
            f.event == t.name && f.id == r.id && f.data == t.json(r) && Stored(r) in log && Fits(t.filter, r)
  {
    var all := Matches(t.filter, log);
    assert ToFrames(t, all[a..b])[i] == ToFrame(t, all[a + i]);
    assert all[a + i] in all;
    MatchesMeaning(t.filter, log, all[a + i]);
  }

  /** No id comes twice. */
  predicate NoneTwice(fs: seq<Frame>)
  {
    forall i, j :: 0 <= i < j < |fs| ==> fs[i].id != fs[j].id
  }

  lemma {:induction false} ProgressHasNoneTwice(t: Topic, c: Client, log: seq<Message>, seed: string, a: nat, b: nat)
    requires UniqueLog(log) && Progress(t, c, log, seed, a, b)
    ensures NoneTwice(Identified(c.out))
  {
    if Identified(c.out) != [] {
      var all := Matches(t.filter, log);
      DecodeIsUnique(t.filter, log);
      SelectIsUnique(t.filter, Decode(t.filter, log));
      assert forall i :: 0 <= i < b - a ==> ToFrames(t, all[a..b])[i].id == all[a + i].id;
    }
  }

  lemma {:induction false} SelectIsUnique(f: Filter, rs: seq<Record>)
    requires UniqueIds(rs)
    ensures UniqueIds(Select(f, rs))
  {
    if rs != [] {
      SelectIsUnique(f, rs[1..]);
      if Wanted(f, rs[0]) {
        forall i | 0 <= i < |Select(f, rs[1..])| ensures Select(f, rs[1..])[i].id != rs[0].id {
          LaterIdsDiffer(f, rs, i);
        }
      }
    }
  }

  /** What one connection finds on the server: the log by then, the oldest message
      kept for a given id, where a live subscription begins, what becomes ready, and
      where and how the bytes end. */
  datatype Occasion = Occasion(log: seq<Message>, base: string -> nat, live: nat, ready: seq<Ready>, cut: nat, end: End)

  /** The logs grow, and the record a client resumes from is kept. */
  ghost predicate OccasionsOk(os: seq<Occasion>)
  {
    && (forall k, id :: 0 <= k < |os| ==> LogOk(os[k].log, os[k].base(id), os[k].live, id))
    && (forall k :: 0 <= k < |os| ==> CloseCleanly(os[k].ready))
    && (forall j, k :: 0 <= j <= k < |os| ==> os[j].log <= os[k].log)
  }

  /** Every clean end was one that ends well. */
  ghost predicate AllEndWell(cs: seq<Connection>)
  {
    forall k :: 0 <= k < |cs| && cs[k].end.Eof? ==> EndsWell(cs[k].items, cs[k].arrived)
  }

  /** One turn of server and client: a request, what comes of it, and what the client
      makes of that. */
  method ConnectOnce(t: Topic, o: Occasion, c: Client) returns (c': Client, ghost conn: Connection)
    requires TopicOk(t) && LogOk(o.log, o.base(c.lastID), o.live, c.lastID) && CloseCleanly(o.ready)
    ensures c' == Connect(c, conn) && TakenFrom(conn, o)
    ensures Served(t, conn, c.lastID) <==> (conn.end.Eof? ==> EndsWell(conn.items, conn.arrived))
    ensures Start(conn, c.lastID) <= |conn.log| && (HadItAll(o, conn) ==> DeliversAll(t, conn, c.lastID))
  {
    var conn' := ServeConnection(t, o.log, o.base(c.lastID), o.live, c.lastID, o.ready, o.cut, o.end);
    conn := conn';
    c' := TakeConnection(c, conn');
  }

  /** The handler was given time to write everything, and all it wrote arrived. */
  ghost predicate HadItAll(o: Occasion, conn: Connection)
  {
    Thorough(o.ready, |o.log|) && conn.arrived == |PrintAll(conn.items)|
  }

  /** The connections made so far are those of the first occasions. */
  ghost predicate AllTaken(conns: seq<Connection>, os: seq<Occasion>)
  {
    |conns| <= |os| && forall k :: 0 <= k < |conns| ==> TakenFrom(conns[k], os[k])
  }

  /** Where every clean end so far ended well, there is progress. */
  ghost predicate SoFar(t: Topic, conns: seq<Connection>, c: Client, log: seq<Message>, seed: string, a: nat, b: nat)
  {
    AllEndWell(conns) ==> Progress(t, c, log, seed, a, b)
  }

  lemma {:induction false} OneMoreConnection(
    t: Topic, conns: seq<Connection>, c: Client, log: seq<Message>, seed: string, a: nat, b: nat, conn: Connection)
    returns (a': nat, b': nat)
    requires TopicOk(t) && SoFar(t, conns, c, log, seed, a, b) && log <= conn.log
    requires (conn.end.Eof? ==> EndsWell(conn.items, conn.arrived)) ==> Served(t, conn, c.lastID)
    requires Start(conn, c.lastID) <= |conn.log|
    ensures SoFar(t, conns + [conn], Connect(c, conn), conn.log, seed, a', b')
    ensures AllEndWell(conns + [conn]) && DeliversAll(t, conn, c.lastID) ==> b' == |Matches(t.filter, conn.log)|
  {
    EndsWellSoFar(conns, conn);
    a', b' := a, b;
    if AllEndWell(conns + [conn]) {
      a', b' := ProgressContinues(t, c, log, seed, a, b, conn);
    }
  }

  /** What holds after k turns. */
  ghost predicate Turned(
    t: Topic, os: seq<Occasion>, k: nat, c: Client, conns: seq<Connection>, log: seq<Message>, seed: string, a: nat, b: nat)
    requires k <= |os|
  {
    && |conns| == k && AllTaken(conns, os) && LastLog(os, k, log) && SoFar(t, conns, c, log, seed, a, b)
    && (k > 0 && AllEndWell(conns) && HadItAll(os[k - 1], conns[k - 1]) ==> b == |Matches(t.filter, log)|)
  }

  /** One turn more. */
  method TurnOnce(
    t: Topic, os: seq<Occasion>, k: nat, c: Client, ghost conns: seq<Connection>, ghost log: seq<Message>, ghost seed: string,
    ghost a: nat, ghost b: nat)
    returns (c': Client, ghost conn: Connection, ghost a': nat, ghost b': nat)
    requires TopicOk(t) && OccasionsOk(os) && k < |os| && Turned(t, os, k, c, conns, log, seed, a, b)
    ensures Turned(t, os, k + 1, c', conns + [conn], conn.log, seed, a', b')
  {
    OccasionAt(os, k, c.lastID);
    c', conn := ConnectOnce(t, os[k], c);
    a', b' := OneMoreConnection(t, conns, c, log, seed, a, b, conn);
    TakenOneMore(conns, os, conn);
  }

  /** End to end: the server's loops write, the connection is cut, the client's loops
      parse and remember, and the next request resumes; where every clean end ends
      well, what the client has passed on by the end is a contiguous run of the
      filtered stream, none of it twice; and it reaches to the end of the stream if the
      last connection had it all. */
  method WatchThrough(t: Topic, os: seq<Occasion>, seed: string)
    returns (c: Client, ghost conns: seq<Connection>, ghost a: nat, ghost b: nat)
    requires TopicOk(t) && OccasionsOk(os) && os != []
    ensures |conns| == |os| && AllTaken(conns, os)
    ensures AllEndWell(conns) ==> Progress(t, c, os[|os| - 1].log, seed, a, b) && NoneTwice(Identified(c.out))
    ensures AllEndWell(conns) && HadItAll(os[|os| - 1], conns[|os| - 1]) ==> b == |Matches(t.filter, os[|os| - 1].log)|
  {
    c, conns, a, b := Client([], seed), [], 0, 0;
    ghost var log: seq<Message> := [];
    for k := 0 to |os|
      invariant Turned(t, os, k, c, conns, log, seed, a, b)
    {
      ghost var conn;
      c, conn, a, b := TurnOnce(t, os, k, c, conns, log, seed, a, b);
      conns, log := conns + [conn], conn.log;
    }
    OccasionAt(os, |os| - 1, "");
    if AllEndWell(conns) {
      ProgressHasNoneTwice(t, c, log, seed, a, b);
    }
  }

  /** The log the last connection ended on. */
  predicate LastLog(os: seq<Occasion>, k: nat, log: seq<Message>)
    requires k <= |os|
  {
    log == if k == 0 then [] else os[k - 1].log
  }

  lemma {:induction false} OccasionAt(os: seq<Occasion>, k: nat, id: string)
    requires OccasionsOk(os) && k < |os|
    ensures LogOk(os[k].log, os[k].base(id), os[k].live, id) && CloseCleanly(os[k].ready) && UniqueLog(os[k].log)
    ensures k > 0 ==> os[k - 1].log <= os[k].log
  {}

  lemma {:induction false} TakenOneMore(conns: seq<Connection>, os: seq<Occasion>, conn: Connection)
    requires AllTaken(conns, os) && |conns| < |os| && TakenFrom(conn, os[|conns|])
    ensures AllTaken(conns + [conn], os) && LastLog(os, |conns| + 1, conn.log)
  {}

  /** The connection a request made of the occasion. */
  predicate TakenFrom(c: Connection, o: Occasion)
  {
    c.log == o.log && c.end == o.end && c.arrived == if o.cut < |PrintAll(c.items)| then o.cut else |PrintAll(c.items)|
  }

  lemma {:induction false} EndsWellSoFar(cs: seq<Connection>, c: Connection)
    ensures AllEndWell(cs + [c]) <==> AllEndWell(cs) && (c.end.Eof? ==> EndsWell(c.items, c.arrived))
  {
    var all := cs + [c];
    assert all[|cs|] == c && forall k :: 0 <= k < |cs| ==> all[k] == cs[k];
  }

  /** The client's side of one connection. */
  method TakeConnection(c: Client, conn: Connection) returns (c': Client)
    ensures c' == Connect(c, conn)
  {
    var frames := ParseSSE(Bytes(conn), conn.end);
    var lastID := PipeFrames(frames, c.lastID);
    c' := Client(c.out + frames, lastID);
  }

  /** Seeded with the id of a wanted record, the run starts with the very next. */
  lemma {:induction false} SeedIsResumed(t: Topic, net: Network, logs: nat -> seq<Message>, past: seq<Message>, i: nat,
    n: nat)
    returns (b: nat)
    requires TopicOk(t) && Honest(t, net, logs) && n > 0
    requires past <= logs(0) && i < |Matches(t.filter, past)|
    ensures Caught(t, After(net, Matches(t.filter, past)[i].id, n), logs(n - 1), i + 1, b)
  {
    SeedIsCaught(t, past, i);
    b := CaughtRun(t, net, logs, past, Matches(t.filter, past)[i].id, i + 1, n);
  }

  /** No record of the log has the id. */
  predicate Absent(log: seq<Message>, id: string)
  {
    forall i :: 0 <= i < |log| && log[i].Stored? ==> log[i].record.id != id
  }

  /** Asked to resume behind an id that is not there, the server has nothing to send. */
  lemma {:induction false} AbsentIsDeaf(t: Topic, c: Client, conn: Connection)
    requires TopicOk(t) && Served(t, conn, c.lastID) && c.lastID != "" && Absent(conn.log, c.lastID)
    ensures Identified(Connect(c, conn).out) == Identified(c.out) && Connect(c, conn).lastID == c.lastID
  {
    NothingBehindAbsent(t.filter, conn.log, conn.base, c.lastID);
    ReceivesAPrefix(t, conn, c.lastID);
    IdentifiedAppend(c.out, Received(conn));
    LastIdIsIdentified(c.lastID, Received(conn));
  }

  lemma {:induction false} NothingBehindAbsent(f: Filter, log: seq<Message>, start: nat, id: string)
    requires start <= |log| && id != "" && Absent(log, id)
    ensures Due(f, log, start, id) == []
  {
    var rs := Decode(f, log[start..]);
    forall i | 0 <= i < |rs| ensures rs[i].id != id {
      var j := DecodedFrom(f, log[start..], i);
      assert log[start..][j] == log[start + j];
    }
    SkipAll(rs, id);
  }

  lemma {:induction false} SkipAll(rs: seq<Record>, id: string)
    requires forall i :: 0 <= i < |rs| ==> rs[i].id != id
    ensures SkipThrough(rs, id) == []
  {
    if rs != [] {
      SkipAll(rs[1..], id);
    }
  }

  ghost predicate NeverThere(logs: nat -> seq<Message>, id: string)
  {
    forall k: nat :: Absent(logs(k), id)
  }

  lemma {:induction false} AbsentSeedIsDeaf(t: Topic, net: Network, logs: nat -> seq<Message>, seed: string, n: nat)
    requires TopicOk(t) && Honest(t, net, logs) && seed != "" && NeverThere(logs, seed)
    ensures Identified(After(net, seed, n).out) == [] && After(net, seed, n).lastID == seed
  {
    if n > 0 {
      AbsentSeedIsDeaf(t, net, logs, seed, n - 1);
      DeafStep(t, net, logs, n - 1, After(net, seed, n - 1));
    }
  }

  lemma {:induction false} DeafStep(t: Topic, net: Network, logs: nat -> seq<Message>, k: nat, c: Client)
    requires TopicOk(t) && Honest(t, net, logs) && c.lastID != "" && NeverThere(logs, c.lastID)
    ensures var c' := Connect(c, net(k, c.lastID)); Identified(c'.out) == Identified(c.out) && c'.lastID == c.lastID
  {
    HonestAt(t, net, logs, k, c.lastID);
    assert Absent(logs(k), c.lastID);
    AbsentIsDeaf(t, c, net(k, c.lastID));
  }

  /** Ids are of one length. */
  ghost predicate IdsOfLength(logs: nat -> seq<Message>, len: nat)
  {
    forall k: nat, i :: 0 <= i < |logs(k)| && logs(k)[i].Stored? ==> |logs(k)[i].record.id| == len
  }

  /** A clean end inside the id of a record's frame: the client goes on from an id that
      no record has, and never hears of a record again. */
  lemma {:induction false} CutInIdIsDeaf(t: Topic, r: Record, cut: nat, was: string, net: Network,
    logs: nat -> seq<Message>, n: nat)
    returns (seed: string)
    requires TopicOk(t) && Honest(t, net, logs) && IdsOfLength(logs, |r.id|) && Value(r.id)
    requires EventEnd(ToFrame(t, r)) + |Key(IdLine)| < cut < EventEnd(ToFrame(t, r)) + |Key(IdLine)| + |r.id|
    ensures cut < |Print(Event(ToFrame(t, r)))| && seed == LastId(was, Parse(Print(Event(ToFrame(t, r)))[..cut], Eof))
    ensures seed != r.id && Identified(After(net, seed, n).out) == [] && After(net, seed, n).lastID == seed
  {
    seed := EofInIdInventsAnId(ToFrame(t, r), cut);
    LastIdIsIdentified(was, [Frame(t.name, seed, "")]);
    AbsentSeedIsDeaf(t, net, logs, seed, n);
  }

  /** A client that has caught up stays so, connection after connection. */
  lemma {:induction false} CaughtRun(t: Topic, net: Network, logs: nat -> seq<Message>, past: seq<Message>,
    seed: string, a: nat, n: nat)
    returns (b: nat)
    requires TopicOk(t) && Honest(t, net, logs) && n > 0
    requires past <= logs(0) && Caught(t, Client([], seed), past, a, a)
    ensures Caught(t, After(net, seed, n), logs(n - 1), a, b)
  {
    var before := After(net, seed, n - 1);
    HonestAt(t, net, logs, n - 1, before.lastID);
    if n == 1 {
      b := CaughtContinues(t, before, past, a, a, net(0, before.lastID));
    } else {
      b := CaughtRun(t, net, logs, past, seed, a, n - 1);
      b := CaughtContinues(t, before, logs(n - 2), a, b, net(n - 1, before.lastID));
    }
  }

  lemma {:induction false} SeedIsCaught(t: Topic, log: seq<Message>, i: nat)
    requires i < |Matches(t.filter, log)|
    ensures Caught(t, Client([], Matches(t.filter, log)[i].id), log, i + 1, i + 1)
  {
    assert Matches(t.filter, log)[i + 1..i + 1] == [];
  }

  // ----- The reconnect loop

  /** Delays are in nanoseconds; a base of zero asks for the defaults. */
  datatype Policy = Policy(base: nat, factor: real, cap: int, maxAttempts: int)

  const DEFAULT_POLICY := Policy(250_000_000, 2.0, 10_000_000_000, 30)

  function Effective(p: Policy): (q: Policy)
    ensures q.base > 0
  {
    if p.base == 0 then DEFAULT_POLICY else p
  }

  /** time.Duration of a product: truncated towards zero. */
  function Scaled(d: int, factor: real): (e: int)
  {
    var x := d as real * factor;
    if x >= 0.0 then x.Floor else -((-x).Floor)
  }

  lemma {:induction false} ScaledGrows(d: int, factor: real)
    ensures d > 0 ==> (Scaled(d, factor) >= d <==> factor >= 1.0)
  {
    if d > 0 {
      Surplus(d as real, factor);
    }
  }

  lemma {:induction false} Surplus(x: real, factor: real)
    requires x > 0.0
    ensures x * factor >= x <==> factor >= 1.0
  {
    assert x * factor == x + x * (factor - 1.0);
    SignOfProduct(x, factor - 1.0);
  }

  lemma {:induction false} SignOfProduct(x: real, y: real)
    requires x > 0.0
    ensures x * y >= 0.0 <==> y >= 0.0
  {
    if y < 0.0 {
      assert x * y < 0.0;
    }
  }

  function NextDelay(p: Policy, d: int): (e: int)
    ensures e <= p.cap
    ensures d > 0 ==> (e >= d <==> p.factor >= 1.0 && d <= p.cap)
  {
    ScaledGrows(d, p.factor);
    if Scaled(d, p.factor) > p.cap then p.cap else Scaled(d, p.factor)
  }

  /** The wait before reconnect number k, counted from zero. */
  function Backoff(p: Policy, k: nat): (d: int)
  {
    if k == 0 then p.base else NextDelay(p, Backoff(p, k - 1))
  }

  /** Every wait but the first is at most the cap. */
  lemma {:induction false} BackoffIsBounded(p: Policy, k: nat)
    requires k > 0
    ensures Backoff(p, k) <= p.cap
  {}

  function Power(f: nat, k: nat): (n: nat)
  {
    if k == 0 then 1 else f * Power(f, k - 1)
  }

  lemma {:induction false} ScaledByWhole(d: int, f: nat)
    requires d >= 0
    ensures Scaled(d, f as real) == d * f
  {
    assert (d * f) as real == d as real * f as real;
  }

  /** With a whole factor the waits are the base times its powers, up to the cap: with
      the defaults a quarter of a second, half, one, two, four and eight, then ten. */
  lemma {:induction false} WaitsArePowers(p: Policy, f: nat, k: nat)
    requires f > 0 && p.factor == f as real && 0 < p.base <= p.cap
    ensures Backoff(p, k) == if p.base * Power(f, k) < p.cap then p.base * Power(f, k) else p.cap
  {
    if k > 0 {
      WaitsArePowers(p, f, k - 1);
      var d, x := Backoff(p, k - 1), p.base * Power(f, k - 1);
      ScaledByWhole(d, f);
      assert p.base * Power(f, k) == x * f by { MulShift(p.base, f, Power(f, k - 1)); }
      MulGrows(x, p.cap, f);
    }
  }

  lemma {:induction false} MulShift(a: nat, f: nat, b: nat)
    ensures a * (f * b) == a * b * f
  {}

  lemma {:induction false} MulGrows(x: int, c: int, f: nat)
    requires f > 0 && c > 0
    ensures c * f >= c && (x >= c ==> x * f >= c)
  {
    assert c * f - c == c * (f - 1);
    if x >= c {
      assert x * f - c * f == (x - c) * f;
    }
  }

  lemma {:induction false} DefaultsInForce(p: Policy)
    requires p.base == 0
    ensures var q := Effective(p); q.base == 250_000_000 && q.factor == 2.0 && q.cap == 10_000_000_000 && q.maxAttempts == 30
  {}

  ghost predicate WaitsNeverShrink(p: Policy)
  {
    forall k: nat, l: nat :: k <= l ==> Backoff(p, k) <= Backoff(p, l)
  }

  /** Waits never shrink if and only if the factor in force is at least one and the
      first wait at most the cap. */
  lemma {:induction false} NeverShrinkMeaning(policy: Policy)
    ensures var p := Effective(policy); WaitsNeverShrink(p) <==> p.factor >= 1.0 && p.base <= p.cap
  {
    var p := Effective(policy);
    if p.factor >= 1.0 && p.base <= p.cap {
      forall k: nat, l: nat | k <= l ensures Backoff(p, k) <= Backoff(p, l) {
        Climbs(p, k, l);
      }
    } else {
      assert Backoff(p, 1) == NextDelay(p, Backoff(p, 0));
      assert Backoff(p, 1) < Backoff(p, 0);
    }
  }

  lemma {:induction false} Climbs(p: Policy, k: nat, l: nat)
    requires k <= l && p.base > 0 && p.factor >= 1.0 && p.base <= p.cap
    ensures 0 < Backoff(p, k) <= Backoff(p, l) <= p.cap
    decreases l
  {
    if k < l {
      Climbs(p, k, l - 1);
    } else if k > 0 {
      Climbs(p, k - 1, k - 1);
    }
  }

  /** The first n waits. */
  function Waits(p: Policy, n: nat): (ds: seq<int>)
    ensures |ds| == n && forall k :: 0 <= k < n ==> ds[k] == Backoff(p, k)
  {
    if n == 0 then [] else Waits(p, n - 1) + [Backoff(p, n - 1)]
  }

  method Grow(p: Policy, delay0: int) returns (delay: int)
    ensures delay == NextDelay(p, delay0)
  {
    delay := Scaled(delay0, p.factor);
    if delay > p.cap {
      delay := p.cap;
    }
  }

  predicate IsAfter(net: Network, seed: string, n: nat, c: Client)
  {
    c == After(net, seed, n)
  }

  /** Tail: connect, pass frames on, remember the last id, wait, try again, until
      the caller cancels (here after `lifetime` connections) or the ceiling is
      exceeded.  Neither the attempt count nor the wait is ever reset. */
  method Tail(net: Network, seed: string, policy: Policy, lifetime: nat)
    returns (c: Client, connections: nat, delays: seq<int>, exceeded: bool)
    ensures IsAfter(net, seed, connections, c)
    ensures connections == if Effective(policy).maxAttempts > 0 && Effective(policy).maxAttempts + 1 < lifetime
                           then Effective(policy).maxAttempts + 1 else lifetime
    ensures exceeded <==> 0 < Effective(policy).maxAttempts < connections
    ensures delays == Waits(Effective(policy), if exceeded then connections - 1 else connections)
  {
    var rp := Effective(policy);
    var delay: int := rp.base;
    c, connections, delays, exceeded := Client([], seed), 0, [], false;
    while connections < lifetime
      invariant connections <= lifetime
      invariant IsAfter(net, seed, connections, c)
      invariant (rp.maxAttempts > 0 ==> connections <= rp.maxAttempts) && !exceeded
      invariant delay == Backoff(rp, connections) && delays == Waits(rp, connections)
    {
      connections := connections + 1;
      c := OneConnection(net, seed, connections, c);
      if rp.maxAttempts > 0 && connections > rp.maxAttempts {
        exceeded := true;
        break;
      }
      delays := delays + [delay];
      delay := Grow(rp, delay);
    }
  }

  method OneConnection(net: Network, seed: string, n: nat, c: Client) returns (c': Client)
    requires n > 0 && IsAfter(net, seed, n - 1, c)
    ensures IsAfter(net, seed, n, c')
  {
    c' := TakeConnection(c, net(n - 1, c.lastID));
  }

  /** pipeFrames without the channel. */
  method PipeFrames(frames: seq<Frame>, lastID0: string) returns (lastID: string)
    ensures lastID == LastId(lastID0, frames)
  {
    lastID := lastID0;
    assert frames[0..] == frames;
    for i := 0 to |frames|
      invariant LastId(lastID, frames[i..]) == LastId(lastID0, frames)
    {
      assert frames[i..][1..] == frames[i + 1..];
      if frames[i].id != "" {
        lastID := frames[i].id;
      }
    }
  }
}
