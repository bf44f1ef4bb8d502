/**
  GET /v1/history (internal/history/query.go): one page assembled from however
  many fetches it takes, and the walk over pages by next_cursor.
 */
module HistoryQuery {
  import opened History
  import opened Options
  import opened Text

  datatype Query = Query(filter: Filter, limit: int, cursor: string)

  datatype Page = Page(events: seq<Record>, nextCursor: string, truncated: bool)

  /** What one Fetch returned. */
  datatype Fetched = Batch(msgs: seq<Message>) | TimedOut | Failed

  /** The answer, or the records collected before a fetch failed. */
  datatype Answer = Found(page: Page) | FetchError(partial: seq<Record>)

  const DEFAULT_LIMIT: nat := 1000

  function Limit(q: Query): (n: nat)
    ensures n > 0
    ensures q.limit > 0 ==> n == q.limit
    ensures q.limit <= 0 ==> n == 1000
  {
    if q.limit <= 0 then DEFAULT_LIMIT else q.limit
  }

  function Take<T>(n: nat, s: seq<T>): (t: seq<T>)
  {
    if |s| <= n then s else s[..n]
  }

  /** The page a stream of records due makes. */
  function PageOf(limit: nat, due: seq<Record>): (p: Page)
    requires limit > 0
    ensures p.events <= due && |p.events| <= limit
    ensures p.truncated <==> |due| >= limit
    ensures !p.truncated ==> p.events == due
    ensures p.events != [] ==> p.nextCursor == due[|p.events| - 1].id
    ensures p.events == [] ==> p.nextCursor == ""
  {
    var events := Take(limit, due);
    Page(events, if events == [] then "" else events[|events| - 1].id, |events| == limit)
  }

  // ----- One page

  /** The messages heard before the first fetch that came back with nothing. */
  function Heard(fetches: seq<Fetched>): (msgs: seq<Message>)
  {
    if fetches == [] || !fetches[0].Batch? || fetches[0].msgs == [] then []
    else fetches[0].msgs + Heard(fetches[1..])
  }

  /** Whether what ended the fetching was an error. */
  predicate EndsInError(fetches: seq<Fetched>)
  {
    && fetches != []
    && (fetches[0].Failed? || (fetches[0].Batch? && fetches[0].msgs != [] && EndsInError(fetches[1..])))
  }

  /** The reader in mid-stream: records due given whether the cursor is still
      being looked for. */
  function DueFrom(q: Query, seen: bool, msgs: seq<Message>): (out: seq<Record>)
  {
    Select(q.filter, if seen then Decode(q.filter, msgs) else SkipThrough(Decode(q.filter, msgs), q.cursor))
  }

  /** One message: what it adds, and whether the cursor has then been seen. */
  lemma {:induction false} DueStep(q: Query, seen: bool, m: Message, rest: seq<Message>)
    ensures DueFrom(q, seen, [m] + rest) ==
            if !Readable(q.filter, m) then DueFrom(q, seen, rest)
            else if !seen then DueFrom(q, m.record.id == q.cursor, rest)
            else if Wanted(q.filter, m.record) then [m.record] + DueFrom(q, true, rest)
            else DueFrom(q, true, rest)
  {
    assert ([m] + rest)[1..] == rest;
  }

  lemma {:induction false} FullOrFinal(limit: nat, events: seq<Record>, due: seq<Record>)
    requires limit > 0 && events <= due && |events| <= limit
    requires |events| < limit ==> events == due
    ensures PageOf(limit, due) == Page(events, if |events| > 0 then events[|events| - 1].id else "", |events| == limit)
  {
    assert |due| >= limit ==> due[..limit] == events;
  }

  /** A fetch with messages. */
  lemma {:induction false} HeardMore(fetches: seq<Fetched>, i: nat)
    requires i < |fetches| && fetches[i].Batch? && fetches[i].msgs != []
    ensures Heard(fetches[i..]) == fetches[i].msgs + Heard(fetches[i + 1..])
    ensures EndsInError(fetches[i..]) == EndsInError(fetches[i + 1..])
  {
    assert fetches[i..][1..] == fetches[i + 1..];
  }

  /** Everything due so far is on the page or still to be heard. */
  ghost predicate OnPage(q: Query, fetches: seq<Fetched>, i: nat, events: seq<Record>, seen: bool, due: seq<Record>)
    requires i <= |fetches|
  {
    && |events| <= Limit(q) && events <= due
    && (|events| < Limit(q) ==> events + DueFrom(q, seen, Heard(fetches[i..])) == due)
    && EndsInError(fetches) == EndsInError(fetches[i..])
  }

  /** A fetch that ends the loop. */
  lemma {:induction false} HeardAll(q: Query, fetches: seq<Fetched>, i: nat, events: seq<Record>, seen: bool,
    due: seq<Record>)
    requires i <= |fetches| && OnPage(q, fetches, i, events, seen, due) && |events| < Limit(q)
    requires i == |fetches| || !fetches[i].Batch? || fetches[i].msgs == []
    ensures events == due && (EndsInError(fetches) <==> i < |fetches| && fetches[i].Failed?)
  {
    assert Heard(fetches[i..]) == [];
    assert DueFrom(q, seen, []) == [];
  }

  function EventsOf(a: Answer): (events: seq<Record>)
  {
    match a case Found(page) => page.events case FetchError(partial) => partial
  }

  /** Every event was heard and fits the filter. */
  ghost predicate AllFit(q: Query, fetches: seq<Fetched>, events: seq<Record>)
  {
    forall r :: r in events ==> Stored(r) in Heard(fetches) && Fits(q.filter, r)
  }

  /** And everything heard that fits is among the events. */
  ghost predicate AllFound(q: Query, fetches: seq<Fetched>, events: seq<Record>)
  {
    forall r :: Stored(r) in Heard(fetches) && Fits(q.filter, r) ==> r in events
  }

  lemma {:induction false} EventsFit(q: Query, fetches: seq<Fetched>, due: seq<Record>, events: seq<Record>)
    requires due == DueFrom(q, q.cursor == "", Heard(fetches)) && events <= due
    ensures AllFit(q, fetches, events)
    ensures q.cursor == "" && events == due ==> AllFound(q, fetches, events)
  {
    var msgs := Heard(fetches);
    assert msgs[0..] == msgs && due == Due(q.filter, msgs, 0, q.cursor);
    forall r | r in events ensures Stored(r) in msgs && Fits(q.filter, r) {
      DueFits(q.filter, msgs, 0, q.cursor, r);
    }
    if q.cursor == "" && events == due {
      forall r | Stored(r) in msgs && Fits(q.filter, r) ensures r in events {
        MatchesMeaning(q.filter, msgs, r);
      }
    }
  }

  /** Fetching ends in an error exactly when a fetch failed and every one before it
      brought messages. */
  lemma {:induction false} EndsInErrorMeaning(fetches: seq<Fetched>)
    ensures EndsInError(fetches) <==>
            exists k :: 0 <= k < |fetches| && fetches[k].Failed?
                        && forall i :: 0 <= i < k ==> fetches[i].Batch? && fetches[i].msgs != []
  {
    if fetches != [] && fetches[0].Batch? && fetches[0].msgs != [] {
      var rest := fetches[1..];
      EndsInErrorMeaning(rest);
      if EndsInError(fetches) {
        var k :| 0 <= k < |rest| && rest[k].Failed? && forall i :: 0 <= i < k ==> rest[i].Batch? && rest[i].msgs != [];
        assert fetches[k + 1].Failed?;
        assert forall i :: 0 < i < k + 1 ==> fetches[i] == rest[i - 1];
      }
      if k :| 0 <= k < |fetches| && fetches[k].Failed? && forall i :: 0 <= i < k ==> fetches[i].Batch? && fetches[i].msgs != [] {
        assert rest[k - 1].Failed?;
        assert forall i :: 0 <= i < k - 1 ==> rest[i] == fetches[i + 1];
      }
    }
  }

  /** Run: fetch after fetch, message after message, until the page is full, a
      fetch comes back empty or one fails.  Whatever the fetches, the page is
      made of the first records due among the messages heard, and an error is
      returned only if the page was not full by then. */
  method Run(q: Query, fetches: seq<Fetched>) returns (answer: Answer)
    ensures var due := DueFrom(q, q.cursor == "", Heard(fetches));
            answer == if |due| < Limit(q) && EndsInError(fetches) then FetchError(due)
                      else Found(PageOf(Limit(q), due))
    ensures AllFit(q, fetches, EventsOf(answer))
    ensures q.cursor == "" && (answer.Found? ==> !answer.page.truncated) ==> AllFound(q, fetches, EventsOf(answer))
  {
    answer := Assemble(q, fetches);
    EventsFit(q, fetches, DueFrom(q, q.cursor == "", Heard(fetches)), EventsOf(answer));
  }

  /** The loop over the fetches. */
  method Assemble(q: Query, fetches: seq<Fetched>) returns (answer: Answer)
    ensures var due := DueFrom(q, q.cursor == "", Heard(fetches));
            answer == if |due| < Limit(q) && EndsInError(fetches) then FetchError(due)
                      else Found(PageOf(Limit(q), due))
  {
    var events: seq<Record>, cursorSeen := [], q.cursor == "";
    ghost var due := DueFrom(q, cursorSeen, Heard(fetches));
    var i: nat := 0;
    assert fetches[0..] == fetches;
    while |events| < Limit(q)
      invariant i <= |fetches| && OnPage(q, fetches, i, events, cursorSeen, due)
      decreases |fetches| - i
    {
      if i == |fetches| || !fetches[i].Batch? || fetches[i].msgs == [] {
        HeardAll(q, fetches, i, events, cursorSeen, due);
        if i < |fetches| && fetches[i].Failed? {
          return FetchError(events);
        }
        break;
      }
      events, cursorSeen := NextBatch(q, fetches, i, events, cursorSeen, due);
      i := i + 1;
    }
    FullOrFinal(Limit(q), events, due);
    answer := Found(Page(events, if |events| > 0 then events[|events| - 1].id else "", |events| == Limit(q)));
  }

  method NextBatch(q: Query, fetches: seq<Fetched>, i: nat, events0: seq<Record>, seen0: bool, ghost due: seq<Record>)
    returns (events: seq<Record>, seen: bool)
    requires i < |fetches| && fetches[i].Batch? && fetches[i].msgs != []
    requires OnPage(q, fetches, i, events0, seen0, due) && |events0| < Limit(q)
    ensures OnPage(q, fetches, i + 1, events, seen, due)
  {
    HeardMore(fetches, i);
    events, seen := Absorb(q, fetches[i].msgs, events0, seen0, Heard(fetches[i + 1..]), due);
  }

  lemma {:induction false} AbsorbStep(q: Query, seen: bool, m: Message, msgs: seq<Message>, rest: seq<Message>,
    events: seq<Record>, due: seq<Record>)
    requires msgs == [m] + rest && events + DueFrom(q, seen, msgs) == due
    ensures !Readable(q.filter, m) ==> events + DueFrom(q, seen, rest) == due
    ensures Readable(q.filter, m) && !seen ==> events + DueFrom(q, m.record.id == q.cursor, rest) == due
    ensures Readable(q.filter, m) && seen && !Wanted(q.filter, m.record) ==> events + DueFrom(q, true, rest) == due
    ensures Readable(q.filter, m) && seen && Wanted(q.filter, m.record)
            ==> events + [m.record] + DueFrom(q, true, rest) == due
  {
    DueStep(q, seen, m, rest);
    if Readable(q.filter, m) {
      AppendAssoc(events, [m.record], DueFrom(q, true, rest));
    }
  }

  /** The inner loop over one batch. */
  method Absorb(q: Query, msgs: seq<Message>, events0: seq<Record>, seen0: bool, ghost later: seq<Message>,
    ghost due: seq<Record>)
    returns (events: seq<Record>, seen: bool)
    requires |events0| < Limit(q) && events0 + DueFrom(q, seen0, msgs + later) == due
    ensures |events| <= Limit(q) && events <= due
    ensures |events| < Limit(q) ==> events + DueFrom(q, seen, later) == due
  {
    events, seen := events0, seen0;
    ghost var rest := msgs + later;
    for k := 0 to |msgs|
      invariant rest == msgs[k..] + later && |events| < Limit(q)
      invariant events + DueFrom(q, seen, rest) == due
    {
      var m := msgs[k];
      ghost var tail := msgs[k + 1..] + later;
      FirstOf(msgs, k, later);
      AbsorbStep(q, seen, m, rest, tail, events, due);
      rest := tail;
      if !Readable(q.filter, m) {
        continue;
      }
      var ev := m.record;
      if !seen {
        if ev.id == q.cursor {
          seen := true;
        }
        continue;
      }
      if !Wanted(q.filter, ev) {
        continue;
      }
      events := events + [ev];
      if |events| >= Limit(q) {
        return;
      }
    }
    assert rest == later;
  }

  lemma {:induction false} FirstOf(msgs: seq<Message>, k: nat, later: seq<Message>)
    requires k < |msgs|
    ensures msgs[k..] + later == [msgs[k]] + (msgs[k + 1..] + later)
  {}

  // ----- The split into fetches does not matter

  /** Fetches that hand out these messages in non-empty batches and then run dry. */
  ghost predicate Splits(fetches: seq<Fetched>, msgs: seq<Message>)
    decreases fetches
  {
    if msgs == [] then fetches == [] || fetches[0].TimedOut? || fetches[0] == Batch([])
    else && fetches != [] && fetches[0].Batch? && fetches[0].msgs != [] && fetches[0].msgs <= msgs
         && Splits(fetches[1..], msgs[|fetches[0].msgs|..])
  }

  /** However a stream is split into batches, Run answers with the first records
      due of the whole stream. */
  lemma {:induction false} AnySplitHearsAll(fetches: seq<Fetched>, msgs: seq<Message>)
    requires Splits(fetches, msgs)
    ensures Heard(fetches) == msgs && !EndsInError(fetches)
    decreases fetches
  {
    if msgs != [] {
      AnySplitHearsAll(fetches[1..], msgs[|fetches[0].msgs|..]);
    }
  }

  /** And what was heard before a fetch that failed or brought nothing counts, whatever
      would have come after. */
  lemma {:induction false} HeardUntilEnd(before: seq<Fetched>, msgs: seq<Message>, end: Fetched, after: seq<Fetched>)
    requires Splits(before, msgs) && forall i :: 0 <= i < |before| ==> before[i].Batch? && before[i].msgs != []
    requires end.Batch? ==> end.msgs == []
    ensures Heard(before + [end] + after) == msgs && (EndsInError(before + [end] + after) <==> end.Failed?)
    decreases before
  {
    var all := before + [end] + after;
    if before == [] {
      assert all[0] == end;
    } else {
      assert all[0] == before[0] && all[1..] == before[1..] + [end] + after;
      HeardUntilEnd(before[1..], msgs[|before[0].msgs|..], end, after);
    }
  }

  /** So Run answers with the page of what is due on the log. */
  lemma {:induction false} SplitsAnswerDue(q: Query, fetches: seq<Fetched>, log: seq<Message>, start: nat)
    requires start <= |log| && Splits(fetches, log[start..])
    ensures DueFrom(q, q.cursor == "", Heard(fetches)) == Due(q.filter, log, start, q.cursor) && !EndsInError(fetches)
  {
    AnySplitHearsAll(fetches, log[start..]);
  }

  // ----- The cut-off comes before the cursor

  /** The record may be read: it is not after the cut-off. */
  predicate InTime(f: Filter, r: Record)
  {
    f.until.Some? ==> r.time <= f.until.value
  }

  /** A cursor that names none of the records skips them all. */
  lemma {:induction false} SkipsAll(rs: seq<Record>, cursor: string)
    requires forall i :: 0 <= i < |rs| ==> rs[i].id != cursor
    ensures SkipThrough(rs, cursor) == []
  {
    if rs != [] {
      SkipsAll(rs[1..], cursor);
    }
  }

  lemma {:induction false} SkipsOthers(rs: seq<Record>, more: seq<Record>, cursor: string)
    requires cursor != "" && forall i :: 0 <= i < |rs| ==> rs[i].id != cursor
    ensures SkipThrough(rs + more, cursor) == SkipThrough(more, cursor)
  {
    RetentionIsHarmless(rs + more, |rs|, cursor);
    assert (rs + more)[|rs|..] == more;
  }

  /** None of the messages is the record with this id. */
  ghost predicate WithoutId(log: seq<Message>, id: string)
  {
    forall i :: 0 <= i < |log| && log[i].Stored? ==> log[i].record.id != id
  }

  lemma {:induction false} DecodedWithoutId(f: Filter, log: seq<Message>, id: string)
    requires WithoutId(log, id)
    ensures forall i :: 0 <= i < |Decode(f, log)| ==> Decode(f, log)[i].id != id
  {
    forall i | 0 <= i < |Decode(f, log)| ensures Decode(f, log)[i].id != id {
      var j := DecodedFrom(f, log, i);
    }
  }

  lemma {:induction false} IdIsElsewhere(a: seq<Message>, r: Record, b: seq<Message>)
    requires UniqueLog(a + [Stored(r)] + b)
    ensures r.id != "" && WithoutId(a, r.id) && WithoutId(b, r.id)
  {
    var log := a + [Stored(r)] + b;
    assert log[|a|] == Stored(r);
    forall i | 0 <= i < |a| ensures log[i] == a[i] {}
    forall i | 0 <= i < |b| ensures log[|a| + 1 + i] == b[i] {}
  }

  /** What a cursor that names a record of the log leads to: the matches behind it
      if it is in time, and nothing at all if it is not. */
  lemma {:induction false} DueAfterCursor(f: Filter, a: seq<Message>, r: Record, b: seq<Message>)
    requires UniqueLog(a + [Stored(r)] + b) && InCategory(f, Stored(r))
    ensures Due(f, a + [Stored(r)] + b, 0, r.id) == if InTime(f, r) then Matches(f, b) else []
  {
    var log, tail := a + [Stored(r)] + b, [Stored(r)] + b;
    IdIsElsewhere(a, r, b);
    DecodedWithoutId(f, a, r.id);
    DecodedWithoutId(f, b, r.id);
    assert log[0..] == log && log == a + tail && tail[1..] == b;
    DecodeAppend(f, a, tail);
    SkipsOthers(Decode(f, a), Decode(f, tail), r.id);
    if InTime(f, r) {
      assert Decode(f, tail) == [r] + Decode(f, b);
    } else {
      SkipsAll(Decode(f, b), r.id);
    }
  }

  /** Because the cut-off is applied before the cursor is looked for, resuming
      after a record gives the matches behind it if and only if the record is not
      after the cut-off or there are none. */
  lemma {:induction false} CutOffHidesCursor(f: Filter, a: seq<Message>, r: Record, b: seq<Message>)
    requires UniqueLog(a + [Stored(r)] + b) && InCategory(f, Stored(r))
    ensures Due(f, a + [Stored(r)] + b, 0, r.id) == Matches(f, b) <==> InTime(f, r) || Matches(f, b) == []
  {
    DueAfterCursor(f, a, r, b);
  }

  /** A record later than the cut-off with a match behind it: the page is empty. */
  lemma {:induction false} LateCursorIsLost(f: Filter, late: Record, early: Record)
    requires f == Filter("", Some(1), [], []) && late.time == 2 && early.time == 1
    requires late.id != "" && early.id != "" && late.id != early.id
    ensures Due(f, [Stored(late)] + [Stored(early)], 0, late.id) == [] && Matches(f, [Stored(early)]) == [early]
  {
    assert [] + [Stored(late)] + [Stored(early)] == [Stored(late)] + [Stored(early)];
    DueAfterCursor(f, [], late, [Stored(early)]);
    OneMatch(f, early);
  }

  lemma {:induction false} OneMatch(f: Filter, r: Record)
    requires Readable(f, Stored(r)) && Wanted(f, r)
    ensures Matches(f, [Stored(r)]) == [r]
  {
    assert [Stored(r)][1..] == [] && Decode(f, [Stored(r)]) == [r];
    assert [r][1..] == [] && Select(f, [r]) == [r];
  }

  /** Where times never go back along the log, nothing is lost. */
  lemma {:induction false} OrderedTimesLoseNothing(f: Filter, a: seq<Message>, r: Record, b: seq<Message>)
    requires UniqueLog(a + [Stored(r)] + b) && InCategory(f, Stored(r))
    requires forall i :: 0 <= i < |b| && b[i].Stored? ==> r.time <= b[i].record.time
    ensures Due(f, a + [Stored(r)] + b, 0, r.id) == Matches(f, b)
  {
    DueAfterCursor(f, a, r, b);
    if !InTime(f, r) {
      NothingInTime(f, b);
    }
  }

  lemma {:induction false} NothingInTime(f: Filter, log: seq<Message>)
    requires forall i :: 0 <= i < |log| && log[i].Stored? ==> !InTime(f, log[i].record)
    ensures Decode(f, log) == []
  {
    if log != [] {
      NothingInTime(f, log[1..]);
    }
  }

  // ----- Walking the pages

  /** One log at different times. */
  ghost predicate GrowingLogs(logs: seq<seq<Message>>)
  {
    && (forall k :: 0 <= k < |logs| ==> UniqueLog(logs[k]))
    && (forall j, k :: 0 <= j <= k < |logs| ==> logs[j] <= logs[k])
  }

  /** The page asked for with the cursor of a truncated one. */
  ghost predicate FollowsOn(q: Query, before: Page, log: seq<Message>, page: Page)
  {
    before.truncated && page == PageOf(Limit(q), Due(q.filter, log, 0, before.nextCursor))
  }

  /** Pages fetched one after the other by next_cursor while the stream grows,
      each but the last truncated.  The first starts wherever `since` says. */
  ghost predicate IsWalk(q: Query, start: nat, logs: seq<seq<Message>>, pages: seq<Page>)
  {
    && |logs| == |pages| > 0 && start <= |logs[0]| && GrowingLogs(logs)
    && pages[0] == PageOf(Limit(q), Due(q.filter, logs[0], start, q.cursor))
    && (forall k :: 0 < k < |pages| ==> FollowsAt(q, logs, pages, k))
  }

  ghost predicate FollowsAt(q: Query, logs: seq<seq<Message>>, pages: seq<Page>, k: int)
    requires 0 < k < |pages| && |logs| == |pages|
  {
    FollowsOn(q, pages[k - 1], logs[k], pages[k])
  }

  /** A client that follows next_cursor, calling Run for each page, on logs that
      grow meanwhile: what it does is such a walk. */
  method Walk(q: Query, fetches: seq<seq<Fetched>>, ghost start: nat, ghost logs: seq<seq<Message>>)
    returns (pages: seq<Page>)
    requires |fetches| == |logs| > 0 && start <= |logs[0]|
    requires GrowingLogs(logs)
    requires Splits(fetches[0], logs[0][start..]) && forall k :: 0 < k < |logs| ==> Splits(fetches[k], logs[k])
    ensures 0 < |pages| <= |logs| && IsWalk(q, start, logs[..|pages|], pages)
    ensures |pages| < |logs| ==> !pages[|pages| - 1].truncated
  {
    var page := FetchPage(q, fetches[0], logs[0], start);
    pages := [page];
    GrowingPrefix(logs, 1);
    while |pages| < |fetches| && page.truncated
      invariant 0 < |pages| <= |logs| && page == pages[|pages| - 1]
      invariant IsWalk(q, start, logs[..|pages|], pages)
      decreases |fetches| - |pages|
    {
      var n := |pages|;
      assert logs[n][0..] == logs[n];
      page := FetchPage(q.(cursor := page.nextCursor), fetches[n], logs[n], 0);
      WalkGoesOn(q, start, logs, pages, page);
      pages := pages + [page];
    }
  }

  method FetchPage(q: Query, fetches: seq<Fetched>, ghost log: seq<Message>, ghost start: nat) returns (page: Page)
    requires start <= |log| && Splits(fetches, log[start..])
    ensures page == PageOf(Limit(q), Due(q.filter, log, start, q.cursor))
  {
    SplitsAnswerDue(q, fetches, log, start);
    var answer := Run(q, fetches);
    page := answer.page;
  }

  lemma {:induction false} WalkGoesOn(q: Query, start: nat, logs: seq<seq<Message>>, pages: seq<Page>, page: Page)
    requires 0 < |pages| < |logs| && IsWalk(q, start, logs[..|pages|], pages)
    requires GrowingLogs(logs) && FollowsOn(q, pages[|pages| - 1], logs[|pages|], page)
    ensures IsWalk(q, start, logs[..|pages| + 1], pages + [page])
  {
    var n, more, longer := |pages|, pages + [page], logs[..|pages| + 1];
    forall k | 0 < k < |more| ensures FollowsAt(q, longer, more, k) {
      assert longer[k] == logs[k] && more[k - 1] == pages[k - 1];
      if k < n {
        assert FollowsAt(q, logs[..n], pages, k);
        assert more[k] == pages[k] && logs[..n][k] == logs[k];
      }
    }
    GrowingPrefix(logs, n + 1);
    assert more[0] == pages[0] && longer[0] == logs[..n][0];
  }

  lemma {:induction false} GrowingPrefix(logs: seq<seq<Message>>, n: nat)
    requires GrowingLogs(logs) && n <= |logs|
    ensures GrowingLogs(logs[..n])
  {}

  function Collected(pages: seq<Page>): (out: seq<Record>)
  {
    if pages == [] then [] else Collected(pages[..|pages| - 1]) + pages[|pages| - 1].events
  }

  /** Exactly the first records due, and a cursor that names the last. */
  ghost predicate OnTrack(limit: nat, got: seq<Record>, due: seq<Record>, page: Page)
  {
    && got <= due
    && (page.truncated ==> got != [] && page.nextCursor == got[|got| - 1].id)
    && (!page.truncated ==> got == due)
  }

  lemma {:induction false} WalkSoFar(q: Query, start: nat, logs: seq<seq<Message>>, pages: seq<Page>, k: nat)
    requires IsWalk(q, start, logs, pages) && 0 < k <= |pages|
    ensures start <= |logs[k - 1]|
    ensures OnTrack(Limit(q), Collected(pages[..k]), Due(q.filter, logs[k - 1], start, q.cursor), pages[k - 1])
  {
    var due := Due(q.filter, logs[k - 1], start, q.cursor);
    if k == 1 {
      CollectOne(pages, 0);
      assert due[0..] == due && [] + pages[0].events == pages[0].events;
      OneMorePage(Limit(q), [], due);
    } else {
      WalkSoFar(q, start, logs, pages, k - 1);
      var got := Collected(pages[..k - 1]);
      CollectOne(pages, k - 1);
      assert FollowsAt(q, logs, pages, k - 1);
      ResumePage(q, start, logs[k - 2], logs[k - 1], got, pages[k - 2]);
      OneMorePage(Limit(q), got, due);
    }
  }

  lemma {:induction false} CollectOne(pages: seq<Page>, k: nat)
    requires k < |pages|
    ensures Collected(pages[..k + 1]) == Collected(pages[..k]) + pages[k].events
  {
    assert pages[..k + 1][..k] == pages[..k];
  }

  lemma {:induction false} ResumePage(q: Query, start: nat, log: seq<Message>, later: seq<Message>, got: seq<Record>,
    page: Page)
    requires UniqueLog(later) && log <= later && start <= |log|
    requires page.truncated && OnTrack(Limit(q), got, Due(q.filter, log, start, q.cursor), page)
    ensures got <= Due(q.filter, later, start, q.cursor)
    ensures Due(q.filter, later, 0, page.nextCursor) == Due(q.filter, later, start, q.cursor)[|got|..]
  {
    Resume(q.filter, log, start, q.cursor, |got| - 1, later, 0);
    DueGrows(q.filter, log, later, start, q.cursor);
  }

  /** Every page before the last is full. */
  lemma {:induction false} CollectedLength(q: Query, start: nat, logs: seq<seq<Message>>, pages: seq<Page>, k: nat)
    requires IsWalk(q, start, logs, pages) && k < |pages|
    ensures |Collected(pages[..k])| == k * Limit(q)
  {
    if k > 0 {
      CollectedLength(q, start, logs, pages, k - 1);
      CollectOne(pages, k - 1);
      InnerPageIsFull(q, start, logs, pages, k);
      OneMore(k, Limit(q));
    }
  }

  lemma {:induction false} InnerPageIsFull(q: Query, start: nat, logs: seq<seq<Message>>, pages: seq<Page>, k: nat)
    requires IsWalk(q, start, logs, pages) && 0 < k < |pages|
    ensures |pages[k - 1].events| == Limit(q)
  {
    assert FollowsAt(q, logs, pages, k);
    assert k > 1 ==> FollowsAt(q, logs, pages, k - 1);
  }

  lemma {:induction false} OneMore(k: int, m: int)
    ensures k * m == (k - 1) * m + m
  {}

  lemma {:induction false} OneMorePage(limit: nat, got: seq<Record>, due: seq<Record>)
    requires limit > 0 && got <= due
    ensures var page := PageOf(limit, due[|got|..]);
            OnTrack(limit, got + page.events, due, page)
  {
    assert due == got + due[|got|..];
  }

  /** Walking the cursor until a page is not truncated returns the filtered
      stream exactly as it then is: no gap, no repeat, however it grew. */
  lemma {:induction false} WalkReturnsTheStream(q: Query, start: nat, logs: seq<seq<Message>>, pages: seq<Page>)
    requires IsWalk(q, start, logs, pages) && !pages[|pages| - 1].truncated
    ensures start <= |logs[|logs| - 1]|
    ensures Collected(pages) == Due(q.filter, logs[|logs| - 1], start, q.cursor)
  {
    var n := |pages|;
    assert n == |logs|;
    WalkSoFar(q, start, logs, pages, n);
    OnTrackAtEnd(Limit(q), Collected(pages[..n]), Due(q.filter, logs[n - 1], start, q.cursor), pages[n - 1]);
    assert pages[..n] == pages;
  }

  lemma {:induction false} OnTrackAtEnd(limit: nat, got: seq<Record>, due: seq<Record>, page: Page)
    requires OnTrack(limit, got, due, page) && !page.truncated
    ensures got == due
  {}

  /** So what a client collects by calling Run until a page is not truncated is the
      filtered stream at the time of the last page. */
  method ReadAll(q: Query, fetches: seq<seq<Fetched>>, ghost start: nat, ghost logs: seq<seq<Message>>)
    returns (out: seq<Record>, complete: bool, ghost calls: nat)
    requires |fetches| == |logs| > 0 && start <= |logs[0]| && GrowingLogs(logs)
    requires Splits(fetches[0], logs[0][start..]) && forall k :: 0 < k < |logs| ==> Splits(fetches[k], logs[k])
    ensures 0 < calls <= |logs| && start <= |logs[calls - 1]|
    ensures complete ==> out == Due(q.filter, logs[calls - 1], start, q.cursor)
    ensures !complete ==> calls == |logs| && out <= Due(q.filter, logs[calls - 1], start, q.cursor)
  {
    var pages := Walk(q, fetches, start, logs);
    out, complete, calls := Collected(pages), !pages[|pages| - 1].truncated, |pages|;
    WalkSoFar(q, start, logs[..calls], pages, calls);
    assert pages[..calls] == pages;
  }

  /** Over a stream that does not change, n matches take floor(n / limit) + 1
      pages. */
  lemma {:induction false} WalkLength(q: Query, start: nat, log: seq<Message>, logs: seq<seq<Message>>,
    pages: seq<Page>)
    requires IsWalk(q, start, logs, pages) && !pages[|pages| - 1].truncated
    requires forall k :: 0 <= k < |logs| ==> logs[k] == log
    ensures start <= |log|
    ensures |pages| == |Due(q.filter, log, start, q.cursor)| / Limit(q) + 1
  {
    assert logs[0] == log && logs[|logs| - 1] == log;
    WalkSoFar(q, start, logs, pages, |pages|);
    assert pages[..|pages|] == pages;
    CollectedLength(q, start, logs, pages, |pages| - 1);
    CollectOne(pages, |pages| - 1);
    assert |pages| > 1 ==> FollowsAt(q, logs, pages, |pages| - 1);
    QuotientOf(|Collected(pages)|, Limit(q), |pages| - 1, |pages[|pages| - 1].events|);
  }

  lemma {:induction false} QuotientOf(n: nat, m: nat, k: nat, r: nat)
    requires m > 0 && n == k * m + r && r < m
    ensures n / m == k
  {
    var d := n / m - k;
    assert n == n / m * m + n % m;
    assert d * m == r - n % m;
    AtLeastOne(d, m);
  }

  lemma {:induction false} AtLeastOne(d: int, m: int)
    requires m >= 0
    ensures d >= 1 ==> d * m >= m
    ensures d <= -1 ==> d * m <= -m
  {
    if d >= 1 {
      assert (d - 1) * m >= 0;
    } else if d <= -1 {
      assert (d + 1) * m <= 0;
    }
  }
}
