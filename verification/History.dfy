/**
  The cluster history stream as its readers see it (internal/history): an
  append-only log of messages, read through a subject filter, a resume cursor
  and client-side filters.
 */
module History {
  import opened Options
  import opened Text

  /** One decoded HistoryEvent; details stands for the rest of its payload. */
  datatype Record = Record(id: string, time: int, category: string, kind: string, node: string, details: string)

  /** A message whose payload may fail to decode. */
  datatype Message = Malformed(category: string) | Stored(record: Record)

  /** What a reader asks for: an empty list or category means any. */
  datatype Filter = Filter(category: string, until: Option<int>, types: seq<string>, nodes: seq<string>)

  function Subject(m: Message): (c: string)
  {
    match m case Malformed(c) => c case Stored(r) => r.category
  }

  predicate InCategory(f: Filter, m: Message)
  {
    f.category == "" || Subject(m) == f.category
  }

  /** strings.EqualFold on ASCII letters. */
  predicate EqualFold(a: string, b: string)
  {
    |a| == |b| && forall i :: 0 <= i < |a| ==> LowerChar(a[i]) == LowerChar(b[i])
  }

  predicate TypeMatches(types: seq<string>, kind: string)
  {
    types == [] || exists i :: 0 <= i < |types| && EqualFold(kind, types[i])
  }

  predicate NodeMatches(nodes: seq<string>, node: string)
  {
    nodes == [] || node in nodes
  }

  predicate Wanted(f: Filter, r: Record)
  {
    TypeMatches(f.types, r.kind) && NodeMatches(f.nodes, r.node)
  }

  /** Whether a message is a record as far as cursor and filters are concerned:
      on the subject, decodable, and not after the cut-off. */
  predicate Readable(f: Filter, m: Message)
  {
    InCategory(f, m) && m.Stored? && (f.until.Some? ==> m.record.time <= f.until.value)
  }

  /** The records a consumer gets to see, before cursor and filters. */
  function Decode(f: Filter, log: seq<Message>): (rs: seq<Record>)
  {
    if log == [] then []
    else if Readable(f, log[0]) then [log[0].record] + Decode(f, log[1..])
    else Decode(f, log[1..])
  }

  function Select(f: Filter, rs: seq<Record>): (out: seq<Record>)
  {
    if rs == [] then []
    else if Wanted(f, rs[0]) then [rs[0]] + Select(f, rs[1..])
    else Select(f, rs[1..])
  }

  /** The filtered stream: everything a reader with this filter is due. */
  function Matches(f: Filter, log: seq<Message>): (out: seq<Record>)
  {
    Select(f, Decode(f, log))
  }

  /** The records strictly after the one the cursor names; none if it is not
      there, all if there is no cursor. */
  function AfterCursor(rs: seq<Record>, cursor: string): (out: seq<Record>)
  {
    if cursor == "" then rs else SkipThrough(rs, cursor)
  }

  function SkipThrough(rs: seq<Record>, cursor: string): (out: seq<Record>)
    ensures |out| <= |rs| && out == rs[|rs| - |out|..]
  {
    if rs == [] then []
    else if rs[0].id == cursor then rs[1..]
    else SkipThrough(rs[1..], cursor)
  }

  ghost predicate UniqueIds(rs: seq<Record>)
  {
    && (forall i :: 0 <= i < |rs| ==> rs[i].id != "")
    && (forall i, j :: 0 <= i < j < |rs| ==> rs[i].id != rs[j].id)
  }

  /** The publisher never reuses an id. */
  ghost predicate UniqueLog(log: seq<Message>)
  {
    && (forall i :: 0 <= i < |log| && log[i].Stored? ==> log[i].record.id != "")
    && (forall i, j :: 0 <= i < j < |log| && log[i].Stored? && log[j].Stored? ==> log[i].record.id != log[j].record.id)
  }

  lemma {:induction false} DecodedFrom(f: Filter, log: seq<Message>, i: nat) returns (j: nat)
    requires i < |Decode(f, log)|
    ensures j < |log| && log[j] == Stored(Decode(f, log)[i])
  {
    if Readable(f, log[0]) && i == 0 {
      j := 0;
    } else {
      var k := DecodedFrom(f, log[1..], if Readable(f, log[0]) then i - 1 else i);
      j := k + 1;
    }
  }

  lemma {:induction false} DecodeIsUnique(f: Filter, log: seq<Message>)
    requires UniqueLog(log)
    ensures UniqueIds(Decode(f, log))
  {
    if log != [] {
      DecodeIsUnique(f, log[1..]);
      if Readable(f, log[0]) {
        forall j | 0 <= j < |Decode(f, log[1..])| ensures Decode(f, log[1..])[j].id != log[0].record.id {
          var k := DecodedFrom(f, log[1..], j);
          assert log[1..][k] == log[k + 1];
        }
      }
    }
  }

  // ----- What a filter lets through

  /** The filter on the fields of a record: its category, not after the cut-off, one
      of the types in any case, one of the nodes; what is empty asks for nothing. */
  predicate Fits(f: Filter, r: Record)
  {
    && (f.category == "" || r.category == f.category)
    && (f.until.Some? ==> r.time <= f.until.value)
    && (f.types == [] || exists i :: 0 <= i < |f.types| && ToLower(f.types[i]) == ToLower(r.kind))
    && (f.nodes == [] || exists i :: 0 <= i < |f.nodes| && f.nodes[i] == r.node)
  }

  lemma {:induction false} FoldIsLower(a: string, b: string)
    ensures EqualFold(a, b) <==> ToLower(b) == ToLower(a)
  {
    if ToLower(b) == ToLower(a) {
      assert |a| == |ToLower(a)| == |b|;
      forall i | 0 <= i < |a| ensures LowerChar(a[i]) == LowerChar(b[i]) {
        assert ToLower(a)[i] == ToLower(b)[i];
      }
    }
  }

  lemma {:induction false} TypesMeaning(types: seq<string>, kind: string)
    ensures TypeMatches(types, kind) <==>
            types == [] || exists i :: 0 <= i < |types| && ToLower(types[i]) == ToLower(kind)
  {
    forall i | 0 <= i < |types| ensures EqualFold(kind, types[i]) <==> ToLower(types[i]) == ToLower(kind) {
      FoldIsLower(kind, types[i]);
    }
  }

  lemma {:induction false} FitsMeaning(f: Filter, r: Record)
    ensures Readable(f, Stored(r)) && Wanted(f, r) <==> Fits(f, r)
  {
    TypesMeaning(f.types, r.kind);
  }

  /** The filtered stream message by message: a stored record that fits comes next,
      anything else leaves no trace. */
  lemma {:induction false} MatchesStep(f: Filter, log: seq<Message>, m: Message)
    ensures Matches(f, log + [m]) == Matches(f, log) + if m.Stored? && Fits(f, m.record) then [m.record] else []
  {
    DecodeAppend(f, log, [m]);
    assert Decode(f, [m]) == if Readable(f, m) then [m.record] else [];
    SelectAppend(f, Decode(f, log), Decode(f, [m]));
    if m.Stored? {
      FitsMeaning(f, m.record);
    }
  }

  /** A record is in the filtered stream if and only if it is stored and fits. */
  lemma {:induction false} MatchesMeaning(f: Filter, log: seq<Message>, r: Record)
    ensures r in Matches(f, log) <==> Stored(r) in log && Fits(f, r)
  {
    if log != [] {
      var init, m := log[..|log| - 1], log[|log| - 1];
      assert log == init + [m];
      MatchesMeaning(f, init, r);
      MatchesStep(f, init, m);
    }
  }

  /** Whatever the cursor, only such records come behind it. */
  lemma {:induction false} DueFits(f: Filter, log: seq<Message>, start: nat, cursor: string, r: Record)
    requires start <= |log| && r in Due(f, log, start, cursor)
    ensures Stored(r) in log && Fits(f, r)
  {
    var b := DueSuffix(f, log, start, cursor);
    var m := SelectSuffix(f, Decode(f, log), b);
    assert r in Matches(f, log);
    MatchesMeaning(f, log, r);
  }

  // ----- Appending

  lemma {:induction false} DecodeAppend(f: Filter, a: seq<Message>, b: seq<Message>)
    ensures Decode(f, a + b) == Decode(f, a) + Decode(f, b)
  {
    if a == [] {
      assert a + b == b;
    } else {
      assert (a + b)[1..] == a[1..] + b;
      DecodeAppend(f, a[1..], b);
      if Readable(f, a[0]) {
        AppendAssoc([a[0].record], Decode(f, a[1..]), Decode(f, b));
      }
    }
  }

  lemma {:induction false} SelectAppend(f: Filter, a: seq<Record>, b: seq<Record>)
    ensures Select(f, a + b) == Select(f, a) + Select(f, b)
  {
    if a == [] {
      assert a + b == b;
    } else {
      assert (a + b)[1..] == a[1..] + b;
      SelectAppend(f, a[1..], b);
      if Wanted(f, a[0]) {
        AppendAssoc([a[0]], Select(f, a[1..]), Select(f, b));
      }
    }
  }

  /** What a reader is due only ever grows at its end. */
  lemma {:induction false} MatchesGrow(f: Filter, log: seq<Message>, later: seq<Message>)
    requires log <= later
    ensures Matches(f, log) <= Matches(f, later)
    ensures Decode(f, log) <= Decode(f, later)
  {
    assert later == log + later[|log|..];
    DecodeAppend(f, log, later[|log|..]);
    SelectAppend(f, Decode(f, log), Decode(f, later[|log|..]));
  }

  /** Selecting from a suffix gives a suffix of the selection. */
  lemma {:induction false} SelectSuffix(f: Filter, rs: seq<Record>, j: nat) returns (m: nat)
    requires j <= |rs|
    ensures m <= |Select(f, rs)| && Select(f, rs[j..]) == Select(f, rs)[m..]
  {
    assert rs == rs[..j] + rs[j..];
    SelectAppend(f, rs[..j], rs[j..]);
    m := |Select(f, rs[..j])|;
  }

  lemma {:induction false} SelectedFrom(f: Filter, rs: seq<Record>, i: nat) returns (j: nat)
    requires i < |Select(f, rs)|
    ensures j < |rs| && Select(f, rs)[i] == rs[j]
  {
    if Wanted(f, rs[0]) && i == 0 {
      j := 0;
    } else {
      var k := SelectedFrom(f, rs[1..], if Wanted(f, rs[0]) then i - 1 else i);
      j := k + 1;
    }
  }

  // ----- Resuming

  /** Resuming after the i-th wanted record gives exactly the wanted records
      after it: nothing twice, nothing missed. */
  lemma {:induction false} ResumeAfter(f: Filter, rs: seq<Record>, i: nat)
    requires UniqueIds(rs) && i < |Select(f, rs)|
    ensures Select(f, AfterCursor(rs, Select(f, rs)[i].id)) == Select(f, rs)[i + 1..]
  {
    if i > 0 || !Wanted(f, rs[0]) {
      var k := if Wanted(f, rs[0]) then i - 1 else i;
      LaterIdsDiffer(f, rs, k);
      ResumeAfter(f, rs[1..], k);
      assert Select(f, rs)[i] == Select(f, rs[1..])[k];
      assert Select(f, rs)[i + 1..] == Select(f, rs[1..])[k + 1..];
    } else {
      assert Select(f, rs)[1..] == Select(f, rs[1..]);
    }
  }

  lemma {:induction false} LaterIdsDiffer(f: Filter, rs: seq<Record>, i: nat)
    requires UniqueIds(rs) && rs != [] && i < |Select(f, rs[1..])|
    ensures Select(f, rs[1..])[i].id != rs[0].id
  {
    var k := SelectedFrom(f, rs[1..], i);
    assert rs[1..][k] == rs[k + 1];
  }

  /** Dropping old records the cursor does not name changes nothing after it. */
  lemma {:induction false} RetentionIsHarmless(rs: seq<Record>, drop: nat, cursor: string)
    requires drop <= |rs| && cursor != ""
    requires forall k :: 0 <= k < drop ==> rs[k].id != cursor
    ensures AfterCursor(rs[drop..], cursor) == AfterCursor(rs, cursor)
    decreases drop
  {
    if drop > 0 {
      assert rs[drop..] == rs[1..][drop - 1..];
      RetentionIsHarmless(rs[1..], drop - 1, cursor);
    }
  }

  /** What a reader that starts at a log position with a cursor is due. */
  function Due(f: Filter, log: seq<Message>, start: nat, cursor: string): (out: seq<Record>)
    requires start <= |log|
  {
    Select(f, AfterCursor(Decode(f, log[start..]), cursor))
  }

  /** A cursor that is found stays found as the log grows. */
  lemma {:induction false} AfterCursorGrows(a: seq<Record>, b: seq<Record>, cursor: string)
    requires AfterCursor(a, cursor) != []
    ensures AfterCursor(a + b, cursor) == AfterCursor(a, cursor) + b
  {
    if cursor != "" {
      assert (a + b)[1..] == a[1..] + b;
      if a[0].id != cursor {
        AfterCursorGrows(a[1..], b, cursor);
      }
    }
  }

  lemma {:induction false} DueGrows(f: Filter, log: seq<Message>, later: seq<Message>, start: nat, cursor: string)
    requires log <= later && start <= |log|
    ensures Due(f, log, start, cursor) <= Due(f, later, start, cursor)
  {
    var a, b := Decode(f, log[start..]), Decode(f, later[|log|..]);
    assert later[start..] == log[start..] + later[|log|..];
    DecodeAppend(f, log[start..], later[|log|..]);
    if AfterCursor(a, cursor) != [] {
      AfterCursorGrows(a, b, cursor);
      SelectAppend(f, AfterCursor(a, cursor), b);
    }
  }

  lemma {:induction false} DecodeSuffix(f: Filter, log: seq<Message>, start: nat) returns (a: nat)
    requires start <= |log|
    ensures a <= |Decode(f, log)| && Decode(f, log[start..]) == Decode(f, log)[a..]
    ensures Decode(f, log[..start]) == Decode(f, log)[..a]
  {
    assert log == log[..start] + log[start..];
    DecodeAppend(f, log[..start], log[start..]);
    a := |Decode(f, log[..start])|;
  }

  lemma {:induction false} ResumeRecords(f: Filter, rs: seq<Record>, b: nat, i: nat, d: nat, c: string)
    requires UniqueIds(rs) && b <= |rs| && d <= |rs|
    requires i < |Select(f, rs[b..])| && c == Select(f, rs[b..])[i].id
    requires forall k :: 0 <= k < d ==> rs[k].id != c
    ensures Select(f, AfterCursor(rs[d..], c)) == Select(f, rs[b..])[i + 1..]
  {
    ResumeAfter(f, rs[b..], i);
    var j := SelectedFrom(f, rs[b..], i);
    assert rs[b + j].id == c;
    RetentionIsHarmless(rs, b, c);
    RetentionIsHarmless(rs, d, c);
  }

  /** The resume guarantee: a reader that comes back with the id of the i-th
      record it was due, on any later state of the log from which that record
      has not been dropped, is due exactly what followed it. */
  lemma {:induction false} Resume(f: Filter, log: seq<Message>, start: nat, cursor: string, i: nat,
    later: seq<Message>, base: nat)
    requires UniqueLog(later) && log <= later && start <= |log| && base <= |later|
    requires i < |Due(f, log, start, cursor)|
    requires forall k :: 0 <= k < base && later[k].Stored? ==> later[k].record.id != Due(f, log, start, cursor)[i].id
    ensures i < |Due(f, later, start, cursor)|
    ensures Due(f, later, base, Due(f, log, start, cursor)[i].id) == Due(f, later, start, cursor)[i + 1..]
  {
    var c, rs := Due(f, log, start, cursor)[i].id, Decode(f, later);
    DecodeIsUnique(f, later);
    DueGrows(f, log, later, start, cursor);
    var b := DueSuffix(f, later, start, cursor);
    var d := DroppedRecords(f, later, base, c);
    ResumeRecords(f, rs, b, i, d, c);
  }

  /** What is due is selected from an end of the records. */
  lemma {:induction false} DueSuffix(f: Filter, log: seq<Message>, start: nat, cursor: string) returns (b: nat)
    requires start <= |log|
    ensures b <= |Decode(f, log)| && Due(f, log, start, cursor) == Select(f, Decode(f, log)[b..])
  {
    var rs := Decode(f, log);
    var a := DecodeSuffix(f, log, start);
    var tail := AfterCursor(rs[a..], cursor);
    b := |rs| - |tail|;
    assert tail == rs[b..];
  }

  /** Dropping messages that do not hold the id drops records that do not have it. */
  lemma {:induction false} DroppedRecords(f: Filter, log: seq<Message>, base: nat, c: string) returns (d: nat)
    requires base <= |log| && forall k :: 0 <= k < base && log[k].Stored? ==> log[k].record.id != c
    ensures d <= |Decode(f, log)| && Decode(f, log[base..]) == Decode(f, log)[d..]
    ensures forall k :: 0 <= k < d ==> Decode(f, log)[k].id != c
  {
    d := DecodeSuffix(f, log, base);
    var rs := Decode(f, log);
    forall k | 0 <= k < d ensures rs[k].id != c {
      var m := DecodedFrom(f, log[..base], k);
      assert log[..base][m] == log[m];
    }
  }
}
