/**
  Moving a JetStream store of the other mode aside before the server starts
  (internal/embedded/store_layout.go). The state is the directory that holds the
  store: its entries by name.
 */
module StoreArchive {
  import opened Text

  /** An entry; id says which one it is, wherever it is moved. A link that leads
      nowhere is there for Lstat and not for Stat. */
  datatype Entry = Dir(id: nat, hasMeta: bool) | File(id: nat) | Dangling(id: nat)

  type Entries = map<string, Entry>

  datatype Layout = NoStore | Standalone | Clustered

  const STORE: string := "jetstream"
  const MAX_SUFFIX: nat := 100

  datatype Detected = Layout(layout: Layout) | StatFailed

  /** DetectStoreLayout; looking below a file is an error, not an absence, and
      faulty holds the names whose stat fails for another reason. */
  function DetectStoreLayout(entries: Entries, persistent: bool, faulty: set<string>): (d: Detected)
  {
    if !persistent then Layout(NoStore)
    else if STORE in faulty then StatFailed
    else if STORE !in entries || entries[STORE].Dangling? then Layout(NoStore)
    else if entries[STORE].File? then StatFailed
    else Layout(if entries[STORE].hasMeta then Clustered else Standalone)
  }

  /** A store is found only on disk; it is clustered exactly if it has a meta group. */
  lemma {:induction false} DetectMeaning(entries: Entries, persistent: bool)
    ensures var d := DetectStoreLayout(entries, persistent, {});
            var there := persistent && STORE in entries && !entries[STORE].Dangling?;
            && (d == Layout(NoStore) <==> !there)
            && (d.StatFailed? <==> there && entries[STORE].File?)
            && (d == Layout(Clustered) <==> there && entries[STORE].Dir? && entries[STORE].hasMeta)
            && (d == Layout(Standalone) <==> there && entries[STORE].Dir? && !entries[STORE].hasMeta)
  {}

  predicate Mismatch(clustered: bool, layout: Layout)
  {
    (clustered && layout == Standalone) || (!clustered && layout == Clustered)
  }

  function LayoutName(layout: Layout): (s: string)
  {
    match layout
    case NoStore => "none"
    case Standalone => "standalone"
    case Clustered => "clustered"
  }

  function Base(layout: Layout, stamp: string): (s: string)
    ensures s != STORE
  {
    var s := STORE + "." + LayoutName(layout) + "-" + stamp;
    assert |s| > |STORE|;
    s
  }

  /** The i-th name tried. */
  function Candidate(base: string, i: nat): (s: string)
    ensures |s| >= |base| && (i > 0 ==> |s| > |base|)
  {
    if i == 0 then base else base + "-" + Decimal(i)
  }

  datatype Outcome = Kept | Moved(to: string, layout: Layout) | Failed | NoFreeName

  /** The store moves to the first free candidate, or nothing changes. */
  predicate Archives(before: Entries, after: Entries, persistent: bool, clustered: bool, stamp: string,
    faulty: set<string>, o: Outcome)
  {
    var found := DetectStoreLayout(before, persistent, faulty);
    match o
    case Kept => found.Layout? && !Mismatch(clustered, found.layout) && after == before
    case Moved(to, layout) =>
      && found == Layout(layout) && Mismatch(clustered, layout)
      && IsFirstFree(before, Base(layout, stamp), to)
      && STORE in before && after == (before - {STORE})[to := before[STORE]]
    case Failed => after == before
    case NoFreeName =>
      && found.Layout? && Mismatch(clustered, found.layout) && after == before
      && AllTaken(before, Base(found.layout, stamp))
  }

  class StoreDirectory {
    var entries: Entries

    constructor (entries: Entries)
      ensures this.entries == entries
    {
      this.entries := entries;
    }

    /** Unless stat or rename fail, there is no free name exactly when all 101
        candidates are taken. */
    method ArchiveIncompatibleStore(persistent: bool, clustered: bool, stamp: string, faulty: set<string>,
      renameFails: bool)
      returns (o: Outcome)
      modifies this
      ensures Archives(old(entries), entries, persistent, clustered, stamp, faulty, o)
      ensures var found := DetectStoreLayout(old(entries), persistent, {});
              faulty == {} && !renameFails ==>
                && (o == Failed <==> found.StatFailed?)
                && (o == NoFreeName <==> found.Layout? && Mismatch(clustered, found.layout)
                                         && AllTaken(old(entries), Base(found.layout, stamp)))
    {
      var found := DetectStoreLayout(entries, persistent, faulty);
      if found.StatFailed? {
        return Failed;
      }
      if !Mismatch(clustered, found.layout) {
        return Kept;
      }
      var base := Base(found.layout, stamp);
      var to, i := base, 1;
      while to in entries && to !in faulty
        invariant 1 <= i <= MAX_SUFFIX + 1 && to == Candidate(base, i - 1)
        invariant forall k :: 0 <= k < i - 1 ==> Candidate(base, k) in entries
        invariant entries == old(entries)
        decreases MAX_SUFFIX + 1 - i
      {
        if i > MAX_SUFFIX {
          return NoFreeName;
        }
        to := Candidate(base, i);
        i := i + 1;
      }
      if to in faulty || renameFails {
        return Failed;
      }
      entries := (entries - {STORE})[to := entries[STORE]];
      o := Moved(to, found.layout);
    }
  }

  predicate IsFirstFree(entries: Entries, base: string, to: string)
  {
    && to !in entries
    && exists k :: 0 <= k <= MAX_SUFFIX && to == Candidate(base, k) && forall j :: 0 <= j < k ==> Candidate(base, j) in entries
  }

  predicate AllTaken(entries: Entries, base: string)
  {
    forall k :: 0 <= k <= MAX_SUFFIX ==> Candidate(base, k) in entries
  }

  lemma {:induction false} CandidatesDiffer(base: string, i: nat, j: nat)
    requires i != j
    ensures Candidate(base, i) != Candidate(base, j)
  {
    if i > 0 && j > 0 && Candidate(base, i) == Candidate(base, j) {
      assert Candidate(base, i)[|base| + 1..] == Decimal(i);
      assert Candidate(base, j)[|base| + 1..] == Decimal(j);
      DecimalInjective(i, j);
    }
  }

  // ----- Sequences of starts

  predicate Succeeds(o: Outcome)
  {
    o.Kept? || o.Moved?
  }

  /** After a successful start no store of the other mode is left. */
  lemma {:induction false} NoMismatchLeft(before: Entries, after: Entries, clustered: bool, stamp: string,
    faulty: set<string>, o: Outcome)
    requires Archives(before, after, true, clustered, stamp, faulty, o) && Succeeds(o)
    ensures var d := DetectStoreLayout(after, true, faulty); d.Layout? && !Mismatch(clustered, d.layout)
  {
    if o.Moved? {
      MovedElsewhere(before, o, stamp);
      assert STORE !in after;
    }
  }

  lemma {:induction false} MovedElsewhere(before: Entries, o: Outcome, stamp: string)
    requires o.Moved? && IsFirstFree(before, Base(o.layout, stamp), o.to)
    ensures o.to != STORE
  {
    var base := Base(o.layout, stamp);
    var k: nat :| k <= MAX_SUFFIX && o.to == Candidate(base, k);
    if k > 0 {
      assert |o.to| > |base| > |STORE|;
    }
  }

  /** Starting again in the same mode, at any time, moves nothing. */
  lemma {:induction false} RepeatIsNoOp(before: Entries, after: Entries, again: Entries, clustered: bool,
    stamp: string, later: string, faulty: set<string>, o: Outcome, p: Outcome)
    requires Archives(before, after, true, clustered, stamp, faulty, o) && Succeeds(o)
    requires Archives(after, again, true, clustered, later, faulty, p)
    ensures again == after && (p == Kept || p == Failed)
  {
    NoMismatchLeft(before, after, clustered, stamp, faulty, o);
  }

  /** One start: the store is checked, and if that succeeds the server runs and
      makes a store of its own mode where there is none. */
  datatype Start = Start(persistent: bool, clustered: bool, stamp: string, faulty: set<string>, o: Outcome)

  ghost predicate StartStep(s: Start, before: Entries, after: Entries)
  {
    exists mid :: Archives(before, mid, s.persistent, s.clustered, s.stamp, s.faulty, s.o) && ServerRuns(s, mid, after)
  }

  predicate ServerRuns(s: Start, mid: Entries, after: Entries)
  {
    || after == mid
    || (Succeeds(s.o) && STORE !in mid && STORE in after && after == mid[STORE := after[STORE]]
        && after[STORE].Dir? && after[STORE].hasMeta == s.clustered)
  }

  lemma {:induction false} CandidateExtends(base: string, k: nat)
    ensures base <= Candidate(base, k)
  {}

  /** The name an archived store gets: the mode it is of, when it was moved and, if that
      is taken, a number. */
  lemma {:induction false} ArchiveName(entries: Entries, layout: Layout, mode: string, stamp: string, to: string)
    requires layout != NoStore && mode == (if layout == Clustered then "clustered" else "standalone")
    requires IsFirstFree(entries, Base(layout, stamp), to)
    ensures STORE + "." + mode + "-" + stamp <= to
  {
    var base := Base(layout, stamp);
    assert LayoutName(layout) == mode;
    var k: nat :| k <= MAX_SUFFIX && to == Candidate(base, k);
    CandidateExtends(base, k);
  }

  /** A store the server made is kept by the next start in its mode and moved aside by
      the next start in the other, unless that fails or all names are taken. */
  lemma {:induction false} NextStart(s: Start, mid: Entries, made: Entries, clustered: bool, stamp: string,
    after: Entries, o: Outcome)
    requires ServerRuns(s, mid, made) && made != mid && Archives(made, after, true, clustered, stamp, {}, o)
    ensures o == Failed || (o == Kept <==> clustered == s.clustered)
    ensures o.Moved? ==> o.layout == if s.clustered then Clustered else Standalone
  {}

  ghost predicate IsRun(starts: seq<Start>, states: seq<Entries>)
  {
    |states| == |starts| + 1 && forall i :: 0 <= i < |starts| ==> StartStep(starts[i], states[i], states[i + 1])
  }

  /** Nothing that was there is gone: what has another name keeps it, and the store
      is still there under some name. */
  predicate Preserves(before: Entries, after: Entries)
  {
    && (forall n :: n in before && n != STORE ==> n in after && after[n] == before[n])
    && (STORE in before ==> before[STORE] in after.Values)
  }

  lemma {:induction false} StartPreserves(s: Start, before: Entries, after: Entries)
    requires StartStep(s, before, after)
    ensures Preserves(before, after)
  {
    var mid :| Archives(before, mid, s.persistent, s.clustered, s.stamp, s.faulty, s.o) && ServerRuns(s, mid, after);
    if s.o.Moved? {
      MovedElsewhere(before, s.o, s.stamp);
      assert after[s.o.to] == before[STORE] && s.o.to in after;
    } else if STORE in before {
      assert after[STORE] == before[STORE];
    }
  }

  lemma {:induction false} PreservesTransitive(a: Entries, b: Entries, c: Entries)
    requires Preserves(a, b) && Preserves(b, c)
    ensures Preserves(a, c)
  {
    if STORE in a {
      var n :| n in b && b[n] == a[STORE];
      if n != STORE {
        assert c[n] == a[STORE];
      }
    }
  }

  /** Over any sequence of starts, in either mode and with any failures, no entry is
      lost or overwritten. */
  lemma {:induction false} NothingIsLost(starts: seq<Start>, states: seq<Entries>, i: nat, j: nat)
    requires IsRun(starts, states) && i <= j <= |starts|
    ensures Preserves(states[i], states[j])
    decreases j - i
  {
    if i == j {
      forall n | n in states[i] ensures states[i][n] in states[i].Values {}
    } else {
      NothingIsLost(starts, states, i, j - 1);
      StartPreserves(starts[j - 1], states[j - 1], states[j]);
      PreservesTransitive(states[i], states[j - 1], states[j]);
    }
  }
}
