/**
  The chaos workload (cmd/chaos-workload/main.go): one writer and one verifier
  goroutine sharing a counter, a set of acknowledged sequence numbers and a
  database, as a machine over their atomic steps.
 */
module ChaosWorkload {
  import opened Text

  datatype WriterPc =
    | Waiting
    | Inserting(n: nat)   // took a number, INSERT in flight
    | Acknowledged(n: nat)   // INSERT returned nil, Store still to come
    | Stopped

  datatype VerifierPc =
    | Idle
    | Ranging(lo: set<nat>)   // confirmed when the Range began
    | Snapped(expected: set<nat>)
    | Loaded(expected: set<nat>, maxSeq: nat)
    | Selected(expected: set<nat>, maxSeq: nat, present: set<nat>)
    | RangingAgain(expected: set<nat>, maxSeq: nat, present: set<nat>, lo: set<nat>)

  /** What one completed sweep logged. */
  datatype Sweep = Sweep(lost: set<nat>, resolved: set<nat>)

  /** committed holds every row that was ever committed, rows what a query now
      sees of them; unacked the writes the writer gave up on. */
  datatype State = State(
    nextSeq: nat, confirmed: set<nat>, unacked: set<nat>,
    committed: set<nat>, rows: set<nat>,
    writer: WriterPc, verifier: VerifierPc,
    missing: set<nat>, extras: nat, sweeps: seq<Sweep>)

  const INIT := State(0, {}, {}, {}, {}, Waiting, Idle, {}, 0, [])

  datatype Step =
    | Take
    | Commit(n: nat)   // the database commits a write in flight, or one given up on
    | Ack
    | Store
    | Fail(stop: bool)
    | Stop
    | RowsChange(rows: set<nat>)   // rows lost or reappearing
    | BeginRange
    | EndRange(expected: set<nat>)
    | LoadMax
    | Query
    | QueryFailed
    | BeginRangeAgain
    | Finish(again: set<nat>)

  function Current(w: WriterPc): (c: set<nat>)
    ensures |c| <= 1
  {
    if w.Inserting? || w.Acknowledged? then {w.n} else {}
  }

  /** sync.Map.Range is no snapshot: it returns any set between what was there
      when it began and what is there when it ends. */
  predicate RangeResult(lo: set<nat>, result: set<nat>, hi: set<nat>)
  {
    lo <= result <= hi
  }

  predicate Enabled(s: State, step: Step)
  {
    match step
    case Take => s.writer.Waiting?
    case Commit(n) => n in s.unacked || s.writer == Inserting(n)
    case Ack => s.writer.Inserting? && s.writer.n in s.committed
    case Store => s.writer.Acknowledged?
    case Fail(_) => s.writer.Inserting?
    case Stop => s.writer.Waiting?
    case RowsChange(rows) => rows <= s.committed
    case BeginRange => s.verifier.Idle?
    case EndRange(expected) => s.verifier.Ranging? && RangeResult(s.verifier.lo, expected, s.confirmed)
    case LoadMax => s.verifier.Snapped?
    case Query => s.verifier.Loaded?
    case QueryFailed => s.verifier.Loaded?
    case BeginRangeAgain => s.verifier.Selected?
    case Finish(again) => s.verifier.RangingAgain? && RangeResult(s.verifier.lo, again, s.confirmed)
  }

  function Apply(s: State, step: Step): (s': State)
    requires Enabled(s, step)
  {
    match step
    case Take => s.(nextSeq := s.nextSeq + 1, writer := Inserting(s.nextSeq + 1))
    case Commit(n) => s.(committed := s.committed + {n}, rows := s.rows + {n})
    case Ack => s.(writer := Acknowledged(s.writer.n))
    case Store => s.(confirmed := s.confirmed + {s.writer.n}, writer := Waiting)
    case Fail(stop) => s.(unacked := s.unacked + {s.writer.n}, writer := if stop then Stopped else Waiting)
    case Stop => s.(writer := Stopped)
    case RowsChange(rows) => s.(rows := rows)
    case BeginRange => s.(verifier := Ranging(s.confirmed))
    case EndRange(expected) => s.(verifier := Snapped(expected))
    case LoadMax =>
      s.(verifier := if s.nextSeq == 0 then Idle else Loaded(s.verifier.expected, s.nextSeq))
    case Query =>
      var v := s.verifier;
      s.(verifier := Selected(v.expected, v.maxSeq, set n | n in s.rows && n <= v.maxSeq))
    case QueryFailed => s.(verifier := Idle)
    case BeginRangeAgain =>
      var v := s.verifier;
      s.(verifier := RangingAgain(v.expected, v.maxSeq, v.present, s.confirmed))
    case Finish(again) =>
      var v := s.verifier;
      var missing := MissingAfter(s.missing, v.expected - v.present, v.present);
      s.(verifier := Idle, missing := missing, extras := |v.present - (v.expected + again)|,
      sweeps := s.sweeps + [Sweep(missing - (s.missing - v.present), s.missing * v.present)])
  }

  /** updateMissingSet: resolve what reappeared, then fold in what is missing. */
  function MissingAfter(missing: set<nat>, thisTick: set<nat>, present: set<nat>): (m: set<nat>)
  {
    (missing - present) + thisTick
  }

  ghost predicate IsRun(states: seq<State>, steps: seq<Step>)
  {
    && |states| == |steps| + 1 && states[0] == INIT
    && forall i :: 0 <= i < |steps| ==> Enabled(states[i], steps[i]) && states[i + 1] == Apply(states[i], steps[i])
  }

  // ----- The invariant

  ghost predicate UpTo(ns: set<nat>, max: nat)
  {
    forall n :: n in ns ==> 0 < n <= max
  }

  ghost predicate WriterInv(s: State)
  {
    && UpTo(s.committed, s.nextSeq) && UpTo(s.unacked, s.nextSeq) && UpTo(Current(s.writer), s.nextSeq)
    && s.confirmed <= s.committed && s.rows <= s.committed
    && s.committed <= s.confirmed + s.unacked + Current(s.writer)
    && (s.writer.Acknowledged? ==> s.writer.n in s.committed)
  }

  /** The rows a sweep read that the writer had not confirmed when the second
      Range began: those it had given up on, and at most one in flight. */
  ghost predicate AtMostOneInFlight(s: State, present: set<nat>, lo: set<nat>)
  {
    present <= s.committed && |present - lo - s.unacked| <= 1
  }

  ghost predicate VerifierInv(s: State)
  {
    && s.missing <= s.confirmed
    && match s.verifier
       case Idle => true
       case Ranging(lo) => s.missing <= lo <= s.confirmed
       case Snapped(e) => s.missing <= e <= s.confirmed
       case Loaded(e, m) => s.missing <= e <= s.confirmed && UpTo(e, m)
       case Selected(e, m, p) =>
         && s.missing <= e <= s.confirmed && UpTo(e, m)
         && p <= s.committed && p <= s.confirmed + s.unacked + Current(s.writer)
       case RangingAgain(e, m, p, lo) =>
         && s.missing <= e <= s.confirmed && UpTo(e, m)
         && lo <= s.confirmed && AtMostOneInFlight(s, p, lo)
  }

  ghost predicate Inv(s: State)
  {
    WriterInv(s) && VerifierInv(s)
  }

  lemma {:induction false} StepKeepsWriterInv(s: State, step: Step)
    requires WriterInv(s) && Enabled(s, step)
    ensures WriterInv(Apply(s, step))
  {
    if step.Take? || step.Ack? || step.Store? || step.Fail? || step.Stop? {
      WriterStepKeepsInv(s, step);
    } else if step.Commit? || step.RowsChange? {
      DatabaseStepKeepsInv(s, step);
    } else {
      VerifierStepFrame(s, step);
    }
  }

  lemma {:induction false} WriterStepKeepsInv(s: State, step: Step)
    requires WriterInv(s) && Enabled(s, step) && (step.Take? || step.Ack? || step.Store? || step.Fail? || step.Stop?)
    ensures WriterInv(Apply(s, step))
  {}

  lemma {:induction false} DatabaseStepKeepsInv(s: State, step: Step)
    requires WriterInv(s) && Enabled(s, step) && (step.Commit? || step.RowsChange?)
    ensures WriterInv(Apply(s, step))
  {}

  lemma {:induction false} VerifierStepFrame(s: State, step: Step)
    requires Enabled(s, step) && !(step.Take? || step.Ack? || step.Store? || step.Fail? || step.Stop? || step.Commit? || step.RowsChange?)
    ensures var s' := Apply(s, step);
            && s'.nextSeq == s.nextSeq && s'.confirmed == s.confirmed && s'.unacked == s.unacked
            && s'.committed == s.committed && s'.rows == s.rows && s'.writer == s.writer
  {}

  lemma {:induction false} StepKeepsVerifierInv(s: State, step: Step)
    requires Inv(s) && Enabled(s, step)
    ensures VerifierInv(Apply(s, step))
  {
    var s' := Apply(s, step);
    if s.verifier.RangingAgain? {
      var v := s.verifier;
      SubsetSize(v.present - v.lo - s'.unacked, v.present - v.lo - s.unacked);
    } else if step.BeginRangeAgain? {
      SubsetSize(s.verifier.present - s.confirmed - s.unacked, Current(s.writer));
    }
  }

  lemma {:induction false} RunKeepsInv(states: seq<State>, steps: seq<Step>, i: nat)
    requires IsRun(states, steps) && i < |states|
    ensures Inv(states[i])
  {
    if i > 0 {
      RunKeepsInv(states, steps, i - 1);
      StepKeepsWriterInv(states[i - 1], steps[i - 1]);
      StepKeepsVerifierInv(states[i - 1], steps[i - 1]);
    }
  }

  // ----- What every interleaving guarantees

  /** Every number in a sweep's snapshot is at most the maximum it then loads. */
  lemma {:induction false} SnapshotIsBelowMax(states: seq<State>, steps: seq<Step>, i: nat)
    requires IsRun(states, steps) && i < |states|
    ensures var v := states[i].verifier;
            v.Loaded? || v.Selected? || v.RangingAgain? ==> forall n :: n in v.expected ==> n <= v.maxSeq
  {
    RunKeepsInv(states, steps, i);
  }

  ghost predicate Lossless(s: State)
  {
    && s.rows == s.committed && s.missing == {}
    && (forall k :: 0 <= k < |s.sweeps| ==> s.sweeps[k].lost == {})
    && (s.verifier.Selected? || s.verifier.RangingAgain? ==> s.verifier.expected <= s.verifier.present)
  }

  lemma {:induction false} StepKeepsLossless(s: State, step: Step)
    requires Inv(s) && Lossless(s) && Enabled(s, step) && !step.RowsChange?
    ensures Lossless(Apply(s, step))
  {}

  /** If committed rows are never lost, no sweep of the run reports data loss. */
  lemma {:induction false} NoLossNoReport(states: seq<State>, steps: seq<Step>, i: nat)
    requires IsRun(states, steps) && i < |states|
    requires forall k :: 0 <= k < |steps| ==> !steps[k].RowsChange?
    ensures Lossless(states[i])
  {
    if i > 0 {
      NoLossNoReport(states, steps, i - 1);
      RunKeepsInv(states, steps, i - 1);
      StepKeepsLossless(states[i - 1], steps[i - 1]);
    }
  }

  /** A sweep's extras are at most the committed writes the writer gave up on,
      plus one that was in flight. */
  lemma {:induction false} ExtrasAreBounded(states: seq<State>, steps: seq<Step>, i: nat)
    requires IsRun(states, steps) && i < |steps| && steps[i].Finish?
    ensures states[i + 1].extras <= |states[i + 1].unacked * states[i + 1].committed| + 1
  {
    RunKeepsInv(states, steps, i);
    var s, v := states[i], states[i].verifier;
    var extra := v.present - (v.expected + steps[i].again);
    var gaveUp, inFlight := extra * s.unacked, extra - s.unacked;
    SubsetSize(gaveUp, s.unacked * s.committed);
    SubsetSize(inFlight, v.present - v.lo - s.unacked);
    assert extra == gaveUp + inFlight;
  }

  /** The set kept from sweep to sweep is the set one sweep alone would find: the
      acknowledged numbers in its snapshot that it did not read. */
  lemma {:induction false} MissingIsFromScratch(states: seq<State>, steps: seq<Step>, i: nat)
    requires IsRun(states, steps) && i < |steps| && steps[i].Finish?
    ensures states[i + 1].missing == states[i].verifier.expected - states[i].verifier.present
  {
    RunKeepsInv(states, steps, i);
  }

  // ----- Loss and recovery reports

  /** The reports about one number, in order: true for a loss. */
  function Reports(sweeps: seq<Sweep>, n: nat): (r: seq<bool>)
  {
    if sweeps == [] then []
    else
      var last := sweeps[|sweeps| - 1];
      Reports(sweeps[..|sweeps| - 1], n) + (if n in last.lost then [true] else []) + (if n in last.resolved then [false] else [])
  }

  ghost predicate Alternates(r: seq<bool>)
  {
    forall i :: 0 <= i < |r| ==> r[i] == (i % 2 == 0)
  }

  ghost predicate ReportedRight(s: State, n: nat)
  {
    var r := Reports(s.sweeps, n);
    Alternates(r) && (n in s.missing <==> |r| % 2 == 1)
  }

  lemma {:induction false} StepReportsRight(s: State, step: Step, n: nat)
    requires Inv(s) && Enabled(s, step) && ReportedRight(s, n)
    ensures ReportedRight(Apply(s, step), n)
  {
    if step.Finish? {
      var sweeps := Apply(s, step).sweeps;
      assert sweeps[..|sweeps| - 1] == s.sweeps;
    }
  }

  /** Over a whole run, the reports about each number strictly alternate, loss
      first, and the last one says whether it is still missing. */
  lemma {:induction false} ReportsAlternate(states: seq<State>, steps: seq<Step>, i: nat, n: nat)
    requires IsRun(states, steps) && i < |states|
    ensures ReportedRight(states[i], n)
  {
    if i > 0 {
      ReportsAlternate(states, steps, i - 1, n);
      RunKeepsInv(states, steps, i - 1);
      StepReportsRight(states[i - 1], steps[i - 1], n);
    }
  }

  // ----- The code of one sweep's last phase

  function Elements(s: seq<nat>): (e: set<nat>)
  {
    set n | n in s
  }

  /** s lists the elements of e, each once. */
  ghost predicate Lists(s: seq<nat>, e: set<nat>)
  {
    (forall i, j :: 0 <= i < j < |s| ==> s[i] != s[j]) && Elements(s) == e
  }

  lemma {:induction false} ListOneMore(s: seq<nat>, e: set<nat>, n: nat)
    requires Lists(s, e) && n !in e
    ensures Lists(s + [n], e + {n})
  {
    ElementsOneMore(s, n);
    assert forall i :: 0 <= i < |s| ==> s[i] in Elements(s);
  }

  lemma {:induction false} ElementsOneMore(s: seq<nat>, n: nat)
    ensures Elements(s + [n]) == Elements(s) + {n}
  {}

  /** finalizeVerifyDiff, given what the second Range returned. */
  method FinalizeVerifyDiff(again: set<nat>, expected: set<nat>, present: set<nat>)
    returns (missing: seq<nat>, extras: nat)
    ensures Lists(missing, expected - present)
    ensures extras == |present - (expected + again)|
  {
    missing := [];
    var todo := expected;
    while todo != {}
      invariant todo <= expected
      invariant Lists(missing, (expected - todo) - present)
    {
      var n :| n in todo;
      if n !in present {
        ListOneMore(missing, (expected - todo) - present, n);
        missing := missing + [n];
      }
      todo := todo - {n};
      assert (expected - todo) - present == (expected - (todo + {n})) - present + (if n in present then {} else {n});
    }
    extras := CountOutside(present, expected + again);
  }

  method CountOutside(present: set<nat>, augmented: set<nat>) returns (extras: nat)
    ensures extras == |present - augmented|
  {
    extras := 0;
    var todo := present;
    while todo != {}
      invariant todo <= present
      invariant extras == |(present - todo) - augmented|
    {
      var n :| n in todo;
      ghost var counted := (present - todo) - augmented;
      todo := todo - {n};
      if n !in augmented {
        extras := extras + 1;
        assert (present - todo) - augmented == counted + {n};
      } else {
        assert (present - todo) - augmented == counted;
      }
    }
  }

  class Verifier {
    var missingSet: set<nat>
    var dataLoss: nat
    var extraRows: nat

    constructor ()
      ensures missingSet == {} && dataLoss == 0 && extraRows == 0
    {
      missingSet, dataLoss, extraRows := {}, 0, 0;
    }

    /** updateMissingSet: two passes over the rolling set, in place. */
    method UpdateMissingSet(thisTick: seq<nat>, present: set<nat>) returns (newly: seq<nat>, resolved: seq<nat>)
      modifies `missingSet
      ensures missingSet == MissingAfter(old(missingSet), Elements(thisTick), present)
      ensures Lists(newly, missingSet - (old(missingSet) - present))
      ensures Lists(resolved, old(missingSet) * present)
    {
      newly, resolved := [], [];
      var todo := missingSet;
      while todo != {}
        invariant todo <= old(missingSet)
        invariant missingSet == old(missingSet) - ((old(missingSet) - todo) * present)
        invariant Lists(resolved, (old(missingSet) - todo) * present)
      {
        var n :| n in todo;
        if n in present {
          ListOneMore(resolved, (old(missingSet) - todo) * present, n);
          resolved := resolved + [n];
          missingSet := missingSet - {n};
        }
        todo := todo - {n};
        assert (old(missingSet) - todo) * present ==
               (old(missingSet) - (todo + {n})) * present + (if n in present then {n} else {});
      }
      ghost var kept := missingSet;
      assert kept == old(missingSet) - present;
      for i := 0 to |thisTick|
        invariant missingSet == kept + Elements(thisTick[..i])
        invariant Lists(newly, missingSet - kept)
      {
        var n := thisTick[i];
        assert thisTick[..i + 1] == thisTick[..i] + [n];
        ElementsOneMore(thisTick[..i], n);
        if n !in missingSet {
          ListOneMore(newly, missingSet - kept, n);
          newly := newly + [n];
          missingSet := missingSet + {n};
          assert missingSet - kept == (missingSet - {n}) - kept + {n};
        }
      }
      assert thisTick[..|thisTick|] == thisTick;
    }

    /** The end of verifyOnce: what the sweep reports and counts.  A snapshot that
        holds everything already missing makes the rolling set the sweep's own. */
    method CompleteSweep(again: set<nat>, expected: set<nat>, present: set<nat>)
      returns (newly: seq<nat>, resolved: seq<nat>)
      modifies this
      ensures missingSet == MissingAfter(old(missingSet), expected - present, present)
      ensures old(missingSet) <= expected ==> missingSet == expected - present
      ensures dataLoss == |missingSet| && extraRows == |present - (expected + again)|
      ensures Lists(newly, missingSet - (old(missingSet) - present))
      ensures Lists(resolved, old(missingSet) * present)
    {
      var missing, extras := FinalizeVerifyDiff(again, expected, present);
      newly, resolved := UpdateMissingSet(missing, present);
      dataLoss := |missingSet|;
      extraRows := extras;
    }
  }
}
