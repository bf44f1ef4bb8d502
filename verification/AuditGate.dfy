/**
  The audit sinks and the gate that closes mutating operations while a sink fails
  (internal/control/audit.go), as the HTTP control plane (internal/control/server.go)
  and the leader's responder (internal/control/responder.go) use it. Requests are
  taken one after the other, and every one emits at most one record.
 */
module AuditGate {

  /** Which publishing sinks an emitter has besides the log. */
  datatype Wiring = Wiring(bus: bool, history: bool)

  /** How the sinks take one record.  A record is made of strings and integers, so
      that encoding it never fails. */
  datatype Sinks = Sinks(busAccepts: bool, historyAccepts: bool)

  /** The failure counters. */
  datatype Gate = Gate(natsFailures: nat, historyFailures: nat)

  const FRESH: Gate := Gate(0, 0)

  predicate Open(g: Gate)
  {
    g.natsFailures == 0 && g.historyFailures == 0
  }

  /** Every wired sink has the record. */
  predicate Recorded(w: Wiring, s: Sinks)
  {
    (w.bus ==> s.busAccepts) && (w.history ==> s.historyAccepts)
  }

  function AfterEmit(w: Wiring, g: Gate, s: Sinks): (h: Gate)
  {
    Gate(if !w.bus then g.natsFailures else if s.busAccepts then 0 else g.natsFailures + 1,
         if !w.history then g.historyFailures else if s.historyAccepts then 0 else g.historyFailures + 1)
  }

  class Audit {
    const wiring: Wiring
    var natsFailures: nat
    var historyFailures: nat

    constructor (wiring: Wiring)
      ensures this.wiring == wiring && Counters() == FRESH
    {
      this.wiring := wiring;
      natsFailures, historyFailures := 0, 0;
    }

    function Counters(): (g: Gate)
      reads this
    {
      Gate(natsFailures, historyFailures)
    }

    predicate Healthy()
      reads this
      ensures Healthy() <==> Open(Counters())
    {
      natsFailures == 0 && historyFailures == 0
    }

    method Emit(s: Sinks) returns (ok: bool)
      modifies this
      ensures Counters() == AfterEmit(wiring, old(Counters()), s)
      ensures ok <==> Recorded(wiring, s)
      ensures !ok ==> !Healthy()
    {
      ok := true;
      if wiring.bus {
        if !s.busAccepts {
          natsFailures := natsFailures + 1;
          ok := false;
        } else {
          natsFailures := 0;
        }
      }
      if wiring.history {
        if !s.historyAccepts {
          historyFailures := historyFailures + 1;
          ok := false;
        } else {
          historyFailures := 0;
        }
      }
    }
  }

  // ----- Runs of emissions

  function AfterAll(w: Wiring, g: Gate, es: seq<Sinks>): (h: Gate)
  {
    if es == [] then g else AfterEmit(w, AfterAll(w, g, es[..|es| - 1]), es[|es| - 1])
  }

  lemma {:induction false} CountersAfter(w: Wiring, es: seq<Sinks>)
    ensures var h := AfterAll(w, FRESH, es);
            && (h.natsFailures == 0 <==> es == [] || !w.bus || es[|es| - 1].busAccepts)
            && (h.historyFailures == 0 <==> es == [] || !w.history || es[|es| - 1].historyAccepts)
  {
    if es != [] {
      CountersAfter(w, es[..|es| - 1]);
    }
  }

  /** After any run of records the gate is open exactly when there was none or the
      last one reached every wired sink. */
  lemma {:induction false} OpenIffLastRecorded(w: Wiring, es: seq<Sinks>)
    ensures Open(AfterAll(w, FRESH, es)) <==> es == [] || Recorded(w, es[|es| - 1])
  {
    CountersAfter(w, es);
  }

  // ----- Requests

  /** What the handler does once it runs: turn the body down, or do the work. */
  datatype Work = Invalid | Done

  datatype Request =
      // auth: the credentials verify; audited: the handler of a read writes a record
    | Http(mutating: bool, leaderOnly: bool, auth: bool, leader: bool, redirects: bool, leaderKnown: bool, work: Work,
           audited: bool)
      // a mutating operation handed on by another peer
    | Forwarded(known: bool, leader: bool, work: Work)

  datatype Outcome = AuthRefused | GateRefused | NoLeader | Redirected | Rejected | LetThrough | Ignored

  predicate Mutating(q: Request)
  {
    q.Forwarded? || q.mutating
  }

  /** What becomes of a request, in the order of the gates. */
  function Decide(unauthReads: bool, g: Gate, q: Request): (o: Outcome)
    ensures o == LetThrough && Mutating(q) ==> Open(g) && if q.Http? then q.auth else q.leader && q.known
    ensures o == GateRefused ==> !Open(g) && Mutating(q)
  {
    match q
    case Forwarded(known, leader, work) =>
      if !leader || !known then Ignored
      else if !Open(g) then GateRefused
      else if work == Invalid then Rejected
      else LetThrough
    case Http(mutating, leaderOnly, auth, leader, redirects, leaderKnown, work, _) =>
      if (mutating || !unauthReads) && !auth then AuthRefused
      else if mutating && !Open(g) then GateRefused
      else if leaderOnly && !leader && redirects then (if leaderKnown then Redirected else NoLeader)
      else if work == Invalid then Rejected
      else LetThrough
  }

  /** An HTTP request whose credentials are good enough. */
  predicate MayAsk(unauthReads: bool, q: Request)
    requires q.Http?
  {
    q.auth || (unauthReads && !q.mutating)
  }

  /** Which requests end how.  A mutation needs credentials that verify, always, and an
      open gate; reads need credentials unless they are let in without. */
  lemma {:induction false} DecideMeaning(unauthReads: bool, g: Gate, q: Request)
    ensures var o := Decide(unauthReads, g, q);
            var elsewhere := q.Http? && q.leaderOnly && !q.leader && q.redirects;
            var asked := if q.Http? then MayAsk(unauthReads, q) else q.leader && q.known;
            var passed := asked && (Mutating(q) ==> Open(g));
            && (o == AuthRefused <==> q.Http? && !asked)
            && (o == Ignored <==> q.Forwarded? && !asked)
            && (o == GateRefused <==> asked && Mutating(q) && !Open(g))
            && (o == Redirected <==> passed && elsewhere && q.leaderKnown)
            && (o == NoLeader <==> passed && elsewhere && !q.leaderKnown)
            && (o == Rejected <==> passed && !elsewhere && q.work == Invalid)
            && (o == LetThrough <==> passed && !elsewhere && q.work == Done)
  {}

  /** Every request leaves one record, but for reads whose handler leaves none and
      forwarded messages nobody answers. */
  predicate Emits(o: Outcome, q: Request)
  {
    o != Ignored && (o == LetThrough && !Mutating(q) ==> q.Http? && q.audited)
  }

  /** Refused or not, a mutation somebody answers leaves a record; so does every read
      that is turned away. */
  lemma {:induction false} EmitsMeaning(unauthReads: bool, g: Gate, q: Request)
    ensures Emits(Decide(unauthReads, g, q), q) <==>
            match q
            case Forwarded(known, leader, _) => leader && known
            case Http(mutating, leaderOnly, _, leader, redirects, _, work, audited) =>
              || mutating || audited || !MayAsk(unauthReads, q) || (leaderOnly && !leader && redirects) || work == Invalid
  {}

  function After(w: Wiring, unauthReads: bool, g: Gate, q: Request, s: Sinks): (h: Gate)
  {
    if Emits(Decide(unauthReads, g, q), q) then AfterEmit(w, g, s) else g
  }

  /** The control plane of one node. */
  class Server {
    const audit: Audit
    const unauthReads: bool
    var engineCalls: seq<Request>

    constructor (audit: Audit, unauthReads: bool)
      ensures this.audit == audit && this.unauthReads == unauthReads && engineCalls == []
    {
      this.audit, this.unauthReads, engineCalls := audit, unauthReads, [];
    }

    method Refuse(o: Outcome, s: Sinks) returns (outcome: Outcome)
      modifies audit
      ensures outcome == o && audit.Counters() == AfterEmit(audit.wiring, old(audit.Counters()), s)
    {
      var _ := audit.Emit(s);
      outcome := o;
    }

    method Wrap(q: Request, s: Sinks) returns (o: Outcome)
      requires q.Http?
      modifies this, audit
      ensures o == Decide(unauthReads, old(audit.Counters()), q)
      ensures audit.Counters() == After(audit.wiring, unauthReads, old(audit.Counters()), q, s)
      ensures engineCalls == old(engineCalls) + if o == LetThrough then [q] else []
      ensures engineCalls != old(engineCalls) ==> MayAsk(unauthReads, q) && (q.mutating ==> q.auth && old(audit.Healthy()))
    {
      if (q.mutating || !unauthReads) && !q.auth {
        o := Refuse(AuthRefused, s);
        return;
      }
      if q.mutating && !audit.Healthy() {
        o := Refuse(GateRefused, s);
        return;
      }
      if q.leaderOnly && !q.leader && q.redirects {
        if !q.leaderKnown {
          o := Refuse(NoLeader, s);
          return;
        }
        var _ := audit.Emit(s);
        return Redirected;
      }
      if q.work == Invalid {
        o := Refuse(Rejected, s);
        return;
      }
      engineCalls := engineCalls + [q];
      if q.mutating || q.audited {
        var _ := audit.Emit(s);
      }
      o := LetThrough;
    }

    method HandleForwarded(q: Request, s: Sinks) returns (o: Outcome)
      requires q.Forwarded?
      modifies this, audit
      ensures o == Decide(unauthReads, old(audit.Counters()), q)
      ensures audit.Counters() == After(audit.wiring, unauthReads, old(audit.Counters()), q, s)
      ensures engineCalls == old(engineCalls) + if o == LetThrough then [q] else []
    {
      if !q.leader || !q.known {
        return Ignored;
      }
      if !audit.Healthy() {
        o := Refuse(GateRefused, s);
        return;
      }
      if q.work == Done {
        engineCalls := engineCalls + [q];
      }
      var _ := audit.Emit(s);
      o := if q.work == Done then LetThrough else Rejected;
    }
  }

  // ----- Runs of requests

  /** A request and how the sinks take its record. */
  datatype Step = Step(q: Request, s: Sinks)

  /** One node's settings and the requests it gets. */
  datatype Run = Run(wiring: Wiring, unauthReads: bool, steps: seq<Step>)

  /** The counters before step k. */
  function GateAt(r: Run, k: nat): (g: Gate)
    requires k <= |r.steps|
  {
    if k == 0 then FRESH else After(r.wiring, r.unauthReads, GateAt(r, k - 1), r.steps[k - 1].q, r.steps[k - 1].s)
  }

  function OutcomeAt(r: Run, k: nat): (o: Outcome)
    requires k < |r.steps|
  {
    Decide(r.unauthReads, GateAt(r, k), r.steps[k].q)
  }

  predicate EmitsAt(r: Run, k: nat)
    requires k < |r.steps|
  {
    Emits(OutcomeAt(r, k), r.steps[k].q)
  }

  /** Step k leaves a record that reaches every wired sink. */
  predicate RecordedAt(r: Run, k: nat)
    requires k < |r.steps|
  {
    EmitsAt(r, k) && Recorded(r.wiring, r.steps[k].s)
  }

  /** Step k is a mutation that reaches the engine, here or at the leader. */
  predicate MutatesAt(r: Run, k: nat)
    requires k < |r.steps|
  {
    OutcomeAt(r, k) == LetThrough && Mutating(r.steps[k].q)
  }

  /** The records emitted before step k. */
  function EmittedBefore(r: Run, k: nat): (es: seq<Sinks>)
    requires k <= |r.steps|
  {
    if k == 0 then [] else EmittedBefore(r, k - 1) + if EmitsAt(r, k - 1) then [r.steps[k - 1].s] else []
  }

  lemma {:induction false} GateFoldsEmissions(r: Run, k: nat)
    requires k <= |r.steps|
    ensures GateAt(r, k) == AfterAll(r.wiring, FRESH, EmittedBefore(r, k))
  {
    if k > 0 {
      GateFoldsEmissions(r, k - 1);
      var es := EmittedBefore(r, k - 1);
      if EmitsAt(r, k - 1) {
        assert EmittedBefore(r, k)[..|es|] == es;
      } else {
        assert EmittedBefore(r, k) == es;
      }
    }
  }

  /** A mutation reaches the engine only if the last record before it reached every
      wired sink, and the gate turns a request away only if it did not. */
  lemma {:induction false} MutationsFollowRecords(r: Run, k: nat)
    requires k < |r.steps|
    ensures var es := EmittedBefore(r, k);
            var good := es == [] || Recorded(r.wiring, es[|es| - 1]);
            && (MutatesAt(r, k) ==> good)
            && (OutcomeAt(r, k) == GateRefused ==> !good)
  {
    GateFoldsEmissions(r, k);
    OpenIffLastRecorded(r.wiring, EmittedBefore(r, k));
  }

  /** In every run an HTTP mutation that reaches the engine has credentials that verify,
      and a forwarded one reaches it only at the leader. */
  lemma {:induction false} MutationsAreAuthenticated(r: Run, k: nat)
    requires k < |r.steps| && MutatesAt(r, k)
    ensures var q := r.steps[k].q; (q.Http? ==> q.auth) && (q.Forwarded? ==> q.leader && q.known) && q.work == Done
  {
    DecideMeaning(r.unauthReads, GateAt(r, k), r.steps[k].q);
  }

  /** Between a shut gate and an open one lies a record that reached every sink. */
  lemma {:induction false} OpeningNeedsARecord(r: Run, i: nat, j: nat)
    requires i <= j <= |r.steps| && !Open(GateAt(r, i)) && Open(GateAt(r, j))
    ensures exists k :: i <= k < j && RecordedAt(r, k)
    decreases j - i
  {
    if Open(GateAt(r, i + 1)) {
      assert RecordedAt(r, i);
    } else {
      OpeningNeedsARecord(r, i + 1, j);
    }
  }

  /** Between two mutations the first of which was not recorded, some request was. */
  lemma {:induction false} RecordBetweenMutations(r: Run, i: nat, j: nat)
    requires i < j < |r.steps| && MutatesAt(r, i) && MutatesAt(r, j) && !RecordedAt(r, i)
    ensures exists k :: i < k < j && RecordedAt(r, k)
  {
    assert !Open(GateAt(r, i + 1));
    OpeningNeedsARecord(r, i + 1, j);
  }

  /** The sinks take every record from step k on. */
  predicate SinksUpFrom(r: Run, k: nat)
  {
    forall i :: k <= i < |r.steps| ==> Recorded(r.wiring, r.steps[i].s)
  }

  lemma {:induction false} StaysOpen(r: Run, k: nat, j: nat)
    requires k <= j <= |r.steps| && SinksUpFrom(r, k) && Open(GateAt(r, k))
    ensures Open(GateAt(r, j))
    decreases j - k
  {
    if k < j {
      StaysOpen(r, k, j - 1);
    }
  }

  /** Once the sinks are up, the gate turns away at most one request. */
  lemma {:induction false} AtMostOneRefused(r: Run, k: nat, i: nat, j: nat)
    requires k <= i < j < |r.steps| && SinksUpFrom(r, k)
    ensures !(OutcomeAt(r, i) == GateRefused && OutcomeAt(r, j) == GateRefused)
  {
    if OutcomeAt(r, i) == GateRefused {
      UnwiredIsQuiet(r, i);
      assert Open(GateAt(r, i + 1));
      StaysOpen(r, i + 1, j);
    }
  }

  lemma {:induction false} UnwiredIsQuiet(r: Run, k: nat)
    requires k <= |r.steps|
    ensures !r.wiring.bus ==> GateAt(r, k).natsFailures == 0
    ensures !r.wiring.history ==> GateAt(r, k).historyFailures == 0
  {
    if k > 0 {
      UnwiredIsQuiet(r, k - 1);
    }
  }
}
