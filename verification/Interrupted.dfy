/** Enforcement passes that a failed journal write cuts short
    (EngineCore::enforce_accounting_locked, src/engine/admission.cpp). */
module Interrupted {
  import opened Base
  import opened Model
  import opened Snapshots
  import opened Ledger
  import opened History
  import opened Evaluate
  import opened Engine
  import opened Invariants
  import opened Enforcement
  import opened CleanRuns
  import opened Frames
  import opened Staleness

  /** The grants a completed pass would take away, below audit number t. */
  ghost function Doomed(s: State, t: nat): set<nat>
    requires Consistent(s)
  {
    set d | d in s.ledger.byDecision && AuditOf(s, d) < t && !Survives(s, d)
  }

  /** The first n journal writes succeed. */
  ghost predicate AllowsFirst(j: JournalState, n: int) {
    j.attached ==> forall i :: 0 <= i < n && i < |j.outcomes| ==> j.outcomes[i]
  }

  // ------------------------------------------------------------------
  // Closed means that nothing doomed is left
  // ------------------------------------------------------------------

  /** A doomed grant that is still there still does not fit: all of its elders
      are there too. */
  lemma StillOverdrawn(s0: State, s: State, t: nat, d: nat)
    requires Consistent(s0) && Settled(s0, s, t) && d in s.ledger.byDecision && !Survives(s0, d)
    ensures !Fits(s.auth, s.ledger, d)
  {
    var now, older := s.ledger.byDecision, UpTo(s0, d);
    assert older <= now.Keys;
    assert Only(now, older) == Only(s0.ledger.byDecision, older);
    var i :| 0 <= i < |s0.ledger.byDecision[d]| &&
      var r := s0.ledger.byDecision[d][i].resource;
      !(Known(s0.auth, r) && PrefixLoad(s0, d, r) <= Allowance(s0.auth, r));
    var r := s0.ledger.byDecision[d][i].resource;
    SumSubset(now, older, OnResource(r));
    assert Admitted(s.ledger, r) == LoadOn(now, r);
    assert !EntryFits(s.auth, s.ledger, now[d][i]);
  }

  /** With nothing doomed left below t the pass is settled all the way down. */
  lemma {:induction false} SettlesOn(s0: State, s: State, ordered: seq<DecisionRecord>, n: nat, t: nat)
    requires Consistent(s0) && Settled(s0, s, t) && Orders(s0, ordered) && SplitAt(ordered, n, t) && Doomed(s0, t) == {}
    ensures Settled(s0, s, 0)
    decreases n
  {
    if n == 0 {
      EndsSettled(s0, s, ordered, t);
    } else {
      var d, u := ordered[n - 1].decision, ordered[n - 1].audit;
      SplitStep(s0, ordered, n, t);
      if d !in s0.ledger.byDecision {
        SkipUnheld(s0, s, ordered, n, t);
      } else {
        HeldPosition(s0, ordered, n, t);
        StillThere(s0, s, d, t);
        assert Survives(s0, d) by {
          assert d !in Doomed(s0, t);
        }
        FitsIffSurvives(s0, s, d, t);
        PassOver(s0, s, d, t);
      }
      assert Doomed(s0, u) <= Doomed(s0, t);
      SettlesOn(s0, s, ordered, n - 1, u);
    }
  }

  lemma SettledCloses(s0: State, s: State, ordered: seq<DecisionRecord>, n: nat, t: nat)
    requires Consistent(s0) && Settled(s0, s, t) && Orders(s0, ordered) && SplitAt(ordered, n, t) && s0.auth.capacity.Some?
    ensures Closed(s) <==> Doomed(s0, t) == {}
  {
    if Doomed(s0, t) == {} {
      SettlesOn(s0, s, ordered, n, t);
    } else {
      var d :| d in Doomed(s0, t);
      StillOverdrawn(s0, s, t, d);
    }
  }

  // ------------------------------------------------------------------
  // How far the pass gets
  // ------------------------------------------------------------------

  predicate Succeeds(j: JournalState, i: nat) {
    j.attached && i < |j.outcomes| ==> j.outcomes[i]
  }

  /** Of the grants below t, only the next record's is not below that record. */
  lemma OnlyNext(s0: State, ordered: seq<DecisionRecord>, n: nat, t: nat, e: nat)
    requires Consistent(s0) && Orders(s0, ordered) && n > 0 && SplitAt(ordered, n, t) && e in s0.ledger.byDecision
    ensures AuditOf(s0, e) < t && e != ordered[n - 1].decision <==> AuditOf(s0, e) < ordered[n - 1].audit
  {
    if ordered[n - 1].audit <= AuditOf(s0, e) < t {
      OrderedNone(s0, ordered, n, t, e);
    }
  }

  lemma DoomedStep(s0: State, ordered: seq<DecisionRecord>, n: nat, t: nat)
    requires Consistent(s0) && Orders(s0, ordered) && n > 0 && SplitAt(ordered, n, t)
    ensures
      var d := ordered[n - 1].decision;
      Doomed(s0, ordered[n - 1].audit) == Doomed(s0, t) - {d} &&
      (d in Doomed(s0, t) <==> d in s0.ledger.byDecision && !Survives(s0, d))
  {
    forall e | e in s0.ledger.byDecision
      ensures AuditOf(s0, e) < t && e != ordered[n - 1].decision <==> AuditOf(s0, e) < ordered[n - 1].audit
    {
      OnlyNext(s0, ordered, n, t, e);
    }
  }

  lemma NoneLeft(s0: State, ordered: seq<DecisionRecord>, t: nat)
    requires Consistent(s0) && Orders(s0, ordered) && SplitAt(ordered, 0, t)
    ensures Doomed(s0, t) == {}
  {
    forall d | d in s0.ledger.byDecision ensures AuditOf(s0, d) >= t {
      assert Listed(s0.history, d);
      assert ordered[Position(ordered, d)].audit >= t;
    }
  }

  /** What a release makes of its two writes. */
  ghost predicate Writes2(s: State, d: nat, st: Status, s1: State) {
    var both := Succeeds(s.journal, 0) && Succeeds(s.journal, 1);
    (st == Ok <==> both) && s1.auth == s.auth && s1.journal.attached == s.journal.attached &&
    s1.ledger == (if Succeeds(s.journal, 0) then ReleasedLoad(s.ledger, d).1 else s.ledger) &&
    (both && s.journal.attached ==> forall i: nat :: Succeeds(s1.journal, i) <==> Succeeds(s.journal, i + 2))
  }

  lemma WriteSucceeds(s: State, r: Record)
    ensures
      var (ok, s1) := Write(s, r);
      (ok <==> Succeeds(s.journal, 0)) && s1 == s.(journal := s1.journal) && s1.journal.attached == s.journal.attached &&
      (s.journal.attached ==> forall i: nat :: Succeeds(s1.journal, i) <==> Succeeds(s.journal, i + 1))
  {}

  lemma ReleaseWrites(s: State, d: nat, reason: RevocationReason)
    requires Orderly(s) && Holds(s.ledger, d)
    ensures
      var (st, s1) := ReleaseDecision(s, d, reason, Revoked);
      Writes2(s, d, st, s1)
  {
    ReleasePositive(s.ledger, d);
    var r := LedgerRelease(ReleaseRecord(d, s.epoch, reason, s.ledger.byDecision[d]));
    var (written, s1) := Write(s, r);
    WriteSucceeds(s, r);
    var l := ReleasedLoad(s1.ledger, d).1;
    WriteSucceeds(s1.(ledger := l), Model.Revocation(RevocationRecord(d, s.epoch, s.audit, reason, Revoked)));
  }

  lemma AllowsShift(j: JournalState, j': JournalState, k: nat)
    requires Succeeds(j, 0) && Succeeds(j, 1) && j'.attached == j.attached && k > 0
    requires j.attached ==> forall i: nat :: Succeeds(j', i) <==> Succeeds(j, i + 2)
    ensures AllowsFirst(j, 2 * k - 1) <==> AllowsFirst(j', 2 * (k - 1) - 1)
  {
    if j.attached {
      AllowsAll(j, 2 * k - 1);
      AllowsAll(j', 2 * (k - 1) - 1);
      if i: nat :| i < 2 * (k - 1) - 1 && !Succeeds(j', i) {
        assert !Succeeds(j, i + 2);
      }
      if i: nat :| i < 2 * k - 1 && !Succeeds(j, i) {
        assert i >= 2 && !Succeeds(j', i - 2);
      }
    }
  }

  lemma AllowsAll(j: JournalState, n: int)
    requires j.attached
    ensures AllowsFirst(j, n) <==> forall i: nat :: i < n ==> Succeeds(j, i)
  {
    if forall i: nat :: i < n ==> Succeeds(j, i) {
      forall i | 0 <= i < n && i < |j.outcomes| ensures j.outcomes[i] {
        assert Succeeds(j, i);
      }
    }
  }

  lemma AllowsStops(j: JournalState, k: nat)
    requires k > 0 && !(Succeeds(j, 0) && Succeeds(j, 1))
    ensures AllowsFirst(j, 2 * k - 1) <==> k == 1 && Succeeds(j, 0)
  {}

  /** At its turn a record is released exactly when it is doomed. */
  lemma DoomedTurn(s0: State, s: State, ordered: seq<DecisionRecord>, n: nat, t: nat)
    requires Consistent(s0) && Settled(s0, s, t) && Orders(s0, ordered) && n > 0 && SplitAt(ordered, n, t)
    ensures
      var r := ordered[n - 1];
      r.decision in Doomed(s0, t) <==>
        Admitting(r.outcome) && Holds(s.ledger, r.decision) && !Fits(s.auth, s.ledger, r.decision)
  {
    var d := ordered[n - 1].decision;
    DoomedStep(s0, ordered, n, t);
    if d in s0.ledger.byDecision {
      HeldPosition(s0, ordered, n, t);
      FitsIffSurvives(s0, s, d, t);
    }
  }

  /** With the k grants doomed before a turn and k' after it. */
  ghost predicate TurnOk(s: State, st: Status, s1: State, k: nat, k': nat) {
    AllowsFirst(s.journal, 2 * k - 1) <==> if st == Ok then AllowsFirst(s1.journal, 2 * k' - 1) else Closed(s1)
  }

  lemma StillDoomed(s0: State, s: State, s1: State, ordered: seq<DecisionRecord>, n: nat, t: nat)
    requires Consistent(s0) && Settled(s0, s, t) && Orders(s0, ordered) && SplitAt(ordered, n, t)
    requires s0.auth.capacity.Some? && Doomed(s0, t) != {} && s1.ledger == s.ledger && s1.auth == s.auth
    ensures !Closed(s1)
  {
    SettledCloses(s0, s, ordered, n, t);
  }

  lemma LastDoomed(s0: State, s: State, s1: State, ordered: seq<DecisionRecord>, n: nat, t: nat, d: nat)
    requires Consistent(s0) && Settled(s0, s, t) && Orders(s0, ordered) && n > 0 && SplitAt(ordered, n, t)
    requires s0.auth.capacity.Some? && d == ordered[n - 1].decision && d in Doomed(s0, t) && d in s.ledger.byDecision
    requires !Fits(s.auth, s.ledger, d) && s1.auth == s.auth && OneGone(s.ledger, s1.ledger, d) && d !in s1.ledger.byDecision
    ensures Closed(s1) <==> |Doomed(s0, t)| == 1
  {
    GoneSettles(s0, s, s1, ordered, n, t, d);
    SettledCloses(s0, s1, ordered, n - 1, ordered[n - 1].audit);
    DoomedStep(s0, ordered, n, t);
    OneLeft(Doomed(s0, t), d);
  }

  lemma OneLeft(a: set<nat>, d: nat)
    requires d in a
    ensures a - {d} == {} <==> |a| == 1
  {
    assert |a - {d}| == |a| - 1;
  }

  lemma GoneSettles(s0: State, s: State, s1: State, ordered: seq<DecisionRecord>, n: nat, t: nat, d: nat)
    requires Consistent(s0) && Settled(s0, s, t) && Orders(s0, ordered) && n > 0 && SplitAt(ordered, n, t)
    requires d == ordered[n - 1].decision && d in s0.ledger.byDecision && d in s.ledger.byDecision
    requires !Fits(s.auth, s.ledger, d) && s1.auth == s.auth && OneGone(s.ledger, s1.ledger, d) && d !in s1.ledger.byDecision
    ensures Settled(s0, s1, ordered[n - 1].audit) && SplitAt(ordered, n - 1, ordered[n - 1].audit)
  {
    HeldPosition(s0, ordered, n, t);
    TakeOut(s0, s, s1, d, t);
    SplitStep(s0, ordered, n, t);
  }

  lemma FailedTurn(s0: State, s: State, reason: RevocationReason, ordered: seq<DecisionRecord>, n: nat, t: nat, d: nat, st: Status, s1: State)
    requires Consistent(s0) && Orderly(s) && Settled(s0, s, t) && Orders(s0, ordered) && n > 0 && SplitAt(ordered, n, t)
    requires s0.auth.capacity.Some? && d == ordered[n - 1].decision && d in Doomed(s0, t) && d in s.ledger.byDecision
    requires !Fits(s.auth, s.ledger, d) && ReleaseDecision(s, d, reason, Revoked) == (st, s1) && st != Ok
    ensures TurnOk(s, st, s1, |Doomed(s0, t)|, |Doomed(s0, t) - {d}|)
  {
    var gone := FailedRelease(s, reason, d, st, s1);
    AllowsStops(s.journal, |Doomed(s0, t)|);
    if gone {
      LastDoomed(s0, s, s1, ordered, n, t, d);
    } else {
      StillDoomed(s0, s, s1, ordered, n, t);
    }
  }

  /** A failed release took the load away exactly when its first write succeeded. */
  lemma FailedRelease(s: State, reason: RevocationReason, d: nat, st: Status, s1: State) returns (gone: bool)
    requires Orderly(s) && d in s.ledger.byDecision && ReleaseDecision(s, d, reason, Revoked) == (st, s1) && st != Ok
    ensures !(Succeeds(s.journal, 0) && Succeeds(s.journal, 1)) && gone == Succeeds(s.journal, 0) && s1.auth == s.auth
    ensures gone ==> OneGone(s.ledger, s1.ledger, d) && d !in s1.ledger.byDecision
    ensures !gone ==> s1.ledger == s.ledger
  {
    gone := Succeeds(s.journal, 0);
    ReleaseWrites(s, d, reason);
    ReleasePositive(s.ledger, d);
    ReleaseConserves(s.ledger, d);
    ReleaseKeeps(s, d, reason, Revoked);
  }

  lemma GoodTurn(s0: State, s: State, reason: RevocationReason, t: nat, d: nat, s1: State)
    requires Consistent(s0) && Orderly(s) && d in Doomed(s0, t) && d in s.ledger.byDecision
    requires ReleaseDecision(s, d, reason, Revoked) == (Ok, s1)
    ensures TurnOk(s, Ok, s1, |Doomed(s0, t)|, |Doomed(s0, t) - {d}|)
  {
    ReleaseWrites(s, d, reason);
    assert |Doomed(s0, t) - {d}| == |Doomed(s0, t)| - 1;
    AllowsShift(s.journal, s1.journal, |Doomed(s0, t)|);
  }

  lemma IdleTurn(s: State, k: nat)
    ensures TurnOk(s, Ok, s, k, k)
  {}

  /** The turn released d, or left everything as it was. */
  ghost predicate Turned(s: State, reason: RevocationReason, d: nat, doomed: bool, st: Status, s1: State) {
    match doomed
    case true => d in s.ledger.byDecision && !Fits(s.auth, s.ledger, d) && ReleaseDecision(s, d, reason, Revoked) == (st, s1)
    case false => st == Ok && s1 == s
  }

  lemma TurnTurns(s0: State, s: State, reason: RevocationReason, ordered: seq<DecisionRecord>, n: nat, t: nat, st: Status, s1: State)
    requires Consistent(s0) && Settled(s0, s, t) && Orders(s0, ordered) && n > 0 && SplitAt(ordered, n, t)
    requires EnforceOne(s, reason, ordered[n - 1]).0 == st && EnforceOne(s, reason, ordered[n - 1]).1 == s1
    ensures Turned(s, reason, ordered[n - 1].decision, ordered[n - 1].decision in Doomed(s0, t), st, s1)
  {
    DoomedTurn(s0, s, ordered, n, t);
  }

  lemma OneTurn(s0: State, s: State, reason: RevocationReason, ordered: seq<DecisionRecord>, n: nat, t: nat, d: nat, st: Status, s1: State)
    requires Consistent(s0) && Orderly(s) && Settled(s0, s, t) && Orders(s0, ordered) && n > 0 && SplitAt(ordered, n, t)
    requires s0.auth.capacity.Some? && d == ordered[n - 1].decision && Turned(s, reason, d, d in Doomed(s0, t), st, s1)
    ensures TurnOk(s, st, s1, |Doomed(s0, t)|, |Doomed(s0, t) - {d}|)
  {
    if d !in Doomed(s0, t) {
      IdleTurn(s, |Doomed(s0, t)|);
      assert Doomed(s0, t) - {d} == Doomed(s0, t);
    } else if st == Ok {
      GoodTurn(s0, s, reason, t, d, s1);
    } else {
      FailedTurn(s0, s, reason, ordered, n, t, d, st, s1);
    }
  }

  /** How far a pass over `start` has come: records ordered[..n] are still ahead,
      all below audit number t, and k of them are doomed. */
  datatype Progress = Progress(start: State, now: State, ordered: seq<DecisionRecord>, n: nat, t: nat, k: nat)

  ghost predicate Midway(p: Progress) {
    match p
    case Progress(s0, s, ordered, n, t, k) =>
      Consistent(s0) && Orderly(s) && Settled(s0, s, t) && Orders(s0, ordered) && SplitAt(ordered, n, t) &&
      s0.auth.capacity.Some? && k == |Doomed(s0, t)|
  }

  /** The rest of the pass ends in s'. */
  ghost predicate Ends(p: Progress, reason: RevocationReason, s': State) {
    match p
    case Progress(_, s, ordered, n, _, _) => n <= |ordered| && EnforceFrom(s, reason, ordered, n).1 == s'
  }

  /** A pass with k doomed grants ahead of it ends with closed accounts exactly
      when all but the last of its 2k release writes succeed. */
  lemma {:induction false} PassClosesIff(p: Progress, reason: RevocationReason, s': State)
    requires Midway(p) && Ends(p, reason, s')
    ensures Closed(s') <==> AllowsFirst(p.now.journal, 2 * p.k - 1)
    decreases p.n
  {
    if p.n == 0 {
      PassEnds(p.start, p.now, p.ordered, p.t);
    } else {
      var st, q := NextTurn(p, reason, s');
      if st == Ok {
        PassClosesIff(q, reason, s');
      }
      TurnJoins(p.now, st, q.now, s', p.k, q.k);
    }
  }

  lemma PassEnds(s0: State, s: State, ordered: seq<DecisionRecord>, t: nat)
    requires Consistent(s0) && Settled(s0, s, t) && Orders(s0, ordered) && SplitAt(ordered, 0, t) && s0.auth.capacity.Some?
    ensures Closed(s) && Doomed(s0, t) == {}
  {
    NoneLeft(s0, ordered, t);
    SettledCloses(s0, s, ordered, 0, t);
  }

  lemma TurnJoins(s: State, st: Status, s1: State, s': State, k: nat, k': nat)
    requires TurnOk(s, st, s1, k, k') && (st != Ok ==> s1 == s') && (st == Ok ==> (Closed(s') <==> AllowsFirst(s1.journal, 2 * k' - 1)))
    ensures Closed(s') <==> AllowsFirst(s.journal, 2 * k - 1)
  {}

  /** The pass after one turn: stopped, or going on from the next record. */
  lemma NextTurn(p: Progress, reason: RevocationReason, s': State) returns (st: Status, q: Progress)
    requires Midway(p) && Ends(p, reason, s') && 0 < p.n
    ensures TurnOk(p.now, st, q.now, p.k, q.k)
    ensures st != Ok ==> q.now == s'
    ensures st == Ok ==> Midway(q) && q.n < p.n && Ends(q, reason, s')
  {
    var r: Progress;
    st, r := OneStep(p, reason, s');
    q := AdvancedTo(p, r.now);
    TurnFacts(p, reason, st, r.now);
    if st == Ok {
      EndsAlike(r, q, reason, s');
      StaysMidway(p, reason, r.now);
    }
  }

  /** The turn of the next record gave this. */
  ghost predicate Took(p: Progress, reason: RevocationReason, st: Status, s1: State) {
    match p
    case Progress(_, s, ordered, n, _, _) =>
      0 < n <= |ordered| && EnforceOne(s, reason, ordered[n - 1]).0 == st && EnforceOne(s, reason, ordered[n - 1]).1 == s1
  }

  /** Progress after the turn of the next record. */
  ghost function Advanced(p: Progress, s1: State): Progress
    requires Midway(p) && 0 < p.n <= |p.ordered|
  {
    p.(now := s1, n := p.n - 1, t := p.ordered[p.n - 1].audit, k := |Doomed(p.start, p.ordered[p.n - 1].audit)|)
  }

  lemma OneStep(p: Progress, reason: RevocationReason, s': State) returns (st: Status, r: Progress)
    requires Ends(p, reason, s') && 0 < p.n
    ensures Took(p, reason, st, r.now) && r.ordered == p.ordered && r.n == p.n - 1 && p.n <= |p.ordered|
    ensures if st == Ok then Ends(r, reason, s') else r.now == s'
  {
    EndsWhere(p, reason, s');
    var s1: State;
    st, s1 := FirstOf(p.now, reason, p.ordered, p.n, s');
    TookWhat(p, reason, st, s1);
    r := p.(now := s1, n := p.n - 1);
    if st == Ok {
      EndsThere(r, reason, s');
    }
  }

  lemma EndsWhere(p: Progress, reason: RevocationReason, s': State)
    requires Ends(p, reason, s')
    ensures p.n <= |p.ordered| && EnforceFrom(p.now, reason, p.ordered, p.n).1 == s'
  {}

  lemma TookWhat(p: Progress, reason: RevocationReason, st: Status, s1: State)
    requires 0 < p.n <= |p.ordered|
    requires EnforceOne(p.now, reason, p.ordered[p.n - 1]).0 == st && EnforceOne(p.now, reason, p.ordered[p.n - 1]).1 == s1
    ensures Took(p, reason, st, s1)
  {}

  lemma EndsThere(q: Progress, reason: RevocationReason, s': State)
    requires q.n <= |q.ordered| && EnforceFrom(q.now, reason, q.ordered, q.n).1 == s'
    ensures Ends(q, reason, s')
  {}

  /** How a pass ends depends on where it is, not on where it began. */
  lemma EndsAlike(r: Progress, q: Progress, reason: RevocationReason, s': State)
    requires Ends(r, reason, s') && q.now == r.now && q.ordered == r.ordered && q.n == r.n
    ensures Ends(q, reason, s')
  {}

  lemma AdvancedTo(p: Progress, s1: State) returns (q: Progress)
    requires Midway(p) && 0 < p.n <= |p.ordered|
    ensures q == Advanced(p, s1) && q.now == s1 && q.ordered == p.ordered && q.n == p.n - 1
  {
    q := Advanced(p, s1);
  }

  lemma FirstOf(s: State, reason: RevocationReason, ordered: seq<DecisionRecord>, n: nat, s': State) returns (st: Status, s1: State)
    requires 0 < n <= |ordered| && EnforceFrom(s, reason, ordered, n).1 == s'
    ensures EnforceOne(s, reason, ordered[n - 1]).0 == st && EnforceOne(s, reason, ordered[n - 1]).1 == s1
    ensures if st == Ok then EnforceFrom(s1, reason, ordered, n - 1).1 == s' else s1 == s'
  {
    st, s1 := EnforceOne(s, reason, ordered[n - 1]).0, EnforceOne(s, reason, ordered[n - 1]).1;
  }

  lemma TurnFacts(p: Progress, reason: RevocationReason, st: Status, s1: State)
    requires Midway(p) && Took(p, reason, st, s1)
    ensures TurnOk(p.now, st, s1, p.k, Advanced(p, s1).k)
  {
    TurnTurns(p.start, p.now, reason, p.ordered, p.n, p.t, st, s1);
    OneTurn(p.start, p.now, reason, p.ordered, p.n, p.t, p.ordered[p.n - 1].decision, st, s1);
    CountStep(p, s1);
  }

  lemma CountStep(p: Progress, s1: State)
    requires Midway(p) && 0 < p.n <= |p.ordered|
    ensures p.k == |Doomed(p.start, p.t)| && Advanced(p, s1).k == |Doomed(p.start, p.t) - {p.ordered[p.n - 1].decision}|
  {
    DoomedStep(p.start, p.ordered, p.n, p.t);
  }

  lemma StaysMidway(p: Progress, reason: RevocationReason, s1: State)
    requires Midway(p) && Took(p, reason, Ok, s1)
    ensures Midway(Advanced(p, s1))
  {
    SplitStep(p.start, p.ordered, p.n, p.t);
    PassGoesOn(p.start, p.now, reason, p.ordered, p.n, p.t, s1);
    StillMidway(p, s1);
  }

  lemma StillMidway(p: Progress, s1: State)
    requires Midway(p) && 0 < p.n <= |p.ordered| && Orderly(s1) && Settled(p.start, s1, p.ordered[p.n - 1].audit)
    requires SplitAt(p.ordered, p.n - 1, p.ordered[p.n - 1].audit)
    ensures Midway(Advanced(p, s1))
  {}

  lemma PassGoesOn(s0: State, s: State, reason: RevocationReason, ordered: seq<DecisionRecord>, n: nat, t: nat, s1: State)
    requires Consistent(s0) && Orderly(s) && Settled(s0, s, t) && Orders(s0, ordered) && n > 0 && SplitAt(ordered, n, t)
    requires EnforceOne(s, reason, ordered[n - 1]).0 == Ok && EnforceOne(s, reason, ordered[n - 1]).1 == s1
    ensures Orderly(s1) && Settled(s0, s1, ordered[n - 1].audit)
  {
    var u := EnforceOneSettles(s0, s, reason, ordered, n, t);
    EnforceOneOrderly(s, reason, ordered[n - 1]);
  }

  // ------------------------------------------------------------------
  // The whole pass, and publishing again after it failed
  // ------------------------------------------------------------------

  /** Every grant a completed pass would take away. */
  ghost function Casualties(s: State): set<nat>
    requires Consistent(s)
  {
    set d | d in s.ledger.byDecision && !Survives(s, d)
  }

  lemma AllDoomed(s: State)
    requires Consistent(s)
    ensures Doomed(s, s.audit + 1) == Casualties(s)
  {
    forall d | d in s.ledger.byDecision ensures AuditOf(s, d) < s.audit {
      assert Listed(s.history, d);
    }
  }

  lemma FlagsClosed(s: State)
    ensures Closed(Cleared(s)) <==> Closed(s)
  {
    var l' := Flagged(s.ledger, false);
    forall d | d in s.ledger.byDecision ensures Fits(s.auth, l', d) <==> Fits(s.auth, s.ledger, d) {
      FlagsFit(s.auth, s.ledger, l', d);
    }
  }

  lemma FlagsFit(auth: Authorities, l: LedgerState, l': LedgerState, d: nat)
    requires l' == Flagged(l, false) && d in l.byDecision
    ensures Fits(auth, l', d) <==> Fits(auth, l, d)
  {
    forall i | 0 <= i < |l.byDecision[d]| ensures EntryFits(auth, l', l'.byDecision[d][i]) <==> EntryFits(auth, l, l.byDecision[d][i]) {}
  }

  lemma FinishClosed(st: Status, s: State, revoked: nat)
    ensures Closed(FinishEnforcement(st, s, revoked).1) <==> Closed(s)
  {
    FlagsClosed(s);
  }

  /** Enforcement leaves the accounts closed, whatever it returns, exactly when
      the journal takes the release record of every casualty and every other
      record up to the last of these. */
  lemma EnforceClosesIff(s: State, reason: RevocationReason)
    requires Orderly(s) && s.auth.capacity.Some?
    ensures Closed(Enforce(s, reason).1) <==> AllowsFirst(s.journal, 2 * |Casualties(s)| - 1)
  {
    var ordered := InAuditOrder(s.history);
    AuditOrderOrders(s);
    StartsSettled(s, ordered);
    AllDoomed(s);
    var (st, s1, k) := EnforceFrom(s, reason, ordered, |ordered|);
    PassClosesIff(Progress(s, s, ordered, |ordered|, s.audit + 1, |Casualties(s)|), reason, s1);
    FinishClosed(st, s1, k);
  }

  ghost function Imposed(s: State, c: CapacitySnapshot): State {
    s.(auth := s.auth.(capacity := Some(c)), tick := Later(s.tick, c.observedTick))
  }

  lemma Repeated(s: State, c: CapacitySnapshot)
    requires ValidCapacity(c) && s.epoch != 0 && c.epoch == s.epoch && CapacityFreshness(s.auth, c).Advances?
    ensures
      var s1 := PublishCapacity(s, c).1;
      s1 == Enforce(Imposed(s, c), CapacityReduction).1 && PublishCapacity(s1, c) == (Ok, s1)
  {
    EnforceAuth(Imposed(s, c), CapacityReduction);
    EnforceSteady(Imposed(s, c), CapacityReduction);
  }

  /** Departure: publishing again a snapshot whose enforcement failed returns Ok
      and enforces nothing. The accounts are then closed exactly when the first
      call's journal writes reached the release of its last casualty. */
  lemma RepublishedClosedIff(s: State, c: CapacitySnapshot)
    requires Orderly(s) && ValidCapacity(c) && s.epoch != 0 && c.epoch == s.epoch && CapacityFreshness(s.auth, c).Advances?
    ensures
      var s1 := PublishCapacity(s, c).1;
      PublishCapacity(s1, c) == (Ok, s1) && Consistent(Imposed(s, c)) &&
      (Closed(s1) <==> AllowsFirst(s.journal, 2 * |Casualties(Imposed(s, c))| - 1))
  {
    Repeated(s, c);
    ImposedOrderly(s, c);
    EnforceClosesIff(Imposed(s, c), CapacityReduction);
  }

  lemma ImposedOrderly(s: State, c: CapacitySnapshot)
    requires Orderly(s) && ValidCapacity(c)
    ensures Orderly(Imposed(s, c))
  {}

  ghost function ImposedReservations(s: State, r: ReservationSnapshot): State {
    s.(auth := s.auth.(reservations := Some(r)), tick := Later(s.tick, r.observedTick))
  }

  lemma RepeatedReservations(s: State, r: ReservationSnapshot)
    requires ValidReservations(r) && s.epoch != 0 && ReservationFreshness(s.auth, r).Advances?
    ensures
      var s1 := PublishReservations(s, r).1;
      s1 == Enforce(ImposedReservations(s, r), ObligationChange).1 && PublishReservations(s1, r) == (Ok, s1)
  {
    EnforceAuth(ImposedReservations(s, r), ObligationChange);
    EnforceSteady(ImposedReservations(s, r), ObligationChange);
  }

  lemma ReservationsOrderlyIn(s: State, r: ReservationSnapshot)
    requires Orderly(s) && ValidReservations(r)
    ensures Orderly(ImposedReservations(s, r))
  {}

  /** The same for reservations. */
  lemma RepublishedReservationsClosedIff(s: State, r: ReservationSnapshot)
    requires Orderly(s) && s.auth.capacity.Some? && ValidReservations(r) && s.epoch != 0 && ReservationFreshness(s.auth, r).Advances?
    ensures
      var s1 := PublishReservations(s, r).1;
      PublishReservations(s1, r) == (Ok, s1) && Consistent(ImposedReservations(s, r)) &&
      (Closed(s1) <==> AllowsFirst(s.journal, 2 * |Casualties(ImposedReservations(s, r))| - 1))
  {
    RepeatedReservations(s, r);
    ReservationsOrderlyIn(s, r);
    EnforceClosesIff(ImposedReservations(s, r), ObligationChange);
  }

  /** The policy in force, its record written. */
  ghost function ImposedPolicy(s: State, p: Policy): State {
    var s1 := Write(s, PolicyConfig(p)).1;
    s1.(auth := s1.auth.(policy := Some(p)), tick := Later(s1.tick, p.observedTick))
  }

  lemma RepeatedPolicy(s: State, p: Policy)
    requires ValidPolicy(p) && s.epoch != 0 && p.epoch == s.epoch && PolicyFreshness(s.auth, p).Advances? && Succeeds(s.journal, 0)
    ensures
      var s1 := PublishPolicy(s, p).1;
      s1 == Enforce(ImposedPolicy(s, p), PolicyChange).1 && PublishPolicy(s1, p) == (Ok, s1)
  {
    WriteSucceeds(s, PolicyConfig(p));
    EnforceAuth(ImposedPolicy(s, p), PolicyChange);
    EnforceSteady(ImposedPolicy(s, p), PolicyChange);
  }

  lemma PolicyOrderlyIn(s: State, p: Policy)
    requires Orderly(s) && ValidPolicy(p)
    ensures Orderly(ImposedPolicy(s, p))
  {}

  /** One write more allows one write more. */
  lemma AllowsAfterWrite(s: State, r: Record, k: nat)
    requires Succeeds(s.journal, 0)
    ensures AllowsFirst(Write(s, r).1.journal, 2 * k - 1) <==> AllowsFirst(s.journal, 2 * k)
  {
    var j, j' := s.journal, Write(s, r).1.journal;
    WriteSucceeds(s, r);
    if j.attached {
      AllowsAll(j, 2 * k);
      AllowsAll(j', 2 * k - 1);
      if i: nat :| i < 2 * k && !Succeeds(j, i) {
        assert i >= 1 && !Succeeds(j', i - 1);
      }
      if i: nat :| i < 2 * k - 1 && !Succeeds(j', i) {
        assert !Succeeds(j, i + 1);
      }
    }
  }

  /** Nearly the same for a policy: its own record is written first. Once that
      has succeeded, publishing it again enforces nothing; until then it is not in
      force and publishing it again starts afresh. */
  lemma RepublishedPolicyClosedIff(s: State, p: Policy)
    requires Orderly(s) && s.auth.capacity.Some? && ValidPolicy(p) && s.epoch != 0 && p.epoch == s.epoch && PolicyFreshness(s.auth, p).Advances?
    ensures
      var (st, s1) := PublishPolicy(s, p);
      Consistent(ImposedPolicy(s, p)) &&
      if Succeeds(s.journal, 0)
      then PublishPolicy(s1, p) == (Ok, s1) && (Closed(s1) <==> AllowsFirst(s.journal, 2 * |Casualties(ImposedPolicy(s, p))|))
      else st == DurableFailure && s1.auth == s.auth && PolicyFreshness(s1.auth, p).Advances?
  {
    PolicyOrderlyIn(s, p);
    if Succeeds(s.journal, 0) {
      RepeatedPolicy(s, p);
      EnforceClosesIff(ImposedPolicy(s, p), PolicyChange);
      AllowsAfterWrite(s, PolicyConfig(p), |Casualties(ImposedPolicy(s, p))|);
    } else {
      WriteSucceeds(s, PolicyConfig(p));
    }
  }
}
