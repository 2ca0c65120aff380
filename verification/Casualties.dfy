/** What a completed enforcement pass leaves of the grants it takes away, besides
    the ledger (EngineCore::enforce_accounting_locked, src/engine/admission.cpp). */
module Casualties {
  import opened Base
  import opened Model
  import opened Ledger
  import opened History
  import opened Engine
  import opened Invariants
  import opened Enforcement
  import opened Closure
  import opened Revocations
  import opened Revalidations
  import opened Publications

  predicate Gone(s: State, s': State, d: nat) {
    d in s.ledger.byDecision && d !in s'.ledger.byDecision
  }

  /** The records of the grants taken away, and no others, are marked with the
      reason, and their decisions are forgotten. */
  ghost predicate MarkedGone(s: State, s': State, reason: RevocationReason) {
    s'.history.records.Keys == s.history.records.Keys &&
    (forall d :: d in s.history.records ==>
      s'.history.records[d] ==
        (if Gone(s, s', d) then s.history.records[d].(state := Revoked, reason := reason, ledgerLive := false) else s.history.records[d])) &&
    (forall d :: d in s'.cache <==> d in s.cache && !Gone(s, s', d)) && (forall d :: d in s'.cache ==> s'.cache[d] == s.cache[d])
  }

  /** The journal has the release and the revocation of d, one after the other. */
  ghost predicate TellsGone(s: State, log: seq<Record>, d: nat, reason: RevocationReason)
    requires d in s.ledger.byDecision
  {
    exists i :: |s.journal.log| <= i < |log| - 1 && log[i] == ReleaseNote(s, d, reason) && log[i + 1] == MarkNote(s, d, reason, Revoked)
  }

  ghost predicate JournaledGone(s: State, s': State, reason: RevocationReason) {
    s'.journal.attached == s.journal.attached &&
    (s.journal.attached ==>
      s.journal.log <= s'.journal.log && forall d :: Gone(s, s', d) ==> TellsGone(s, s'.journal.log, d, reason))
  }

  /** The pass so far, every release of which went through. */
  ghost predicate PassLeaves(s: State, s': State, reason: RevocationReason) {
    MarkedGone(s, s', reason) && JournaledGone(s, s', reason) && LedgerShrinks(s.ledger, s'.ledger) &&
    s'.epoch == s.epoch && s'.audit == s.audit && s'.pendingReconciliation == s.pendingReconciliation
  }

  lemma NothingGone(s: State, reason: RevocationReason)
    requires Conserved(s.ledger)
    ensures PassLeaves(s, s, reason)
  {}

  lemma ToldStill(s: State, log: seq<Record>, more: seq<Record>, d: nat, reason: RevocationReason)
    requires d in s.ledger.byDecision && TellsGone(s, log, d, reason) && log <= more
    ensures TellsGone(s, more, d, reason)
  {
    var i :| |s.journal.log| <= i < |log| - 1 && log[i] == ReleaseNote(s, d, reason) && log[i + 1] == MarkNote(s, d, reason, Revoked);
    assert more[i] == log[i] && more[i + 1] == log[i + 1];
  }

  lemma ToldNow(s: State, s1: State, s2: State, d: nat, reason: RevocationReason)
    requires d in s.ledger.byDecision && d in s1.ledger.byDecision && s1.ledger.byDecision[d] == s.ledger.byDecision[d]
    requires s1.epoch == s.epoch && s1.audit == s.audit && s.journal.log <= s1.journal.log
    requires s2.journal.log == s1.journal.log + [ReleaseNote(s1, d, reason), MarkNote(s1, d, reason, Revoked)]
    ensures TellsGone(s, s2.journal.log, d, reason)
  {
    var i := |s1.journal.log|;
    assert s2.journal.log[i] == ReleaseNote(s, d, reason) && s2.journal.log[i + 1] == MarkNote(s, d, reason, Revoked);
  }

  lemma RemovedShrinks(s: State, s': State, d: nat, reason: RevocationReason)
    requires Consistent(s) && Consistent(s') && d in s.ledger.byDecision && Removed(s, s', d, reason)
    ensures LedgerShrinks(s.ledger, s'.ledger)
  {}

  lemma OneMarked(s: State, s1: State, s2: State, d: nat, reason: RevocationReason)
    requires MarkedGone(s, s1, reason) && LedgerShrinks(s.ledger, s1.ledger) && d in s1.ledger.byDecision && Removed(s1, s2, d, reason)
    ensures MarkedGone(s, s2, reason)
  {
    assert forall e :: Gone(s, s2, e) <==> Gone(s, s1, e) || e == d;
  }

  lemma OneJournaled(s: State, s1: State, s2: State, d: nat, reason: RevocationReason)
    requires JournaledGone(s, s1, reason) && LedgerShrinks(s.ledger, s1.ledger) && d in s1.ledger.byDecision && Removed(s1, s2, d, reason)
    requires s1.epoch == s.epoch && s1.audit == s.audit
    ensures JournaledGone(s, s2, reason)
  {
    if s.journal.attached {
      assert s1.journal.log <= s2.journal.log;
      forall e | Gone(s, s2, e) ensures TellsGone(s, s2.journal.log, e, reason) {
        if e == d {
          ToldNow(s, s1, s2, d, reason);
        } else {
          ToldStill(s, s1.journal.log, s2.journal.log, e, reason);
        }
      }
    }
  }

  lemma OneGoes(s: State, s1: State, s2: State, d: nat, reason: RevocationReason)
    requires PassLeaves(s, s1, reason) && Consistent(s1) && Consistent(s2) && d in s1.ledger.byDecision && Removed(s1, s2, d, reason)
    ensures PassLeaves(s, s2, reason)
  {
    RemovedShrinks(s1, s2, d, reason);
    ShrinksTransitive(s.ledger, s1.ledger, s2.ledger);
    OneMarked(s, s1, s2, d, reason);
    OneJournaled(s, s1, s2, d, reason);
  }

  lemma StepLeaves(s: State, s1: State, reason: RevocationReason, r: DecisionRecord, s2: State)
    requires PassLeaves(s, s1, reason) && Consistent(s1) && EnforceOne(s1, reason, r).0 == Ok && EnforceOne(s1, reason, r).1 == s2
    ensures PassLeaves(s, s2, reason) && Consistent(s2)
  {
    if s2 != s1 {
      ReleaseKeeps(s1, r.decision, reason, Revoked);
      ReleaseExact(s1, r.decision, reason);
      OneGoes(s, s1, s2, r.decision, reason);
    }
  }

  lemma {:induction false} FromLeaves(s: State, s1: State, reason: RevocationReason, ordered: seq<DecisionRecord>, n: nat)
    requires PassLeaves(s, s1, reason) && Consistent(s1) && n <= |ordered| && EnforceFrom(s1, reason, ordered, n).0 == Ok
    ensures PassLeaves(s, EnforceFrom(s1, reason, ordered, n).1, reason)
    decreases n
  {
    if n > 0 {
      var s2 := EnforceOne(s1, reason, ordered[n - 1]).1;
      StepLeaves(s, s1, reason, ordered[n - 1], s2);
      FromLeaves(s, s2, reason, ordered, n - 1);
    }
  }

  lemma CountOne(s1: State, reason: RevocationReason, r: DecisionRecord, s2: State, k: nat)
    requires Consistent(s1) && EnforceOne(s1, reason, r) == (Ok, s2, k)
    ensures Consistent(s2) && LedgerShrinks(s1.ledger, s2.ledger) && (if k == 0 then s2 == s1 else Gone(s1, s2, r.decision))
  {
    ReleaseKeeps(s1, r.decision, reason, Revoked);
  }

  ghost predicate Counted(s1: State, s': State, k: nat) {
    LedgerShrinks(s1.ledger, s'.ledger) && (if k == 0 then s' == s1 else exists d :: Gone(s1, s', d))
  }

  /** A pass over the first n records of the order, from a given state. */
  datatype Pass = Pass(start: State, reason: RevocationReason, ordered: seq<DecisionRecord>, n: nat)

  ghost predicate Gives(p: Pass, s': State, k: nat) {
    match p
    case Pass(s1, reason, ordered, n) => n <= |ordered| && EnforceFrom(s1, reason, ordered, n) == (Ok, s', k)
  }

  /** The count of releases is zero exactly when nothing went. */
  lemma {:induction false} CountTells(p: Pass, s': State, k: nat)
    requires Consistent(p.start) && Gives(p, s', k)
    ensures Counted(p.start, s', k)
    decreases p.n
  {
    if p.n == 0 {
      CountNone(p, s', k);
    } else {
      var q, k1, k2 := CountSplit(p, s', k);
      CountTells(q, s', k2);
      CountJoins(p.start, q.start, s', k1, k2, p.ordered[p.n - 1].decision);
    }
  }

  lemma CountNone(p: Pass, s': State, k: nat)
    requires Consistent(p.start) && p.n == 0 && Gives(p, s', k)
    ensures Counted(p.start, s', k)
  {}

  lemma CountSplit(p: Pass, s': State, k: nat) returns (q: Pass, k1: nat, k2: nat)
    requires Consistent(p.start) && 0 < p.n && Gives(p, s', k)
    ensures p.n <= |p.ordered| && q.n == p.n - 1 && Gives(q, s', k2) && k == k1 + k2
    ensures Consistent(q.start) && LedgerShrinks(p.start.ledger, q.start.ledger)
    ensures if k1 == 0 then q.start == p.start else Gone(p.start, q.start, p.ordered[p.n - 1].decision)
  {
    var r := p.ordered[p.n - 1];
    var s2 := EnforceOne(p.start, p.reason, r).1;
    k1 := EnforceOne(p.start, p.reason, r).2;
    q := p.(start := s2, n := p.n - 1);
    k2 := EnforceFrom(s2, p.reason, p.ordered, p.n - 1).2;
    CountOne(p.start, p.reason, r, s2, k1);
  }

  lemma CountJoins(s1: State, s2: State, s': State, k1: nat, k2: nat, d: nat)
    requires LedgerShrinks(s1.ledger, s2.ledger) && (if k1 == 0 then s2 == s1 else Gone(s1, s2, d)) && Counted(s2, s', k2)
    ensures Counted(s1, s', k1 + k2)
  {
    ShrinksTransitive(s1.ledger, s2.ledger, s'.ledger);
    if k1 > 0 {
      assert Gone(s1, s', d);
    } else if k2 > 0 {
      var e :| Gone(s2, s', e);
      assert Gone(s1, s', e);
    }
  }

  /** Everything that is left is confirmed. */
  ghost predicate AllConfirmed(s: State) {
    !s.pendingReconciliation && forall d :: d in s.ledger.byDecision ==> !Unconfirmed(s.ledger.byDecision[d])
  }

  /** The audit position is marked if anything went. */
  ghost predicate MarksPosition(s: State, s': State) {
    s.journal.attached && (exists d :: Gone(s, s', d)) ==>
      s'.journal.log != [] && s'.journal.log[|s'.journal.log| - 1] == AuditMark(AuditMarkRecord(s.audit, s.epoch, |s'.journal.log| - 1))
  }

  ghost predicate PassCompletes(s: State, s': State, reason: RevocationReason) {
    MarkedGone(s, s', reason) && JournaledGone(s, s', reason) && AllConfirmed(s') && MarksPosition(s, s') &&
    ((forall d :: !Gone(s, s', d)) ==> s'.journal == s.journal)
  }

  lemma ClearedConfirmed(s: State)
    ensures AllConfirmed(Cleared(s))
  {}

  lemma ClearedMarked(s: State, s1: State, s': State, reason: RevocationReason)
    requires PassLeaves(s, s1, reason) && s' == Cleared(s1).(journal := s'.journal)
    ensures MarkedGone(s, s', reason) && forall d :: Gone(s, s', d) <==> Gone(s, s1, d)
  {
    assert forall d :: Gone(s, s', d) <==> Gone(s, s1, d);
  }

  lemma ToldFurther(s: State, s1: State, s': State, reason: RevocationReason)
    requires JournaledGone(s, s1, reason) && s1.journal.log <= s'.journal.log && s'.journal.attached == s1.journal.attached
    requires forall d :: Gone(s, s', d) <==> Gone(s, s1, d)
    ensures JournaledGone(s, s', reason)
  {
    if s.journal.attached {
      forall d | Gone(s, s', d) ensures TellsGone(s, s'.journal.log, d, reason) {
        assert Gone(s, s1, d);
        ToldStill(s, s1.journal.log, s'.journal.log, d, reason);
      }
    }
  }

  lemma FinishWrites(s1: State, revoked: nat, s': State)
    requires FinishEnforcement(Ok, s1, revoked) == (Ok, s')
    ensures s' == Cleared(s1).(journal := s'.journal) && s'.journal.attached == s1.journal.attached
    ensures revoked == 0 ==> s'.journal == s1.journal
    ensures revoked > 0 && s1.journal.attached ==> s'.journal.log == s1.journal.log + [AuditMark(AuditMarkRecord(s1.audit, s1.epoch, |s1.journal.log|))]
    ensures !s1.journal.attached ==> s'.journal.log == s1.journal.log
  {}

  lemma FinishLeaves(s: State, s1: State, reason: RevocationReason, revoked: nat, s': State)
    requires PassLeaves(s, s1, reason) && Counted(s, s1, revoked) && FinishEnforcement(Ok, s1, revoked) == (Ok, s')
    ensures PassCompletes(s, s', reason)
  {
    FinishWrites(s1, revoked, s');
    ClearedConfirmed(s1);
    ClearedMarked(s, s1, s', reason);
    ToldFurther(s, s1, s', reason);
    PositionMarked(s, s1, revoked, s');
  }

  lemma PositionMarked(s: State, s1: State, revoked: nat, s': State)
    requires Counted(s, s1, revoked) && s1.audit == s.audit && s1.epoch == s.epoch && s1.journal.attached == s.journal.attached
    requires forall d :: Gone(s, s', d) <==> Gone(s, s1, d)
    requires if revoked == 0 then s'.journal == s1.journal
      else s1.journal.attached ==> s'.journal.log == s1.journal.log + [AuditMark(AuditMarkRecord(s1.audit, s1.epoch, |s1.journal.log|))]
    ensures MarksPosition(s, s') && ((forall d :: !Gone(s, s', d)) ==> s'.journal == s.journal)
  {
    if revoked > 0 {
      var d :| Gone(s, s1, d);
      assert Gone(s, s', d);
    }
  }

  /** A completed pass marks, journals and forgets exactly what it takes away, and
      leaves nothing unconfirmed. */
  lemma EnforceLeaves(s: State, reason: RevocationReason)
    requires Consistent(s) && s.auth.capacity.Some? && Enforce(s, reason).0 == Ok
    ensures PassCompletes(s, Enforce(s, reason).1, reason)
  {
    var ordered := InAuditOrder(s.history);
    NothingGone(s, reason);
    var (st, s1, revoked) := EnforceFrom(s, reason, ordered, |ordered|);
    FromLeaves(s, s, reason, ordered, |ordered|);
    CountTells(Pass(s, reason, ordered, |ordered|), s1, revoked);
    FinishLeaves(s, s1, reason, revoked, Enforce(s, reason).1);
  }

  // ------------------------------------------------------------------
  // The reasons publications give
  // ------------------------------------------------------------------

  /** A newer capacity that is published Ok takes grants away for that reason. */
  lemma CapacityCasualties(s: State, c: CapacitySnapshot)
    requires Consistent(s) && Newer(CapacityStanding(s, c)) && PublishCapacity(s, c).0 == Ok
    ensures PassCompletes(s, PublishCapacity(s, c).1, CapacityReduction)
  {
    var s1 := s.(auth := s.auth.(capacity := Some(c)), tick := Later(s.tick, c.observedTick));
    ReauthorizedConsistent(s, s1);
    EnforceLeaves(s1, CapacityReduction);
    SameStart(s, s1, Enforce(s1, CapacityReduction).1, CapacityReduction);
  }

  lemma SameStart(s: State, s1: State, s': State, reason: RevocationReason)
    requires s1 == s.(auth := s1.auth, tick := s1.tick) && PassCompletes(s1, s', reason)
    ensures PassCompletes(s, s', reason)
  {
    assert forall d :: Gone(s, s', d) <==> Gone(s1, s', d);
    if s.journal.attached {
      forall d | Gone(s, s', d) ensures TellsGone(s, s'.journal.log, d, reason) {
        assert TellsGone(s1, s'.journal.log, d, reason);
      }
    }
  }

  /** Likewise reservations, where capacity is known. */
  lemma ReservationCasualties(s: State, r: ReservationSnapshot)
    requires Consistent(s) && Newer(ReservationStanding(s, r)) && s.auth.capacity.Some? && PublishReservations(s, r).0 == Ok
    ensures PassCompletes(s, PublishReservations(s, r).1, ObligationChange)
  {
    var s1 := s.(auth := s.auth.(reservations := Some(r)), tick := Later(s.tick, r.observedTick));
    ReauthorizedConsistent(s, s1);
    EnforceLeaves(s1, ObligationChange);
    SameStart(s, s1, Enforce(s1, ObligationChange).1, ObligationChange);
  }

  /** Likewise a policy, which is journaled first. */
  lemma PolicyCasualties(s: State, p: Policy)
    requires Consistent(s) && Newer(PolicyStanding(s, p)) && s.auth.capacity.Some? && PublishPolicy(s, p).0 == Ok
    ensures
      var s1 := Write(s, PolicyConfig(p)).1;
      Journals(s, s1, [PolicyConfig(p)]) && PassCompletes(s1, PublishPolicy(s, p).1, PolicyChange)
  {
    var s1 := Write(s, PolicyConfig(p)).1;
    FirstWrite(s, PolicyConfig(p));
    PolicyAnswered(s, p);
    var s2 := s1.(auth := s1.auth.(policy := Some(p)), tick := Later(s1.tick, p.observedTick));
    ReauthorizedConsistent(s, s2);
    EnforceLeaves(s2, PolicyChange);
    SameStart(s1, s2, Enforce(s2, PolicyChange).1, PolicyChange);
  }
}
