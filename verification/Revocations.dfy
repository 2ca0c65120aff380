/** What a revocation answers and what it leaves (EngineCore::revoke_locked and
    release_decision_locked, src/engine/admission.cpp), stated over the grants,
    the totals, the records and the journal. */
module Revocations {
  import opened Base
  import opened Model
  import opened Ledger
  import opened History
  import opened Engine
  import opened Invariants
  import opened Interrupted

  /** d holds a zero-rate entry on a resource whose total has disappeared. */
  ghost predicate Stuck(l: LedgerState, d: nat)
    requires d in l.byDecision
  {
    exists i :: 0 <= i < |l.byDecision[d]| && l.byDecision[d][i].amount == 0 && l.byDecision[d][i].resource !in l.totals
  }

  /** d's entries are gone from the table and from every total; no other grant
      has changed. */
  ghost predicate LoadGone(l: LedgerState, l': LedgerState, d: nat)
    requires d in l.byDecision
  {
    l'.byDecision == l.byDecision - {d} && forall r: u64 :: Admitted(l', r) == Admitted(l, r) - SumOn(l.byDecision[d], r)
  }

  /** d's record, and no other, is marked. */
  ghost predicate MarkedRecord(h: HistoryState, h': HistoryState, d: nat, state: RevalidationState, reason: RevocationReason, live: bool) {
    d in h.records && h'.records == h.records[d := h.records[d].(state := state, reason := reason, ledgerLive := live)] &&
    h'.auditIndex == h.auditIndex && h'.capacity == h.capacity
  }

  ghost predicate Journals(s: State, s': State, records: seq<Record>) {
    s'.journal.attached == s.journal.attached && s'.journal.log == (if s.journal.attached then s.journal.log + records else s.journal.log)
  }

  function ReleaseNote(s: State, d: nat, reason: RevocationReason): Record
    requires d in s.ledger.byDecision
  {
    LedgerRelease(ReleaseRecord(d, s.epoch, reason, s.ledger.byDecision[d]))
  }

  function MarkNote(s: State, d: nat, reason: RevocationReason, state: RevalidationState): Record {
    Model.Revocation(RevocationRecord(d, s.epoch, s.audit, reason, state))
  }

  /** The grant is gone, its record says why, and the journal has both records. */
  ghost predicate Removed(s: State, s': State, d: nat, reason: RevocationReason)
    requires d in s.ledger.byDecision
  {
    LoadGone(s.ledger, s'.ledger, d) && MarkedRecord(s.history, s'.history, d, Revoked, reason, false) &&
    s'.history.cursor == 0 && s'.cache == s.cache - {d} && Journals(s, s', [ReleaseNote(s, d, reason), MarkNote(s, d, reason, Revoked)]) &&
    s' == s.(ledger := s'.ledger, history := s'.history, cache := s'.cache, journal := s'.journal)
  }

  /** The grant is gone and the journal says so, but its record is as it was. */
  ghost predicate RemovedUnmarked(s: State, s': State, d: nat, reason: RevocationReason)
    requires d in s.ledger.byDecision
  {
    LoadGone(s.ledger, s'.ledger, d) && Journals(s, s', [ReleaseNote(s, d, reason)]) &&
    s' == s.(ledger := s'.ledger, journal := s'.journal)
  }

  /** What a release of a held grant does, by the fate of its two writes. */
  ghost predicate ReleaseEnds(s: State, d: nat, reason: RevocationReason, st: Status, s': State)
    requires d in s.ledger.byDecision
  {
    if !Succeeds(s.journal, 0) then st == DurableFailure && Journals(s, s', []) && s' == s.(journal := s'.journal)
    else if Stuck(s.ledger, d) then
      st == ArithmeticUnderflow && Journals(s, s', [ReleaseNote(s, d, reason)]) && s' == s.(journal := s'.journal)
    else if !Succeeds(s.journal, 1) then st == DurableFailure && RemovedUnmarked(s, s', d, reason)
    else st == Ok && Removed(s, s', d, reason)
  }

  lemma FirstWrite(s: State, r: Record)
    ensures
      var (ok, s1) := Write(s, r);
      (ok <==> Succeeds(s.journal, 0)) && s1 == s.(journal := s1.journal) && Journals(s, s1, if ok then [r] else [])
  {}

  lemma BothWrites(s: State, s1: State, s2: State, s3: State, a: Record, b: Record)
    requires (true, s1) == Write(s, a) && s2 == s1.(ledger := s2.ledger) && s3 == Write(s2, b).1
    ensures
      var ok := Write(s2, b).0;
      (ok <==> Succeeds(s.journal, 1)) && s3 == s2.(journal := s3.journal) && Journals(s, s3, if ok then [a, b] else [a])
  {
    if s.journal.attached {
      assert s.journal.log + [a] + [b] == s.journal.log + [a, b];
    }
  }

  lemma HeldMarked(s: State, d: nat, reason: RevocationReason)
    requires Consistent(s) && d in s.ledger.byDecision
    ensures MarkedRecord(s.history, NoteRelease(Marked(s.history, d, Revoked, reason, false)), d, Revoked, reason, false)
  {
    assert Backed(s.history.records, d, s.ledger.byDecision[d]);
  }

  lemma StuckIff(l: LedgerState, d: nat)
    requires Conserved(l) && d in l.byDecision
    ensures ReleasedLoad(l, d).0 == (if Stuck(l, d) then ArithmeticUnderflow else Ok)
    ensures !Stuck(l, d) ==> LoadGone(l, ReleasedLoad(l, d).1, d)
  {
    ReleaseFailsIff(l, d);
    ReleaseConserves(l, d);
    assert EntriesOk(d, l.byDecision[d]);
  }

  lemma ReleaseExact(s: State, d: nat, reason: RevocationReason)
    requires Consistent(s) && d in s.ledger.byDecision
    ensures ReleaseEnds(s, d, reason, ReleaseDecision(s, d, reason, Revoked).0, ReleaseDecision(s, d, reason, Revoked).1)
  {
    var (written, s1) := Write(s, ReleaseNote(s, d, reason));
    FirstWrite(s, ReleaseNote(s, d, reason));
    StuckIff(s.ledger, d);
    if written && !Stuck(s.ledger, d) {
      var s2 := s1.(ledger := ReleasedLoad(s.ledger, d).1);
      BothWrites(s, s1, s2, Write(s2, MarkNote(s, d, reason, Revoked)).1, ReleaseNote(s, d, reason), MarkNote(s, d, reason, Revoked));
      HeldMarked(s, d, reason);
    }
  }

  // ------------------------------------------------------------------
  // Revocation
  // ------------------------------------------------------------------

  /** The answer says that load was released. */
  predicate SaysReleased(a: RevalidationResult) {
    a.Revalidated? && a.ledgerReleased
  }

  /** The reason on record, or the given one where none is recorded. */
  function ReasonFor(r: DecisionRecord, reason: RevocationReason): RevocationReason {
    if r.reason == NotRevoked then reason else r.reason
  }

  /** A decision that holds nothing is answered and left alone. */
  ghost predicate RevokedIdle(s: State, d: nat, reason: RevocationReason, a: RevalidationResult, s': State)
    requires d !in s.ledger.byDecision
  {
    s' == s &&
    if d !in s.history.records then a == NotRevalidated(NotFound)
    else if Admitting(s.history.records[d].outcome) then a == Revalidated(Revoked, ReasonFor(s.history.records[d], reason), false)
    else a == Revalidated(Valid, reason, false)
  }

  /** A grant that holds load is taken away, unless a write fails or it is stuck. */
  ghost predicate RevokedHeld(s: State, d: nat, reason: RevocationReason, a: RevalidationResult, s': State)
    requires d in s.ledger.byDecision
  {
    if !Succeeds(s.journal, 0) then
      a == NotRevalidated(DurableFailure) && Journals(s, s', []) && s' == s.(journal := s'.journal)
    else if Stuck(s.ledger, d) then
      a == NotRevalidated(ArithmeticUnderflow) && Journals(s, s', [ReleaseNote(s, d, reason)]) && s' == s.(journal := s'.journal)
    else if !Succeeds(s.journal, 1) then a == NotRevalidated(DurableFailure) && RemovedUnmarked(s, s', d, reason)
    else a == Revalidated(Revoked, reason, true) && Removed(s, s', d, reason)
  }

  lemma HeldRecord(s: State, d: nat)
    requires Consistent(s) && d in s.ledger.byDecision
    ensures d in s.history.records && Admitting(s.history.records[d].outcome) && !Released(s.history.records[d].state)
  {
    assert Backed(s.history.records, d, s.ledger.byDecision[d]);
  }

  /** Every answer of a revocation and everything it changes. */
  lemma RevokeExact(s: State, d: nat, reason: RevocationReason)
    requires Consistent(s)
    ensures
      var (a, s') := Revoke(s, d, reason);
      if d in s.ledger.byDecision then RevokedHeld(s, d, reason, a, s') else RevokedIdle(s, d, reason, a, s')
  {
    if d in s.ledger.byDecision {
      HeldRecord(s, d);
      ReleaseExact(s, d, reason);
    }
  }

  /** The answer says released exactly when the grant was there and is gone and
      the record of its revocation could be written. */
  lemma SaysReleasedIff(s: State, d: nat, reason: RevocationReason)
    requires Consistent(s)
    ensures
      var (a, s') := Revoke(s, d, reason);
      (SaysReleased(a) <==> d in s.ledger.byDecision && d !in s'.ledger.byDecision && Succeeds(s.journal, 1)) &&
      (d in s.ledger.byDecision && d !in s'.ledger.byDecision <==>
        d in s.ledger.byDecision && Succeeds(s.journal, 0) && !Stuck(s.ledger, d))
  {
    RevokeExact(s, d, reason);
  }
}
