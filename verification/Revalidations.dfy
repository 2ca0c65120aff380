/** What a revalidation answers and what it leaves (EngineCore::revalidate_locked,
    src/engine/admission.cpp), stated over history, ledger and authorities. */
module Revalidations {
  import opened Base
  import opened Model
  import opened Ledger
  import opened Evaluate
  import opened Engine
  import opened Invariants
  import opened Interrupted
  import opened Revocations

  /** The grant was issued by another incarnation. */
  predicate Orphaned(s: State, r: DecisionRecord) {
    r.epoch != s.epoch || r.incarnation != s.incarnation
  }

  /** Some of the load was recovered and has not been reconciled. */
  predicate Unconfirmed(entries: seq<LedgerEntry>) {
    exists i :: 0 <= i < |entries| && entries[i].requiresRevalidation
  }

  /** The path the grant was bound to is published and up. */
  predicate PathStands(auth: Authorities, r: DecisionRecord) {
    r.path != 0 ==> FindPath(auth, r.path).Some? && FindPath(auth, r.path).value.state == PathUp
  }

  /** Everything admitted on every resource the grant holds is within what that
      resource is known to allow. */
  predicate LoadStands(auth: Authorities, l: LedgerState, entries: seq<LedgerEntry>) {
    forall i :: 0 <= i < |entries| ==>
      Known(auth, entries[i].resource) && Admitted(l, entries[i].resource) <= Allowance(auth, entries[i].resource)
  }

  predicate AuthorityStands(auth: Authorities) {
    auth.capacity.Some? && auth.reservations.Some? && auth.policy.Some?
  }

  /** Some generation in force is not the one the grant was bound to. */
  predicate Moved(auth: Authorities, r: DecisionRecord) {
    !((auth.capacity.Some? ==> auth.capacity.value.generation == r.boundCapacity) &&
      (auth.policy.Some? ==> auth.policy.value.generation == r.boundPolicy) &&
      (auth.qos.Some? ==> auth.qos.value.generation == r.boundQos) &&
      (auth.priorities.Some? ==> auth.priorities.value.generation == r.boundPriority) &&
      (auth.reservations.Some? ==> auth.reservations.value.generation == r.boundReservation) &&
      (auth.paths.Some? ==> auth.paths.value.generation == r.boundPath))
  }

  /** Nothing stands against the grant. */
  predicate Justified(s: State, r: DecisionRecord, entries: seq<LedgerEntry>) {
    AuthorityStands(s.auth) && PathStands(s.auth, r) && LoadStands(s.auth, s.ledger, entries)
  }

  /** The grant must go, for this reason. */
  predicate GoesFor(s: State, r: DecisionRecord, entries: seq<LedgerEntry>, reason: RevocationReason) {
    match reason
    case CoordinatorRestart => Orphaned(s, r)
    case CapacityReduction =>
      !Orphaned(s, r) && !Unconfirmed(entries) &&
      (s.auth.capacity.None? || (AuthorityStands(s.auth) && PathStands(s.auth, r) && !LoadStands(s.auth, s.ledger, entries)))
    case PolicyChange =>
      !Orphaned(s, r) && !Unconfirmed(entries) && s.auth.capacity.Some? && !AuthorityStands(s.auth)
    case PathRevoked =>
      !Orphaned(s, r) && !Unconfirmed(entries) && AuthorityStands(s.auth) && !PathStands(s.auth, r)
    case _ => false
  }

  /** The grant may stay. */
  predicate Stays(s: State, r: DecisionRecord, entries: seq<LedgerEntry>) {
    !Orphaned(s, r) && (Unconfirmed(entries) || Justified(s, r, entries))
  }

  /** A grant that need not stay has one reason to go. */
  lemma OneReason(s: State, r: DecisionRecord, entries: seq<LedgerEntry>)
    ensures Stays(s, r, entries) <==> forall reason :: !GoesFor(s, r, entries, reason)
    ensures forall a, b :: GoesFor(s, r, entries, a) && GoesFor(s, r, entries, b) ==> a == b
  {
    if !Stays(s, r, entries) {
      if Orphaned(s, r) {
        assert GoesFor(s, r, entries, CoordinatorRestart);
      } else if s.auth.capacity.None? {
        assert GoesFor(s, r, entries, CapacityReduction);
      } else if !AuthorityStands(s.auth) {
        assert GoesFor(s, r, entries, PolicyChange);
      } else if !PathStands(s.auth, r) {
        assert GoesFor(s, r, entries, PathRevoked);
      } else {
        assert GoesFor(s, r, entries, CapacityReduction);
      }
    }
  }

  /** A decision that holds nothing: unknown, never admitted, released before, or
      found to hold no load, which is noted in memory alone. */
  ghost predicate AnsweredIdle(s: State, d: nat, a: RevalidationResult, s': State)
    requires d !in s.ledger.byDecision
  {
    if d !in s.history.records then a == NotRevalidated(NotFound) && s' == s
    else
      var r := s.history.records[d];
      if !Admitting(r.outcome) then a == NotRevalidated(InvalidArgument) && s' == s
      else if r.state == Revoked || r.state == Expired then a == Revalidated(r.state, r.reason, false) && s' == s
      else
        a == Revalidated(Revoked, ClaimantDeath, false) && MarkedRecord(s.history, s'.history, d, Revoked, ClaimantDeath, false) &&
        s' == s.(history := s'.history)
  }

  /** A grant that may stay: unconfirmed, valid, or marked as bound to generations
      that have moved. */
  ghost predicate AnsweredStaying(s: State, d: nat, r: DecisionRecord, entries: seq<LedgerEntry>, a: RevalidationResult, s': State) {
    if Unconfirmed(entries) then a == Revalidated(Ambiguous, NotRevoked, false) && s' == s
    else if !Moved(s.auth, r) then a == Revalidated(Valid, NotRevoked, false) && s' == s
    else if !Succeeds(s.journal, 0) then a == NotRevalidated(DurableFailure) && Journals(s, s', []) && s' == s.(journal := s'.journal)
    else
      a == Revalidated(Invalidated, GenerationAdvance, false) &&
      MarkedRecord(s.history, s'.history, d, Invalidated, GenerationAdvance, r.ledgerLive) &&
      Journals(s, s', [MarkNote(s, d, GenerationAdvance, Invalidated)]) && s' == s.(history := s'.history, journal := s'.journal)
  }

  lemma EvictAnswers(s: State, d: nat, reason: RevocationReason)
    requires Consistent(s) && d in s.ledger.byDecision
    ensures RevokedHeld(s, d, reason, Evict(s, d, reason).0, Evict(s, d, reason).1)
  {
    ReleaseExact(s, d, reason);
  }

  /** One concept, two spellings: what the engine tests is what stands. */
  lemma SameTests(s: State, d: nat)
    requires d in s.ledger.byDecision
    ensures Unconfirmed(s.ledger.byDecision[d]) <==> AnyFlagged(s.ledger.byDecision[d])
    ensures LoadStands(s.auth, s.ledger, s.ledger.byDecision[d]) <==> Fits(s.auth, s.ledger, d)
  {}

  /** d holds load on the strength of record r. */
  ghost predicate Held(s: State, d: nat, r: DecisionRecord, entries: seq<LedgerEntry>) {
    d in s.ledger.byDecision && d in s.history.records && r == s.history.records[d] && entries == s.ledger.byDecision[d] &&
    Admitting(r.outcome) && !Released(r.state)
  }

  lemma GoingAnswers(s: State, d: nat, r: DecisionRecord, entries: seq<LedgerEntry>, reason: RevocationReason)
    requires Held(s, d, r, entries) && GoesFor(s, r, entries, reason)
    ensures Revalidate(s, d) == Evict(s, d, reason)
  {
    SameTests(s, d);
  }

  lemma StayingAnswers(s: State, d: nat, r: DecisionRecord, entries: seq<LedgerEntry>)
    requires Held(s, d, r, entries) && Stays(s, r, entries)
    ensures AnsweredStaying(s, d, r, entries, Revalidate(s, d).0, Revalidate(s, d).1)
  {
    SameTests(s, d);
    FirstWrite(s, MarkNote(s, d, GenerationAdvance, Invalidated));
  }

  /** The answer and the state of a revalidation of a grant that holds load. */
  ghost predicate AnsweredHeld(s: State, d: nat, r: DecisionRecord, entries: seq<LedgerEntry>, a: RevalidationResult, s': State) {
    Held(s, d, r, entries) &&
    if Stays(s, r, entries) then AnsweredStaying(s, d, r, entries, a, s')
    else exists reason :: GoesFor(s, r, entries, reason) && RevokedHeld(s, d, reason, a, s')
  }

  lemma HeldExact(s: State, d: nat, r: DecisionRecord, entries: seq<LedgerEntry>)
    requires Consistent(s) && Held(s, d, r, entries)
    ensures AnsweredHeld(s, d, r, entries, Revalidate(s, d).0, Revalidate(s, d).1)
  {
    if Stays(s, r, entries) {
      StayingAnswers(s, d, r, entries);
    } else {
      OneReason(s, r, entries);
      var reason :| GoesFor(s, r, entries, reason);
      GoingAnswers(s, d, r, entries, reason);
      EvictAnswers(s, d, reason);
    }
  }

  /** Every answer of a revalidation and everything it changes. */
  lemma RevalidateExact(s: State, d: nat)
    requires Consistent(s)
    ensures
      var (a, s') := Revalidate(s, d);
      if d in s.ledger.byDecision
      then d in s.history.records && AnsweredHeld(s, d, s.history.records[d], s.ledger.byDecision[d], a, s')
      else AnsweredIdle(s, d, a, s')
  {
    if d in s.ledger.byDecision {
      HeldRecord(s, d);
      HeldExact(s, d, s.history.records[d], s.ledger.byDecision[d]);
    }
  }

  /** Exactly when a revalidation gives each answer about a grant that holds load. */
  lemma AnswersIff(s: State, d: nat, r: DecisionRecord, entries: seq<LedgerEntry>, reason: RevocationReason)
    requires Consistent(s) && Held(s, d, r, entries)
    ensures
      var (a, s') := Revalidate(s, d);
      (a == Revalidated(Revoked, reason, true) <==>
        GoesFor(s, r, entries, reason) && !Stuck(s.ledger, d) && Succeeds(s.journal, 0) && Succeeds(s.journal, 1)) &&
      (a == Revalidated(Ambiguous, NotRevoked, false) <==> !Orphaned(s, r) && Unconfirmed(entries)) &&
      (a == Revalidated(Invalidated, GenerationAdvance, false) <==>
        !Orphaned(s, r) && !Unconfirmed(entries) && Justified(s, r, entries) && Moved(s.auth, r) && Succeeds(s.journal, 0)) &&
      (a == Revalidated(Valid, NotRevoked, false) <==>
        !Orphaned(s, r) && !Unconfirmed(entries) && Justified(s, r, entries) && !Moved(s.auth, r)) &&
      (SaysReleased(a) ==> d !in s'.ledger.byDecision)
  {
    HeldExact(s, d, r, entries);
    OneReason(s, r, entries);
  }

  /** A revalidation whose writes succeed keeps a grant exactly when it was issued
      by this incarnation and is either unconfirmed or justified by every
      authority, its path and every resource it holds. */
  lemma KeptIff(s: State, d: nat, r: DecisionRecord, entries: seq<LedgerEntry>)
    requires Consistent(s) && Held(s, d, r, entries) && !Stuck(s.ledger, d) && Succeeds(s.journal, 0) && Succeeds(s.journal, 1)
    ensures d in Revalidate(s, d).1.ledger.byDecision <==> !Orphaned(s, r) && (Unconfirmed(entries) || Justified(s, r, entries))
  {
    HeldExact(s, d, r, entries);
  }
}
