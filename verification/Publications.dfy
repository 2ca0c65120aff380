/** What a publication answers and what it puts in force (AdmissionEngine::publish_*,
    src/engine/engine.cpp), stated over the snapshots themselves. */
module Publications {
  import opened Base
  import opened Model
  import opened Snapshots
  import opened Ledger
  import opened History
  import opened Evaluate
  import opened Engine

  // ------------------------------------------------------------------
  // What enforcement can answer
  // ------------------------------------------------------------------

  predicate EnforcementStatus(st: Status) {
    st == Ok || st == DurableFailure || st == InvalidArgument || st == ArithmeticUnderflow
  }

  /** Enforcement leaves authority and clock alone. */
  ghost predicate Enforced(s: State, st: Status, s': State) {
    EnforcementStatus(st) && s'.auth == s.auth && s'.tick == s.tick
  }

  lemma ReleaseEnforced(s: State, d: nat, reason: RevocationReason)
    requires Holds(s.ledger, d)
    ensures
      var (st, s') := ReleaseDecision(s, d, reason, Revoked);
      Enforced(s, st, s')
  {}

  lemma OneEnforced(s: State, reason: RevocationReason, r: DecisionRecord)
    ensures Enforced(s, EnforceOne(s, reason, r).0, EnforceOne(s, reason, r).1)
  {
    if Holds(s.ledger, r.decision) {
      ReleaseEnforced(s, r.decision, reason);
    }
  }

  lemma {:induction false} PassEnforced(s: State, reason: RevocationReason, ordered: seq<DecisionRecord>, n: nat)
    requires n <= |ordered|
    ensures Enforced(s, EnforceFrom(s, reason, ordered, n).0, EnforceFrom(s, reason, ordered, n).1)
    decreases n
  {
    if n > 0 {
      OneEnforced(s, reason, ordered[n - 1]);
      var s1 := EnforceOne(s, reason, ordered[n - 1]).1;
      PassEnforced(s1, reason, ordered, n - 1);
    }
  }

  lemma FinishEnforced(st: Status, s: State, revoked: nat)
    requires EnforcementStatus(st)
    ensures Enforced(s, FinishEnforcement(st, s, revoked).0, FinishEnforcement(st, s, revoked).1)
  {}

  lemma EnforceEnforced(s: State, reason: RevocationReason)
    ensures Enforced(s, Enforce(s, reason).0, Enforce(s, reason).1)
  {
    if s.auth.capacity.Some? {
      var ordered := InAuditOrder(s.history);
      PassEnforced(s, reason, ordered, |ordered|);
      var (st, s1, revoked) := EnforceFrom(s, reason, ordered, |ordered|);
      FinishEnforced(st, s1, revoked);
    }
  }

  // ------------------------------------------------------------------
  // The answers
  // ------------------------------------------------------------------

  /** How what is published stands to what is in force. */
  datatype Standing = Standing(valid: bool, rightEpoch: bool, inForce: bool, older: bool, sameGeneration: bool, sameContent: bool)

  predicate Due(x: Standing) {
    x.valid && x.rightEpoch
  }

  predicate Newer(x: Standing) {
    Due(x) && (!x.inForce || (!x.older && !x.sameGeneration))
  }

  /** Each refusal is answered exactly where it applies; a repetition of what is
      in force is acknowledged; none of these changes anything. */
  ghost predicate AnsweredAs(x: Standing, s: State, st: Status, s': State) {
    (st == MalformedInput <==> !x.valid) &&
    (st == EpochMismatch <==> x.valid && !x.rightEpoch) &&
    (st == StaleGeneration <==> Due(x) && x.inForce && x.older) &&
    (st == ConflictIdentity <==> Due(x) && x.inForce && x.sameGeneration && !x.sameContent) &&
    (st == Ok && s'.auth == s.auth <==> Due(x) && x.inForce && x.sameGeneration && x.sameContent) &&
    (!Newer(x) ==> s' == s)
  }

  /** Newer authority is in force afterwards, and the clock has not fallen behind
      its observation. */
  ghost predicate Installs(s: State, auth: Authorities, observed: u64, s': State) {
    s'.auth == auth && s'.tick == Max(s.tick, observed)
  }

  ghost function CapacityStanding(s: State, c: CapacitySnapshot): Standing {
    var held := s.auth.capacity;
    Standing(ValidCapacity(c), s.epoch != 0 && c.epoch == s.epoch, held.Some?,
             held.Some? && c.generation < held.value.generation,
             held.Some? && c.generation == held.value.generation,
             held.Some? && c.snapshot == held.value.snapshot && c.resources == held.value.resources)
  }

  lemma CapacityAnswered(s: State, c: CapacitySnapshot)
    ensures
      var x := CapacityStanding(s, c);
      var (st, s') := PublishCapacity(s, c);
      AnsweredAs(x, s, st, s') && (Newer(x) ==> Installs(s, s.auth.(capacity := Some(c)), c.observedTick, s'))
  {
    EnforceEnforced(s.(auth := s.auth.(capacity := Some(c)), tick := Later(s.tick, c.observedTick)), CapacityReduction);
  }

  ghost function ReservationStanding(s: State, r: ReservationSnapshot): Standing {
    var held := s.auth.reservations;
    Standing(ValidReservations(r), s.epoch != 0, held.Some?,
             held.Some? && r.generation < held.value.generation,
             held.Some? && r.generation == held.value.generation,
             held.Some? && r.snapshot == held.value.snapshot && r.obligations == held.value.obligations)
  }

  lemma ReservationsAnswered(s: State, r: ReservationSnapshot)
    ensures
      var x := ReservationStanding(s, r);
      var (st, s') := PublishReservations(s, r);
      AnsweredAs(x, s, st, s') && (Newer(x) ==> Installs(s, s.auth.(reservations := Some(r)), r.observedTick, s'))
  {
    EnforceEnforced(s.(auth := s.auth.(reservations := Some(r)), tick := Later(s.tick, r.observedTick)), ObligationChange);
  }

  /** Every field but the epoch and the tick of observation. */
  predicate SamePolicy(p: Policy, q: Policy) {
    p.id == q.id && p.generation == q.generation &&
    p.headroomPermille == q.headroomPermille && p.headroomFloor == q.headroomFloor &&
    p.allowDegraded == q.allowDegraded && p.allowPreemptible == q.allowPreemptible &&
    p.requirePathBinding == q.requirePathBinding && p.requireReservationReference == q.requireReservationReference &&
    p.allowPathSubstitution == q.allowPathSubstitution && p.onContention == q.onContention &&
    p.allowedQos == q.allowedQos && p.allowedPriorities == q.allowedPriorities &&
    p.maxExplanationConstraints == q.maxExplanationConstraints && p.maxExplanationBytes == q.maxExplanationBytes &&
    p.maxEffectiveResources == q.maxEffectiveResources && p.deferHorizonTicks == q.deferHorizonTicks
  }

  ghost function PolicyStanding(s: State, p: Policy): Standing {
    var held := s.auth.policy;
    Standing(ValidPolicy(p), s.epoch != 0 && p.epoch == s.epoch, held.Some?,
             held.Some? && p.generation < held.value.generation,
             held.Some? && p.generation == held.value.generation,
             held.Some? && SamePolicy(p, held.value))
  }

  /** A policy is in force only once it is journaled. */
  lemma PolicyAnswered(s: State, p: Policy)
    ensures
      var x := PolicyStanding(s, p);
      var (st, s') := PublishPolicy(s, p);
      AnsweredAs(x, s, st, s') &&
      (Newer(x) ==>
        if s.journal.attached && NextFails(s.journal)
        then st == DurableFailure && s'.auth == s.auth && s'.journal.log == s.journal.log
        else Installs(s, s.auth.(policy := Some(p)), p.observedTick, s'))
  {
    var (written, s1) := Write(s, PolicyConfig(p));
    EnforceEnforced(s1.(auth := s1.auth.(policy := Some(p)), tick := Later(s1.tick, p.observedTick)), PolicyChange);
  }

  ghost function PathStanding(s: State, c: PathCatalog): Standing {
    var held := s.auth.paths;
    Standing(ValidPaths(c), s.epoch != 0, held.Some?,
             held.Some? && c.generation < held.value.generation,
             held.Some? && c.generation == held.value.generation,
             held.Some? && c.paths == held.value.paths)
  }

  lemma PathsAnswered(s: State, c: PathCatalog)
    ensures
      var x := PathStanding(s, c);
      var (st, s') := PublishPaths(s, c);
      AnsweredAs(x, s, st, s') &&
      (Newer(x) ==> st == Ok && s' == s.(auth := s.auth.(paths := Some(c)), tick := Max(s.tick, c.observedTick)))
  {}

  ghost function QosStanding(s: State, c: QosCatalog): Standing {
    var held := s.auth.qos;
    Standing(ValidQos(c), s.epoch != 0, held.Some?,
             held.Some? && c.generation < held.value.generation,
             held.Some? && c.generation == held.value.generation,
             held.Some? && c.classes == held.value.classes)
  }

  lemma QosAnswered(s: State, c: QosCatalog)
    ensures
      var x := QosStanding(s, c);
      var (st, s') := PublishQos(s, c);
      AnsweredAs(x, s, st, s') &&
      (Newer(x) ==> st == Ok && s' == s.(auth := s.auth.(qos := Some(c)), tick := Max(s.tick, c.observedTick)))
  {}

  ghost function PriorityStanding(s: State, c: PriorityCatalog): Standing {
    var held := s.auth.priorities;
    Standing(ValidPriorities(c), s.epoch != 0, held.Some?,
             held.Some? && c.generation < held.value.generation,
             held.Some? && c.generation == held.value.generation,
             held.Some? && c.classes == held.value.classes)
  }

  lemma PrioritiesAnswered(s: State, c: PriorityCatalog)
    ensures
      var x := PriorityStanding(s, c);
      var (st, s') := PublishPriorities(s, c);
      AnsweredAs(x, s, st, s') &&
      (Newer(x) ==> st == Ok && s' == s.(auth := s.auth.(priorities := Some(c)), tick := Max(s.tick, c.observedTick)))
  {}
}
