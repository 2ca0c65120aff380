/** Revalidation against moving authority (EngineCore::revalidate_locked,
    src/engine/admission.cpp). */
module Staleness {
  import opened Base
  import opened Model
  import opened Snapshots
  import opened Checks
  import opened Engine
  import opened Frames

  /** Some current authority generation is past the one the record is bound to. */
  predicate Past(auth: Authorities, r: DecisionRecord) {
    var now := GenerationOf(auth);
    now.capacityGeneration > r.boundCapacity || now.policyGeneration > r.boundPolicy ||
    now.qosGeneration > r.boundQos || now.priorityGeneration > r.boundPriority ||
    now.reservationGeneration > r.boundReservation || now.pathGeneration > r.boundPath
  }

  /** No authority has gone away or moved backwards. */
  predicate Advances(auth: Authorities, auth': Authorities) {
    var a, b := GenerationOf(auth), GenerationOf(auth');
    a.capacityGeneration <= b.capacityGeneration && a.policyGeneration <= b.policyGeneration &&
    a.qosGeneration <= b.qosGeneration && a.priorityGeneration <= b.priorityGeneration &&
    a.reservationGeneration <= b.reservationGeneration && a.pathGeneration <= b.pathGeneration
  }

  predicate Invalidates(op: Op) {
    op.OpInvalidateCapacity? || op.OpInvalidatePaths?
  }

  lemma {:induction false} EnforceFromAuth(s: State, reason: RevocationReason, ordered: seq<DecisionRecord>, n: nat)
    requires n <= |ordered|
    ensures EnforceFrom(s, reason, ordered, n).1.auth == s.auth
    decreases n
  {
    if n > 0 {
      EnforceFromAuth(EnforceOne(s, reason, ordered[n - 1]).1, reason, ordered, n - 1);
    }
  }

  lemma EnforceAuth(s: State, reason: RevocationReason)
    ensures Enforce(s, reason).1.auth == s.auth
  {
    var ordered := History.InAuditOrder(s.history);
    EnforceFromAuth(s, reason, ordered, |ordered|);
  }

  lemma PolicyAdvances(s: State, p: Policy)
    ensures Advances(s.auth, PublishPolicy(s, p).1.auth)
  {
    var s1 := Write(s, PolicyConfig(p)).1;
    EnforceAuth(s1.(auth := s1.auth.(policy := Some(p)), tick := Later(s1.tick, p.observedTick)), PolicyChange);
  }

  lemma CapacityAuth(s: State, c: CapacitySnapshot)
    ensures PublishCapacity(s, c).1.auth == s.auth ||
      (PublishCapacity(s, c).1.auth == s.auth.(capacity := Some(c)) && CapacityFreshness(s.auth, c).Advances?)
  {
    EnforceAuth(s.(auth := s.auth.(capacity := Some(c)), tick := Later(s.tick, c.observedTick)), CapacityReduction);
  }

  lemma CapacityAdvances(s: State, c: CapacitySnapshot)
    ensures Advances(s.auth, PublishCapacity(s, c).1.auth)
  {
    CapacityAuth(s, c);
  }

  lemma ReservationsAuth(s: State, r: ReservationSnapshot)
    ensures PublishReservations(s, r).1.auth == s.auth ||
      (PublishReservations(s, r).1.auth == s.auth.(reservations := Some(r)) && ReservationFreshness(s.auth, r).Advances?)
  {
    EnforceAuth(s.(auth := s.auth.(reservations := Some(r)), tick := Later(s.tick, r.observedTick)), ObligationChange);
  }

  lemma ReservationsAdvance(s: State, r: ReservationSnapshot)
    ensures Advances(s.auth, PublishReservations(s, r).1.auth)
  {
    ReservationsAuth(s, r);
  }

  /** Publication never moves a generation backwards. */
  lemma PublicationAdvances(cfg: Config, s: State, op: Op)
    requires IsPublication(op)
    ensures Advances(s.auth, After(cfg, s, op).auth)
  {
    match op
    case OpPolicy(p) => PolicyAdvances(s, p);
    case OpCapacity(c) => CapacityAdvances(s, c);
    case OpReservations(r) => ReservationsAdvance(s, r);
    case OpPaths(c) => PathsAdvance(s, c);
    case OpQos(c) => QosAdvances(s, c);
    case OpPriorities(c) => PrioritiesAdvance(s, c);
  }

  lemma PathsAdvance(s: State, c: PathCatalog)
    ensures Advances(s.auth, PublishPaths(s, c).1.auth)
  {}

  lemma QosAdvances(s: State, c: QosCatalog)
    ensures Advances(s.auth, PublishQos(s, c).1.auth)
  {}

  lemma PrioritiesAdvance(s: State, c: PriorityCatalog)
    ensures Advances(s.auth, PublishPriorities(s, c).1.auth)
  {}

  lemma RefuseAuth(cfg: Config, s: State, req: Request, outcome: Outcome, recordAttempt: bool)
    ensures Refuse(cfg, s, req, outcome, recordAttempt).1.auth == s.auth
  {}

  lemma AdmitNewAuth(cfg: Config, s: State, req: Request)
    ensures AdmitNew(cfg, s, req).1.auth == s.auth
  {
    var e := EvaluateRequest(s.auth, s.ledger, s.tick, s.pendingReconciliation, req);
    match e
    case Refusal(outcome) => RefuseAuth(cfg, s, req, outcome, true);
    case Granted(outcome, grant, targets, path, pathGeneration) =>
      FinishAuth(cfg, BeginDecision(cfg, s, req, outcome).1, Begun(cfg, s, req), AmountsAt(targets, grant));
  }

  lemma FinishAuth(cfg: Config, s: State, d: Decision, amounts: seq<Amount>)
    ensures FinishAdmission(cfg, s, d, amounts).1.auth == s.auth
  {}

  lemma AdmitAuth(cfg: Config, s: State, req: Request, claim: Claim)
    ensures AdmitRequest(cfg, s, req, claim).1.auth == s.auth
  {
    match PlanFor(cfg, s, req, claim)
    case RefuseWith(outcome, recordAttempt) => RefuseAuth(cfg, s, req, outcome, recordAttempt);
    case ReplayOf(d) =>
    case Evaluate => AdmitNewAuth(cfg, s, req);
  }

  lemma RevalidateAuth(s: State, d: nat)
    ensures Revalidate(s, d).1.auth == s.auth
  {}

  lemma OtherKeepsAuth(cfg: Config, s: State, op: Op)
    requires !IsPublication(op) && !Invalidates(op)
    ensures After(cfg, s, op).auth == s.auth
  {
    if op.OpAdmit? {
      AdmitAuth(cfg, s, op.request, op.claim);
    } else if op.OpRevalidate? {
      RevalidateAuth(s, op.decision);
    }
  }

  /** d was issued before, and either its record is gone or it is bound to a
      generation that has been passed. */
  ghost predicate Stale(s: State, d: nat) {
    d < s.nextDecision && (d in s.history.records ==> Past(s.auth, s.history.records[d]))
  }

  lemma StaleStep(cfg: Config, s: State, op: Op, d: nat)
    requires Stale(s, d) && !Invalidates(op)
    ensures Stale(After(cfg, s, op), d)
  {
    StepCarries(cfg, s, op);
    if IsPublication(op) {
      PublicationAdvances(cfg, s, op);
    } else {
      OtherKeepsAuth(cfg, s, op);
    }
  }

  lemma StaleNeverValid(s: State, d: nat)
    requires Stale(s, d)
    ensures
      var answer := Revalidate(s, d).0;
      !(answer.Revalidated? && answer.state == Valid)
  {
    assert Examine(s, d) != StillValid;
  }

  lemma {:induction false} StaleRun(cfg: Config, s: State, ops: seq<Op>, d: nat)
    requires Stale(s, d) && forall i :: 0 <= i < |ops| ==> !Invalidates(ops[i])
    ensures Stale(Run(cfg, s, ops), d)
  {
    if ops != [] {
      var n := |ops| - 1;
      StaleRun(cfg, s, ops[..n], d);
      StaleStep(cfg, Run(cfg, s, ops[..n]), ops[n], d);
    }
  }

  /** Staleness is permanent: without invalidate calls, once a bound generation
      has been passed no later revalidation answers Valid. */
  lemma StalenessIsPermanent(cfg: Config, s: State, ops: seq<Op>, d: nat)
    requires Stale(s, d) && forall i :: 0 <= i < |ops| ==> !Invalidates(ops[i])
    ensures
      var answer := Revalidate(Run(cfg, s, ops), d).0;
      !(answer.Revalidated? && answer.state == Valid)
  {
    StaleRun(cfg, s, ops, d);
    StaleNeverValid(Run(cfg, s, ops), d);
  }

  /** The bound generation is the current one, where there is a current one. */
  predicate Bound(generation: u64, current: Option<u64>) {
    current.None? || generation == current.value
  }

  /** Every authority the grant depends on stands where it stood. */
  predicate BoundToCurrent(auth: Authorities, r: DecisionRecord) {
    auth.capacity.Some? && auth.reservations.Some? && auth.policy.Some? &&
    r.boundCapacity == auth.capacity.value.generation && r.boundPolicy == auth.policy.value.generation &&
    r.boundReservation == auth.reservations.value.generation &&
    Bound(r.boundQos, if auth.qos.Some? then Some(auth.qos.value.generation) else None) &&
    Bound(r.boundPriority, if auth.priorities.Some? then Some(auth.priorities.value.generation) else None) &&
    Bound(r.boundPath, if auth.paths.Some? then Some(auth.paths.value.generation) else None)
  }

  /** A revalidation answers Valid exactly when the grant is still held in the
      incarnation that issued it and reconciled, every bound generation is the
      current one, its path is up, and every resource it holds fits. */
  lemma ValidExactly(s: State, d: nat)
    ensures Revalidate(s, d).0 == Revalidated(Valid, NotRevoked, false) <==>
      d in s.history.records && d in s.ledger.byDecision &&
      var r := s.history.records[d];
      Admitting(r.outcome) && !Released(r.state) && r.epoch == s.epoch && r.incarnation == s.incarnation &&
      !AnyFlagged(s.ledger.byDecision[d]) && BoundToCurrent(s.auth, r) &&
      (r.path != 0 ==> PathUsable(s.auth, r.path)) && Fits(s.auth, s.ledger, d)
  {}

  // ------------------------------------------------------------------
  // When a generation can come back
  // ------------------------------------------------------------------

  datatype Floor = CapacityFloor | PathFloor

  /** The generation in force, zero when unknown. */
  function InForce(auth: Authorities, floor: Floor): u64 {
    match floor
    case CapacityFloor => GenerationOf(auth).capacityGeneration
    case PathFloor => GenerationOf(auth).pathGeneration
  }

  predicate Forgets(op: Op, floor: Floor) {
    match floor
    case CapacityFloor => op.OpInvalidateCapacity?
    case PathFloor => op.OpInvalidatePaths?
  }

  lemma InvalidateKeepsOther(cfg: Config, s: State, op: Op, floor: Floor)
    requires Invalidates(op) && !Forgets(op, floor)
    ensures InForce(After(cfg, s, op).auth, floor) == InForce(s.auth, floor)
  {}

  /** Only an invalidate call of that authority lowers a generation. */
  lemma FloorHolds(cfg: Config, s: State, op: Op, floor: Floor)
    requires !Forgets(op, floor)
    ensures InForce(s.auth, floor) <= InForce(After(cfg, s, op).auth, floor)
  {
    if IsPublication(op) {
      PublicationAdvances(cfg, s, op);
    } else if Invalidates(op) {
      InvalidateKeepsOther(cfg, s, op, floor);
    } else {
      OtherKeepsAuth(cfg, s, op);
    }
  }

  ghost function FloorAt(cfg: Config, s: State, ops: seq<Op>, i: nat, floor: Floor): u64
    requires i <= |ops|
  {
    InForce(Run(cfg, s, ops[..i]).auth, floor)
  }

  /** The operation publishes, acceptably in s, a generation newer than g. */
  ghost predicate Raises(s: State, op: Op, floor: Floor, g: u64) {
    match floor
    case CapacityFloor => op.OpCapacity? && ValidCapacity(op.capacity) && s.epoch == op.capacity.epoch && op.capacity.generation > g
    case PathFloor => op.OpPaths? && ValidPaths(op.paths) && s.epoch != 0 && op.paths.generation > g
  }

  /** Step j publishes nothing newer than g. */
  ghost predicate SilentAt(cfg: Config, s: State, ops: seq<Op>, j: nat, floor: Floor, g: u64)
    requires j < |ops|
  {
    !Raises(Run(cfg, s, ops[..j]), ops[j], floor, g)
  }

  /** The floor was forgotten at step i and nothing newer than g was acceptably
      published at any later step. */
  ghost predicate ForgottenAt(cfg: Config, s: State, ops: seq<Op>, i: nat, floor: Floor, g: u64)
    requires i < |ops|
  {
    Forgets(ops[i], floor) && forall j :: i < j < |ops| ==> SilentAt(cfg, s, ops, j, floor, g)
  }

  lemma CapacityRaises(s: State, c: CapacitySnapshot, g: u64)
    requires InForce(s.auth, CapacityFloor) <= g
    ensures InForce(PublishCapacity(s, c).1.auth, CapacityFloor) > g <==> Raises(s, OpCapacity(c), CapacityFloor, g)
  {
    EnforceAuth(s.(auth := s.auth.(capacity := Some(c)), tick := Later(s.tick, c.observedTick)), CapacityReduction);
  }

  lemma PathsRaise(s: State, c: PathCatalog, g: u64)
    requires InForce(s.auth, PathFloor) <= g
    ensures InForce(PublishPaths(s, c).1.auth, PathFloor) > g <==> Raises(s, OpPaths(c), PathFloor, g)
  {}

  /** What an operation that publishes nothing for the floor does to it. */
  lemma FloorStays(cfg: Config, s: State, op: Op, floor: Floor)
    requires match floor case CapacityFloor => !op.OpCapacity? case PathFloor => !op.OpPaths?
    ensures InForce(After(cfg, s, op).auth, floor) == if Forgets(op, floor) then 0 else InForce(s.auth, floor)
  {
    if IsPublication(op) {
      OtherPublication(cfg, s, op, floor);
    } else if Invalidates(op) {
      InvalidateFloors(cfg, s, op, floor);
    } else {
      OtherKeepsAuth(cfg, s, op);
    }
  }

  lemma InvalidateFloors(cfg: Config, s: State, op: Op, floor: Floor)
    requires Invalidates(op)
    ensures InForce(After(cfg, s, op).auth, floor) == if Forgets(op, floor) then 0 else InForce(s.auth, floor)
  {}

  lemma PolicyKeepsFloors(s: State, p: Policy, floor: Floor)
    ensures InForce(PublishPolicy(s, p).1.auth, floor) == InForce(s.auth, floor)
  {
    var s1 := Write(s, PolicyConfig(p)).1;
    EnforceAuth(s1.(auth := s1.auth.(policy := Some(p)), tick := Later(s1.tick, p.observedTick)), PolicyChange);
  }

  lemma OtherPublication(cfg: Config, s: State, op: Op, floor: Floor)
    requires IsPublication(op) && match floor case CapacityFloor => !op.OpCapacity? case PathFloor => !op.OpPaths?
    ensures InForce(After(cfg, s, op).auth, floor) == InForce(s.auth, floor)
  {
    match op
    case OpPolicy(p) => PolicyKeepsFloors(s, p, floor);
    case OpCapacity(c) => CapacityAuth(s, c);
    case OpReservations(r) => ReservationsAuth(s, r);
    case _ =>
  }

  /** A floor at or below g rises above it exactly by such a publication. */
  lemma RaisedIff(cfg: Config, s: State, op: Op, floor: Floor, g: u64)
    requires InForce(s.auth, floor) <= g
    ensures InForce(After(cfg, s, op).auth, floor) > g <==> Raises(s, op, floor, g)
  {
    match floor
    case CapacityFloor =>
      if op.OpCapacity? {
        CapacityRaises(s, op.capacity, g);
      } else {
        FloorStays(cfg, s, op, floor);
      }
    case PathFloor =>
      if op.OpPaths? {
        PathsRaise(s, op.paths, g);
      } else {
        FloorStays(cfg, s, op, floor);
      }
  }

  lemma FloorPrefix(cfg: Config, s: State, ops: seq<Op>, n: nat, j: nat, floor: Floor)
    requires j <= n <= |ops|
    ensures FloorAt(cfg, s, ops[..n], j, floor) == FloorAt(cfg, s, ops, j, floor)
  {
    assert ops[..n][..j] == ops[..j];
  }

  lemma FloorWhole(cfg: Config, s: State, ops: seq<Op>, floor: Floor)
    ensures FloorAt(cfg, s, ops, |ops|, floor) == InForce(Run(cfg, s, ops).auth, floor)
  {
    assert ops[..|ops|] == ops;
  }

  /** The last step took the floor below g. */
  lemma LoweredLast(cfg: Config, s: State, ops: seq<Op>, n: nat, floor: Floor, g: u64)
    requires |ops| == n + 1 && FloorAt(cfg, s, ops, n, floor) > g && FloorAt(cfg, s, ops, n + 1, floor) <= g
    ensures ForgottenAt(cfg, s, ops, n, floor, g)
  {
    FloorWhole(cfg, s, ops, floor);
    if !Forgets(ops[n], floor) {
      FloorHolds(cfg, Run(cfg, s, ops[..n]), ops[n], floor);
    }
  }

  /** One step more, which raises the floor above g or does not. */
  lemma FloorNext(cfg: Config, s: State, ops: seq<Op>, n: nat, floor: Floor, g: u64)
    requires |ops| == n + 1 && FloorAt(cfg, s, ops, n, floor) <= g
    ensures FloorAt(cfg, s, ops, n + 1, floor) <= g <==> SilentAt(cfg, s, ops, n, floor, g)
  {
    FloorWhole(cfg, s, ops, floor);
    RaisedIff(cfg, Run(cfg, s, ops[..n]), ops[n], floor, g);
  }

  lemma ForgottenStep(cfg: Config, s: State, ops: seq<Op>, n: nat, i: nat, floor: Floor, g: u64)
    requires i < n && |ops| == n + 1
    ensures ForgottenAt(cfg, s, ops, i, floor, g) <==>
      ForgottenAt(cfg, s, ops[..n], i, floor, g) && SilentAt(cfg, s, ops, n, floor, g)
  {
    forall j | 0 <= j < n ensures SilentAt(cfg, s, ops[..n], j, floor, g) <==> SilentAt(cfg, s, ops, j, floor, g) {
      SilentPrefix(cfg, s, ops, n, j, floor, g);
    }
  }

  lemma SilentPrefix(cfg: Config, s: State, ops: seq<Op>, n: nat, j: nat, floor: Floor, g: u64)
    requires j < n <= |ops|
    ensures SilentAt(cfg, s, ops[..n], j, floor, g) <==> SilentAt(cfg, s, ops, j, floor, g)
  {
    assert ops[..n][j] == ops[j] && ops[..n][..j] == ops[..j];
  }

  lemma ForgottenCarries(cfg: Config, s: State, ops: seq<Op>, n: nat, i: nat, floor: Floor, g: u64)
    requires i < n && |ops| == n + 1 && ForgottenAt(cfg, s, ops[..n], i, floor, g)
    requires FloorAt(cfg, s, ops, n, floor) <= g && FloorAt(cfg, s, ops, n + 1, floor) <= g
    ensures ForgottenAt(cfg, s, ops, i, floor, g)
  {
    FloorNext(cfg, s, ops, n, floor, g);
    ForgottenStep(cfg, s, ops, n, i, floor, g);
  }

  lemma FloorStart(cfg: Config, s: State, ops: seq<Op>, floor: Floor)
    ensures FloorAt(cfg, s, ops, 0, floor) == InForce(s.auth, floor)
  {
    assert ops[..0] == [];
  }

  lemma {:induction false} LoweredWhere(cfg: Config, s: State, ops: seq<Op>, n: nat, floor: Floor, g: u64) returns (i: nat)
    requires n == |ops| && InForce(s.auth, floor) > g && FloorAt(cfg, s, ops, n, floor) <= g
    ensures i < n && ForgottenAt(cfg, s, ops, i, floor, g)
    decreases n
  {
    if n == 0 {
      FloorStart(cfg, s, ops, floor);
    } else if FloorAt(cfg, s, ops, n - 1, floor) > g {
      LoweredLast(cfg, s, ops, n - 1, floor, g);
      i := n - 1;
    } else {
      FloorPrefix(cfg, s, ops, n - 1, n - 1, floor);
      i := LoweredWhere(cfg, s, ops[..n - 1], n - 1, floor, g);
      ForgottenCarries(cfg, s, ops, n - 1, i, floor, g);
    }
  }

  lemma ForgottenLast(cfg: Config, s: State, ops: seq<Op>, n: nat, floor: Floor, g: u64)
    requires |ops| == n + 1 && ForgottenAt(cfg, s, ops, n, floor, g)
    ensures FloorAt(cfg, s, ops, n + 1, floor) <= g
  {
    FloorWhole(cfg, s, ops, floor);
    ForgetsNow(cfg, Run(cfg, s, ops[..n]), ops[n], floor);
  }

  /** From the step that forgot it the floor stays at or below g. */
  lemma {:induction false} ForgottenStays(cfg: Config, s: State, ops: seq<Op>, n: nat, i: nat, floor: Floor, g: u64)
    requires n == |ops| && i < n && ForgottenAt(cfg, s, ops, i, floor, g)
    ensures FloorAt(cfg, s, ops, n, floor) <= g
    decreases n
  {
    if i == n - 1 {
      ForgottenLast(cfg, s, ops, i, floor, g);
    } else {
      ForgottenStep(cfg, s, ops, n - 1, i, floor, g);
      ForgottenStays(cfg, s, ops[..n - 1], n - 1, i, floor, g);
      FloorPrefix(cfg, s, ops, n - 1, n - 1, floor);
      FloorNext(cfg, s, ops, n - 1, floor, g);
    }
  }

  lemma ForgetsNow(cfg: Config, s: State, op: Op, floor: Floor)
    requires Forgets(op, floor)
    ensures InForce(After(cfg, s, op).auth, floor) == 0
  {
    InvalidateFloors(cfg, s, op, floor);
  }

  /** Over any run, a generation g older than the one in force at the start can
      be in force at the end exactly when an invalidate call forgot the floor and
      nothing newer than g was acceptably published after it. */
  lemma FloorLoweredIff(cfg: Config, s: State, ops: seq<Op>, floor: Floor, g: u64)
    requires InForce(s.auth, floor) > g
    ensures FloorAt(cfg, s, ops, |ops|, floor) <= g <==> exists i :: 0 <= i < |ops| && ForgottenAt(cfg, s, ops, i, floor, g)
  {
    if FloorAt(cfg, s, ops, |ops|, floor) <= g {
      var i := LoweredWhere(cfg, s, ops, |ops|, floor, g);
    }
    if i :| 0 <= i < |ops| && ForgottenAt(cfg, s, ops, i, floor, g) {
      ForgottenStays(cfg, s, ops, |ops|, i, floor, g);
    }
  }

  /** A well-formed snapshot of the right epoch is in force after its publication
      exactly when nothing newer is. */
  lemma CapacityTakesEffectIff(s: State, c: CapacitySnapshot)
    requires ValidCapacity(c) && s.epoch == c.epoch
    ensures InForce(PublishCapacity(s, c).1.auth, CapacityFloor) == c.generation <==> InForce(s.auth, CapacityFloor) <= c.generation
  {
    EnforceAuth(s.(auth := s.auth.(capacity := Some(c)), tick := Later(s.tick, c.observedTick)), CapacityReduction);
  }

  lemma PathsTakeEffectIff(s: State, c: PathCatalog)
    requires ValidPaths(c) && s.epoch != 0
    ensures InForce(PublishPaths(s, c).1.auth, PathFloor) == c.generation <==> InForce(s.auth, PathFloor) <= c.generation
  {}

  /** Departure: an older capacity generation comes back into force by publication
      exactly after an invalidate call that nothing newer followed. */
  lemma CapacityComesBackIff(cfg: Config, s: State, ops: seq<Op>, c: CapacitySnapshot)
    requires ValidCapacity(c) && Run(cfg, s, ops).epoch == c.epoch && c.generation < InForce(s.auth, CapacityFloor)
    ensures InForce(PublishCapacity(Run(cfg, s, ops), c).1.auth, CapacityFloor) == c.generation <==>
      exists i :: 0 <= i < |ops| && ForgottenAt(cfg, s, ops, i, CapacityFloor, c.generation)
  {
    assert ops[..|ops|] == ops;
    FloorLoweredIff(cfg, s, ops, CapacityFloor, c.generation);
    CapacityTakesEffectIff(Run(cfg, s, ops), c);
  }

  lemma PathsComeBackIff(cfg: Config, s: State, ops: seq<Op>, c: PathCatalog)
    requires ValidPaths(c) && Run(cfg, s, ops).epoch != 0 && c.generation < InForce(s.auth, PathFloor)
    ensures InForce(PublishPaths(Run(cfg, s, ops), c).1.auth, PathFloor) == c.generation <==>
      exists i :: 0 <= i < |ops| && ForgottenAt(cfg, s, ops, i, PathFloor, c.generation)
  {
    assert ops[..|ops|] == ops;
    FloorLoweredIff(cfg, s, ops, PathFloor, c.generation);
    PathsTakeEffectIff(Run(cfg, s, ops), c);
  }
}
