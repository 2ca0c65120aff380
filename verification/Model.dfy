/** The facts, requests and records the engine works on
    (include/naf/model, include/naf/engine, include/naf/durable). */
module Model {
  import opened Base

  // include/naf/core/limits.hpp
  const MAX_RESOURCES := 4096
  const MAX_RESOURCE_BINDINGS := 1024
  const MAX_PATH_CANDIDATES := 256
  const MAX_PATH_RESOURCES := 512
  const MAX_PATHS := 4096
  const MAX_OBLIGATIONS := 16384
  const MAX_QOS_CLASSES := 256
  const MAX_PRIORITY_CLASSES := 64
  const MAX_ALLOWED_CLASSES := 256
  const MAX_RESERVATION_REFS := 64
  const MAX_LEDGER_ENTRIES := 65536
  const MAX_DECISION_RECORDS := 65536
  const FORMAT_REVISION := 1
  const PRODUCT_NAME := "network-admission-fabric"

  /** Generation 0 is UNKNOWN and the all-ones generation is malformed. */
  predicate WellFormedGeneration(g: u64) {
    0 < g < MAX64
  }

  // ------------------------------------------------------------------
  // Authoritative inputs
  // ------------------------------------------------------------------

  datatype Evidence = EvidenceUnknown | EvidenceKnown
  datatype PathState = PathUnknown | PathUp | PathDown

  datatype ResourceCapacity = ResourceCapacity(
    resource: u64, generation: u64, evidence: Evidence, usable: u64, mandatoryHeadroom: u64)

  datatype CapacitySnapshot = CapacitySnapshot(
    snapshot: u64, generation: u64, epoch: u64, observedTick: u64, resources: seq<ResourceCapacity>)

  datatype Obligation = Obligation(
    reservation: u64, reservationGeneration: u64, resource: u64, reserved: u64, priority: u64,
    releaseTick: u64, inviolable: bool)

  datatype ReservationSnapshot = ReservationSnapshot(
    snapshot: u64, generation: u64, epoch: u64, observedTick: u64, obligations: seq<Obligation>)

  datatype PathFact = PathFact(
    path: u64, generation: u64, state: PathState, usable: u64, latency: u64, resources: seq<u64>)

  datatype PathCatalog = PathCatalog(
    generation: u64, epoch: u64, observedTick: u64, paths: seq<PathFact>)

  datatype QosFact = QosFact(
    qos: u64, generation: u64, minimumRate: u64, maximumRate: u64, maximumLatency: u64,
    degradationAllowed: bool)

  datatype QosCatalog = QosCatalog(
    generation: u64, epoch: u64, observedTick: u64, classes: seq<QosFact>)

  datatype PriorityFact = PriorityFact(
    priority: u64, generation: u64, rank: u64, preemptible: bool)

  datatype PriorityCatalog = PriorityCatalog(
    generation: u64, epoch: u64, observedTick: u64, classes: seq<PriorityFact>)

  datatype ContentionAction = DeferOnContention | RejectOnContention

  datatype Policy = Policy(
    id: u64, generation: u64, epoch: u64, observedTick: u64,
    headroomPermille: u64, headroomFloor: u64,
    allowDegraded: bool, allowPreemptible: bool, requirePathBinding: bool,
    requireReservationReference: bool, allowPathSubstitution: bool,
    onContention: ContentionAction,
    allowedQos: seq<u64>, allowedPriorities: seq<u64>,
    maxExplanationConstraints: u64, maxExplanationBytes: u64, maxEffectiveResources: u64,
    deferHorizonTicks: u64)

  /** What the adjacent authorities currently say. None is UNKNOWN. */
  datatype Authorities = Authorities(
    policy: Option<Policy>,
    capacity: Option<CapacitySnapshot>,
    reservations: Option<ReservationSnapshot>,
    paths: Option<PathCatalog>,
    qos: Option<QosCatalog>,
    priorities: Option<PriorityCatalog>)

  // ------------------------------------------------------------------
  // Requests and claims
  // ------------------------------------------------------------------

  datatype RateBounds = RateBounds(minimum: u64, desired: u64, maximum: u64)
  datatype Binding = Binding(resource: u64, generation: u64)
  datatype Candidate = Candidate(path: u64, generation: u64)
  datatype ReservationRef = ReservationRef(reservation: u64, generation: u64)
  datatype ContentionPreference = InheritContention | PreferDefer | PreferReject
  datatype DegradePreference = InheritDegrade | NeverDegrade | DownToMinimum

  datatype Expectation = Expectation(
    capacitySnapshot: u64, capacityGeneration: u64, reservationSnapshot: u64,
    reservationGeneration: u64, pathGeneration: u64, policyGeneration: u64,
    qosGeneration: u64, priorityGeneration: u64)

  datatype Request = Request(
    request: u64, demand: u64, demandGeneration: u64, attempt: u64,
    rate: RateBounds,
    qos: u64, qosGeneration: u64, priority: u64, priorityGeneration: u64,
    maximumLatency: u64,
    bindings: seq<Binding>, candidates: seq<Candidate>, requiredPath: u64,
    reservationRefs: seq<ReservationRef>,
    fairnessGroup: u64, tenant: u64,
    preemptible: bool, requestsObligationPreemption: bool, allowPathSubstitution: bool,
    contention: ContentionPreference, degradation: DegradePreference,
    deadlineTicks: u64, effectiveTick: u64, effectiveInterval: u64,
    expected: Expectation,
    provenancePublisher: u64, provenanceAttempt: u64)

  datatype Origin = InProcess | Claimant | Operator | RecoveryOrigin | ReplayOrigin

  datatype Claim = Claim(
    origin: Origin, publisher: u64, boot: u64, session: nat, incarnation: u64, epoch: u64)

  // ------------------------------------------------------------------
  // Decisions
  // ------------------------------------------------------------------

  datatype Outcome =
    | Admit
    | AdmitDegraded
    | Defer
    | RejectCapacity
    | RejectPolicy
    | RejectObligation
    | RejectPath
    | RejectQoS
    | StaleInput
    | ConflictingInput
    | FencedClaimant

  predicate Admitting(o: Outcome) {
    o == Admit || o == AdmitDegraded
  }

  datatype RevocationReason =
    | NotRevoked
    | OperatorRequest
    | GenerationAdvance
    | CapacityReduction
    | PathRevoked
    | PolicyChange
    | ClaimantDeath
    | CoordinatorRestart
    | ObligationChange
    | ReasonExpired

  datatype RevalidationState = Fresh | Valid | Invalidated | Revoked | Expired | Ambiguous | StateUnknown

  /** A released decision holds no load and never will again. */
  predicate Released(s: RevalidationState) {
    s == Revoked || s == Expired
  }

  datatype Decision = Decision(
    decision: nat, audit: nat, outcome: Outcome,
    request: u64, demand: u64, demandGeneration: u64, attempt: u64,
    epoch: u64, incarnation: u64, decidedTick: u64,
    path: u64, pathGeneration: u64, granted: u64,
    boundCapacity: u64, fingerprint: u64, idempotentReplay: bool)

  datatype DecisionRecord = DecisionRecord(
    decision: nat, audit: nat, outcome: Outcome,
    request: u64, demand: u64, demandGeneration: u64, attempt: u64, path: u64,
    granted: u64, epoch: u64, incarnation: u64, decidedTick: u64, fingerprint: u64,
    boundCapacity: u64, boundPolicy: u64, boundQos: u64, boundPriority: u64,
    boundPath: u64, boundReservation: u64,
    state: RevalidationState, reason: RevocationReason,
    ledgerLive: bool, restoredFromDisk: bool)

  datatype LedgerEntry = LedgerEntry(
    decision: nat, demand: u64, resource: u64, amount: u64, path: u64, epoch: u64,
    boundCapacity: u64, requiresRevalidation: bool)

  datatype Amount = Amount(resource: u64, rate: u64)

  // ------------------------------------------------------------------
  // Durable records
  // ------------------------------------------------------------------

  datatype BootRecord = BootRecord(
    epoch: u64, formatRevision: nat, product: string, bootNonce: u64, incarnation: u64)

  datatype PrepareRecord = PrepareRecord(
    decision: nat, demand: u64, attempt: u64, fingerprint: u64, epoch: u64,
    boundCapacity: u64, path: u64, amounts: seq<Amount>)

  datatype ReleaseRecord = ReleaseRecord(
    decision: nat, epoch: u64, reason: RevocationReason, released: seq<LedgerEntry>)

  datatype RevocationRecord = RevocationRecord(
    decision: nat, epoch: u64, audit: nat, reason: RevocationReason, state: RevalidationState)

  datatype AuditMarkRecord = AuditMarkRecord(sequence: nat, epoch: u64, frames: nat)

  datatype Record =
    | BootEpoch(boot: BootRecord)
    | PolicyConfig(policy: Policy)
    | AdmissionPrepare(prepare: PrepareRecord)
    | AdmissionCommit(commit: DecisionRecord)
    | AdmissionRefused(refused: DecisionRecord)
    | LedgerRelease(release: ReleaseRecord)
    | Revocation(revocation: RevocationRecord)
    | AuditMark(mark: AuditMarkRecord)
}
