/** The admission engine as a state machine: one pure function per public
    operation (src/engine/admission.cpp, src/engine/engine.cpp).

    The journal is the sequence of records it durably holds. Whether an append
    succeeds is the environment's choice, supplied as `outcomes`; an append either
    takes full effect or none. `images` lists every durable content the journal
    has had, which are exactly the points at which a crash can leave it. */
module Engine {
  import opened Base
  import opened Model
  import opened Checked
  import opened Snapshots
  import opened Ledger
  import opened History
  import opened Attempts
  import opened Evaluate
  import opened Selection
  import opened Checks

  datatype Config = Config(
    acceptInProcess: bool,
    sessionCapacity: nat,
    compactAt: nat,
    fingerprint: Request -> u64)

  datatype Session = Session(publisher: u64, boot: u64)

  datatype JournalState = JournalState(
    attached: bool,
    log: seq<Record>,
    images: seq<seq<Record>>,
    outcomes: seq<bool>)

  datatype State = State(
    epoch: u64,
    incarnation: u64,
    tick: u64,
    auth: Authorities,
    ledger: LedgerState,
    history: HistoryState,
    attempts: AttemptState,
    cache: map<nat, Decision>,
    sessions: map<nat, Session>,
    nextNonce: nat,
    nextDecision: nat,
    audit: nat,
    pendingReconciliation: bool,
    journal: JournalState)

  const NO_AUTHORITIES := Authorities(None, None, None, None, None, None)

  // ------------------------------------------------------------------
  // Journal
  // ------------------------------------------------------------------

  function Consume(j: JournalState): JournalState {
    if j.outcomes == [] then j else j.(outcomes := j.outcomes[1..])
  }

  predicate NextFails(j: JournalState) {
    j.outcomes != [] && !j.outcomes[0]
  }

  function WithLog(j: JournalState, log: seq<Record>): JournalState {
    j.(log := log, images := j.images + [log])
  }

  function Appended(j: JournalState, r: Record): (bool, JournalState) {
    if !j.attached then (true, j)
    else if NextFails(j) then (false, Consume(j))
    else (true, WithLog(Consume(j), j.log + [r]))
  }

  function Write(s: State, r: Record): (bool, State) {
    var (ok, j) := Appended(s.journal, r);
    (ok, s.(journal := j))
  }

  function BootOf(s: State): Record {
    BootEpoch(BootRecord(s.epoch, FORMAT_REVISION, PRODUCT_NAME, s.incarnation, s.incarnation))
  }

  function AmountOf(e: LedgerEntry): Amount {
    Amount(e.resource, e.amount)
  }

  function AmountsOf(entries: seq<LedgerEntry>): seq<Amount> {
    seq(|entries|, i requires 0 <= i < |entries| => AmountOf(entries[i]))
  }

  function PrepareOf(r: DecisionRecord, entries: seq<LedgerEntry>): PrepareRecord {
    PrepareRecord(r.decision, r.demand, r.attempt, r.fingerprint, r.epoch, r.boundCapacity, r.path, AmountsOf(entries))
  }

  /** A live grant is rewritten as intent plus commit, anything else as history. */
  function CompactedRecord(l: LedgerState, r: DecisionRecord): seq<Record> {
    if Admitting(r.outcome) && Holds(l, r.decision)
    then [AdmissionPrepare(PrepareOf(r, l.byDecision[r.decision])), AdmissionCommit(r)]
    else [AdmissionRefused(r)]
  }

  function CompactedRecords(l: LedgerState, ordered: seq<DecisionRecord>): seq<Record> {
    if ordered == [] then []
    else CompactedRecords(l, ordered[..|ordered| - 1]) + CompactedRecord(l, ordered[|ordered| - 1])
  }

  function CompactedLog(s: State): seq<Record> {
    var body :=
      [BootOf(s)]
      + (if s.auth.policy.Some? then [PolicyConfig(s.auth.policy.value)] else [])
      + CompactedRecords(s.ledger, InAuditOrder(s.history));
    body + [AuditMark(AuditMarkRecord(s.audit, s.epoch, |body|))]
  }

  function Compact(s: State): (Status, State) {
    if !s.journal.attached then (InvalidArgument, s)
    else if NextFails(s.journal) then (DurableFailure, s.(journal := Consume(s.journal)))
    else (Ok, s.(journal := WithLog(Consume(s.journal), CompactedLog(s))))
  }

  function CompactIfNeeded(cfg: Config, s: State): (Status, State) {
    if !s.journal.attached || |s.journal.log| < cfg.compactAt then (Ok, s) else Compact(s)
  }

  // ------------------------------------------------------------------
  // Decisions
  // ------------------------------------------------------------------

  /** Identity is consumed as soon as a decision begins. */
  function BeginDecision(cfg: Config, s: State, req: Request, outcome: Outcome): (Decision, State) {
    (Decision(s.nextDecision, s.audit, outcome, req.request, req.demand, req.demandGeneration, req.attempt,
              s.epoch, s.incarnation, s.tick, 0, 0, 0, 0, cfg.fingerprint(req), false),
     s.(nextDecision := s.nextDecision + 1, audit := s.audit + 1))
  }

  function ToRecord(auth: Authorities, d: Decision): DecisionRecord {
    var now := GenerationOf(auth);
    DecisionRecord(d.decision, d.audit, d.outcome, d.request, d.demand, d.demandGeneration, d.attempt, d.path,
                   d.granted, d.epoch, d.incarnation, d.decidedTick, d.fingerprint,
                   d.boundCapacity, now.policyGeneration, now.qosGeneration, now.priorityGeneration,
                   now.pathGeneration, now.reservationGeneration, Fresh, NotRevoked, false, false)
  }

  function Remember(cache: map<nat, Decision>, d: Decision): map<nat, Decision> {
    var room := if |cache| >= MAX_DECISION_RECORDS && cache.Keys != {} then cache - {SortedKeys(cache.Keys)[0]} else cache;
    room[d.decision := d]
  }

  function AttemptOf(d: Decision, tick: u64): AttemptRecord {
    AttemptRecord(d.request, d.demand, d.demandGeneration, d.attempt, d.fingerprint, d.decision, d.outcome, tick)
  }

  /** History, attempt and cache bookkeeping of a finished decision. */
  function Filed(s: State, d: Decision, r: DecisionRecord, recordAttempt: bool): State {
    s.(history := TrimIfNeeded(Inserted(s.history, r), s.ledger.byDecision.Keys),
       attempts := if recordAttempt then Recorded(s.attempts, AttemptOf(d, s.tick)) else s.attempts,
       cache := Remember(s.cache, d))
  }

  datatype AdmitResult = Decided(decision: Decision) | Failed(status: Status)

  function FinishRefusal(s: State, d: Decision, recordAttempt: bool): (AdmitResult, State) {
    var r := ToRecord(s.auth, d);
    var (ok, s1) := Write(s, AdmissionRefused(r));
    if !ok then (Failed(DurableFailure), s1)
    else (Decided(d), Filed(s1, d, r, recordAttempt))
  }

  function Refuse(cfg: Config, s: State, req: Request, outcome: Outcome, recordAttempt: bool): (AdmitResult, State) {
    var (d, s1) := BeginDecision(cfg, s, req, outcome);
    FinishRefusal(s1, d, recordAttempt)
  }

  function HoldOf(d: Decision, amounts: seq<Amount>): Hold {
    Hold(d.decision, d.demand, d.epoch, d.boundCapacity, d.path, amounts)
  }

  function IntentOf(d: Decision, amounts: seq<Amount>): PrepareRecord {
    PrepareRecord(d.decision, d.demand, d.attempt, d.fingerprint, d.epoch, d.boundCapacity, d.path, amounts)
  }

  /** Intent, reservation, commit; then compaction if the journal has grown. */
  function FinishAdmission(cfg: Config, s: State, d: Decision, amounts: seq<Amount>): (AdmitResult, State) {
    var (prepared, s1) := Write(s, AdmissionPrepare(IntentOf(d, amounts)));
    if !prepared then (Failed(DurableFailure), s1)
    else
      var (reserved, l) := Reserved(s1.ledger, HoldOf(d, amounts));
      var s2 := s1.(ledger := l);
      if reserved != Ok then (Failed(reserved), s2)
      else
        var r := ToRecord(s2.auth, d).(ledgerLive := true);
        var (committed, s3) := Write(s2, AdmissionCommit(r));
        if !committed then (Failed(DurableFailure), s3.(ledger := ReleasedLoad(s3.ledger, d.decision).1))
        else
          var (compacted, s4) := CompactIfNeeded(cfg, Filed(s3, d, r, true));
          (if compacted == Ok then Decided(d) else Failed(compacted), s4)
  }

  function AmountsAt(targets: seq<u64>, grant: u64): (a: seq<Amount>)
    ensures |a| == |targets| && forall i :: 0 <= i < |a| ==> a[i] == Amount(targets[i], grant)
  {
    seq(|targets|, i requires 0 <= i < |targets| => Amount(targets[i], grant))
  }

  /** Everything the evaluation settles before an identity is consumed. */
  datatype Evaluation =
    | Refusal(outcome: Outcome)
    | Granted(outcome: Outcome, grant: u64, targets: seq<u64>, path: u64, pathGeneration: u64)

  /** The grant the capacity stage leaves room for. */
  function GrantWithin(auth: Authorities, req: Request, targets: seq<u64>, v: CapacityResult, path: u64, pathGeneration: u64): Evaluation {
    if v.outcome != Admit then Refusal(v.outcome)
    else
      var grant := Min(v.ceiling, req.rate.maximum);
      if grant < req.rate.minimum then Refusal(RejectCapacity)
      else if grant < req.rate.desired && !DegradeAllowed(auth, req) then Refusal(RejectCapacity)
      else Granted(if grant < req.rate.desired then AdmitDegraded else Admit, grant, targets, path, pathGeneration)
  }

  function EvaluateGrant(auth: Authorities, l: LedgerState, tick: u64, req: Request, choice: Choice): Evaluation
    requires !choice.Refused?
  {
    var traversal := match choice
      case NoPath => []
      case ViaPath(fact, _) => fact.resources
      case CapacityBlocked(resources) => resources;
    var path := if choice.ViaPath? then Some(choice.fact) else None;
    var targets := Targets(req, traversal);
    if targets == [] then Refusal(RejectPolicy)
    else
      GrantWithin(auth, req, targets, CapacityVerdict(auth, l, tick, req, targets, path),
                  if choice.ViaPath? then choice.fact.path else 0,
                  if choice.ViaPath? then choice.generation else 0)
  }

  function EvaluateRequest(auth: Authorities, l: LedgerState, tick: u64, pendingReconciliation: bool, req: Request): Evaluation {
    if ReadinessVerdict(auth, pendingReconciliation) != Admit then Refusal(ReadinessVerdict(auth, pendingReconciliation))
    else if !ExpectationsMet(auth, req) then Refusal(StaleInput)
    else if PolicyVerdict(auth, req) != Admit then Refusal(PolicyVerdict(auth, req))
    else
      var choice := SelectPath(auth, l, req);
      if choice.Refused? then Refusal(choice.outcome) else EvaluateGrant(auth, l, tick, req, choice)
  }

  function AdmitNew(cfg: Config, s: State, req: Request): (AdmitResult, State) {
    var e := EvaluateRequest(s.auth, s.ledger, s.tick, s.pendingReconciliation, req);
    match e
    case Refusal(outcome) => Refuse(cfg, s, req, outcome, true)
    case Granted(outcome, grant, targets, path, pathGeneration) =>
      var (d, s1) := BeginDecision(cfg, s, req, outcome);
      FinishAdmission(cfg, s1,
        d.(path := path, pathGeneration := pathGeneration, granted := grant,
           boundCapacity := GenerationOf(s.auth).capacityGeneration),
        AmountsAt(targets, grant))
  }

  function FromRecord(r: DecisionRecord): Decision {
    Decision(r.decision, r.audit, r.outcome, r.request, r.demand, r.demandGeneration, r.attempt,
             r.epoch, r.incarnation, r.decidedTick, r.path, r.boundPath, r.granted, r.boundCapacity, r.fingerprint, true)
  }

  /** Admit means the claim is current. */
  function FenceVerdict(cfg: Config, s: State, claim: Claim): Outcome {
    if claim.origin == InProcess && cfg.acceptInProcess then
      if claim.epoch != 0 && claim.epoch != s.epoch then FencedClaimant
      else if claim.incarnation != 0 && claim.incarnation != s.incarnation then FencedClaimant
      else Admit
    else if claim.epoch == 0 || claim.epoch < s.epoch then FencedClaimant
    else if claim.epoch > s.epoch then ConflictingInput
    else if claim.incarnation != s.incarnation then FencedClaimant
    else if claim.session == 0 || claim.session !in s.sessions then FencedClaimant
    else if s.sessions[claim.session] != Session(claim.publisher, claim.boot) then FencedClaimant
    else Admit
  }

  function KeyFor(req: Request): AttemptKey {
    AttemptKey(req.demand, req.attempt)
  }

  /** What contract, fence and identity checks make of a request. */
  datatype Plan =
    | RefuseWith(outcome: Outcome, recordAttempt: bool)
    | ReplayOf(decision: Decision)
    | Evaluate

  function PlanFor(cfg: Config, s: State, req: Request, claim: Claim): Plan {
    if !ValidRequest(req) then RefuseWith(RejectPolicy, false)
    else if FenceVerdict(cfg, s, claim) != Admit then RefuseWith(FenceVerdict(cfg, s, claim), true)
    else
      match Classify(s.attempts, KeyFor(req), req.request, cfg.fingerprint(req))
      case Replay(existing) =>
        if existing.decision in s.cache then ReplayOf(s.cache[existing.decision].(idempotentReplay := true))
        else if existing.decision in s.history.records then ReplayOf(FromRecord(s.history.records[existing.decision]))
        else RefuseWith(ConflictingInput, false)
      case Conflict(_) => RefuseWith(ConflictingInput, false)
      case NewAttempt => Evaluate
  }

  function AdmitRequest(cfg: Config, s: State, req: Request, claim: Claim): (AdmitResult, State) {
    match PlanFor(cfg, s, req, claim)
    case RefuseWith(outcome, recordAttempt) => Refuse(cfg, s, req, outcome, recordAttempt)
    case ReplayOf(d) => (Decided(d), s)
    case Evaluate => AdmitNew(cfg, s, req)
  }

  // ------------------------------------------------------------------
  // Release, revalidation, revocation
  // ------------------------------------------------------------------

  function Marked(h: HistoryState, d: nat, state: RevalidationState, reason: RevocationReason, live: bool): HistoryState {
    if d !in h.records then h
    else Updated(h, d, h.records[d].(state := state, reason := reason, ledgerLive := live))
  }

  /** Release record, ledger, revocation record, history. */
  function ReleaseDecision(s: State, d: nat, reason: RevocationReason, state: RevalidationState): (Status, State) {
    if !Holds(s.ledger, d) then (NotFound, s)
    else
      var (written, s1) := Write(s, LedgerRelease(ReleaseRecord(d, s.epoch, reason, s.ledger.byDecision[d])));
      if !written then (DurableFailure, s1)
      else
        var (removed, l) := ReleasedLoad(s1.ledger, d);
        if removed != Ok then (removed, s1)
        else
          var (journaled, s2) := Write(s1.(ledger := l), Model.Revocation(RevocationRecord(d, s.epoch, s.audit, reason, state)));
          if !journaled then (DurableFailure, s2)
          else (Ok, s2.(history := NoteRelease(Marked(s2.history, d, state, reason, false)), cache := s2.cache - {d}))
  }

  datatype RevalidationResult =
    | Revalidated(state: RevalidationState, reason: RevocationReason, ledgerReleased: bool)
    | NotRevalidated(status: Status)

  function Evict(s: State, d: nat, reason: RevocationReason): (RevalidationResult, State) {
    var (st, s1) := ReleaseDecision(s, d, reason, Revoked);
    (if st == Ok then Revalidated(Revoked, reason, true) else NotRevalidated(st), s1)
  }

  /** Some authority has moved away from what the grant was bound to. */
  predicate Superseded(auth: Authorities, r: DecisionRecord) {
    (auth.capacity.Some? && r.boundCapacity != auth.capacity.value.generation) ||
    (auth.policy.Some? && r.boundPolicy != auth.policy.value.generation) ||
    (auth.qos.Some? && r.boundQos != auth.qos.value.generation) ||
    (auth.priorities.Some? && r.boundPriority != auth.priorities.value.generation) ||
    (auth.reservations.Some? && r.boundReservation != auth.reservations.value.generation) ||
    (auth.paths.Some? && r.boundPath != auth.paths.value.generation)
  }

  predicate EntryFits(auth: Authorities, l: LedgerState, e: LedgerEntry) {
    Known(auth, e.resource) && Admitted(l, e.resource) <= Allowance(auth, e.resource)
  }

  /** Every resource the decision holds is known and within its allowance. */
  predicate Fits(auth: Authorities, l: LedgerState, d: nat)
    requires d in l.byDecision
  {
    forall i :: 0 <= i < |l.byDecision[d]| ==> EntryFits(auth, l, l.byDecision[d][i])
  }

  predicate AnyFlagged(entries: seq<LedgerEntry>) {
    exists i :: 0 <= i < |entries| && entries[i].requiresRevalidation
  }

  predicate PathUsable(auth: Authorities, path: u64) {
    var f := FindPath(auth, path);
    f.Some? && f.value.state == PathUp
  }

  datatype Finding =
    | Unanswerable(status: Status)
    | AlreadyReleased
    | NoLongerHeld
    | MustRelease(reason: RevocationReason)
    | Unreconciled
    | StillValid
    | Outdated

  /** The checks of a revalidation, in order. */
  function Examine(s: State, d: nat): Finding {
    if d !in s.history.records then Unanswerable(NotFound)
    else
      var r := s.history.records[d];
      if !Admitting(r.outcome) then Unanswerable(InvalidArgument)
      else if Released(r.state) then AlreadyReleased
      else if !Holds(s.ledger, d) then NoLongerHeld
      else if r.epoch != s.epoch || r.incarnation != s.incarnation then MustRelease(CoordinatorRestart)
      else if AnyFlagged(s.ledger.byDecision[d]) then Unreconciled
      else if s.auth.capacity.None? then MustRelease(CapacityReduction)
      else if s.auth.reservations.None? || s.auth.policy.None? then MustRelease(PolicyChange)
      else if r.path != 0 && !PathUsable(s.auth, r.path) then MustRelease(PathRevoked)
      else if !Fits(s.auth, s.ledger, d) then MustRelease(CapacityReduction)
      else if Superseded(s.auth, r) then Outdated
      else StillValid
  }

  /** A superseded grant is journaled as invalidated and keeps its load. */
  function Outdate(s: State, d: nat): (RevalidationResult, State)
    requires d in s.history.records
  {
    var (journaled, s1) := Write(s, Model.Revocation(RevocationRecord(d, s.epoch, s.audit, GenerationAdvance, Invalidated)));
    if !journaled then (NotRevalidated(DurableFailure), s1)
    else (Revalidated(Invalidated, GenerationAdvance, false),
          s1.(history := Marked(s1.history, d, Invalidated, GenerationAdvance, s.history.records[d].ledgerLive)))
  }

  function Revalidate(s: State, d: nat): (RevalidationResult, State) {
    match Examine(s, d)
    case Unanswerable(status) => (NotRevalidated(status), s)
    case AlreadyReleased => (Revalidated(s.history.records[d].state, s.history.records[d].reason, false), s)
    case NoLongerHeld =>
      (Revalidated(Revoked, ClaimantDeath, false), s.(history := Marked(s.history, d, Revoked, ClaimantDeath, false)))
    case MustRelease(reason) => Evict(s, d, reason)
    case Unreconciled => (Revalidated(Ambiguous, NotRevoked, false), s)
    case StillValid => (Revalidated(Valid, NotRevoked, false), s)
    case Outdated => Outdate(s, d)
  }

  function Revoke(s: State, d: nat, reason: RevocationReason): (RevalidationResult, State) {
    if d !in s.history.records then (NotRevalidated(NotFound), s)
    else
      var r := s.history.records[d];
      if !Admitting(r.outcome) then (Revalidated(Valid, reason, false), s)
      else if Released(r.state) || !Holds(s.ledger, d) then
        (Revalidated(Revoked, if r.reason != NotRevoked then r.reason else reason, false), s)
      else Evict(s, d, reason)
  }

  // ------------------------------------------------------------------
  // Enforcement
  // ------------------------------------------------------------------

  /** Release the decision if it holds load and does not fit the ledger as it
      stands. The count is of releases made. */
  function EnforceOne(s: State, reason: RevocationReason, r: DecisionRecord): (Status, State, nat) {
    if !Admitting(r.outcome) || !Holds(s.ledger, r.decision) || Fits(s.auth, s.ledger, r.decision) then (Ok, s, 0)
    else
      var (st, s1) := ReleaseDecision(s, r.decision, reason, Revoked);
      (st, s1, 1)
  }

  /** Visit ordered[n-1], ..., ordered[0], stopping at the first failure. */
  function EnforceFrom(s: State, reason: RevocationReason, ordered: seq<DecisionRecord>, n: nat): (Status, State, nat)
    requires n <= |ordered|
    decreases n
  {
    if n == 0 then (Ok, s, 0)
    else
      var (st, s1, k) := EnforceOne(s, reason, ordered[n - 1]);
      if st != Ok then (st, s1, 0)
      else
        var (st', s2, k') := EnforceFrom(s1, reason, ordered, n - 1);
        (st', s2, k + k')
  }

  /** A completed pass clears the revalidation flags and, if it released
      anything, marks the audit position. */
  function FinishEnforcement(st: Status, s: State, revoked: nat): (Status, State) {
    if st != Ok then (st, s)
    else
      var s1 := s.(ledger := Flagged(s.ledger, false), pendingReconciliation := false);
      if revoked == 0 then (Ok, s1)
      else
        var (marked, s2) := Write(s1, AuditMark(AuditMarkRecord(s1.audit, s1.epoch, |s1.journal.log|)));
        (if marked then Ok else DurableFailure, s2)
  }

  function Enforce(s: State, reason: RevocationReason): (Status, State) {
    if s.auth.capacity.None? then (Ok, s)
    else
      var ordered := InAuditOrder(s.history);
      var (st, s1, revoked) := EnforceFrom(s, reason, ordered, |ordered|);
      FinishEnforcement(st, s1, revoked)
  }

  // ------------------------------------------------------------------
  // Publication
  // ------------------------------------------------------------------

  datatype Freshness = Advances | Unchanged | Backwards | Conflicting

  function Compare(current: Option<u64>, generation: u64, sameContent: bool): Freshness {
    if current.None? || generation > current.value then Advances
    else if generation < current.value then Backwards
    else if sameContent then Unchanged
    else Conflicting
  }

  function Declined(f: Freshness): Status
    requires !f.Advances?
  {
    match f
    case Unchanged => Ok
    case Backwards => StaleGeneration
    case Conflicting => ConflictIdentity
  }

  function Later(tick: u64, observed: u64): u64 {
    Max(tick, observed)
  }

  function PolicyFreshness(auth: Authorities, p: Policy): Freshness {
    Compare(if auth.policy.Some? then Some(auth.policy.value.generation) else None, p.generation,
            auth.policy.Some? && p.(epoch := auth.policy.value.epoch, observedTick := auth.policy.value.observedTick) == auth.policy.value)
  }

  function PublishPolicy(s: State, p: Policy): (Status, State) {
    if !ValidPolicy(p) then (MalformedInput, s)
    else if s.epoch == 0 || p.epoch != s.epoch then (EpochMismatch, s)
    else if !PolicyFreshness(s.auth, p).Advances? then (Declined(PolicyFreshness(s.auth, p)), s)
    else
      var (written, s1) := Write(s, PolicyConfig(p));
      if !written then (DurableFailure, s1)
      else Enforce(s1.(auth := s1.auth.(policy := Some(p)), tick := Later(s1.tick, p.observedTick)), PolicyChange)
  }

  function CapacityFreshness(auth: Authorities, c: CapacitySnapshot): Freshness {
    Compare(if auth.capacity.Some? then Some(auth.capacity.value.generation) else None, c.generation,
            auth.capacity.Some? && c.snapshot == auth.capacity.value.snapshot && c.resources == auth.capacity.value.resources)
  }

  ghost function PublishCapacity(s: State, c: CapacitySnapshot): (Status, State) {
    if !ValidCapacity(c) then (MalformedInput, s)
    else if s.epoch == 0 || c.epoch != s.epoch then (EpochMismatch, s)
    else if !CapacityFreshness(s.auth, c).Advances? then (Declined(CapacityFreshness(s.auth, c)), s)
    else Enforce(s.(auth := s.auth.(capacity := Some(c)), tick := Later(s.tick, c.observedTick)), CapacityReduction)
  }

  function ReservationFreshness(auth: Authorities, r: ReservationSnapshot): Freshness {
    Compare(if auth.reservations.Some? then Some(auth.reservations.value.generation) else None, r.generation,
            auth.reservations.Some? && r.snapshot == auth.reservations.value.snapshot && r.obligations == auth.reservations.value.obligations)
  }

  ghost function PublishReservations(s: State, r: ReservationSnapshot): (Status, State) {
    if !ValidReservations(r) then (MalformedInput, s)
    else if s.epoch == 0 then (EpochMismatch, s)
    else if !ReservationFreshness(s.auth, r).Advances? then (Declined(ReservationFreshness(s.auth, r)), s)
    else Enforce(s.(auth := s.auth.(reservations := Some(r)), tick := Later(s.tick, r.observedTick)), ObligationChange)
  }

  function PathFreshness(auth: Authorities, c: PathCatalog): Freshness {
    Compare(if auth.paths.Some? then Some(auth.paths.value.generation) else None, c.generation,
            auth.paths.Some? && c.paths == auth.paths.value.paths)
  }

  ghost function PublishPaths(s: State, c: PathCatalog): (Status, State) {
    if !ValidPaths(c) then (MalformedInput, s)
    else if s.epoch == 0 then (EpochMismatch, s)
    else if !PathFreshness(s.auth, c).Advances? then (Declined(PathFreshness(s.auth, c)), s)
    else (Ok, s.(auth := s.auth.(paths := Some(c)), tick := Later(s.tick, c.observedTick)))
  }

  function QosFreshness(auth: Authorities, c: QosCatalog): Freshness {
    Compare(if auth.qos.Some? then Some(auth.qos.value.generation) else None, c.generation,
            auth.qos.Some? && c.classes == auth.qos.value.classes)
  }

  function PublishQos(s: State, c: QosCatalog): (Status, State) {
    if !ValidQos(c) then (MalformedInput, s)
    else if s.epoch == 0 then (EpochMismatch, s)
    else if !QosFreshness(s.auth, c).Advances? then (Declined(QosFreshness(s.auth, c)), s)
    else (Ok, s.(auth := s.auth.(qos := Some(c)), tick := Later(s.tick, c.observedTick)))
  }

  function PriorityFreshness(auth: Authorities, c: PriorityCatalog): Freshness {
    Compare(if auth.priorities.Some? then Some(auth.priorities.value.generation) else None, c.generation,
            auth.priorities.Some? && c.classes == auth.priorities.value.classes)
  }

  function PublishPriorities(s: State, c: PriorityCatalog): (Status, State) {
    if !ValidPriorities(c) then (MalformedInput, s)
    else if s.epoch == 0 then (EpochMismatch, s)
    else if !PriorityFreshness(s.auth, c).Advances? then (Declined(PriorityFreshness(s.auth, c)), s)
    else (Ok, s.(auth := s.auth.(priorities := Some(c)), tick := Later(s.tick, c.observedTick)))
  }

  // ------------------------------------------------------------------
  // Sessions and epochs
  // ------------------------------------------------------------------

  datatype SessionGrant = SessionGrant(session: nat, incarnation: u64, epoch: u64, publisher: u64, boot: u64)
  datatype RegisterResult = Registered(grant: SessionGrant) | NotRegistered(status: Status)

  function Register(cfg: Config, s: State, publisher: u64, boot: u64): (RegisterResult, State) {
    if publisher == 0 || boot == 0 then (NotRegistered(InvalidArgument), s)
    else if s.epoch == 0 then (NotRegistered(EpochMismatch), s)
    else if |s.sessions| >= cfg.sessionCapacity then (NotRegistered(Busy), s)
    else (Registered(SessionGrant(s.nextNonce, s.incarnation, s.epoch, publisher, boot)),
          s.(sessions := s.sessions[s.nextNonce := Session(publisher, boot)], nextNonce := s.nextNonce + 1))
  }

  function Retire(s: State, session: nat): (Status, State) {
    if session !in s.sessions then (NotFound, s) else (Ok, s.(sessions := s.sessions - {session}))
  }

  function NewIncarnation(s: State, incarnation: u64): (Status, State) {
    if s.epoch == MAX64 then (ArithmeticOverflow, s)
    else
      var s1 := s.(epoch := s.epoch + 1, incarnation := incarnation, sessions := map[], nextNonce := 1);
      var (written, s2) := Write(s1, BootOf(s1));
      (if written then Ok else DurableFailure, s2)
  }

  // ------------------------------------------------------------------
  // Runs
  // ------------------------------------------------------------------

  datatype Op =
    | OpPolicy(policy: Policy)
    | OpCapacity(capacity: CapacitySnapshot)
    | OpReservations(reservations: ReservationSnapshot)
    | OpPaths(paths: PathCatalog)
    | OpQos(qos: QosCatalog)
    | OpPriorities(priorities: PriorityCatalog)
    | OpInvalidateCapacity
    | OpInvalidatePaths
    | OpAdmit(request: Request, claim: Claim)
    | OpRevalidate(decision: nat)
    | OpRevoke(revoked: nat, reason: RevocationReason)
    | OpIncarnation(incarnation: u64)
    | OpRegister(publisher: u64, boot: u64)
    | OpRetire(session: nat)
    | OpTick(ticks: u64)
    | OpCompact

  datatype Response =
    | Answer(status: Status)
    | Admission(admission: AdmitResult)
    | Revalidation(revalidation: RevalidationResult)
    | Registration(registration: RegisterResult)

  ghost function Step(cfg: Config, s: State, op: Op): (Response, State) {
    match op
    case OpPolicy(p) => var (st, s') := PublishPolicy(s, p); (Answer(st), s')
    case OpCapacity(c) => var (st, s') := PublishCapacity(s, c); (Answer(st), s')
    case OpReservations(r) => var (st, s') := PublishReservations(s, r); (Answer(st), s')
    case OpPaths(c) => var (st, s') := PublishPaths(s, c); (Answer(st), s')
    case OpQos(c) => var (st, s') := PublishQos(s, c); (Answer(st), s')
    case OpPriorities(c) => var (st, s') := PublishPriorities(s, c); (Answer(st), s')
    case OpInvalidateCapacity => (Answer(Ok), s.(auth := s.auth.(capacity := None)))
    case OpInvalidatePaths => (Answer(Ok), s.(auth := s.auth.(paths := None)))
    case OpAdmit(req, claim) => var (r, s') := AdmitRequest(cfg, s, req, claim); (Admission(r), s')
    case OpRevalidate(d) => var (r, s') := Revalidate(s, d); (Revalidation(r), s')
    case OpRevoke(d, reason) => var (r, s') := Revoke(s, d, reason); (Revalidation(r), s')
    case OpIncarnation(i) => var (st, s') := NewIncarnation(s, i); (Answer(st), s')
    case OpRegister(publisher, boot) => var (r, s') := Register(cfg, s, publisher, boot); (Registration(r), s')
    case OpRetire(session) => var (st, s') := Retire(s, session); (Answer(st), s')
    case OpTick(ticks) => (Answer(Ok), s.(tick := SatAdd(s.tick, ticks)))
    case OpCompact => var (st, s') := Compact(s); (Answer(st), s')
  }

  ghost function After(cfg: Config, s: State, op: Op): State {
    Step(cfg, s, op).1
  }

  ghost function Run(cfg: Config, s: State, ops: seq<Op>): State {
    if ops == [] then s else After(cfg, Run(cfg, s, ops[..|ops| - 1]), ops[|ops| - 1])
  }

  /** A freshly constructed engine. */
  function Initial(epoch: u64, incarnation: u64, tick: u64, historyCapacity: nat, attemptCapacity: nat): State {
    State(epoch, incarnation, tick, NO_AUTHORITIES, EMPTY_LEDGER, EmptyHistory(historyCapacity), EmptyAttempts(attemptCapacity),
          map[], map[], 1, 1, 0, false, JournalState(false, [], [], []))
  }
}
