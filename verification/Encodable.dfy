/** Everything an engine writes to its journal is within the bounds of the record
    codecs, as long as its counters fit 64 bits. */
module Encodable {
  import opened Base
  import opened Model
  import opened Ledger
  import opened History
  import opened Evaluate
  import opened Engine
  import opened Invariants
  import opened Enforcement
  import opened Closure
  import opened Compaction
  import opened Crash
  import Records

  ghost predicate AllBounded(log: seq<Record>) {
    forall i :: 0 <= i < |log| ==> Records.Bounded(log[i])
  }

  /** Every content the journal has had is within bounds. */
  ghost predicate Encodes(j: JournalState) {
    AllBounded(j.log) && forall i :: 0 <= i < |j.images| ==> AllBounded(j.images[i])
  }

  /** Counters and journal length fit 64 bits, with room for one more decision. */
  predicate InRange(s: State) {
    s.nextDecision < MAX64 && s.audit < MAX64 && |s.journal.log| <= MAX64
  }

  lemma Appends(j: JournalState, r: Record)
    requires Encodes(j) && Records.Bounded(r)
    ensures Encodes(Appended(j, r).1)
  {
    assert AllBounded(j.log + [r]);
  }

  lemma BootBounded(s: State)
    ensures Records.Bounded(BootOf(s))
  {
    assert forall i :: 0 <= i < |PRODUCT_NAME| ==> PRODUCT_NAME[i] as int < 256;
  }

  // ------------------------------------------------------------------
  // Compaction
  // ------------------------------------------------------------------

  ghost predicate Numbered(ordered: seq<DecisionRecord>) {
    forall i :: 0 <= i < |ordered| ==> ordered[i].decision <= MAX64 && ordered[i].audit <= MAX64
  }

  lemma OneCompacted(l: LedgerState, r: DecisionRecord)
    requires r.decision <= MAX64 && r.audit <= MAX64 && HeldDecodable(l)
    ensures AllBounded(CompactedRecord(l, r))
  {}

  lemma {:induction false} BodyBounded(l: LedgerState, ordered: seq<DecisionRecord>)
    requires Numbered(ordered) && HeldDecodable(l)
    ensures AllBounded(CompactedRecords(l, ordered))
  {
    if ordered != [] {
      var n := |ordered| - 1;
      BodyBounded(l, ordered[..n]);
      OneCompacted(l, ordered[n]);
    }
  }

  lemma BoundedConcat(a: seq<Record>, b: seq<Record>)
    requires AllBounded(a) && AllBounded(b)
    ensures AllBounded(a + b)
  {}

  lemma HeaderBounded(s: State)
    requires s.auth.policy.Some? ==> ValidPolicy(s.auth.policy.value)
    ensures AllBounded(Header(s))
  {
    BootBounded(s);
  }

  lemma OrderedNumbered(s: State)
    requires Consistent(s) && s.nextDecision <= MAX64 && s.audit <= MAX64
    ensures Numbered(InAuditOrder(s.history))
  {
    AuditOrderOrders(s);
    OrdersDistinct(s, InAuditOrder(s.history));
  }

  lemma Shape(s: State, body: seq<Record>)
    requires body == Header(s) + CompactedRecords(s.ledger, InAuditOrder(s.history))
    ensures CompactedLog(s) == body + [AuditMark(AuditMarkRecord(s.audit, s.epoch, |body|))]
  {}

  lemma MarkedBounded(body: seq<Record>, audit: nat, epoch: u64)
    requires AllBounded(body) && audit <= MAX64 && |body| <= MAX64
    ensures AllBounded(body + [AuditMark(AuditMarkRecord(audit, epoch, |body|))])
  {}

  lemma CompactedBounded(s: State)
    requires Consistent(s) && HeldDecodable(s.ledger) && s.nextDecision <= MAX64 && s.audit <= MAX64 && |CompactedLog(s)| <= MAX64
    ensures AllBounded(CompactedLog(s))
  {
    var records := CompactedRecords(s.ledger, InAuditOrder(s.history));
    var body := Header(s) + records;
    OrderedNumbered(s);
    HeaderBounded(s);
    BodyBounded(s.ledger, InAuditOrder(s.history));
    BoundedConcat(Header(s), records);
    Shape(s, body);
    MarkedBounded(body, s.audit, s.epoch);
  }

  lemma CompactEncodes(s: State)
    requires Consistent(s) && HeldDecodable(s.ledger) && Encodes(s.journal) && InRange(Compact(s).1)
    ensures Encodes(Compact(s).1.journal)
  {
    if s.journal.attached && !NextFails(s.journal) {
      CompactedBounded(s);
    }
  }

  lemma CompactIfNeededEncodes(cfg: Config, s: State)
    requires Consistent(s) && HeldDecodable(s.ledger) && Encodes(s.journal) && InRange(CompactIfNeeded(cfg, s).1)
    ensures Encodes(CompactIfNeeded(cfg, s).1.journal)
  {
    if s.journal.attached && |s.journal.log| >= cfg.compactAt {
      CompactEncodes(s);
    }
  }

  // ------------------------------------------------------------------
  // Decisions
  // ------------------------------------------------------------------

  lemma RefuseEncodes(cfg: Config, s: State, req: Request, outcome: Outcome, recordAttempt: bool)
    requires Encodes(s.journal) && s.nextDecision <= MAX64 && s.audit <= MAX64
    ensures Encodes(Refuse(cfg, s, req, outcome, recordAttempt).1.journal)
  {
    var (d, s1) := BeginDecision(cfg, s, req, outcome);
    Appends(s1.journal, AdmissionRefused(ToRecord(s1.auth, d)));
  }

  lemma MoreDecodable(l: LedgerState, h: Hold)
    requires HeldDecodable(l) && |h.amounts| <= MAX_RESOURCE_BINDINGS && Reserved(l, h).0 == Ok
    ensures HeldDecodable(Reserved(l, h).1)
  {}

  /** The journal after the commit is in range if the journal at the end is: a
      commit is followed by nothing but a compaction. */
  lemma CommittedEncodes(cfg: Config, s: State, s3: State, d: Decision, amounts: seq<Amount>, r: DecisionRecord)
    requires Opened(s, d) && Admitting(d.outcome) && AscendingAmounts(amounts) && Reserved(s.ledger, HoldOf(d, amounts)).0 == Ok
    requires s3 == s.(ledger := Reserved(s.ledger, HoldOf(d, amounts)).1, journal := s3.journal) && r == ToRecord(s.auth, d).(ledgerLive := true)
    requires HeldDecodable(s.ledger) && |amounts| <= MAX_RESOURCE_BINDINGS && Encodes(s3.journal)
    requires InRange(CompactIfNeeded(cfg, Filed(s3, d, r, true)).1)
    ensures Encodes(CompactIfNeeded(cfg, Filed(s3, d, r, true)).1.journal)
  {
    CommittedKeeps(s, s3, d, amounts, r);
    MoreDecodable(s.ledger, HoldOf(d, amounts));
    CompactIfNeededEncodes(cfg, Filed(s3, d, r, true));
  }

  lemma AdmissionEncodes(cfg: Config, s: State, d: Decision, amounts: seq<Amount>)
    requires Opened(s, d) && Admitting(d.outcome) && AscendingAmounts(amounts) && |amounts| <= MAX_RESOURCE_BINDINGS
    requires HeldDecodable(s.ledger) && Encodes(s.journal) && s.nextDecision <= MAX64 && s.audit <= MAX64
    requires InRange(FinishAdmission(cfg, s, d, amounts).1)
    ensures Encodes(FinishAdmission(cfg, s, d, amounts).1.journal)
  {
    var prepare := AdmissionPrepare(IntentOf(d, amounts));
    Appends(s.journal, prepare);
    var (prepared, s1) := Write(s, prepare);
    if prepared {
      var (reserved, l) := Reserved(s1.ledger, HoldOf(d, amounts));
      if reserved == Ok {
        var s2 := s1.(ledger := l);
        var r := ToRecord(s2.auth, d).(ledgerLive := true);
        Appends(s2.journal, AdmissionCommit(r));
        var (committed, s3) := Write(s2, AdmissionCommit(r));
        if committed {
          CommittedEncodes(cfg, s, s3, d, amounts, r);
        }
      }
    }
  }

  lemma AdmitNewEncodes(cfg: Config, s: State, req: Request)
    requires Consistent(s) && HeldDecodable(s.ledger) && Encodes(s.journal) && InRange(AdmitNew(cfg, s, req).1)
    requires s.nextDecision < MAX64 && s.audit < MAX64
    requires
      var e := EvaluateRequest(s.auth, s.ledger, s.tick, s.pendingReconciliation, req);
      e.Granted? ==> |e.targets| <= MAX_RESOURCE_BINDINGS
    ensures Encodes(AdmitNew(cfg, s, req).1.journal)
  {
    var e := EvaluateRequest(s.auth, s.ledger, s.tick, s.pendingReconciliation, req);
    if e.Refusal? {
      RefuseEncodes(cfg, s, req, e.outcome, true);
    } else {
      EvaluationSound(s.auth, s.ledger, s.tick, s.pendingReconciliation, req);
      AdmissionEncodes(cfg, BeginDecision(cfg, s, req, e.outcome).1, GrantedDecision(cfg, s, req, e), AmountsAt(e.targets, e.grant));
    }
  }

  lemma AdmitEncodes(cfg: Config, s: State, req: Request, claim: Claim)
    requires Consistent(s) && HeldDecodable(s.ledger) && Encodes(s.journal) && InRange(s) && InRange(AdmitRequest(cfg, s, req, claim).1)
    requires
      var e := EvaluateRequest(s.auth, s.ledger, s.tick, s.pendingReconciliation, req);
      e.Granted? ==> |e.targets| <= MAX_RESOURCE_BINDINGS
    ensures Encodes(AdmitRequest(cfg, s, req, claim).1.journal)
  {
    match PlanFor(cfg, s, req, claim)
    case RefuseWith(outcome, recordAttempt) => RefuseEncodes(cfg, s, req, outcome, recordAttempt);
    case ReplayOf(d) =>
    case Evaluate => AdmitNewEncodes(cfg, s, req);
  }

  // ------------------------------------------------------------------
  // Releases and enforcement
  // ------------------------------------------------------------------

  lemma ReleaseBounded(s: State, d: nat, reason: RevocationReason)
    requires Consistent(s) && HeldDecodable(s.ledger) && s.nextDecision <= MAX64 && d in s.ledger.byDecision
    ensures d <= MAX64 && Records.Bounded(LedgerRelease(ReleaseRecord(d, s.epoch, reason, s.ledger.byDecision[d])))
  {
    assert Backed(s.history.records, d, s.ledger.byDecision[d]);
    assert EntriesOk(d, s.ledger.byDecision[d]);
  }

  lemma ReleaseEncodes(s: State, d: nat, reason: RevocationReason, state: RevalidationState)
    requires Consistent(s) && HeldDecodable(s.ledger) && Encodes(s.journal) && s.nextDecision <= MAX64 && s.audit <= MAX64
    ensures Encodes(ReleaseDecision(s, d, reason, state).1.journal)
  {
    if Holds(s.ledger, d) {
      var r := LedgerRelease(ReleaseRecord(d, s.epoch, reason, s.ledger.byDecision[d]));
      ReleaseBounded(s, d, reason);
      Appends(s.journal, r);
      Appends(Appended(s.journal, r).1, Model.Revocation(RevocationRecord(d, s.epoch, s.audit, reason, state)));
    }
  }

  /** What a pass needs to go on writing. */
  ghost predicate Writing(s: State) {
    Consistent(s) && HeldDecodable(s.ledger) && Encodes(s.journal) && s.nextDecision <= MAX64 && s.audit <= MAX64
  }

  lemma EnforceOneWriting(s: State, reason: RevocationReason, r: DecisionRecord)
    requires Writing(s)
    ensures Writing(EnforceOne(s, reason, r).1)
  {
    EnforceOneKeeps(s, reason, r);
    ReleaseEncodes(s, r.decision, reason, Revoked);
  }

  lemma {:induction false} EnforceFromWriting(s: State, reason: RevocationReason, ordered: seq<DecisionRecord>, n: nat)
    requires Writing(s) && n <= |ordered|
    ensures Writing(EnforceFrom(s, reason, ordered, n).1)
    decreases n
  {
    if n > 0 {
      EnforceOneWriting(s, reason, ordered[n - 1]);
      var (st, s1, k) := EnforceOne(s, reason, ordered[n - 1]);
      if st == Ok {
        EnforceFromWriting(s1, reason, ordered, n - 1);
      }
    }
  }

  lemma FinishEncodes(st: Status, s: State, revoked: nat)
    requires Writing(s) && |FinishEnforcement(st, s, revoked).1.journal.log| <= MAX64
    ensures Encodes(FinishEnforcement(st, s, revoked).1.journal)
  {
    if st == Ok && revoked != 0 && s.journal.attached && !NextFails(s.journal) {
      Appends(s.journal, AuditMark(AuditMarkRecord(s.audit, s.epoch, |s.journal.log|)));
    }
  }

  lemma EnforceEncodes(s: State, reason: RevocationReason)
    requires Writing(s) && |Enforce(s, reason).1.journal.log| <= MAX64
    ensures Encodes(Enforce(s, reason).1.journal)
  {
    if s.auth.capacity.Some? {
      var ordered := InAuditOrder(s.history);
      EnforceFromWriting(s, reason, ordered, |ordered|);
      var (st, s1, k) := EnforceFrom(s, reason, ordered, |ordered|);
      FinishEncodes(st, s1, k);
    }
  }

  lemma PublicationEncodes(cfg: Config, s: State, op: Op)
    requires Writing(s) && Enforcing(op) && InRange(After(cfg, s, op))
    ensures Encodes(After(cfg, s, op).journal)
  {
    match op
    case OpPolicy(p) => PolicyEncodes(s, p);
    case OpCapacity(c) => CapacityEncodes(s, c);
    case OpReservations(r) => ReservationsEncode(s, r);
  }

  lemma PolicyEncodes(s: State, p: Policy)
    requires Writing(s) && |PublishPolicy(s, p).1.journal.log| <= MAX64
    ensures Encodes(PublishPolicy(s, p).1.journal)
  {
    if ValidPolicy(p) {
      Appends(s.journal, PolicyConfig(p));
      var (written, s1) := Write(s, PolicyConfig(p));
      if s.epoch != 0 && p.epoch == s.epoch && PolicyFreshness(s.auth, p).Advances? && written {
        var s2 := s1.(auth := s1.auth.(policy := Some(p)), tick := Later(s1.tick, p.observedTick));
        assert Consistent(s2);
        EnforceEncodes(s2, PolicyChange);
      }
    }
  }

  lemma CapacityEncodes(s: State, c: CapacitySnapshot)
    requires Writing(s) && |PublishCapacity(s, c).1.journal.log| <= MAX64
    ensures Encodes(PublishCapacity(s, c).1.journal)
  {
    if PublishCapacity(s, c).1 != s {
      var s2 := s.(auth := s.auth.(capacity := Some(c)), tick := Later(s.tick, c.observedTick));
      assert Consistent(s2);
      EnforceEncodes(s2, CapacityReduction);
    }
  }

  lemma ReservationsEncode(s: State, r: ReservationSnapshot)
    requires Writing(s) && |PublishReservations(s, r).1.journal.log| <= MAX64
    ensures Encodes(PublishReservations(s, r).1.journal)
  {
    if PublishReservations(s, r).1 != s {
      var s2 := s.(auth := s.auth.(reservations := Some(r)), tick := Later(s.tick, r.observedTick));
      assert Consistent(s2);
      EnforceEncodes(s2, ObligationChange);
    }
  }

  // ------------------------------------------------------------------
  // Other operations
  // ------------------------------------------------------------------

  lemma OutdateEncodes(s: State, d: nat)
    requires Writing(s) && d in s.history.records
    ensures Encodes(Outdate(s, d).1.journal)
  {
    Appends(s.journal, Model.Revocation(RevocationRecord(d, s.epoch, s.audit, GenerationAdvance, Invalidated)));
  }

  lemma RevalidateEncodes(s: State, d: nat)
    requires Writing(s)
    ensures Encodes(Revalidate(s, d).1.journal)
  {
    match Examine(s, d)
    case MustRelease(reason) => ReleaseEncodes(s, d, reason, Revoked);
    case Outdated => OutdateEncodes(s, d);
    case _ =>
  }

  lemma RevokeEncodes(s: State, d: nat, reason: RevocationReason)
    requires Writing(s)
    ensures Encodes(Revoke(s, d, reason).1.journal)
  {
    ReleaseEncodes(s, d, reason, Revoked);
  }

  lemma IncarnationEncodes(s: State, incarnation: u64)
    requires Encodes(s.journal)
    ensures Encodes(NewIncarnation(s, incarnation).1.journal)
  {
    if s.epoch != MAX64 {
      var s1 := s.(epoch := s.epoch + 1, incarnation := incarnation, sessions := map[], nextNonce := 1);
      BootBounded(s1);
      Appends(s1.journal, BootOf(s1));
    }
  }

  predicate WritesNothing(op: Op) {
    op.OpPaths? || op.OpQos? || op.OpPriorities? || op.OpInvalidateCapacity? || op.OpInvalidatePaths? ||
    op.OpRegister? || op.OpRetire? || op.OpTick?
  }

  lemma SilentStep(cfg: Config, s: State, op: Op)
    requires WritesNothing(op)
    ensures After(cfg, s, op).journal == s.journal
  {}

  lemma LoadStepEncodes(cfg: Config, s: State, op: Op)
    requires Writing(s) && (op.OpRevalidate? || op.OpRevoke? || op.OpIncarnation? || op.OpCompact?) && InRange(After(cfg, s, op))
    ensures Encodes(After(cfg, s, op).journal)
  {
    match op
    case OpRevalidate(d) => RevalidateEncodes(s, d);
    case OpRevoke(d, reason) => RevokeEncodes(s, d, reason);
    case OpIncarnation(i) => IncarnationEncodes(s, i);
    case OpCompact => CompactEncodes(s);
  }

  lemma AdmitStepEncodes(cfg: Config, s: State, op: Op)
    requires Writing(s) && op.OpAdmit? && Recordable(s, op) && InRange(s) && InRange(After(cfg, s, op))
    ensures Encodes(After(cfg, s, op).journal)
  {
    AdmitAfter(cfg, s, op.request, op.claim);
    AdmitEncodes(cfg, s, op.request, op.claim);
  }

  lemma StepEncodes(cfg: Config, s: State, op: Op)
    requires Writing(s) && Recordable(s, op) && InRange(s) && InRange(After(cfg, s, op))
    ensures Encodes(After(cfg, s, op).journal)
  {
    if op.OpAdmit? {
      AdmitStepEncodes(cfg, s, op);
    } else if Enforcing(op) {
      PublicationEncodes(cfg, s, op);
    } else if WritesNothing(op) {
      SilentStep(cfg, s, op);
    } else {
      LoadStepEncodes(cfg, s, op);
    }
  }
}
