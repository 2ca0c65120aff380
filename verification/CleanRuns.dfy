/** Runs in which every request asks for something and, where stated, every
    journal write succeeds. */
module CleanRuns {
  import opened Base
  import opened Model
  import opened Snapshots
  import opened Ledger
  import opened History
  import opened Evaluate
  import opened Engine
  import opened Invariants
  import opened Enforcement
  import opened Closure

  /** Consistent, with no zero-rate entry anywhere. */
  ghost predicate Orderly(s: State) {
    Consistent(s) && Positive(s.ledger)
  }

  ghost predicate WritesSucceed(j: JournalState) {
    forall i :: 0 <= i < |j.outcomes| ==> j.outcomes[i]
  }

  /** No journal write fails, and the retirement cursor has only held records
      below it. */
  ghost predicate Clean(s: State) {
    WritesSucceed(s.journal) && CursorOk(s.history, s.ledger.byDecision.Keys) && s.history.cursor <= s.audit
  }

  ghost predicate StaysOrderly(s: State, s': State) {
    Orderly(s') && (Clean(s) ==> Clean(s'))
  }

  lemma WriteClean(s: State, r: Record)
    ensures
      var (ok, s') := Write(s, r);
      s' == s.(journal := s'.journal) && (WritesSucceed(s.journal) ==> ok && WritesSucceed(s'.journal))
  {}

  lemma {:induction false} StayOrderly(s: State, s': State)
    requires Orderly(s) && Consistent(s') && s'.ledger == s.ledger && s'.history == s.history && s'.audit == s.audit
    requires WritesSucceed(s.journal) ==> WritesSucceed(s'.journal)
    ensures StaysOrderly(s, s')
  {}

  // ------------------------------------------------------------------
  // Release and enforcement
  // ------------------------------------------------------------------

  lemma MarkCursor(h: HistoryState, held: set<nat>, d: nat, state: RevalidationState, reason: RevocationReason, live: bool)
    requires CursorOk(h, held)
    ensures CursorOk(Marked(h, d, state, reason, live), held)
  {}

  lemma ReleaseOrderly(s: State, d: nat, reason: RevocationReason, state: RevalidationState)
    requires Orderly(s) && Released(state)
    ensures
      var (st, s') := ReleaseDecision(s, d, reason, state);
      StaysOrderly(s, s') && (Clean(s) && Holds(s.ledger, d) ==> st == Ok)
  {
    ReleaseKeeps(s, d, reason, state);
    if Holds(s.ledger, d) {
      ReleasePositive(s.ledger, d);
      WriteClean(s, LedgerRelease(ReleaseRecord(d, s.epoch, reason, s.ledger.byDecision[d])));
      var (written, s1) := Write(s, LedgerRelease(ReleaseRecord(d, s.epoch, reason, s.ledger.byDecision[d])));
      var (removed, l) := ReleasedLoad(s1.ledger, d);
      WriteClean(s1.(ledger := l), Model.Revocation(RevocationRecord(d, s.epoch, s.audit, reason, state)));
    }
  }

  lemma OrderlyTransitive(a: State, b: State, c: State)
    requires StaysOrderly(a, b) && StaysOrderly(b, c)
    ensures StaysOrderly(a, c)
  {}

  lemma EnforceOneOrderly(s: State, reason: RevocationReason, r: DecisionRecord)
    requires Orderly(s)
    ensures
      var (st, s', k) := EnforceOne(s, reason, r);
      StaysOrderly(s, s') && (Clean(s) ==> st == Ok)
  {
    ReleaseOrderly(s, r.decision, reason, Revoked);
  }

  lemma {:induction false} EnforceFromOrderly(s: State, reason: RevocationReason, ordered: seq<DecisionRecord>, n: nat)
    requires Orderly(s) && n <= |ordered|
    ensures
      var (st, s', k) := EnforceFrom(s, reason, ordered, n);
      StaysOrderly(s, s') && (Clean(s) ==> st == Ok)
    decreases n
  {
    if n > 0 {
      var (st, s1, k) := EnforceOne(s, reason, ordered[n - 1]);
      EnforceOneOrderly(s, reason, ordered[n - 1]);
      if st == Ok {
        EnforceFromOrderly(s1, reason, ordered, n - 1);
        OrderlyTransitive(s, s1, EnforceFrom(s1, reason, ordered, n - 1).1);
      }
    }
  }

  lemma ClearedOrderly(s: State)
    requires Orderly(s)
    ensures StaysOrderly(s, Cleared(s))
  {
    FlagsConsistent(s, false, false);
    assert Cleared(s).ledger.byDecision.Keys == s.ledger.byDecision.Keys;
  }

  lemma FinishOrderly(st: Status, s: State, revoked: nat)
    requires Orderly(s)
    ensures
      var (st', s') := FinishEnforcement(st, s, revoked);
      StaysOrderly(s, s') && (Clean(s) && st == Ok ==> st' == Ok)
  {
    if st == Ok {
      var s1 := Cleared(s);
      ClearedOrderly(s);
      var r := AuditMark(AuditMarkRecord(s1.audit, s1.epoch, |s1.journal.log|));
      WriteClean(s1, r);
      StayOrderly(s1, Write(s1, r).1);
      OrderlyTransitive(s, s1, Write(s1, r).1);
    }
  }

  /** With the journal working, enforcement always completes. */
  lemma EnforceOrderly(s: State, reason: RevocationReason)
    requires Orderly(s)
    ensures
      var (st, s') := Enforce(s, reason);
      StaysOrderly(s, s') && (Clean(s) ==> st == Ok)
  {
    if s.auth.capacity.Some? {
      var ordered := InAuditOrder(s.history);
      EnforceFromOrderly(s, reason, ordered, |ordered|);
      var (st, s1, k) := EnforceFrom(s, reason, ordered, |ordered|);
      FinishOrderly(st, s1, k);
      OrderlyTransitive(s, s1, FinishEnforcement(st, s1, k).1);
    }
  }

  // ------------------------------------------------------------------
  // Admission
  // ------------------------------------------------------------------

  /** Filing a decision whose load, if any, is already in the ledger. */
  lemma FiledClean(s0: State, s: State, d: Decision, r: DecisionRecord, recordAttempt: bool)
    requires Clean(s0) && Indexed(s0.history, s0.audit) && s.history == s0.history
    requires Anchored(s0.history, s.ledger.byDecision.Keys - {r.decision}, s0.audit)
    requires s0.ledger.byDecision.Keys <= s.ledger.byDecision.Keys && WritesSucceed(s.journal)
    requires r.audit == s0.audit && s.audit == s0.audit + 1 && r.decision != 0 && r.decision !in s.history.records
    ensures Clean(Filed(s, d, r, recordAttempt))
  {
    var held := s.ledger.byDecision.Keys;
    InsertCursor(s.history, held, r, s0.audit);
    InsertIndexed(s.history, r, s0.audit);
    InsertAnchored(s.history, r, held - {r.decision}, s0.audit);
    var g := Inserted(s.history, r);
    if |g.records| > g.capacity {
      TrimComplete(g, held, s.audit);
    }
  }

  lemma RefuseOrderly(cfg: Config, s: State, req: Request, outcome: Outcome, recordAttempt: bool)
    requires Orderly(s)
    ensures StaysOrderly(s, Refuse(cfg, s, req, outcome, recordAttempt).1)
  {
    RefuseKeeps(cfg, s, req, outcome, recordAttempt);
    var (d, s1) := BeginDecision(cfg, s, req, outcome);
    var r := ToRecord(s1.auth, d);
    WriteClean(s1, AdmissionRefused(r));
    if Clean(s) {
      FiledClean(s, Write(s1, AdmissionRefused(r)).1, d, r, recordAttempt);
    }
  }

  lemma CompactClean(cfg: Config, s: State)
    ensures Clean(s) ==> Clean(CompactIfNeeded(cfg, s).1)
    ensures CompactIfNeeded(cfg, s).1.ledger == s.ledger
  {}

  lemma AdmissionOrderly(cfg: Config, s0: State, s: State, d: Decision, amounts: seq<Amount>)
    requires Orderly(s0) && s == s0.(nextDecision := s0.nextDecision + 1, audit := s0.audit + 1)
    requires d.decision == s0.nextDecision && d.audit == s0.audit && Admitting(d.outcome)
    requires AscendingAmounts(amounts) && forall i :: 0 <= i < |amounts| ==> amounts[i].rate > 0
    ensures StaysOrderly(s0, FinishAdmission(cfg, s, d, amounts).1)
  {
    assert Opened(s, d);
    AdmissionKeeps(cfg, s, d, amounts);
    var h := HoldOf(d, amounts);
    ReserveConserves(s.ledger, h);
    ReservePositive(s.ledger, h);
    WriteClean(s, AdmissionPrepare(IntentOf(d, amounts)));
    var (prepared, s1) := Write(s, AdmissionPrepare(IntentOf(d, amounts)));
    var (reserved, l) := Reserved(s1.ledger, h);
    var s2 := s1.(ledger := l);
    var r := ToRecord(s2.auth, d).(ledgerLive := true);
    WriteClean(s2, AdmissionCommit(r));
    var (committed, s3) := Write(s2, AdmissionCommit(r));
    ReleasePositive(l, d.decision);
    if prepared && reserved == Ok && committed {
      CompactClean(cfg, Filed(s3, d, r, true));
      if Clean(s0) {
        FiledClean(s0, s3, d, r, true);
      }
    }
  }

  lemma GrantOrderly(cfg: Config, s: State, req: Request, e: Evaluation, d: Decision, s1: State)
    requires Orderly(s) && req.rate.minimum >= 1 && e.Granted? && SoundGrant(s.auth, s.ledger, req, e)
    requires d.decision == s.nextDecision && d.audit == s.audit && d.outcome == e.outcome
    requires s1 == s.(nextDecision := s.nextDecision + 1, audit := s.audit + 1)
    ensures StaysOrderly(s, FinishAdmission(cfg, s1, d, AmountsAt(e.targets, e.grant)).1)
  {
    AdmissionOrderly(cfg, s, s1, d, AmountsAt(e.targets, e.grant));
  }

  /** What a new attempt leaves, read off its evaluation. */
  ghost predicate Decided(cfg: Config, s: State, req: Request, e: Evaluation, s': State) {
    match e
    case Refusal(outcome) => s' == Refuse(cfg, s, req, outcome, true).1
    case Granted(outcome, grant, targets, _, _) =>
      s' == FinishAdmission(cfg, BeginDecision(cfg, s, req, outcome).1, GrantedDecision(cfg, s, req, e), AmountsAt(targets, grant)).1
  }

  lemma AdmitNewDecides(cfg: Config, s: State, req: Request, e: Evaluation)
    requires e == EvaluateRequest(s.auth, s.ledger, s.tick, s.pendingReconciliation, req)
    ensures Decided(cfg, s, req, e, AdmitNew(cfg, s, req).1)
  {}

  lemma DecidedOrderly(cfg: Config, s: State, req: Request, e: Evaluation, s': State)
    requires Orderly(s) && req.rate.minimum >= 1 && Decided(cfg, s, req, e, s')
    requires e.Granted? ==> SoundGrant(s.auth, s.ledger, req, e)
    ensures StaysOrderly(s, s')
  {
    if e.Refusal? {
      RefuseOrderly(cfg, s, req, e.outcome, true);
    } else {
      GrantOrderly(cfg, s, req, e, GrantedDecision(cfg, s, req, e), BeginDecision(cfg, s, req, e.outcome).1);
    }
  }

  lemma AdmitNewOrderly(cfg: Config, s: State, req: Request)
    requires Orderly(s) && req.rate.minimum >= 1
    ensures StaysOrderly(s, AdmitNew(cfg, s, req).1)
  {
    var e := EvaluateRequest(s.auth, s.ledger, s.tick, s.pendingReconciliation, req);
    EvaluationSound(s.auth, s.ledger, s.tick, s.pendingReconciliation, req);
    AdmitNewDecides(cfg, s, req, e);
    DecidedOrderly(cfg, s, req, e, AdmitNew(cfg, s, req).1);
  }

  lemma AdmitOrderly(cfg: Config, s: State, req: Request, claim: Claim)
    requires Orderly(s) && req.rate.minimum >= 1
    ensures StaysOrderly(s, AdmitRequest(cfg, s, req, claim).1)
  {
    match PlanFor(cfg, s, req, claim)
    case RefuseWith(outcome, recordAttempt) => RefuseOrderly(cfg, s, req, outcome, recordAttempt);
    case ReplayOf(d) => StayOrderly(s, s);
    case Evaluate => AdmitNewOrderly(cfg, s, req);
  }

  // ------------------------------------------------------------------
  // The other operations
  // ------------------------------------------------------------------

  lemma EvictOrderly(s: State, d: nat, reason: RevocationReason)
    requires Orderly(s)
    ensures StaysOrderly(s, Evict(s, d, reason).1)
  {
    ReleaseOrderly(s, d, reason, Revoked);
  }

  lemma MarkOrderly(s: State, j: JournalState, d: nat, state: RevalidationState, reason: RevocationReason, live: bool)
    requires Orderly(s) && (d in s.ledger.byDecision ==> !Released(state)) && (WritesSucceed(s.journal) ==> WritesSucceed(j))
    ensures StaysOrderly(s, s.(journal := j, history := Marked(s.history, d, state, reason, live)))
  {
    MarkHarmless(s, j, d, state, reason, live);
    if Clean(s) {
      MarkCursor(s.history, s.ledger.byDecision.Keys, d, state, reason, live);
    }
  }

  lemma OutdateOrderly(s: State, d: nat)
    requires Orderly(s) && d in s.history.records
    ensures StaysOrderly(s, Outdate(s, d).1)
  {
    OutdateHarmless(s, d);
    var r := Model.Revocation(RevocationRecord(d, s.epoch, s.audit, GenerationAdvance, Invalidated));
    WriteClean(s, r);
    var (journaled, s1) := Write(s, r);
    StayHarmless(s, s1);
    StayOrderly(s, s1);
    MarkOrderly(s, s1.journal, d, Invalidated, GenerationAdvance, s.history.records[d].ledgerLive);
  }

  lemma RevalidateOrderly(s: State, d: nat)
    requires Orderly(s)
    ensures StaysOrderly(s, Revalidate(s, d).1)
  {
    match Examine(s, d)
    case NoLongerHeld => MarkOrderly(s, s.journal, d, Revoked, ClaimantDeath, false);
    case MustRelease(reason) => EvictOrderly(s, d, reason);
    case Outdated => OutdateOrderly(s, d);
    case _ => StayOrderly(s, s);
  }

  lemma RevokeOrderly(s: State, d: nat, reason: RevocationReason)
    requires Orderly(s)
    ensures StaysOrderly(s, Revoke(s, d, reason).1)
  {
    StayOrderly(s, s);
    EvictOrderly(s, d, reason);
  }

  /** A publication leaves order, and with the journal working one that takes
      effect returns Ok. */
  ghost predicate PublishesCleanly(s: State, st: Status, s': State) {
    StaysOrderly(s, s') && (Clean(s) && s'.auth != s.auth ==> st == Ok)
  }

  lemma PublishOrderly(s: State, s1: State, reason: RevocationReason)
    requires Orderly(s) && Consistent(s1) && s1.ledger == s.ledger && s1.history == s.history && s1.audit == s.audit
    requires WritesSucceed(s.journal) ==> WritesSucceed(s1.journal)
    ensures
      var (st, s') := Enforce(s1, reason);
      PublishesCleanly(s, st, s')
  {
    StayOrderly(s, s1);
    EnforceOrderly(s1, reason);
    OrderlyTransitive(s, s1, Enforce(s1, reason).1);
  }

  lemma PolicyOrderly(s: State, p: Policy)
    requires Orderly(s)
    ensures
      var (st, s') := PublishPolicy(s, p);
      PublishesCleanly(s, st, s')
  {
    StayOrderly(s, s);
    WriteClean(s, PolicyConfig(p));
    var (written, s1) := Write(s, PolicyConfig(p));
    ReauthorizedConsistent(s, s1);
    StayOrderly(s, s1);
    if ValidPolicy(p) && written {
      var s2 := s1.(auth := s1.auth.(policy := Some(p)), tick := Later(s1.tick, p.observedTick));
      ReauthorizedConsistent(s, s2);
      PublishOrderly(s, s2, PolicyChange);
    }
  }

  lemma CapacityOrderly(s: State, c: CapacitySnapshot)
    requires Orderly(s)
    ensures
      var (st, s') := PublishCapacity(s, c);
      PublishesCleanly(s, st, s')
  {
    StayOrderly(s, s);
    if ValidCapacity(c) {
      var s2 := s.(auth := s.auth.(capacity := Some(c)), tick := Later(s.tick, c.observedTick));
      ReauthorizedConsistent(s, s2);
      PublishOrderly(s, s2, CapacityReduction);
    }
  }

  lemma ReservationsOrderly(s: State, r: ReservationSnapshot)
    requires Orderly(s)
    ensures
      var (st, s') := PublishReservations(s, r);
      PublishesCleanly(s, st, s')
  {
    StayOrderly(s, s);
    if ValidReservations(r) {
      var s2 := s.(auth := s.auth.(reservations := Some(r)), tick := Later(s.tick, r.observedTick));
      ReauthorizedConsistent(s, s2);
      PublishOrderly(s, s2, ObligationChange);
    }
  }

  predicate IsLoadOp(op: Op) {
    op.OpAdmit? || op.OpRevalidate? || op.OpRevoke?
  }

  /** A step that touches neither ledger nor history. */
  ghost predicate LeavesLoad(s: State, s': State) {
    s'.ledger == s.ledger && s'.history == s.history && s'.audit == s.audit &&
    (WritesSucceed(s.journal) ==> WritesSucceed(s'.journal))
  }

  lemma CatalogFrame(cfg: Config, s: State, op: Op)
    requires op.OpPaths? || op.OpQos? || op.OpPriorities? || op.OpInvalidateCapacity? || op.OpInvalidatePaths?
    ensures LeavesLoad(s, After(cfg, s, op))
  {}

  lemma SessionFrame(cfg: Config, s: State, op: Op)
    requires op.OpRegister? || op.OpRetire? || op.OpTick?
    ensures LeavesLoad(s, After(cfg, s, op))
  {}

  lemma IncarnationFrame(s: State, incarnation: u64)
    ensures LeavesLoad(s, NewIncarnation(s, incarnation).1)
  {
    if s.epoch != MAX64 {
      var s1 := s.(epoch := s.epoch + 1, incarnation := incarnation, sessions := map[], nextNonce := 1);
      WriteClean(s1, BootOf(s1));
    }
  }

  lemma CompactFrame(s: State)
    ensures LeavesLoad(s, Compact(s).1)
  {}

  lemma OtherFrame(cfg: Config, s: State, op: Op)
    requires !Enforcing(op) && !IsLoadOp(op)
    ensures LeavesLoad(s, After(cfg, s, op))
  {
    if op.OpIncarnation? {
      IncarnationFrame(s, op.incarnation);
    } else if op.OpCompact? {
      CompactFrame(s);
    } else if op.OpRegister? || op.OpRetire? || op.OpTick? {
      SessionFrame(cfg, s, op);
    } else {
      CatalogFrame(cfg, s, op);
    }
  }

  lemma OtherOrderly(cfg: Config, s: State, op: Op)
    requires Orderly(s) && !Enforcing(op) && !IsLoadOp(op)
    ensures StaysOrderly(s, After(cfg, s, op))
  {
    var s' := After(cfg, s, op);
    StepSafe(cfg, s, op);
    OtherFrame(cfg, s, op);
    StayOrderly(s, s');
  }

  lemma LoadOrderly(cfg: Config, s: State, op: Op)
    requires Orderly(s) && IsLoadOp(op) && AsksForSomething(op)
    ensures StaysOrderly(s, After(cfg, s, op))
  {
    match op
    case OpAdmit(req, claim) => AdmitOrderly(cfg, s, req, claim);
    case OpRevalidate(d) => RevalidateOrderly(s, d);
    case OpRevoke(d, reason) => RevokeOrderly(s, d, reason);
  }

  lemma PublicationOrderly(cfg: Config, s: State, op: Op)
    requires Orderly(s) && Enforcing(op)
    ensures Step(cfg, s, op).0.Answer? && PublishesCleanly(s, Step(cfg, s, op).0.status, After(cfg, s, op))
  {
    match op
    case OpPolicy(p) => PolicyOrderly(s, p);
    case OpCapacity(c) => CapacityOrderly(s, c);
    case OpReservations(r) => ReservationsOrderly(s, r);
  }

  predicate AsksForSomething(op: Op) {
    op.OpAdmit? ==> op.request.rate.minimum >= 1
  }

  lemma StepOrderly(cfg: Config, s: State, op: Op)
    requires Orderly(s) && AsksForSomething(op)
    ensures StaysOrderly(s, After(cfg, s, op))
  {
    if Enforcing(op) {
      PublicationOrderly(cfg, s, op);
    } else if IsLoadOp(op) {
      LoadOrderly(cfg, s, op);
    } else {
      OtherOrderly(cfg, s, op);
    }
  }

  ghost predicate AllAskForSomething(ops: seq<Op>) {
    forall i :: 0 <= i < |ops| ==> AsksForSomething(ops[i])
  }

  /** In every run where each request asks for at least one unit, no entry is
      ever zero; and if no journal write fails, everything below the retirement
      cursor is held in every reachable state. */
  lemma {:induction false} OrderOverRuns(cfg: Config, s: State, ops: seq<Op>)
    requires Orderly(s) && AllAskForSomething(ops)
    ensures StaysOrderly(s, Run(cfg, s, ops))
  {
    if ops != [] {
      var n := |ops| - 1;
      OrderOverRuns(cfg, s, ops[..n]);
      StepOrderly(cfg, Run(cfg, s, ops[..n]), ops[n]);
      OrderlyTransitive(s, Run(cfg, s, ops[..n]), Run(cfg, s, ops));
    }
  }

  lemma {:induction false} CleanlyAccounted(cfg: Config, s: State, ops: seq<Op>)
    requires Orderly(s) && Clean(s) && AllAskForSomething(ops)
    ensures Accounted(cfg, s, ops)
  {
    if ops != [] {
      var n := |ops| - 1;
      var before := Run(cfg, s, ops[..n]);
      OrderOverRuns(cfg, s, ops[..n]);
      CleanlyAccounted(cfg, s, ops[..n]);
      if Enforcing(ops[n]) && After(cfg, before, ops[n]).auth != before.auth {
        PublicationOrderly(cfg, before, ops[n]);
      }
    }
  }

  /** Accounting closure with no condition on responses: while journal writes
      succeed and every request asks for at least one unit, the accounts are
      closed after every sequence of operations. */
  lemma ClosureOverCleanRuns(cfg: Config, s: State, ops: seq<Op>)
    requires Orderly(s) && Clean(s) && Closed(s) && AllAskForSomething(ops)
    ensures Closed(Run(cfg, s, ops))
  {
    CleanlyAccounted(cfg, s, ops);
    ClosureOverRuns(cfg, s, ops);
  }

  /** A freshly constructed engine meets every starting condition. */
  lemma InitialClean(epoch: u64, incarnation: u64, tick: u64, historyCapacity: nat, attemptCapacity: nat)
    ensures
      var s := Initial(epoch, incarnation, tick, historyCapacity, attemptCapacity);
      Orderly(s) && Clean(s) && Closed(s)
  {
    InitialConsistent(epoch, incarnation, tick, historyCapacity, attemptCapacity);
  }

  /** From a freshly constructed engine: consistent after every run, closed if
      the last effective enforcing publication returned Ok, and closed in any
      case if every request asks for at least one unit. */
  lemma ClosureFromInitial(cfg: Config, epoch: u64, incarnation: u64, tick: u64, historyCapacity: nat, attemptCapacity: nat, ops: seq<Op>)
    ensures
      var s := Initial(epoch, incarnation, tick, historyCapacity, attemptCapacity);
      Consistent(Run(cfg, s, ops)) && (Accounted(cfg, s, ops) || AllAskForSomething(ops) ==> Closed(Run(cfg, s, ops)))
  {
    var s := Initial(epoch, incarnation, tick, historyCapacity, attemptCapacity);
    InitialClean(epoch, incarnation, tick, historyCapacity, attemptCapacity);
    RunConsistent(cfg, s, ops);
    if AllAskForSomething(ops) {
      ClosureOverCleanRuns(cfg, s, ops);
    } else if Accounted(cfg, s, ops) {
      ClosureOverRuns(cfg, s, ops);
    }
  }

  // ------------------------------------------------------------------
  // Grants the engine issues
  // ------------------------------------------------------------------

  lemma KnownIsNamed(auth: Authorities, resource: u64)
    requires ValidAuthorities(auth) && Known(auth, resource)
    ensures resource != 0
  {
    var c := FindCapacity(auth, resource).value;
    assert c in auth.capacity.value.resources;
    var i :| 0 <= i < |auth.capacity.value.resources| && auth.capacity.value.resources[i] == c;
    assert CapacityEntryOk(auth.capacity.value.resources[i]);
  }

  lemma GrantFits(auth: Authorities, l: LedgerState, req: Request, e: Evaluation, i: nat)
    requires e.Granted? && SoundGrant(auth, l, req, e) && i < |e.targets|
    ensures !Overflows(l.totals, Amount(e.targets[i], e.grant))
  {
    assert e.grant <= Available(auth, l, e.targets[i]);
  }

  lemma GrantFitsLedger(auth: Authorities, l: LedgerState, req: Request, e: Evaluation, d: Decision)
    requires ValidAuthorities(auth) && e.Granted? && SoundGrant(auth, l, req, e)
    requires d.decision != 0 && d.decision !in l.byDecision && d.path == e.path
    ensures
      Reserved(l, HoldOf(d, AmountsAt(e.targets, e.grant))).0 ==
      if l.entryCount + |e.targets| > MAX_LEDGER_ENTRIES then OversizedInput else Ok
  {
    var amounts := AmountsAt(e.targets, e.grant);
    var h := HoldOf(d, amounts);
    forall i | 0 <= i < |amounts| ensures amounts[i].resource != 0 && !Overflows(l.totals, amounts[i]) {
      GrantFits(auth, l, req, e, i);
      KnownIsNamed(auth, e.targets[i]);
    }
    assert !PathOverflows(l, h);
  }

  lemma NextIsNew(s: State)
    requires Consistent(s)
    ensures s.nextDecision != 0 && s.nextDecision !in s.ledger.byDecision
  {
    forall d | d in s.ledger.byDecision ensures d < s.nextDecision {
      assert Backed(s.history.records, d, s.ledger.byDecision[d]);
    }
  }

  /** Reserving what an admission grants never meets an arithmetic limit, so the
      rollback branch is never taken: the only thing that can refuse it is the
      bound on ledger entries. */
  lemma GrantsNeverRollBack(cfg: Config, s: State, req: Request)
    requires Consistent(s) && EvaluateRequest(s.auth, s.ledger, s.tick, s.pendingReconciliation, req).Granted?
    ensures
      var e := EvaluateRequest(s.auth, s.ledger, s.tick, s.pendingReconciliation, req);
      Reserved(s.ledger, HoldOf(GrantedDecision(cfg, s, req, e), AmountsAt(e.targets, e.grant))).0 ==
      if s.ledger.entryCount + |e.targets| > MAX_LEDGER_ENTRIES then OversizedInput else Ok
  {
    var e := EvaluateRequest(s.auth, s.ledger, s.tick, s.pendingReconciliation, req);
    EvaluationSound(s.auth, s.ledger, s.tick, s.pendingReconciliation, req);
    NextIsNew(s);
    GrantFitsLedger(s.auth, s.ledger, req, e, GrantedDecision(cfg, s, req, e));
  }
}
