/** Path totals over runs whose grants each hold one resource or no path. */
module PathRuns {
  import opened Base
  import opened Model
  import opened Snapshots
  import opened Ledger
  import opened History
  import opened Evaluate
  import opened Engine
  import opened Invariants
  import opened Enforcement
  import opened Closure
  import opened CleanRuns

  /** What releasing these entries refunds is what reserving them charged. */
  predicate Refunded(entries: seq<LedgerEntry>) {
    entries != [] && (entries[0].path == 0 || |entries| == 1 || entries[0].amount == MAX64)
  }

  ghost predicate PathSound(l: LedgerState) {
    PathsBalanced(l) && forall d :: d in l.byDecision ==> Refunded(l.byDecision[d])
  }

  // ------------------------------------------------------------------
  // The ledger
  // ------------------------------------------------------------------

  lemma ReleaseSound(l: LedgerState, d: nat)
    requires Conserved(l) && Positive(l) && PathSound(l)
    ensures PathSound(ReleasedLoad(l, d).1)
  {
    if d in l.byDecision {
      ReleasePathsIff(l, d);
      ReleaseConserves(l, d);
    }
  }

  lemma ReserveSound(l: LedgerState, h: Hold)
    requires Conserved(l) && PathSound(l) && forall i :: 0 <= i < |h.amounts| ==> h.amounts[i].rate > 0
    requires h.amounts != [] ==> h.path == 0 || |h.amounts| == 1 || h.amounts[0].rate == MAX64
    ensures PathSound(Reserved(l, h).1)
  {
    ReservePaths(l, h);
  }

  lemma FlagsSound(l: LedgerState, flag: bool)
    requires PathSound(l)
    ensures PathSound(Flagged(l, flag))
  {
    var l' := Flagged(l, flag);
    forall p: u64 | p != 0 ensures AtKey(l'.pathTotals, p) == LoadOnPath(l'.byDecision, p) {
      SumOverSame(l.byDecision, l'.byDecision, OnPath(p));
      assert AtKey(l.pathTotals, p) == LoadOnPath(l.byDecision, p);
    }
    forall d | d in l'.byDecision ensures Refunded(l'.byDecision[d]) {
      assert Refunded(l.byDecision[d]);
    }
  }

  // ------------------------------------------------------------------
  // Releases and enforcement
  // ------------------------------------------------------------------

  lemma ReleaseDecisionSound(s: State, d: nat, reason: RevocationReason, state: RevalidationState)
    requires Orderly(s) && PathSound(s.ledger)
    ensures PathSound(ReleaseDecision(s, d, reason, state).1.ledger)
  {
    ReleaseSound(s.ledger, d);
    ReleaseLedger(s, d, reason, state);
  }

  lemma ReleaseLedger(s: State, d: nat, reason: RevocationReason, state: RevalidationState)
    ensures
      var l := ReleaseDecision(s, d, reason, state).1.ledger;
      l == s.ledger || l == ReleasedLoad(s.ledger, d).1
  {}

  lemma EnforceOneSound(s: State, reason: RevocationReason, r: DecisionRecord)
    requires Orderly(s) && PathSound(s.ledger)
    ensures Orderly(EnforceOne(s, reason, r).1) && PathSound(EnforceOne(s, reason, r).1.ledger)
  {
    EnforceOneOrderly(s, reason, r);
    ReleaseDecisionSound(s, r.decision, reason, Revoked);
  }

  lemma {:induction false} EnforceFromSound(s: State, reason: RevocationReason, ordered: seq<DecisionRecord>, n: nat)
    requires Orderly(s) && PathSound(s.ledger) && n <= |ordered|
    ensures PathSound(EnforceFrom(s, reason, ordered, n).1.ledger)
    decreases n
  {
    if n > 0 {
      EnforceOneSound(s, reason, ordered[n - 1]);
      var (st, s1, k) := EnforceOne(s, reason, ordered[n - 1]);
      if st == Ok {
        EnforceFromSound(s1, reason, ordered, n - 1);
      }
    }
  }

  lemma EnforceSound(s: State, reason: RevocationReason)
    requires Orderly(s) && PathSound(s.ledger)
    ensures PathSound(Enforce(s, reason).1.ledger)
  {
    if s.auth.capacity.Some? {
      var ordered := InAuditOrder(s.history);
      EnforceFromSound(s, reason, ordered, |ordered|);
      var (st, s1, k) := EnforceFrom(s, reason, ordered, |ordered|);
      FlagsSound(s1.ledger, false);
    }
  }

  lemma PolicySound(s: State, p: Policy)
    requires Orderly(s) && PathSound(s.ledger)
    ensures PathSound(PublishPolicy(s, p).1.ledger)
  {
    var (written, s1) := Write(s, PolicyConfig(p));
    if ValidPolicy(p) && written {
      var s2 := s1.(auth := s1.auth.(policy := Some(p)), tick := Later(s1.tick, p.observedTick));
      ReauthorizedConsistent(s, s2);
      EnforceSound(s2, PolicyChange);
    }
  }

  lemma CapacitySound(s: State, c: CapacitySnapshot)
    requires Orderly(s) && PathSound(s.ledger)
    ensures PathSound(PublishCapacity(s, c).1.ledger)
  {
    if ValidCapacity(c) {
      var s2 := s.(auth := s.auth.(capacity := Some(c)), tick := Later(s.tick, c.observedTick));
      ReauthorizedConsistent(s, s2);
      EnforceSound(s2, CapacityReduction);
    }
  }

  lemma ReservationsSound(s: State, r: ReservationSnapshot)
    requires Orderly(s) && PathSound(s.ledger)
    ensures PathSound(PublishReservations(s, r).1.ledger)
  {
    if ValidReservations(r) {
      var s2 := s.(auth := s.auth.(reservations := Some(r)), tick := Later(s.tick, r.observedTick));
      ReauthorizedConsistent(s, s2);
      EnforceSound(s2, ObligationChange);
    }
  }

  // ------------------------------------------------------------------
  // Admission
  // ------------------------------------------------------------------

  lemma AdmissionSound(cfg: Config, s: State, d: Decision, amounts: seq<Amount>)
    requires Conserved(s.ledger) && Positive(s.ledger) && PathSound(s.ledger) && AscendingAmounts(amounts)
    requires forall i :: 0 <= i < |amounts| ==> amounts[i].rate > 0
    requires amounts != [] ==> d.path == 0 || |amounts| == 1 || amounts[0].rate == MAX64
    ensures PathSound(FinishAdmission(cfg, s, d, amounts).1.ledger)
  {
    var h := HoldOf(d, amounts);
    ReserveSound(s.ledger, h);
    ReserveConserves(s.ledger, h);
    ReservePositive(s.ledger, h);
    ReleaseSound(Reserved(s.ledger, h).1, d.decision);
    FinishLedger(cfg, s, d, amounts);
  }

  /** An admission leaves the ledger as it was, reserved, or reserved and released. */
  lemma FinishLedger(cfg: Config, s: State, d: Decision, amounts: seq<Amount>)
    ensures
      var l := FinishAdmission(cfg, s, d, amounts).1.ledger;
      var l1 := Reserved(s.ledger, HoldOf(d, amounts)).1;
      l == s.ledger || l == l1 || l == ReleasedLoad(l1, d.decision).1
  {}

  /** The grant this request would get holds one resource or no path. */
  predicate NarrowGrant(s: State, op: Op) {
    op.OpAdmit? ==>
      var e := EvaluateRequest(s.auth, s.ledger, s.tick, s.pendingReconciliation, op.request);
      e.Granted? ==> e.path == 0 || |e.targets| == 1 || e.grant == MAX64
  }

  lemma AdmitSound(cfg: Config, s: State, op: Op)
    requires Orderly(s) && PathSound(s.ledger) && op.OpAdmit? && AsksForSomething(op) && NarrowGrant(s, op)
    ensures PathSound(AdmitRequest(cfg, s, op.request, op.claim).1.ledger)
  {
    var e := EvaluateRequest(s.auth, s.ledger, s.tick, s.pendingReconciliation, op.request);
    EvaluationSound(s.auth, s.ledger, s.tick, s.pendingReconciliation, op.request);
    if e.Granted? {
      AdmissionSound(cfg, BeginDecision(cfg, s, op.request, e.outcome).1, GrantedDecision(cfg, s, op.request, e), AmountsAt(e.targets, e.grant));
    }
    AdmitLedger(cfg, s, op.request, op.claim, e);
  }

  lemma AdmitLedger(cfg: Config, s: State, req: Request, claim: Claim, e: Evaluation)
    requires e == EvaluateRequest(s.auth, s.ledger, s.tick, s.pendingReconciliation, req)
    ensures
      var l := AdmitRequest(cfg, s, req, claim).1.ledger;
      l == s.ledger ||
      (e.Granted? && l == FinishAdmission(cfg, BeginDecision(cfg, s, req, e.outcome).1, GrantedDecision(cfg, s, req, e), AmountsAt(e.targets, e.grant)).1.ledger)
  {
    match PlanFor(cfg, s, req, claim)
    case RefuseWith(outcome, recordAttempt) => RefuseLedger(cfg, s, req, outcome, recordAttempt);
    case ReplayOf(d) =>
    case Evaluate =>
      if e.Refusal? {
        RefuseLedger(cfg, s, req, e.outcome, true);
      }
  }

  lemma RefuseLedger(cfg: Config, s: State, req: Request, outcome: Outcome, recordAttempt: bool)
    ensures Refuse(cfg, s, req, outcome, recordAttempt).1.ledger == s.ledger
  {}

  // ------------------------------------------------------------------
  // Runs
  // ------------------------------------------------------------------

  lemma RevalidateSound(s: State, d: nat)
    requires Orderly(s) && PathSound(s.ledger)
    ensures PathSound(Revalidate(s, d).1.ledger)
  {
    match Examine(s, d)
    case MustRelease(reason) => ReleaseDecisionSound(s, d, reason, Revoked);
    case _ =>
  }

  lemma RevokeSound(s: State, d: nat, reason: RevocationReason)
    requires Orderly(s) && PathSound(s.ledger)
    ensures PathSound(Revoke(s, d, reason).1.ledger)
  {
    ReleaseDecisionSound(s, d, reason, Revoked);
  }

  lemma PublicationSound(cfg: Config, s: State, op: Op)
    requires Orderly(s) && PathSound(s.ledger) && Enforcing(op)
    ensures PathSound(After(cfg, s, op).ledger)
  {
    match op
    case OpPolicy(p) => PolicySound(s, p);
    case OpCapacity(c) => CapacitySound(s, c);
    case OpReservations(r) => ReservationsSound(s, r);
  }

  lemma LoadSound(cfg: Config, s: State, op: Op)
    requires Orderly(s) && PathSound(s.ledger) && IsLoadOp(op) && AsksForSomething(op) && NarrowGrant(s, op)
    ensures PathSound(After(cfg, s, op).ledger)
  {
    match op
    case OpAdmit(req, claim) => AdmitSound(cfg, s, op);
    case OpRevalidate(d) => RevalidateSound(s, d);
    case OpRevoke(d, reason) => RevokeSound(s, d, reason);
  }

  lemma StepSound(cfg: Config, s: State, op: Op)
    requires Orderly(s) && PathSound(s.ledger) && AsksForSomething(op) && NarrowGrant(s, op)
    ensures PathSound(After(cfg, s, op).ledger)
  {
    if Enforcing(op) {
      PublicationSound(cfg, s, op);
    } else if IsLoadOp(op) {
      LoadSound(cfg, s, op);
    } else {
      OtherFrame(cfg, s, op);
    }
  }

  ghost predicate AllNarrow(cfg: Config, s: State, ops: seq<Op>) {
    forall i :: 0 <= i < |ops| ==> NarrowGrant(Run(cfg, s, ops[..i]), ops[i])
  }

  /** Over every run whose grants each hold one resource or no path, whatever the
      journal does, each path's total is what the grants over it were charged. */
  lemma {:induction false} PathsOverRuns(cfg: Config, s: State, ops: seq<Op>)
    requires Orderly(s) && PathSound(s.ledger) && AllAskForSomething(ops) && AllNarrow(cfg, s, ops)
    ensures PathSound(Run(cfg, s, ops).ledger)
  {
    if ops != [] {
      var n := |ops| - 1;
      var front := ops[..n];
      assert forall i :: 0 <= i < n ==> front[..i] == ops[..i];
      PathsOverRuns(cfg, s, front);
      OrderOverRuns(cfg, s, front);
      assert NarrowGrant(Run(cfg, s, ops[..n]), ops[n]);
      StepSound(cfg, Run(cfg, s, front), ops[n]);
    }
  }
}
