/** Recovered load over runs: only recovery leaves load unconfirmed, so outside a
    reused epoch no revalidation keeps a grant that nothing justifies. */
module Reconciling {
  import opened Base
  import opened Model
  import opened Ledger
  import opened History
  import opened Engine
  import opened Frames
  import opened Invariants
  import opened CleanRuns
  import opened Closure
  import opened Interrupted
  import opened Recovery
  import opened Reissue
  import opened Revocations
  import opened Revalidations

  /** No load has become unconfirmed. */
  ghost predicate NoneUnconfirmed(l: LedgerState, l': LedgerState) {
    forall d :: d in l'.byDecision && Unconfirmed(l'.byDecision[d]) ==> d in l.byDecision && l'.byDecision[d] == l.byDecision[d]
  }

  lemma NoneTransitive(a: LedgerState, b: LedgerState, c: LedgerState)
    requires NoneUnconfirmed(a, b) && NoneUnconfirmed(b, c)
    ensures NoneUnconfirmed(a, c)
  {}

  lemma ReserveConfirmed(l: LedgerState, h: Hold)
    ensures NoneUnconfirmed(l, Reserved(l, h).1)
  {}

  lemma ReleaseConfirmed(l: LedgerState, d: nat)
    ensures NoneUnconfirmed(l, ReleasedLoad(l, d).1)
  {}

  lemma AdmissionLedger(cfg: Config, s: State, d: Decision, amounts: seq<Amount>, l: LedgerState)
    requires l == Reserved(s.ledger, HoldOf(d, amounts)).1
    ensures FinishAdmission(cfg, s, d, amounts).1.ledger in {s.ledger, l, ReleasedLoad(l, d.decision).1}
  {}

  lemma AdmissionConfirmed(cfg: Config, s: State, d: Decision, amounts: seq<Amount>)
    ensures NoneUnconfirmed(s.ledger, FinishAdmission(cfg, s, d, amounts).1.ledger)
  {
    var l := Reserved(s.ledger, HoldOf(d, amounts)).1;
    AdmissionLedger(cfg, s, d, amounts, l);
    ReserveConfirmed(s.ledger, HoldOf(d, amounts));
    ReleaseConfirmed(l, d.decision);
    NoneTransitive(s.ledger, l, ReleasedLoad(l, d.decision).1);
  }

  lemma RefuseConfirmed(cfg: Config, s: State, req: Request, outcome: Outcome, recordAttempt: bool)
    ensures Refuse(cfg, s, req, outcome, recordAttempt).1.ledger == s.ledger
  {}

  lemma AdmitNewConfirmed(cfg: Config, s: State, req: Request, e: Evaluation)
    requires e == EvaluateRequest(s.auth, s.ledger, s.tick, s.pendingReconciliation, req)
    ensures NoneUnconfirmed(s.ledger, AdmitNew(cfg, s, req).1.ledger)
  {
    AdmitNewDecides(cfg, s, req, e);
    match e
    case Refusal(outcome) => RefuseConfirmed(cfg, s, req, outcome, true);
    case Granted(outcome, grant, targets, _, _) =>
      AdmissionConfirmed(cfg, BeginDecision(cfg, s, req, outcome).1, GrantedDecision(cfg, s, req, e), AmountsAt(targets, grant));
  }

  lemma AdmitConfirmed(cfg: Config, s: State, req: Request, claim: Claim)
    ensures NoneUnconfirmed(s.ledger, AdmitRequest(cfg, s, req, claim).1.ledger)
  {
    match PlanFor(cfg, s, req, claim)
    case RefuseWith(outcome, recordAttempt) => RefuseConfirmed(cfg, s, req, outcome, recordAttempt);
    case ReplayOf(d) =>
    case Evaluate => AdmitNewConfirmed(cfg, s, req, EvaluateRequest(s.auth, s.ledger, s.tick, s.pendingReconciliation, req));
  }

  lemma DecisionConfirmed(s: State, d: nat, reason: RevocationReason)
    ensures NoneUnconfirmed(s.ledger, ReleaseDecision(s, d, reason, Revoked).1.ledger)
  {
    ReleaseConfirmed(s.ledger, d);
  }

  lemma RevalidateConfirmed(s: State, d: nat)
    ensures NoneUnconfirmed(s.ledger, Revalidate(s, d).1.ledger)
  {
    match Examine(s, d)
    case MustRelease(reason) => DecisionConfirmed(s, d, reason);
    case _ =>
  }

  lemma RevokeConfirmed(s: State, d: nat, reason: RevocationReason)
    ensures NoneUnconfirmed(s.ledger, Revoke(s, d, reason).1.ledger)
  {
    DecisionConfirmed(s, d, reason);
  }

  lemma {:induction false} PassConfirmed(s: State, reason: RevocationReason, ordered: seq<DecisionRecord>, n: nat)
    requires n <= |ordered|
    ensures NoneUnconfirmed(s.ledger, EnforceFrom(s, reason, ordered, n).1.ledger)
    decreases n
  {
    if n > 0 {
      var r := ordered[n - 1];
      var (st, s1, k) := EnforceOne(s, reason, r);
      DecisionConfirmed(s, r.decision, reason);
      if st == Ok {
        PassConfirmed(s1, reason, ordered, n - 1);
        NoneTransitive(s.ledger, s1.ledger, EnforceFrom(s1, reason, ordered, n - 1).1.ledger);
      }
    }
  }

  lemma FinishConfirmed(st: Status, s: State, revoked: nat)
    ensures NoneUnconfirmed(s.ledger, FinishEnforcement(st, s, revoked).1.ledger)
  {}

  lemma EnforceConfirmed(s: State, reason: RevocationReason)
    ensures NoneUnconfirmed(s.ledger, Enforce(s, reason).1.ledger)
  {
    if s.auth.capacity.Some? {
      var ordered := InAuditOrder(s.history);
      var (st, s1, revoked) := EnforceFrom(s, reason, ordered, |ordered|);
      PassConfirmed(s, reason, ordered, |ordered|);
      FinishConfirmed(st, s1, revoked);
      NoneTransitive(s.ledger, s1.ledger, FinishEnforcement(st, s1, revoked).1.ledger);
    }
  }

  lemma PolicyConfirmed(s: State, p: Policy)
    ensures NoneUnconfirmed(s.ledger, PublishPolicy(s, p).1.ledger)
  {
    var s1 := Write(s, PolicyConfig(p)).1;
    EnforceConfirmed(s1.(auth := s1.auth.(policy := Some(p)), tick := Later(s1.tick, p.observedTick)), PolicyChange);
  }

  lemma CapacityConfirmed(s: State, c: CapacitySnapshot)
    ensures NoneUnconfirmed(s.ledger, PublishCapacity(s, c).1.ledger)
  {
    EnforceConfirmed(s.(auth := s.auth.(capacity := Some(c)), tick := Later(s.tick, c.observedTick)), CapacityReduction);
  }

  lemma ReservationsConfirmed(s: State, r: ReservationSnapshot)
    ensures NoneUnconfirmed(s.ledger, PublishReservations(s, r).1.ledger)
  {
    EnforceConfirmed(s.(auth := s.auth.(reservations := Some(r)), tick := Later(s.tick, r.observedTick)), ObligationChange);
  }

  lemma QuietConfirmed(cfg: Config, s: State, op: Op)
    requires !IsLoadOp(op) && !Enforcing(op)
    ensures After(cfg, s, op).ledger == s.ledger
  {
    OtherFrame(cfg, s, op);
  }

  lemma StepConfirmed(cfg: Config, s: State, op: Op)
    ensures NoneUnconfirmed(s.ledger, After(cfg, s, op).ledger)
  {
    match op
    case OpPolicy(p) => PolicyConfirmed(s, p);
    case OpCapacity(c) => CapacityConfirmed(s, c);
    case OpReservations(r) => ReservationsConfirmed(s, r);
    case OpAdmit(req, claim) => AdmitConfirmed(cfg, s, req, claim);
    case OpRevalidate(d) => RevalidateConfirmed(s, d);
    case OpRevoke(d, reason) => RevokeConfirmed(s, d, reason);
    case _ => QuietConfirmed(cfg, s, op);
  }

  /** Load that is not confirmed was granted in an earlier epoch. */
  ghost predicate UnconfirmedIsOld(s: State) {
    forall d :: d in s.ledger.byDecision && Unconfirmed(s.ledger.byDecision[d]) ==>
      d in s.history.records && s.history.records[d].epoch < s.epoch
  }

  lemma StepConsistent(cfg: Config, s: State, op: Op)
    requires Consistent(s)
    ensures Consistent(After(cfg, s, op))
  {
    if Enforcing(op) {
      PublicationStep(cfg, s, op);
    } else {
      StepSafe(cfg, s, op);
    }
  }

  lemma OldStep(cfg: Config, s: State, op: Op)
    requires Consistent(s) && UnconfirmedIsOld(s)
    ensures UnconfirmedIsOld(After(cfg, s, op))
  {
    var s' := After(cfg, s, op);
    StepConfirmed(cfg, s, op);
    StepCarries(cfg, s, op);
    StepEpoch(cfg, s, op);
    StepConsistent(cfg, s, op);
    OldCarries(s, s');
  }

  lemma OldCarries(s: State, s': State)
    requires Consistent(s) && UnconfirmedIsOld(s) && Consistent(s')
    requires NoneUnconfirmed(s.ledger, s'.ledger) && Carries(s, s') && s.epoch <= s'.epoch
    ensures UnconfirmedIsOld(s')
  {
    forall d | d in s'.ledger.byDecision && Unconfirmed(s'.ledger.byDecision[d])
      ensures d in s'.history.records && s'.history.records[d].epoch < s'.epoch
    {
      HeldRecord(s', d);
      HeldRecord(s, d);
    }
  }

  lemma {:induction false} OldOverRuns(cfg: Config, s: State, ops: seq<Op>)
    requires Consistent(s) && UnconfirmedIsOld(s)
    ensures Consistent(Run(cfg, s, ops)) && UnconfirmedIsOld(Run(cfg, s, ops))
  {
    if ops != [] {
      var n := |ops| - 1;
      OldOverRuns(cfg, s, ops[..n]);
      OldStep(cfg, Run(cfg, s, ops[..n]), ops[n]);
      StepConsistent(cfg, Run(cfg, s, ops[..n]), ops[n]);
    }
  }

  /** Over every run: a revalidation whose writes succeed takes away every grant
      whose path is missing or not up, whose resources no longer fit or are no
      longer known, or for which an authority is missing. */
  lemma UnjustifiedGoes(cfg: Config, s: State, ops: seq<Op>, d: nat, r: DecisionRecord, entries: seq<LedgerEntry>)
    requires Consistent(s) && UnconfirmedIsOld(s) && Held(Run(cfg, s, ops), d, r, entries) && !Justified(Run(cfg, s, ops), r, entries)
    requires Succeeds(Run(cfg, s, ops).journal, 0) && Succeeds(Run(cfg, s, ops).journal, 1) && !Stuck(Run(cfg, s, ops).ledger, d)
    ensures d !in Revalidate(Run(cfg, s, ops), d).1.ledger.byDecision
  {
    OldOverRuns(cfg, s, ops);
    KeptIff(Run(cfg, s, ops), d, r, entries);
  }

  /** A fresh engine starts so. */
  lemma InitialIsOld(epoch: u64, incarnation: u64, tick: u64, historyCapacity: nat, attemptCapacity: nat)
    ensures Consistent(Initial(epoch, incarnation, tick, historyCapacity, attemptCapacity))
    ensures UnconfirmedIsOld(Initial(epoch, incarnation, tick, historyCapacity, attemptCapacity))
  {
    InitialConsistent(epoch, incarnation, tick, historyCapacity, attemptCapacity);
  }

  lemma OpenedFlagged(e: State, scan: Scan, log: seq<Record>, outcomes: seq<bool>, d: nat)
    requires OpenDurable(e, scan, log, outcomes).OpenedWith?
    ensures
      var s := OpenDurable(e, scan, log, outcomes).state;
      d in s.ledger.byDecision && s.ledger.byDecision[d] != [] ==> Unconfirmed(s.ledger.byDecision[d])
  {
    var s := OpenDurable(e, scan, log, outcomes).state;
    if d in s.ledger.byDecision && s.ledger.byDecision[d] != [] {
      assert s.ledger.byDecision[d][0].requiresRevalidation;
    }
  }

  /** A reopened engine starts so exactly when a boot record of every live
      grant's epoch, or a later one, reached the journal. */
  lemma ReopenedIsOldIff(e: State, scan: Scan, log: seq<Record>, outcomes: seq<bool>)
    requires OpenDurable(e, scan, log, outcomes).OpenedWith? && Consistent(OpenDurable(e, scan, log, outcomes).state) && BootReaches(log, 1)
    requires forall d :: d in OpenDurable(e, scan, log, outcomes).state.history.records ==> OpenDurable(e, scan, log, outcomes).state.history.records[d].epoch > 0
    ensures
      var s := OpenDurable(e, scan, log, outcomes).state;
      UnconfirmedIsOld(s) <==>
        forall d :: d in s.ledger.byDecision ==> d in s.history.records && BootReaches(log, s.history.records[d].epoch)
  {
    var s := OpenDurable(e, scan, log, outcomes).state;
    forall d | d in s.ledger.byDecision
      ensures d in s.history.records && Unconfirmed(s.ledger.byDecision[d])
      ensures s.history.records[d].epoch < s.epoch <==> BootReaches(log, s.history.records[d].epoch)
    {
      HeldRecord(s, d);
      assert EntriesOk(d, s.ledger.byDecision[d]);
      OpenedFlagged(e, scan, log, outcomes, d);
      LaterEpochIff(e, scan, log, outcomes, s.history.records[d].epoch);
    }
  }
}
