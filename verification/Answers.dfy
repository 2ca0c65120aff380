/** Answers that do not tell the claimant what the ledger holds
    (src/engine/admission.cpp, src/engine/engine.cpp). */
module Answers {
  import opened Base
  import opened Model
  import opened Ledger
  import opened Attempts
  import opened Checks
  import opened Engine
  import opened Invariants
  import opened Closure
  import opened CleanRuns
  import opened Frames
  import opened Reissue
  import opened Interrupted

  // ------------------------------------------------------------------
  // A fenced claimant overwrites the attempt of a grant
  // ------------------------------------------------------------------

  /** Every attempt on record names a decision already issued. */
  ghost predicate AttemptsIssued(s: State) {
    forall k :: k in s.attempts.attempts ==> s.attempts.attempts[k].decision < s.nextDecision
  }

  lemma RecordedIssued(s: State, s': State, d: Decision)
    requires AttemptsIssued(s) && RecordsAtMost(s, s', d) && d.decision == s.nextDecision && s'.nextDecision == s.nextDecision + 1
    ensures AttemptsIssued(s')
  {}

  lemma RefuseIssued(cfg: Config, s: State, req: Request, outcome: Outcome, recordAttempt: bool)
    requires AttemptsIssued(s)
    ensures AttemptsIssued(Refuse(cfg, s, req, outcome, recordAttempt).1)
  {
    RefusalCarries(cfg, s, req, outcome, recordAttempt);
    RecordedIssued(s, Refuse(cfg, s, req, outcome, recordAttempt).1, BeginDecision(cfg, s, req, outcome).0);
  }

  lemma AdmitIssued(cfg: Config, s: State, req: Request, claim: Claim)
    requires AttemptsIssued(s)
    ensures AttemptsIssued(AdmitRequest(cfg, s, req, claim).1)
  {
    match PlanFor(cfg, s, req, claim)
    case RefuseWith(outcome, recordAttempt) => RefuseIssued(cfg, s, req, outcome, recordAttempt);
    case ReplayOf(d) =>
    case Evaluate =>
      AdmitNewCarries(cfg, s, req);
      AdmitNewNext(cfg, s, req);
      BegunKey(cfg, s, req);
      RecordedIssued(s, AdmitNew(cfg, s, req).1, Begun(cfg, s, req));
  }

  lemma SessionAttempts(cfg: Config, s: State, op: Op)
    requires op.OpIncarnation? || op.OpRegister? || op.OpRetire?
    ensures After(cfg, s, op).attempts == s.attempts
  {}

  lemma StepIssued(cfg: Config, s: State, op: Op)
    requires AttemptsIssued(s)
    ensures AttemptsIssued(After(cfg, s, op))
  {
    if op.OpAdmit? {
      AdmitAfter(cfg, s, op.request, op.claim);
      AdmitIssued(cfg, s, op.request, op.claim);
    } else if op.OpIncarnation? || op.OpRegister? || op.OpRetire? {
      SessionAttempts(cfg, s, op);
      SessionKeeps(cfg, s, op);
    } else {
      StepSteady(cfg, s, op);
    }
  }

  lemma {:induction false} IssuedOverRuns(cfg: Config, s: State, ops: seq<Op>)
    requires AttemptsIssued(s)
    ensures AttemptsIssued(Run(cfg, s, ops))
  {
    if ops != [] {
      var n := |ops| - 1;
      IssuedOverRuns(cfg, s, ops[..n]);
      StepIssued(cfg, Run(cfg, s, ops[..n]), ops[n]);
    }
  }

  /** The request is well formed, the claim is fenced, and the refusal can be
      journaled. */
  predicate FencedOnRecord(cfg: Config, s: State, req: Request, claim: Claim) {
    ValidRequest(req) && FenceVerdict(cfg, s, claim) != Admit && Succeeds(s.journal, 0)
  }

  lemma RefuseAttempts(cfg: Config, s: State, req: Request, outcome: Outcome, recordAttempt: bool)
    ensures
      var d := BeginDecision(cfg, s, req, outcome).0;
      Refuse(cfg, s, req, outcome, recordAttempt).1.attempts ==
        if recordAttempt && Succeeds(s.journal, 0) then Recorded(s.attempts, AttemptOf(d, s.tick)) else s.attempts
  {
    var (d, s1) := BeginDecision(cfg, s, req, outcome);
    WriteSucceeds(s1, AdmissionRefused(ToRecord(s1.auth, d)));
  }

  /** Departure, and its exact condition: a request whose attempt is on record
      changes that record exactly when its claim is fenced, for the fence is
      checked, and the refusal filed under the attempt, before the identity is. */
  lemma FenceOverwritesIff(cfg: Config, s: State, req: Request, claim: Claim)
    requires KeyFor(req) in s.attempts.attempts && AttemptsIssued(s)
    ensures
      var a := AdmitRequest(cfg, s, req, claim).1.attempts.attempts;
      KeyFor(req) in a && (a[KeyFor(req)] != s.attempts.attempts[KeyFor(req)] <==> FencedOnRecord(cfg, s, req, claim))
  {
    match PlanFor(cfg, s, req, claim)
    case RefuseWith(outcome, recordAttempt) => RefuseAttempts(cfg, s, req, outcome, recordAttempt);
    case ReplayOf(d) =>
  }

  lemma FencedFiled(cfg: Config, s: State, req: Request, claim: Claim) returns (d: Decision)
    requires FencedOnRecord(cfg, s, req, claim)
    ensures d.decision == s.nextDecision && d.outcome == FenceVerdict(cfg, s, claim) && d.fingerprint == cfg.fingerprint(req)
    ensures
      var s' := AdmitRequest(cfg, s, req, claim).1;
      SameSessions(s, s') && s'.ledger == s.ledger && d.decision in s'.cache && s'.cache[d.decision] == d &&
      KeyFor(req) in s'.attempts.attempts && s'.attempts.attempts[KeyFor(req)] == AttemptOf(d, s.tick)
  {
    var outcome := FenceVerdict(cfg, s, claim);
    d := BeginDecision(cfg, s, req, outcome).0;
    RefuseAttempts(cfg, s, req, outcome, true);
    RefusalCarries(cfg, s, req, outcome, true);
    RefusedCache(cfg, s, req, outcome);
  }

  lemma RefusedCache(cfg: Config, s: State, req: Request, outcome: Outcome)
    requires Succeeds(s.journal, 0)
    ensures
      var d := BeginDecision(cfg, s, req, outcome).0;
      var s' := Refuse(cfg, s, req, outcome, true).1;
      s'.ledger == s.ledger && d.decision in s'.cache && s'.cache[d.decision] == d
  {
    var (d, s1) := BeginDecision(cfg, s, req, outcome);
    WriteSucceeds(s1, AdmissionRefused(ToRecord(s1.auth, d)));
  }

  /** What follows: the rightful claimant who repeats the request is answered with
      the refusal, although whatever the request was granted is still held. */
  lemma FenceHidesGrant(cfg: Config, s: State, req: Request, stranger: Claim, rightful: Claim)
    requires FencedOnRecord(cfg, s, req, stranger) && FenceVerdict(cfg, s, rightful) == Admit
    ensures
      var s' := AdmitRequest(cfg, s, req, stranger).1;
      var (answer, s'') := AdmitRequest(cfg, s', req, rightful);
      answer.Decided? && answer.decision.decision == s.nextDecision && answer.decision.outcome == FenceVerdict(cfg, s, stranger) &&
      s''.ledger == s.ledger
  {
    var d := FencedFiled(cfg, s, req, stranger);
    var s' := AdmitRequest(cfg, s, req, stranger).1;
    assert FenceVerdict(cfg, s', rightful) == Admit;
    assert PlanFor(cfg, s', req, rightful) == ReplayOf(d.(idempotentReplay := true));
  }

  // ------------------------------------------------------------------
  // A failed answer whose load is held
  // ------------------------------------------------------------------

  /** Intent and commit are journaled, the compaction then due is not. */
  predicate CompactionFails(cfg: Config, j: JournalState) {
    j.attached && Succeeds(j, 0) && Succeeds(j, 1) && !Succeeds(j, 2) && |j.log| + 2 >= cfg.compactAt
  }

  lemma WriteLog(s: State, r: Record)
    requires s.journal.attached && Succeeds(s.journal, 0)
    ensures |Write(s, r).1.journal.log| == |s.journal.log| + 1
  {}

  lemma CompactFailsIff(cfg: Config, s: State)
    ensures CompactIfNeeded(cfg, s).0 != Ok <==> s.journal.attached && |s.journal.log| >= cfg.compactAt && !Succeeds(s.journal, 0)
    ensures CompactIfNeeded(cfg, s).1.ledger == s.ledger
  {}

  /** The state after intent, reservation and commit. */
  lemma TwoWrites(s: State, l: LedgerState, p: Record, r: Record)
    ensures
      var (prepared, s1) := Write(s, p);
      var (committed, s3) := Write(s1.(ledger := l), r);
      (prepared <==> Succeeds(s.journal, 0)) && s3.ledger == l && s3.journal.attached == s.journal.attached &&
      (prepared && s.journal.attached ==>
        (committed <==> Succeeds(s.journal, 1)) &&
        (committed ==> (Succeeds(s3.journal, 0) <==> Succeeds(s.journal, 2)) && |s3.journal.log| == |s.journal.log| + 2))
  {
    WriteSucceeds(s, p);
    var s2 := Write(s, p).1.(ledger := l);
    WriteSucceeds(s2, r);
    if s.journal.attached && Succeeds(s.journal, 0) {
      WriteLog(s, p);
      if Succeeds(s.journal, 1) {
        WriteLog(s2, r);
      }
    }
  }

  lemma DetachedCommits(s: State, l: LedgerState, p: Record, r: Record)
    requires !s.journal.attached
    ensures Write(s, p).0 && Write(Write(s, p).1.(ledger := l), r).0
  {}

  /** A held grant whose answer is a failure, and nothing else. */
  lemma FinishFailsIff(cfg: Config, s: State, d: Decision, amounts: seq<Amount>)
    requires Opened(s, d) && AscendingAmounts(amounts)
    ensures
      var (answer, s') := FinishAdmission(cfg, s, d, amounts);
      (answer.Failed? && d.decision in s'.ledger.byDecision <==>
        CompactionFails(cfg, s.journal) && Reserved(s.ledger, HoldOf(d, amounts)).0 == Ok)
  {
    var h := HoldOf(d, amounts);
    var p := AdmissionPrepare(IntentOf(d, amounts));
    var (reserved, l) := Reserved(s.ledger, h);
    var r := ToRecord(s.auth, d).(ledgerLive := true);
    TwoWrites(s, l, p, AdmissionCommit(r));
    NotYetHeld(s, d);
    ReserveConserves(s.ledger, h);
    if reserved == Ok {
      UndoneReservation(s.ledger, h);
      var s3 := Write(Write(s, p).1.(ledger := l), AdmissionCommit(r)).1;
      CompactFailsIff(cfg, Filed(s3, d, r, true));
      if !s.journal.attached {
        DetachedCommits(s, l, p, AdmissionCommit(r));
      }
    }
  }

  lemma NotYetHeld(s: State, d: Decision)
    requires Opened(s, d)
    ensures d.decision !in s.ledger.byDecision
  {
    forall e | e in s.ledger.byDecision ensures e < d.decision {
      assert Backed(s.history.records, e, s.ledger.byDecision[e]);
    }
  }

  /** Departure, and its exact condition: an admission answers with a failure and
      holds the granted load all the same exactly when the journal takes intent
      and commit but not the compaction that is then due, and the ledger has room. */
  lemma FailedButHeldIff(cfg: Config, s: State, req: Request)
    requires Consistent(s) && EvaluateRequest(s.auth, s.ledger, s.tick, s.pendingReconciliation, req).Granted?
    ensures
      var e := EvaluateRequest(s.auth, s.ledger, s.tick, s.pendingReconciliation, req);
      var (answer, s') := AdmitNew(cfg, s, req);
      (answer.Failed? && s.nextDecision in s'.ledger.byDecision <==>
        CompactionFails(cfg, s.journal) && s.ledger.entryCount + |e.targets| <= MAX_LEDGER_ENTRIES)
  {
    var e := EvaluateRequest(s.auth, s.ledger, s.tick, s.pendingReconciliation, req);
    EvaluationSound(s.auth, s.ledger, s.tick, s.pendingReconciliation, req);
    GrantsNeverRollBack(cfg, s, req);
    FinishFailsIff(cfg, BeginDecision(cfg, s, req, e.outcome).1, GrantedDecision(cfg, s, req, e), AmountsAt(e.targets, e.grant));
  }
}
