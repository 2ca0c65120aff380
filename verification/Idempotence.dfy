/** Idempotent replay and identity reuse over runs (src/engine/history.cpp,
    src/engine/admission.cpp). */
module Idempotence {
  import opened Model
  import opened Ledger
  import opened History
  import opened Attempts
  import opened Checks
  import opened Engine
  import opened Frames

  /** The registry maps the key to decision o, and whatever is still remembered of
      that decision agrees with it. */
  ghost predicate Remembered(s: State, key: AttemptKey, o: Decision) {
    key in s.attempts.attempts && s.attempts.attempts[key].fingerprint == o.fingerprint &&
    s.attempts.attempts[key].decision == o.decision && o.decision < s.nextDecision &&
    (o.decision in s.cache ==> s.cache[o.decision] == o) &&
    (o.decision in s.history.records ==> Agrees(s.history.records[o.decision], o))
  }

  predicate Agrees(r: DecisionRecord, o: Decision) {
    r.decision == o.decision && r.outcome == o.outcome && r.granted == o.granted && r.fingerprint == o.fingerprint
  }

  /** The step neither evicts the key nor overwrites it through a fence refusal. */
  ghost predicate Undisturbed(cfg: Config, s: State, op: Op, key: AttemptKey) {
    op.OpAdmit? && ValidRequest(op.request) ==>
      if KeyFor(op.request) == key then FenceVerdict(cfg, s, op.claim) == Admit
      else KeyFor(op.request) in s.attempts.attempts || key in EvictDown(s.attempts.attempts, s.attempts.capacity)
  }

  lemma RegistryKeeps(s: State, s': State, d: Decision, key: AttemptKey)
    requires RecordsAtMost(s, s', d) && key in s.attempts.attempts && KeyOf(AttemptOf(d, s.tick)) != key
    requires KeyOf(AttemptOf(d, s.tick)) in s.attempts.attempts || key in EvictDown(s.attempts.attempts, s.attempts.capacity)
    ensures key in s'.attempts.attempts && s'.attempts.attempts[key] == s.attempts.attempts[key]
  {
    if s'.attempts != s.attempts {
      RecordedKeeps(s.attempts, AttemptOf(d, s.tick), key);
    }
  }

  ghost predicate KeyKept(s: State, s': State, key: AttemptKey)
    requires key in s.attempts.attempts
  {
    key in s'.attempts.attempts && s'.attempts.attempts[key] == s.attempts.attempts[key]
  }

  lemma RefuseRegistry(cfg: Config, s: State, req: Request, outcome: Outcome, recordAttempt: bool, key: AttemptKey)
    requires key in s.attempts.attempts
    requires recordAttempt ==> KeyFor(req) != key
    requires recordAttempt ==> KeyFor(req) in s.attempts.attempts || key in EvictDown(s.attempts.attempts, s.attempts.capacity)
    ensures KeyKept(s, Refuse(cfg, s, req, outcome, recordAttempt).1, key)
  {
    RefusalCarries(cfg, s, req, outcome, recordAttempt);
    if recordAttempt {
      RegistryKeeps(s, Refuse(cfg, s, req, outcome, recordAttempt).1, BeginDecision(cfg, s, req, outcome).0, key);
    }
  }

  lemma AdmitNewRegistry(cfg: Config, s: State, req: Request, key: AttemptKey)
    requires key in s.attempts.attempts && KeyFor(req) != key
    requires KeyFor(req) in s.attempts.attempts || key in EvictDown(s.attempts.attempts, s.attempts.capacity)
    ensures KeyKept(s, AdmitNew(cfg, s, req).1, key)
  {
    AdmitNewCarries(cfg, s, req);
    RegistryKeeps(s, AdmitNew(cfg, s, req).1, Begun(cfg, s, req), key);
  }

  lemma AdmitRegistry(cfg: Config, s: State, req: Request, claim: Claim, key: AttemptKey)
    requires key in s.attempts.attempts && Undisturbed(cfg, s, OpAdmit(req, claim), key)
    ensures KeyKept(s, AdmitRequest(cfg, s, req, claim).1, key)
  {
    match PlanFor(cfg, s, req, claim)
    case RefuseWith(outcome, recordAttempt) => RefuseRegistry(cfg, s, req, outcome, recordAttempt, key);
    case ReplayOf(d) =>
    case Evaluate => AdmitNewRegistry(cfg, s, req, key);
  }

  lemma RememberedCarries(s: State, s': State, key: AttemptKey, o: Decision)
    requires Remembered(s, key, o) && Carries(s, s')
    requires KeyKept(s, s', key)
    ensures Remembered(s', key, o)
  {}

  lemma RememberedStep(cfg: Config, s: State, op: Op, key: AttemptKey, o: Decision)
    requires Remembered(s, key, o) && Undisturbed(cfg, s, op, key)
    ensures Remembered(After(cfg, s, op), key, o)
  {
    StepCarries(cfg, s, op);
    if op.OpAdmit? {
      AdmitRegistry(cfg, s, op.request, op.claim, key);
    } else if !op.OpIncarnation? && !op.OpRegister? && !op.OpRetire? {
      StepSteady(cfg, s, op);
    }
    RememberedCarries(s, After(cfg, s, op), key, o);
  }

  ghost predicate UndisturbedRun(cfg: Config, s: State, ops: seq<Op>, key: AttemptKey) {
    forall n :: 0 <= n < |ops| ==> Undisturbed(cfg, Run(cfg, s, ops[..n]), ops[n], key)
  }

  lemma {:induction false} RememberedRun(cfg: Config, s: State, ops: seq<Op>, key: AttemptKey, o: Decision)
    requires Remembered(s, key, o) && UndisturbedRun(cfg, s, ops, key)
    ensures Remembered(Run(cfg, s, ops), key, o)
  {
    if ops != [] {
      var n := |ops| - 1;
      assert UndisturbedRun(cfg, s, ops[..n], key) by {
        forall k | 0 <= k < n ensures Undisturbed(cfg, Run(cfg, s, ops[..n][..k]), ops[..n][k], key) {
          assert ops[..n][..k] == ops[..k];
        }
      }
      RememberedRun(cfg, s, ops[..n], key, o);
      RememberedStep(cfg, Run(cfg, s, ops[..n]), ops[n], key, o);
    }
  }

  lemma FiledRemembered(s: State, d: Decision, r: DecisionRecord)
    requires Agrees(r, d) && 0 < d.decision < s.nextDecision
    ensures Remembered(Filed(s, d, r, true), KeyOf(AttemptOf(d, s.tick)), d)
  {
    TrimSubset(Inserted(s.history, r), s.ledger.byDecision.Keys);
  }

  lemma FinishRemembered(cfg: Config, s: State, d: Decision, amounts: seq<Amount>)
    requires 0 < d.decision < s.nextDecision && FinishAdmission(cfg, s, d, amounts).0.Decided?
    ensures Remembered(FinishAdmission(cfg, s, d, amounts).1, KeyOf(AttemptOf(d, s.tick)), d)
  {
    var s1 := Write(s, AdmissionPrepare(IntentOf(d, amounts))).1;
    var s2 := s1.(ledger := Reserved(s1.ledger, HoldOf(d, amounts)).1);
    var r := ToRecord(s2.auth, d).(ledgerLive := true);
    FiledRemembered(Write(s2, AdmissionCommit(r)).1, d, r);
  }

  lemma RefusalRemembered(cfg: Config, s: State, req: Request, outcome: Outcome)
    requires s.nextDecision > 0 && Refuse(cfg, s, req, outcome, true).0.Decided?
    ensures
      var (answer, s') := Refuse(cfg, s, req, outcome, true);
      Remembered(s', KeyFor(req), answer.decision)
  {
    var (d, s1) := BeginDecision(cfg, s, req, outcome);
    var r := ToRecord(s1.auth, d);
    FiledRemembered(Write(s1, AdmissionRefused(r)).1, d, r);
  }

  /** A decision that was evaluated and answered is remembered under its key. */
  lemma DecidedIsRemembered(cfg: Config, s: State, req: Request)
    requires s.nextDecision > 0 && AdmitNew(cfg, s, req).0.Decided?
    ensures
      var (answer, s') := AdmitNew(cfg, s, req);
      Remembered(s', KeyFor(req), answer.decision)
  {
    match EvaluateRequest(s.auth, s.ledger, s.tick, s.pendingReconciliation, req)
    case Refusal(outcome) => RefusalRemembered(cfg, s, req, outcome);
    case Granted(outcome, grant, targets, path, pathGeneration) =>
      FinishRemembered(cfg, BeginDecision(cfg, s, req, outcome).1, Begun(cfg, s, req), AmountsAt(targets, grant));
  }

  /** The answer to a repeated attempt: the original decision, or a conflict once
      nothing is left of it; in either case no load moves. */
  ghost predicate RepeatsOriginal(s: State, answer: AdmitResult, s': State, o: Decision) {
    s'.ledger == s.ledger &&
    (if o.decision in s.cache || o.decision in s.history.records
     then s' == s && answer.Decided? && answer.decision.decision == o.decision && answer.decision.outcome == o.outcome &&
          answer.decision.granted == o.granted && answer.decision.idempotentReplay
     else answer.Decided? ==> answer.decision.outcome == ConflictingInput)
  }

  /** The answer to a key reused for different content: a conflict, no load moves. */
  ghost predicate RefusesReuse(s: State, answer: AdmitResult, s': State) {
    s'.ledger == s.ledger && (answer.Decided? ==> answer.decision.outcome == ConflictingInput)
  }

  lemma RefuseAnswer(cfg: Config, s: State, req: Request, outcome: Outcome, recordAttempt: bool)
    ensures
      var (answer, s') := Refuse(cfg, s, req, outcome, recordAttempt);
      s'.ledger == s.ledger && (answer.Decided? ==> answer.decision.outcome == outcome)
  {}

  lemma AttemptAnswered(cfg: Config, s: State, req: Request, claim: Claim, o: Decision)
    requires Remembered(s, KeyFor(req), o) && ValidRequest(req) && FenceVerdict(cfg, s, claim) == Admit
    ensures
      var (answer, s') := AdmitRequest(cfg, s, req, claim);
      if cfg.fingerprint(req) == o.fingerprint then RepeatsOriginal(s, answer, s', o) else RefusesReuse(s, answer, s')
  {
    RefuseAnswer(cfg, s, req, ConflictingInput, false);
  }

  /** Over every undisturbed run after an attempt was decided: repeating it, with
      any claim that passes the fence, returns the original decision and moves no
      load, and different content under the same key is refused. */
  lemma ReplayOverRuns(cfg: Config, s: State, ops: seq<Op>, req: Request, claim: Claim, o: Decision)
    requires Remembered(s, KeyFor(req), o) && UndisturbedRun(cfg, s, ops, KeyFor(req))
    requires ValidRequest(req) && FenceVerdict(cfg, Run(cfg, s, ops), claim) == Admit
    ensures
      var now := Run(cfg, s, ops);
      var (answer, s') := AdmitRequest(cfg, now, req, claim);
      if cfg.fingerprint(req) == o.fingerprint then RepeatsOriginal(now, answer, s', o) else RefusesReuse(now, answer, s')
  {
    RememberedRun(cfg, s, ops, KeyFor(req), o);
    AttemptAnswered(cfg, Run(cfg, s, ops), req, claim, o);
  }
}
