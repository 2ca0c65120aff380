/** What operations leave alone: sessions, the binding fields of records, and
    remembered decisions. None of this depends on the accounts being consistent. */
module Frames {
  import opened Base
  import opened Model
  import opened Ledger
  import opened History
  import opened Attempts
  import opened Checks
  import opened Engine

  ghost predicate SameSessions(s: State, s': State) {
    s'.epoch == s.epoch && s'.incarnation == s.incarnation && s'.sessions == s.sessions && s'.nextNonce == s.nextNonce
  }

  /** Only the lifecycle fields of a record may change after it is written. */
  predicate SameBinding(r: DecisionRecord, r': DecisionRecord) {
    r' == r.(state := r'.state, reason := r'.reason, ledgerLive := r'.ledgerLive)
  }

  /** Decisions issued before s are, in s', what they were in s or gone. */
  ghost predicate Carries(s: State, s': State) {
    s.nextDecision <= s'.nextDecision &&
    (forall d :: d in s'.history.records && d < s.nextDecision ==>
      d in s.history.records && SameBinding(s.history.records[d], s'.history.records[d])) &&
    (forall d :: d in s'.cache && d < s.nextDecision ==> d in s.cache && s'.cache[d] == s.cache[d])
  }

  /** Both at once, with no identity consumed and the registry of attempts
      untouched. */
  ghost predicate Steady(s: State, s': State) {
    SameSessions(s, s') && Carries(s, s') && s'.attempts == s.attempts && s'.nextDecision == s.nextDecision
  }

  lemma SteadySelf(s: State, s': State)
    requires s'.history == s.history && s'.cache == s.cache && s'.nextDecision == s.nextDecision && s'.attempts == s.attempts
    requires SameSessions(s, s')
    ensures Steady(s, s')
  {}

  lemma SteadyTransitive(a: State, b: State, c: State)
    requires Steady(a, b) && Steady(b, c)
    ensures Steady(a, c)
  {}

  // ------------------------------------------------------------------
  // Decisions
  // ------------------------------------------------------------------

  lemma {:induction false} TrimFromSubset(h: HistoryState, held: set<nat>, keys: seq<nat>, i: nat)
    requires Pending(h, keys, i)
    ensures
      var t := TrimFrom(h, held, keys, i).0;
      forall d :: d in t.records ==> d in h.records && t.records[d] == h.records[d]
    decreases |keys| - i
  {
    if |h.records| > h.capacity && i < |keys| {
      TrimFromSubset(ScanOne(h, held, keys[i]), held, keys, i + 1);
    }
  }

  lemma TrimSubset(h: HistoryState, held: set<nat>)
    ensures
      var t := TrimIfNeeded(h, held);
      forall d :: d in t.records ==> d in h.records && t.records[d] == h.records[d]
  {
    if |h.records| > h.capacity {
      var keys := SortedKeys(h.auditIndex.Keys);
      assert forall i :: 0 <= i < |keys| ==> keys[i] in keys;
      TrimFromSubset(h, held, keys, LowerBound(keys, h.cursor));
    }
  }

  /** Filing a decision with a new identity disturbs no earlier one. */
  lemma FiledCarries(s0: State, s: State, d: Decision, r: DecisionRecord, recordAttempt: bool)
    requires SameSessions(s0, s) && s.history == s0.history && s.cache == s0.cache
    requires d.decision == r.decision == s0.nextDecision && s.nextDecision == s0.nextDecision + 1
    ensures SameSessions(s0, Filed(s, d, r, recordAttempt)) && Carries(s0, Filed(s, d, r, recordAttempt))
  {
    TrimSubset(Inserted(s.history, r), s.ledger.byDecision.Keys);
  }

  /** The registry after an operation that may have recorded one attempt. */
  ghost predicate RecordsAtMost(s: State, s': State, d: Decision) {
    s'.attempts == s.attempts || s'.attempts == Recorded(s.attempts, AttemptOf(d, s.tick))
  }

  ghost predicate Decides(s: State, s': State, d: Decision) {
    SameSessions(s, s') && Carries(s, s') && RecordsAtMost(s, s', d)
  }

  lemma RefusalCarries(cfg: Config, s: State, req: Request, outcome: Outcome, recordAttempt: bool)
    ensures
      var s' := Refuse(cfg, s, req, outcome, recordAttempt).1;
      Decides(s, s', BeginDecision(cfg, s, req, outcome).0) && (!recordAttempt ==> s'.attempts == s.attempts)
  {
    var (d, s1) := BeginDecision(cfg, s, req, outcome);
    var r := ToRecord(s1.auth, d);
    var (ok, s2) := Write(s1, AdmissionRefused(r));
    FiledCarries(s, s2, d, r, recordAttempt);
  }

  lemma CompactSteady(cfg: Config, s: State)
    ensures Steady(s, CompactIfNeeded(cfg, s).1)
  {
    SteadySelf(s, CompactIfNeeded(cfg, s).1);
  }

  lemma AdmissionCarries(cfg: Config, s: State, s1: State, d: Decision, amounts: seq<Amount>)
    requires d.decision == s.nextDecision && s1 == s.(nextDecision := s.nextDecision + 1, audit := s.audit + 1)
    ensures Decides(s, FinishAdmission(cfg, s1, d, amounts).1, d)
  {
    var s' := FinishAdmission(cfg, s1, d, amounts).1;
    var (prepared, s2) := Write(s1, AdmissionPrepare(IntentOf(d, amounts)));
    var (reserved, l) := Reserved(s2.ledger, HoldOf(d, amounts));
    var s3 := s2.(ledger := l);
    var r := ToRecord(s3.auth, d).(ledgerLive := true);
    var (committed, s4) := Write(s3, AdmissionCommit(r));
    if prepared && reserved == Ok && committed {
      var s5 := Filed(s4, d, r, true);
      FiledCarries(s, s4, d, r, true);
      CompactSteady(cfg, s5);
    }
  }

  /** The decision an admission attempt begins, before it is evaluated further. */
  ghost function Begun(cfg: Config, s: State, req: Request): Decision {
    match EvaluateRequest(s.auth, s.ledger, s.tick, s.pendingReconciliation, req)
    case Refusal(outcome) => BeginDecision(cfg, s, req, outcome).0
    case Granted(outcome, grant, targets, path, pathGeneration) =>
      BeginDecision(cfg, s, req, outcome).0.(
        path := path, pathGeneration := pathGeneration, granted := grant,
        boundCapacity := GenerationOf(s.auth).capacityGeneration)
  }

  lemma BegunKey(cfg: Config, s: State, req: Request)
    ensures Begun(cfg, s, req).decision == s.nextDecision
    ensures KeyOf(AttemptOf(Begun(cfg, s, req), s.tick)) == KeyFor(req)
  {}

  lemma GrantFinishes(cfg: Config, s: State, req: Request, e: Evaluation)
    requires e == EvaluateRequest(s.auth, s.ledger, s.tick, s.pendingReconciliation, req) && e.Granted?
    ensures AdmitNew(cfg, s, req)
         == FinishAdmission(cfg, BeginDecision(cfg, s, req, e.outcome).1, Begun(cfg, s, req), AmountsAt(e.targets, e.grant))
  {}

  lemma AdmitNewCarries(cfg: Config, s: State, req: Request)
    ensures Decides(s, AdmitNew(cfg, s, req).1, Begun(cfg, s, req))
    ensures KeyOf(AttemptOf(Begun(cfg, s, req), s.tick)) == KeyFor(req)
  {
    var e := EvaluateRequest(s.auth, s.ledger, s.tick, s.pendingReconciliation, req);
    BegunKey(cfg, s, req);
    if e.Refusal? {
      RefusalCarries(cfg, s, req, e.outcome, true);
    } else {
      GrantFinishes(cfg, s, req, e);
      AdmissionCarries(cfg, s, BeginDecision(cfg, s, req, e.outcome).1, Begun(cfg, s, req), AmountsAt(e.targets, e.grant));
    }
  }

  // ------------------------------------------------------------------
  // Releases and enforcement
  // ------------------------------------------------------------------

  lemma MarkedCarries(h: HistoryState, d: nat, state: RevalidationState, reason: RevocationReason, live: bool)
    ensures
      var g := Marked(h, d, state, reason, live);
      g.records.Keys == h.records.Keys && forall e :: e in g.records ==> SameBinding(h.records[e], g.records[e])
  {}

  lemma ForgottenSteady(s: State, s': State, d: nat, state: RevalidationState, reason: RevocationReason, live: bool)
    requires s'.history == Marked(s.history, d, state, reason, live) || s'.history == NoteRelease(Marked(s.history, d, state, reason, live))
    requires s'.cache == s.cache || s'.cache == s.cache - {d}
    requires s'.nextDecision == s.nextDecision && s'.attempts == s.attempts && SameSessions(s, s')
    ensures Steady(s, s')
  {
    MarkedCarries(s.history, d, state, reason, live);
  }

  lemma ReleaseSteady(s: State, d: nat, reason: RevocationReason, state: RevalidationState)
    ensures Steady(s, ReleaseDecision(s, d, reason, state).1)
  {
    var s' := ReleaseDecision(s, d, reason, state).1;
    if s'.history == s.history && s'.cache == s.cache {
      SteadySelf(s, s');
    } else {
      ForgottenSteady(s, s', d, state, reason, false);
    }
  }

  lemma EvictSteady(s: State, d: nat, reason: RevocationReason)
    ensures Steady(s, Evict(s, d, reason).1)
  {
    ReleaseSteady(s, d, reason, Revoked);
  }

  lemma OutdateSteady(s: State, d: nat)
    requires d in s.history.records
    ensures Steady(s, Outdate(s, d).1)
  {
    var s' := Outdate(s, d).1;
    if s'.history == s.history {
      SteadySelf(s, s');
    } else {
      ForgottenSteady(s, s', d, Invalidated, GenerationAdvance, s.history.records[d].ledgerLive);
    }
  }

  lemma RevalidateSteady(s: State, d: nat)
    ensures Steady(s, Revalidate(s, d).1)
  {
    match Examine(s, d)
    case NoLongerHeld => ForgottenSteady(s, Revalidate(s, d).1, d, Revoked, ClaimantDeath, false);
    case MustRelease(reason) => EvictSteady(s, d, reason);
    case Outdated => OutdateSteady(s, d);
    case _ => SteadySelf(s, s);
  }

  lemma RevokeSteady(s: State, d: nat, reason: RevocationReason)
    ensures Steady(s, Revoke(s, d, reason).1)
  {
    SteadySelf(s, s);
    EvictSteady(s, d, reason);
  }

  lemma EnforceOneSteady(s: State, reason: RevocationReason, r: DecisionRecord)
    ensures Steady(s, EnforceOne(s, reason, r).1)
  {
    SteadySelf(s, s);
    ReleaseSteady(s, r.decision, reason, Revoked);
  }

  lemma {:induction false} EnforceFromSteady(s: State, reason: RevocationReason, ordered: seq<DecisionRecord>, n: nat)
    requires n <= |ordered|
    ensures Steady(s, EnforceFrom(s, reason, ordered, n).1)
    decreases n
  {
    SteadySelf(s, s);
    if n > 0 {
      var (st, s1, k) := EnforceOne(s, reason, ordered[n - 1]);
      EnforceOneSteady(s, reason, ordered[n - 1]);
      if st == Ok {
        EnforceFromSteady(s1, reason, ordered, n - 1);
        SteadyTransitive(s, s1, EnforceFrom(s1, reason, ordered, n - 1).1);
      }
    }
  }

  lemma FinishSteady(st: Status, s: State, revoked: nat)
    ensures Steady(s, FinishEnforcement(st, s, revoked).1)
  {
    SteadySelf(s, FinishEnforcement(st, s, revoked).1);
  }

  lemma EnforceSteady(s: State, reason: RevocationReason)
    ensures Steady(s, Enforce(s, reason).1)
  {
    SteadySelf(s, s);
    if s.auth.capacity.Some? {
      var ordered := InAuditOrder(s.history);
      EnforceFromSteady(s, reason, ordered, |ordered|);
      var (st, s1, k) := EnforceFrom(s, reason, ordered, |ordered|);
      FinishSteady(st, s1, k);
      SteadyTransitive(s, s1, FinishEnforcement(st, s1, k).1);
    }
  }

  // ------------------------------------------------------------------
  // Steps
  // ------------------------------------------------------------------

  lemma PublishSteady(s: State, s1: State, reason: RevocationReason)
    requires s1.history == s.history && s1.cache == s.cache && s1.nextDecision == s.nextDecision && s1.attempts == s.attempts
    requires SameSessions(s, s1)
    ensures Steady(s, Enforce(s1, reason).1)
  {
    SteadySelf(s, s1);
    EnforceSteady(s1, reason);
    SteadyTransitive(s, s1, Enforce(s1, reason).1);
  }

  predicate IsPublication(op: Op) {
    op.OpPolicy? || op.OpCapacity? || op.OpReservations? || op.OpPaths? || op.OpQos? || op.OpPriorities?
  }

  lemma PolicySteady(s: State, p: Policy)
    ensures Steady(s, PublishPolicy(s, p).1)
  {
    var (written, s1) := Write(s, PolicyConfig(p));
    SteadySelf(s, s);
    SteadySelf(s, s1);
    PublishSteady(s, s1.(auth := s1.auth.(policy := Some(p)), tick := Later(s1.tick, p.observedTick)), PolicyChange);
  }

  lemma PublicationSteady(cfg: Config, s: State, op: Op)
    requires IsPublication(op)
    ensures Steady(s, After(cfg, s, op))
  {
    SteadySelf(s, s);
    match op
    case OpPolicy(p) =>
      PolicySteady(s, p);
    case OpCapacity(c) =>
      PublishSteady(s, s.(auth := s.auth.(capacity := Some(c)), tick := Later(s.tick, c.observedTick)), CapacityReduction);
    case OpReservations(r) =>
      PublishSteady(s, s.(auth := s.auth.(reservations := Some(r)), tick := Later(s.tick, r.observedTick)), ObligationChange);
    case _ =>
      SteadySelf(s, After(cfg, s, op));
  }

  lemma PlainSteady(cfg: Config, s: State, op: Op)
    requires op.OpInvalidateCapacity? || op.OpInvalidatePaths? || op.OpTick? || op.OpCompact?
    ensures Steady(s, After(cfg, s, op))
  {
    SteadySelf(s, After(cfg, s, op));
  }

  /** Apart from admissions and the session operations, every operation leaves
      sessions and the attempt registry alone and earlier decisions as they were. */
  lemma StepSteady(cfg: Config, s: State, op: Op)
    requires !op.OpAdmit? && !op.OpIncarnation? && !op.OpRegister? && !op.OpRetire?
    ensures Steady(s, After(cfg, s, op))
  {
    if IsPublication(op) {
      PublicationSteady(cfg, s, op);
    } else if op.OpRevalidate? {
      RevalidateSteady(s, op.decision);
    } else if op.OpRevoke? {
      RevokeSteady(s, op.revoked, op.reason);
    } else {
      PlainSteady(cfg, s, op);
    }
  }

  lemma AdmitCarries(cfg: Config, s: State, req: Request, claim: Claim)
    ensures
      var s' := AdmitRequest(cfg, s, req, claim).1;
      SameSessions(s, s') && Carries(s, s')
  {
    match PlanFor(cfg, s, req, claim)
    case RefuseWith(outcome, recordAttempt) => RefusalCarries(cfg, s, req, outcome, recordAttempt);
    case ReplayOf(d) => SteadySelf(s, s);
    case Evaluate => AdmitNewCarries(cfg, s, req);
  }

  lemma CarriesSelf(s: State, s': State)
    requires s'.history == s.history && s'.cache == s.cache && s'.nextDecision == s.nextDecision
    ensures Carries(s, s')
  {}

  lemma SessionKeeps(cfg: Config, s: State, op: Op)
    requires op.OpIncarnation? || op.OpRegister? || op.OpRetire?
    ensures
      var s' := After(cfg, s, op);
      s'.history == s.history && s'.cache == s.cache && s'.nextDecision == s.nextDecision
  {}

  lemma SessionCarries(cfg: Config, s: State, op: Op)
    requires op.OpIncarnation? || op.OpRegister? || op.OpRetire?
    ensures Carries(s, After(cfg, s, op))
  {
    SessionKeeps(cfg, s, op);
    CarriesSelf(s, After(cfg, s, op));
  }

  /** Every operation leaves earlier decisions as they were or forgets them. */
  lemma StepCarries(cfg: Config, s: State, op: Op)
    ensures Carries(s, After(cfg, s, op))
  {
    if op.OpAdmit? {
      AdmitCarries(cfg, s, op.request, op.claim);
    } else if op.OpIncarnation? || op.OpRegister? || op.OpRetire? {
      SessionCarries(cfg, s, op);
    } else {
      StepSteady(cfg, s, op);
    }
  }
}
