/** Identities across a restart: recovery resumes above the decisions and the boot
    records in the journal, and an intent that was never committed or an epoch
    whose boot record was never written is not among them
    (AdmissionEngine::open_durable, src/engine/engine.cpp). */
module Reissue {
  import opened Base
  import opened Model
  import opened Engine
  import opened Frames
  import opened Recovery
  import opened Durability
  import opened Restart
  import opened Fencing

  /** Every decision on record has an id below d. */
  ghost predicate AllBelow(log: seq<Record>, d: nat) {
    forall i :: 0 <= i < |log| && IsDecision(log[i]) ==> DecisionIn(log[i]).decision < d
  }

  lemma AbsorbMax(st: Recovering, r: Record)
    requires Absorb(st, r).Replaying?
    ensures Absorb(st, r).state.maxDecision == if IsDecision(r) then Max(st.maxDecision, DecisionIn(r).decision) else st.maxDecision
  {}

  lemma AllBelowSnoc(log: seq<Record>, r: Record, d: nat)
    ensures AllBelow(log + [r], d) <==> AllBelow(log, d) && (IsDecision(r) ==> DecisionIn(r).decision < d)
  {
    assert (log + [r])[|log|] == r;
    assert forall i :: 0 <= i < |log| ==> (log + [r])[i] == log[i];
  }

  lemma {:induction false} MaxDecisionExact(b: Recovering, log: seq<Record>, d: nat)
    requires b.maxDecision == 0 && d > 0 && ReplayLog(b, log).Replaying?
    ensures ReplayLog(b, log).state.maxDecision < d <==> AllBelow(log, d)
  {
    if log != [] {
      var n := |log| - 1;
      MaxDecisionExact(b, log[..n], d);
      AbsorbMax(ReplayLog(b, log[..n]).state, log[n]);
      AllBelowSnoc(log[..n], log[n], d);
      assert log[..n] + [log[n]] == log;
    }
  }

  /** The reopened engine will issue id d, again or for the first time, exactly
      when no decision on record reaches it. Intents do not count. */
  lemma ReissuedIff(e: State, scan: Scan, log: seq<Record>, outcomes: seq<bool>, d: nat)
    requires OpenDurable(e, scan, log, outcomes).OpenedWith? && d > 0
    ensures OpenDurable(e, scan, log, outcomes).state.nextDecision <= d <==> AllBelow(log, d)
  {
    MaxDecisionExact(Blank(e.history.capacity, e.attempts.capacity), log, d);
  }

  lemma OpenedNumbers(e: State, scan: Scan, log: seq<Record>, outcomes: seq<bool>) returns (st: Recovering)
    requires OpenDurable(e, scan, log, outcomes).OpenedWith?
    ensures ReplayLog(Blank(e.history.capacity, e.attempts.capacity), log) == Replaying(st)
    ensures
      var o := OpenDurable(e, scan, log, outcomes);
      o.state.nextDecision == st.maxDecision + 1 && o.report.ambiguous == st.pending.Keys
  {
    st := ReplayLog(Blank(e.history.capacity, e.attempts.capacity), log).state;
  }

  lemma DurableMax(b: Recovering, s: State)
    requires Durable(b, s) && s.journal.attached
    ensures ReplayLog(b, s.journal.log).Replaying? && ReplayLog(b, s.journal.log).state.maxDecision < s.nextDecision
  {}

  lemma IntentPending(st: Recovering, p: PrepareRecord, st': Recovering)
    requires Absorb(st, AdmissionPrepare(p)) == Replaying(st')
    ensures st'.maxDecision == st.maxDecision && p.decision in st'.pending
  {}

  /** Departure: an engine that dies with the intent of its next decision in the
      journal and no commit comes back ready to issue that id again, while
      reporting it as ambiguous. */
  lemma CrashReissues(b: Recovering, s: State, p: PrepareRecord, e: State, scan: Scan, outcomes: seq<bool>)
    requires Template(e, b) && Durable(b, s) && s.journal.attached && p.decision == s.nextDecision
    requires OpenDurable(e, scan, s.journal.log + [AdmissionPrepare(p)], outcomes).OpenedWith?
    ensures
      var o := OpenDurable(e, scan, s.journal.log + [AdmissionPrepare(p)], outcomes);
      o.state.nextDecision <= p.decision && p.decision in o.report.ambiguous
  {
    var st' := OpenedNumbers(e, scan, s.journal.log + [AdmissionPrepare(p)], outcomes);
    DurableMax(b, s);
    ReplaySnoc(b, s.journal.log, AdmissionPrepare(p));
    IntentPending(ReplayLog(b, s.journal.log).state, p, st');
  }

  // ------------------------------------------------------------------
  // Ids are issued without gaps
  // ------------------------------------------------------------------

  lemma FinishNext(cfg: Config, s: State, d: Decision, amounts: seq<Amount>)
    ensures FinishAdmission(cfg, s, d, amounts).1.nextDecision == s.nextDecision
  {
    AdmissionNext(cfg, s, d, amounts);
  }

  lemma AdmitNewNext(cfg: Config, s: State, req: Request)
    ensures AdmitNew(cfg, s, req).1.nextDecision == s.nextDecision + 1
  {
    var e := EvaluateRequest(s.auth, s.ledger, s.tick, s.pendingReconciliation, req);
    if e.Granted? {
      GrantFinishes(cfg, s, req, e);
      FinishNext(cfg, BeginDecision(cfg, s, req, e.outcome).1, Begun(cfg, s, req), AmountsAt(e.targets, e.grant));
    }
  }

  lemma AdmitNext(cfg: Config, s: State, req: Request, claim: Claim)
    ensures s.nextDecision <= AdmitRequest(cfg, s, req, claim).1.nextDecision <= s.nextDecision + 1
  {
    if PlanFor(cfg, s, req, claim).Evaluate? {
      AdmitNewNext(cfg, s, req);
    }
  }

  lemma StepNext(cfg: Config, s: State, op: Op)
    ensures s.nextDecision <= After(cfg, s, op).nextDecision <= s.nextDecision + (if op.OpAdmit? then 1 else 0)
  {
    if op.OpAdmit? {
      AdmitNext(cfg, s, op.request, op.claim);
    } else if op.OpIncarnation? || op.OpRegister? || op.OpRetire? {
      SessionKeeps(cfg, s, op);
    } else {
      StepSteady(cfg, s, op);
    }
  }

  /** Every id a run passes was the next one at some admission of that run: an id
      the reopened engine is ready to issue is issued, once enough requests come. */
  lemma {:induction false} IssuedOnTheWay(cfg: Config, s: State, ops: seq<Op>, d: nat) returns (i: nat)
    requires s.nextDecision <= d < Run(cfg, s, ops).nextDecision
    ensures i < |ops| && ops[i].OpAdmit? && Run(cfg, s, ops[..i]).nextDecision == d
  {
    if ops != [] {
      var n := |ops| - 1;
      var front := ops[..n];
      StepNext(cfg, Run(cfg, s, front), ops[n]);
      if d < Run(cfg, s, front).nextDecision {
        i := IssuedOnTheWay(cfg, s, front, d);
        assert front[..i] == ops[..i];
      } else {
        i := n;
      }
    }
  }

  // ------------------------------------------------------------------
  // Epochs and the fence
  // ------------------------------------------------------------------

  /** Some boot record in the journal carries this epoch or a later one. */
  ghost predicate BootReaches(log: seq<Record>, epoch: u64) {
    exists i :: 0 <= i < |log| && log[i].BootEpoch? && log[i].boot.epoch >= epoch
  }

  lemma AbsorbEpoch(st: Recovering, r: Record)
    requires Absorb(st, r).Replaying?
    ensures Absorb(st, r).state.epoch == if r.BootEpoch? then Max(st.epoch, r.boot.epoch) else st.epoch
  {}

  lemma BootReachesSnoc(log: seq<Record>, r: Record, epoch: u64)
    ensures BootReaches(log + [r], epoch) <==> BootReaches(log, epoch) || (r.BootEpoch? && r.boot.epoch >= epoch)
  {
    var more := log + [r];
    assert more[|log|] == r && forall i :: 0 <= i < |log| ==> more[i] == log[i];
    if i :| 0 <= i < |log| && log[i].BootEpoch? && log[i].boot.epoch >= epoch {
      assert more[i].BootEpoch?;
    }
  }

  lemma {:induction false} RecoveredEpochExact(b: Recovering, log: seq<Record>, epoch: u64)
    requires b.epoch == 0 && epoch > 0 && ReplayLog(b, log).Replaying?
    ensures ReplayLog(b, log).state.epoch >= epoch <==> BootReaches(log, epoch)
  {
    if log != [] {
      var n := |log| - 1;
      RecoveredEpochExact(b, log[..n], epoch);
      AbsorbEpoch(ReplayLog(b, log[..n]).state, log[n]);
      BootReachesSnoc(log[..n], log[n], epoch);
      assert log[..n] + [log[n]] == log;
    }
  }

  lemma OpenedEpoch(e: State, scan: Scan, log: seq<Record>, outcomes: seq<bool>) returns (st: Recovering)
    requires OpenDurable(e, scan, log, outcomes).OpenedWith?
    ensures ReplayLog(Blank(e.history.capacity, e.attempts.capacity), log) == Replaying(st)
    ensures
      var o := OpenDurable(e, scan, log, outcomes);
      (st.epoch != 0 ==> o.state.epoch == st.epoch + 1) && o.state.sessions == map[] && o.state.nextNonce == 1 && o.state.incarnation == e.incarnation
  {
    st := ReplayLog(Blank(e.history.capacity, e.attempts.capacity), log).state;
  }

  /** The reopened engine is in a later epoch than the given one exactly when a
      boot record of that epoch, or a later one, reached the journal. */
  lemma LaterEpochIff(e: State, scan: Scan, log: seq<Record>, outcomes: seq<bool>, epoch: u64)
    requires OpenDurable(e, scan, log, outcomes).OpenedWith? && epoch > 0 && BootReaches(log, 1)
    ensures OpenDurable(e, scan, log, outcomes).state.epoch > epoch <==> BootReaches(log, epoch)
  {
    var b := Blank(e.history.capacity, e.attempts.capacity);
    var st := OpenedEpoch(e, scan, log, outcomes);
    RecoveredEpochExact(b, log, 1);
    RecoveredEpochExact(b, log, epoch);
  }

  lemma StepEpoch(cfg: Config, s: State, op: Op)
    ensures s.epoch <= After(cfg, s, op).epoch
  {
    if op.OpAdmit? {
      AdmitCarries(cfg, s, op.request, op.claim);
    } else if !op.OpIncarnation? && !op.OpRegister? && !op.OpRetire? {
      StepSteady(cfg, s, op);
    }
  }

  lemma {:induction false} RunEpoch(cfg: Config, s: State, ops: seq<Op>)
    ensures s.epoch <= Run(cfg, s, ops).epoch
  {
    if ops != [] {
      var n := |ops| - 1;
      RunEpoch(cfg, s, ops[..n]);
      StepEpoch(cfg, Run(cfg, s, ops[..n]), ops[n]);
    }
  }

  /** Fencing across a restart: if a boot record of the claim's epoch, or a later
      one, reached the journal, the claim is fenced in every state the reopened
      engine ever reaches. */
  lemma FencedAfterRestart(cfg: Config, e: State, scan: Scan, log: seq<Record>, outcomes: seq<bool>, claim: Claim, ops: seq<Op>)
    requires OpenDurable(e, scan, log, outcomes).OpenedWith? && claim.epoch > 0 && (claim.origin != InProcess || !cfg.acceptInProcess)
    requires BootReaches(log, claim.epoch)
    ensures FenceVerdict(cfg, Run(cfg, OpenDurable(e, scan, log, outcomes).state, ops), claim) == FencedClaimant
  {
    assert BootReaches(log, 1);
    LaterEpochIff(e, scan, log, outcomes, claim.epoch);
    RunEpoch(cfg, OpenDurable(e, scan, log, outcomes).state, ops);
  }

  lemma UnreachedEpochAgain(e: State, scan: Scan, log: seq<Record>, outcomes: seq<bool>, epoch: u64)
    requires OpenDurable(e, scan, log, outcomes).OpenedWith? && epoch > 1 && BootReaches(log, epoch - 1) && !BootReaches(log, epoch)
    ensures
      var s := OpenDurable(e, scan, log, outcomes).state;
      s.epoch == epoch && s.sessions == map[] && s.nextNonce == 1 && s.incarnation == e.incarnation
  {
    var st := OpenedEpoch(e, scan, log, outcomes);
    assert BootReaches(log, 1);
    LaterEpochIff(e, scan, log, outcomes, epoch - 1);
    LaterEpochIff(e, scan, log, outcomes, epoch);
  }

  /** The first session of an incarnation whose boot record was not written. */
  lemma FirstSession(cfg: Config, s: State, incarnation: u64, publisher: u64, boot: u64)
    requires s.journal.attached && NextFails(s.journal) && s.epoch < MAX64
    requires publisher != 0 && boot != 0 && cfg.sessionCapacity > 0
    ensures
      var (st, s1) := NewIncarnation(s, incarnation);
      var (answer, s2) := Register(cfg, s1, publisher, boot);
      st == DurableFailure && s2.journal.log == s.journal.log &&
      answer == Registered(SessionGrant(1, incarnation, s.epoch + 1, publisher, boot))
  {}

  /** Departure: a new incarnation is in force before its boot record is written.
      If that write fails, the engine grants a session in the new epoch, and it is
      then reopened under the same incarnation number, the epoch is used again:
      once the first session has been granted in it again, the claim of the
      session granted before the restart passes. */
  lemma EpochReissued(cfg: Config, s: State, incarnation: u64, publisher: u64, boot: u64,
                      e: State, scan: Scan, outcomes: seq<bool>, origin: Origin)
    requires s.journal.attached && NextFails(s.journal) && 0 < s.epoch < MAX64
    requires BootReaches(s.journal.log, s.epoch) && !BootReaches(s.journal.log, s.epoch + 1)
    requires publisher != 0 && boot != 0 && cfg.sessionCapacity > 0 && (origin != InProcess || !cfg.acceptInProcess)
    requires OpenDurable(e, scan, s.journal.log, outcomes).OpenedWith? && e.incarnation == incarnation
    ensures
      var (st, s1) := NewIncarnation(s, incarnation);
      var (answer, s2) := Register(cfg, s1, publisher, boot);
      st == DurableFailure && answer.Registered? && s2.journal.log == s.journal.log &&
      FenceVerdict(cfg, Register(cfg, OpenDurable(e, scan, s2.journal.log, outcomes).state, publisher, boot).1, ClaimFrom(answer.grant, origin)) == Admit
  {
    FirstSession(cfg, s, incarnation, publisher, boot);
    UnreachedEpochAgain(e, scan, s.journal.log, outcomes, s.epoch + 1);
    RegisteredPasses(cfg, OpenDurable(e, scan, s.journal.log, outcomes).state, SessionGrant(1, incarnation, s.epoch + 1, publisher, boot), origin);
  }

  lemma RegisteredPasses(cfg: Config, s: State, g: SessionGrant, origin: Origin)
    requires s.sessions == map[] && s.nextNonce == 1 && s.epoch == g.epoch && s.epoch != 0 && s.incarnation == g.incarnation && g.session == 1
    requires g.publisher != 0 && g.boot != 0 && cfg.sessionCapacity > 0 && (origin != InProcess || !cfg.acceptInProcess)
    ensures FenceVerdict(cfg, Register(cfg, s, g.publisher, g.boot).1, ClaimFrom(g, origin)) == Admit
  {}
}
