/** Accounting closure over every run of the engine. */
module Closure {
  import opened Base
  import opened Model
  import opened Snapshots
  import opened Ledger
  import opened Evaluate
  import opened Selection
  import opened Checks
  import opened Engine
  import opened Invariants
  import opened Enforcement

  // ------------------------------------------------------------------
  // What an evaluation that grants has established
  // ------------------------------------------------------------------

  ghost predicate SoundGrant(auth: Authorities, l: LedgerState, req: Request, e: Evaluation)
    requires e.Granted?
  {
    Admitting(e.outcome) && auth.capacity.Some? && e.targets != [] &&
    (forall i, j :: 0 <= i < j < |e.targets| ==> e.targets[i] < e.targets[j]) &&
    (forall i :: 0 <= i < |e.targets| ==> Known(auth, e.targets[i]) && e.grant <= Available(auth, l, e.targets[i])) &&
    req.rate.minimum <= e.grant <= req.rate.maximum &&
    (e.path != 0 ==> FindPath(auth, e.path).Some? && e.grant <= PathFree(l, FindPath(auth, e.path).value))
  }

  lemma ChosenPathFound(auth: Authorities, l: LedgerState, req: Request)
    requires SelectPath(auth, l, req).ViaPath?
    ensures FindPath(auth, SelectPath(auth, l, req).fact.path) == Some(SelectPath(auth, l, req).fact)
  {
    var order := TryOrder(auth, req);
    var vs := Judged(auth, l, req, order);
    var u := FirstUsable(vs);
    JudgeUsable(auth, l, req, order[u]);
    var f := SelectPath(auth, l, req).fact;
    assert FindPath(auth, order[u].path) == Some(f);
    assert PathOf(f) == order[u].path;
  }

  /** What the evaluation reads off a granted verdict. */
  ghost predicate GrantShape(auth: Authorities, l: LedgerState, tick: u64, req: Request, path: Option<PathFact>, e: Evaluation)
    requires e.Granted?
  {
    var v := CapacityVerdict(auth, l, tick, req, e.targets, path);
    Admitting(e.outcome) && e.targets != [] && (forall i, j :: 0 <= i < j < |e.targets| ==> e.targets[i] < e.targets[j]) &&
    v.outcome == Admit && e.grant == Min(v.ceiling, req.rate.maximum) && req.rate.minimum <= e.grant &&
    e.path == (if path.Some? then path.value.path else 0)
  }

  lemma GrantShaped(auth: Authorities, l: LedgerState, tick: u64, req: Request, choice: Choice, path: Option<PathFact>, e: Evaluation)
    requires !choice.Refused? && path == (if choice.ViaPath? then Some(choice.fact) else None)
    requires e == EvaluateGrant(auth, l, tick, req, choice) && e.Granted?
    ensures GrantShape(auth, l, tick, req, path, e)
  {}

  lemma ShapeSound(auth: Authorities, l: LedgerState, tick: u64, req: Request, path: Option<PathFact>, e: Evaluation)
    requires e.Granted? && GrantShape(auth, l, tick, req, path, e) && auth.capacity.Some?
    requires path.Some? ==> FindPath(auth, path.value.path) == Some(path.value)
    ensures SoundGrant(auth, l, req, e)
  {
    CapacityVerdictExact(auth, l, tick, req, e.targets, path);
    forall i | 0 <= i < |e.targets| ensures Known(auth, e.targets[i]) && e.grant <= Available(auth, l, e.targets[i]) {
      assert Serves(auth, l, req, e.targets[i]);
    }
  }

  lemma GrantSound(auth: Authorities, l: LedgerState, tick: u64, req: Request, choice: Choice)
    requires !choice.Refused? && auth.capacity.Some?
    requires choice.ViaPath? ==> FindPath(auth, choice.fact.path) == Some(choice.fact)
    ensures
      var e := EvaluateGrant(auth, l, tick, req, choice);
      e.Granted? ==> SoundGrant(auth, l, req, e)
  {
    var e := EvaluateGrant(auth, l, tick, req, choice);
    if e.Granted? {
      var path := if choice.ViaPath? then Some(choice.fact) else None;
      GrantShaped(auth, l, tick, req, choice, path, e);
      ShapeSound(auth, l, tick, req, path, e);
    }
  }

  lemma EvaluationSound(auth: Authorities, l: LedgerState, tick: u64, pendingReconciliation: bool, req: Request)
    ensures
      var e := EvaluateRequest(auth, l, tick, pendingReconciliation, req);
      e.Granted? ==> SoundGrant(auth, l, req, e)
  {
    var choice := SelectPath(auth, l, req);
    if ReadinessVerdict(auth, pendingReconciliation) == Admit && !choice.Refused? {
      if choice.ViaPath? {
        ChosenPathFound(auth, l, req);
      }
      GrantSound(auth, l, tick, req, choice);
    }
  }

  lemma {:induction false} AmountsAtSum(targets: seq<u64>, grant: u64, r: u64)
    requires forall i, j :: 0 <= i < j < |targets| ==> targets[i] < targets[j]
    ensures AmountOn(AmountsAt(targets, grant), r) == if r in targets then grant else 0
  {
    if targets != [] {
      var n := |targets| - 1;
      AmountsAtSum(targets[..n], grant, r);
      assert AmountsAt(targets, grant)[..n] == AmountsAt(targets[..n], grant);
      assert targets == targets[..n] + [targets[n]];
      assert targets[n] !in targets[..n];
    }
  }

  // ------------------------------------------------------------------
  // Admission
  // ------------------------------------------------------------------

  /** An admission never lifts a resource above the larger of its old load and
      its allowance, whatever state the accounts were in. */
  ghost predicate NeverLifts(auth: Authorities, l: LedgerState, l': LedgerState) {
    forall r: u64 :: Admitted(l', r) <= Max(Admitted(l, r), Allowance(auth, r))
  }

  lemma GrantNeverLifts(auth: Authorities, l: LedgerState, l': LedgerState, req: Request, e: Evaluation, d: Decision, taken: bool)
    requires e.Granted? && SoundGrant(auth, l, req, e)
    requires LedgerGrows(l, l', d, AmountsAt(e.targets, e.grant), taken)
    ensures NeverLifts(auth, l, l')
  {
    forall r: u64 ensures Admitted(l', r) <= Max(Admitted(l, r), Allowance(auth, r)) {
      AmountsAtSum(e.targets, e.grant, r);
      if r in e.targets {
        var i :| 0 <= i < |e.targets| && e.targets[i] == r;
        assert e.grant <= Available(auth, l, e.targets[i]);
      }
    }
  }

  lemma LoadHasHolder(l: LedgerState, r: u64) returns (d: nat, i: nat)
    requires Conserved(l) && Admitted(l, r) > 0
    ensures d in l.byDecision && i < |l.byDecision[d]| && l.byDecision[d][i].resource == r
  {
    assert Admitted(l, r) == LoadOn(l.byDecision, r);
    if forall e :: e in l.byDecision ==> SumOn(l.byDecision[e], r) == 0 {
      SumKeepsHolders(l.byDecision, {}, OnResource(r));
    }
    d :| d in l.byDecision && SumOn(l.byDecision[d], r) != 0;
    i := HolderOf(l.byDecision[d], r);
  }

  lemma ClosedLoad(s: State, r: u64)
    requires Consistent(s) && Closed(s) && s.auth.capacity.Some?
    ensures Admitted(s.ledger, r) <= Allowance(s.auth, r)
    ensures Admitted(s.ledger, r) > 0 ==> Known(s.auth, r)
  {
    if Admitted(s.ledger, r) > 0 {
      var d, i := LoadHasHolder(s.ledger, r);
      assert EntryFits(s.auth, s.ledger, s.ledger.byDecision[d][i]);
    }
  }

  lemma GrantClosed(s: State, s': State, req: Request, e: Evaluation, d: Decision, taken: bool)
    requires Consistent(s) && Closed(s) && e.Granted? && SoundGrant(s.auth, s.ledger, req, e) && s'.auth == s.auth
    requires LedgerGrows(s.ledger, s'.ledger, d, AmountsAt(e.targets, e.grant), taken)
    ensures Closed(s')
  {
    GrantNeverLifts(s.auth, s.ledger, s'.ledger, req, e, d, taken);
    forall r: u64 ensures Admitted(s'.ledger, r) <= Allowance(s.auth, r) {
      ClosedLoad(s, r);
      assert Admitted(s'.ledger, r) <= Max(Admitted(s.ledger, r), Allowance(s.auth, r));
    }
    forall x, i | x in s'.ledger.byDecision && 0 <= i < |s'.ledger.byDecision[x]|
      ensures EntryFits(s'.auth, s'.ledger, s'.ledger.byDecision[x][i])
    {
      var entry := s'.ledger.byDecision[x][i];
      if x == d.decision && taken {
        assert entry.resource == e.targets[i];
      } else {
        assert EntryFits(s.auth, s.ledger, s.ledger.byDecision[x][i]);
      }
    }
  }

  ghost function GrantedDecision(cfg: Config, s: State, req: Request, e: Evaluation): Decision
    requires e.Granted?
  {
    BeginDecision(cfg, s, req, e.outcome).0.(
      path := e.path, pathGeneration := e.pathGeneration, granted := e.grant,
      boundCapacity := GenerationOf(s.auth).capacityGeneration)
  }

  /** What an admission attempt keeps. */
  ghost predicate AdmissionSafe(s: State, s': State) {
    Consistent(s') && s'.auth == s.auth && NeverLifts(s.auth, s.ledger, s'.ledger) && (Closed(s) ==> Closed(s'))
  }

  lemma RefuseSafe(cfg: Config, s: State, req: Request, outcome: Outcome, recordAttempt: bool)
    requires Consistent(s)
    ensures AdmissionSafe(s, Refuse(cfg, s, req, outcome, recordAttempt).1)
  {
    RefuseKeeps(cfg, s, req, outcome, recordAttempt);
  }

  lemma AdmitNewSafe(cfg: Config, s: State, req: Request)
    requires Consistent(s)
    ensures AdmissionSafe(s, AdmitNew(cfg, s, req).1)
  {
    var e := EvaluateRequest(s.auth, s.ledger, s.tick, s.pendingReconciliation, req);
    EvaluationSound(s.auth, s.ledger, s.tick, s.pendingReconciliation, req);
    var s' := AdmitNew(cfg, s, req).1;
    if e.Refusal? {
      RefuseSafe(cfg, s, req, e.outcome, true);
    } else {
      var d := GrantedDecision(cfg, s, req, e);
      var s1 := BeginDecision(cfg, s, req, e.outcome).1;
      var amounts := AmountsAt(e.targets, e.grant);
      assert Opened(s1, d);
      AdmissionKeeps(cfg, s1, d, amounts);
      var taken :| LedgerGrows(s.ledger, s'.ledger, d, amounts, taken);
      GrantNeverLifts(s.auth, s.ledger, s'.ledger, req, e, d, taken);
      if Closed(s) {
        GrantClosed(s, s', req, e, d, taken);
      }
    }
  }

  lemma SameSafe(s: State)
    requires Consistent(s)
    ensures AdmissionSafe(s, s)
  {}

  /** Every admission attempt, admitted, refused, replayed or failed half way,
      keeps the engine consistent and closed accounts closed, and never lifts a
      resource above the larger of its old load and its allowance. */
  lemma AdmitSafe(cfg: Config, s: State, req: Request, claim: Claim)
    requires Consistent(s)
    ensures AdmissionSafe(s, AdmitRequest(cfg, s, req, claim).1)
  {
    match PlanFor(cfg, s, req, claim)
    case RefuseWith(outcome, recordAttempt) => RefuseSafe(cfg, s, req, outcome, recordAttempt);
    case ReplayOf(d) => SameSafe(s);
    case Evaluate => AdmitNewSafe(cfg, s, req);
  }

  // ------------------------------------------------------------------
  // The other operations
  // ------------------------------------------------------------------

  /** Consistent, with the same authorities and no new load. */
  ghost predicate Harmless(s: State, s': State) {
    Consistent(s') && s'.auth == s.auth && LedgerShrinks(s.ledger, s'.ledger)
  }

  lemma HarmlessClosed(s: State, s': State)
    requires Harmless(s, s') && Closed(s)
    ensures Closed(s')
  {
    if s.auth.capacity.Some? {
      forall d | d in s'.ledger.byDecision ensures Fits(s'.auth, s'.ledger, d) {
        StillFits(s.auth, s.ledger, s'.ledger, d);
      }
    }
  }

  lemma EvictHarmless(s: State, d: nat, reason: RevocationReason)
    requires Consistent(s)
    ensures Harmless(s, Evict(s, d, reason).1)
  {
    ReleaseKeeps(s, d, reason, Revoked);
  }

  lemma StayHarmless(s: State, s': State)
    requires Consistent(s) && s'.auth == s.auth && s'.ledger == s.ledger && s'.history == s.history
    requires s'.audit == s.audit && s'.nextDecision == s.nextDecision
    ensures Harmless(s, s')
  {}

  lemma MarkHarmless(s: State, j: JournalState, d: nat, state: RevalidationState, reason: RevocationReason, live: bool)
    requires Consistent(s) && (d in s.ledger.byDecision ==> !Released(state))
    ensures Harmless(s, s.(journal := j, history := Marked(s.history, d, state, reason, live)))
  {
    MarkConsistent(s, d, state, reason, live);
  }

  lemma OutdateHarmless(s: State, d: nat)
    requires Consistent(s) && d in s.history.records
    ensures Harmless(s, Outdate(s, d).1)
  {
    var (journaled, s1) := Write(s, Model.Revocation(RevocationRecord(d, s.epoch, s.audit, GenerationAdvance, Invalidated)));
    StayHarmless(s, s1);
    MarkHarmless(s, s1.journal, d, Invalidated, GenerationAdvance, s.history.records[d].ledgerLive);
  }

  lemma RevalidateHarmless(s: State, d: nat)
    requires Consistent(s)
    ensures Harmless(s, Revalidate(s, d).1)
  {
    match Examine(s, d)
    case NoLongerHeld => MarkHarmless(s, s.journal, d, Revoked, ClaimantDeath, false);
    case MustRelease(reason) => EvictHarmless(s, d, reason);
    case Outdated => OutdateHarmless(s, d);
    case _ => StayHarmless(s, s);
  }

  lemma RevokeHarmless(s: State, d: nat, reason: RevocationReason)
    requires Consistent(s)
    ensures Harmless(s, Revoke(s, d, reason).1)
  {
    StayHarmless(s, s);
    EvictHarmless(s, d, reason);
  }

  /** Allowances depend only on capacity, reservations and policy. */
  lemma FitsByAuthority(auth: Authorities, auth': Authorities, l: LedgerState, d: nat)
    requires auth'.capacity == auth.capacity && auth'.reservations == auth.reservations && auth'.policy == auth.policy
    requires d in l.byDecision
    ensures Fits(auth', l, d) <==> Fits(auth, l, d)
  {
    forall i | 0 <= i < |l.byDecision[d]|
      ensures EntryFits(auth', l, l.byDecision[d][i]) <==> EntryFits(auth, l, l.byDecision[d][i])
    {
      assert FindCapacity(auth', l.byDecision[d][i].resource) == FindCapacity(auth, l.byDecision[d][i].resource);
    }
  }

  lemma ReauthorizedConsistent(s: State, s': State)
    requires Consistent(s) && ValidAuthorities(s'.auth) && s'.ledger == s.ledger && s'.history == s.history
    requires s'.audit == s.audit && s'.nextDecision == s.nextDecision
    ensures Consistent(s')
  {}

  lemma CatalogsClosed(s: State, s': State)
    requires s'.auth.capacity == s.auth.capacity && s'.auth.reservations == s.auth.reservations && s'.auth.policy == s.auth.policy
    requires s'.ledger == s.ledger && Closed(s)
    ensures Closed(s')
  {
    forall d | d in s.ledger.byDecision ensures Fits(s'.auth, s'.ledger, d) <==> Fits(s.auth, s.ledger, d) {
      FitsByAuthority(s.auth, s'.auth, s.ledger, d);
    }
  }

  /** Enforcement after an authority has been replaced. */
  lemma PublicationEnforces(s: State, reason: RevocationReason)
    requires Consistent(s)
    ensures
      var (st, s') := Enforce(s, reason);
      Consistent(s') && s'.auth == s.auth && (st == Ok ==> Closed(s'))
  {
    if s.auth.capacity.Some? {
      EnforceExact(s, reason);
    }
  }

  // ------------------------------------------------------------------
  // Publications
  // ------------------------------------------------------------------

  /** A publication that takes effect and returns Ok closes the accounts; one
      that does not take effect leaves them as they were. */
  ghost predicate PublicationSafe(s: State, st: Status, s': State) {
    Consistent(s') && (if s'.auth == s.auth then Closed(s) ==> Closed(s') else st == Ok ==> Closed(s'))
  }

  lemma DeclinedSafe(s: State, st: Status, s': State)
    requires Consistent(s) && s' == s.(journal := s'.journal)
    ensures PublicationSafe(s, st, s')
  {}

  lemma EnforcedSafe(s: State, s1: State, reason: RevocationReason)
    requires Consistent(s1) && s1.auth != s.auth
    ensures
      var (st, s') := Enforce(s1, reason);
      PublicationSafe(s, st, s')
  {
    PublicationEnforces(s1, reason);
  }

  lemma PolicySafe(s: State, p: Policy)
    requires Consistent(s)
    ensures PublicationSafe(s, PublishPolicy(s, p).0, PublishPolicy(s, p).1)
  {
    var (st, s') := PublishPolicy(s, p);
    var (written, s1) := Write(s, PolicyConfig(p));
    if ValidPolicy(p) && s.epoch != 0 && p.epoch == s.epoch && PolicyFreshness(s.auth, p).Advances? && written {
      var s2 := s1.(auth := s1.auth.(policy := Some(p)), tick := Later(s1.tick, p.observedTick));
      ReauthorizedConsistent(s, s2);
      EnforcedSafe(s, s2, PolicyChange);
    } else {
      DeclinedSafe(s, st, s');
    }
  }

  lemma CapacitySafe(s: State, c: CapacitySnapshot)
    requires Consistent(s)
    ensures PublicationSafe(s, PublishCapacity(s, c).0, PublishCapacity(s, c).1)
  {
    var (st, s') := PublishCapacity(s, c);
    if ValidCapacity(c) && s.epoch != 0 && c.epoch == s.epoch && CapacityFreshness(s.auth, c).Advances? {
      var s2 := s.(auth := s.auth.(capacity := Some(c)), tick := Later(s.tick, c.observedTick));
      ReauthorizedConsistent(s, s2);
      EnforcedSafe(s, s2, CapacityReduction);
    } else {
      DeclinedSafe(s, st, s');
    }
  }

  lemma ReservationsSafe(s: State, r: ReservationSnapshot)
    requires Consistent(s)
    ensures PublicationSafe(s, PublishReservations(s, r).0, PublishReservations(s, r).1)
  {
    var (st, s') := PublishReservations(s, r);
    if ValidReservations(r) && s.epoch != 0 && ReservationFreshness(s.auth, r).Advances? {
      var s2 := s.(auth := s.auth.(reservations := Some(r)), tick := Later(s.tick, r.observedTick));
      ReauthorizedConsistent(s, s2);
      EnforcedSafe(s, s2, ObligationChange);
    } else {
      DeclinedSafe(s, st, s');
    }
  }

  // ------------------------------------------------------------------
  // Steps and runs
  // ------------------------------------------------------------------

  /** The operations that change what a resource may carry. */
  predicate Enforcing(op: Op) {
    op.OpPolicy? || op.OpCapacity? || op.OpReservations?
  }

  /** Keeps closed accounts closed. */
  ghost predicate Safe(s: State, s': State) {
    Consistent(s') && (Closed(s) ==> Closed(s'))
  }

  lemma CatalogSafe(s: State, s': State)
    requires Consistent(s) && ValidAuthorities(s'.auth) && s'.ledger == s.ledger && s'.history == s.history
    requires s'.audit == s.audit && s'.nextDecision == s.nextDecision
    requires s'.auth.capacity == s.auth.capacity && s'.auth.reservations == s.auth.reservations && s'.auth.policy == s.auth.policy
    ensures Safe(s, s')
  {
    ReauthorizedConsistent(s, s');
    if Closed(s) {
      CatalogsClosed(s, s');
    }
  }

  lemma HarmlessSafe(s: State, s': State)
    requires Harmless(s, s')
    ensures Safe(s, s')
  {
    if Closed(s) {
      HarmlessClosed(s, s');
    }
  }

  lemma StaySafe(s: State, s': State)
    requires Consistent(s) && s'.auth == s.auth && s'.ledger == s.ledger && s'.history == s.history
    requires s'.audit == s.audit && s'.nextDecision == s.nextDecision
    ensures Safe(s, s')
  {
    StayHarmless(s, s');
    HarmlessSafe(s, s');
  }

  lemma ForgottenSafe(s: State)
    requires Consistent(s)
    ensures Safe(s, s.(auth := s.auth.(capacity := None)))
  {
    ReauthorizedConsistent(s, s.(auth := s.auth.(capacity := None)));
  }

  lemma PathsStepSafe(s: State, c: PathCatalog)
    requires Consistent(s)
    ensures Safe(s, PublishPaths(s, c).1)
  {
    CatalogSafe(s, PublishPaths(s, c).1);
  }

  lemma ClassesStepSafe(cfg: Config, s: State, op: Op)
    requires Consistent(s) && (op.OpQos? || op.OpPriorities? || op.OpInvalidatePaths?)
    ensures Safe(s, After(cfg, s, op))
  {
    CatalogSafe(s, After(cfg, s, op));
  }

  lemma CatalogStepSafe(cfg: Config, s: State, op: Op)
    requires Consistent(s) && (op.OpPaths? || op.OpQos? || op.OpPriorities? || op.OpInvalidatePaths? || op.OpInvalidateCapacity?)
    ensures Safe(s, After(cfg, s, op))
  {
    if op.OpInvalidateCapacity? {
      ForgottenSafe(s);
    } else if op.OpPaths? {
      PathsStepSafe(s, op.paths);
    } else {
      ClassesStepSafe(cfg, s, op);
    }
  }

  lemma RevalidateStepSafe(cfg: Config, s: State, d: nat)
    requires Consistent(s)
    ensures Safe(s, After(cfg, s, OpRevalidate(d)))
  {
    var s' := Revalidate(s, d).1;
    RevalidateHarmless(s, d);
    HarmlessSafe(s, s');
  }

  lemma RevokeStepSafe(cfg: Config, s: State, d: nat, reason: RevocationReason)
    requires Consistent(s)
    ensures Safe(s, After(cfg, s, OpRevoke(d, reason)))
  {
    var s' := Revoke(s, d, reason).1;
    RevokeHarmless(s, d, reason);
    HarmlessSafe(s, s');
  }

  lemma AdmissionIsSafe(s: State, s': State)
    requires AdmissionSafe(s, s')
    ensures Safe(s, s')
  {}

  lemma AdmitAfter(cfg: Config, s: State, req: Request, claim: Claim)
    ensures After(cfg, s, OpAdmit(req, claim)) == AdmitRequest(cfg, s, req, claim).1
  {}

  lemma AdmitStepSafe(cfg: Config, s: State, op: Op)
    requires Consistent(s) && op.OpAdmit?
    ensures Safe(s, After(cfg, s, op))
  {
    AdmitSafe(cfg, s, op.request, op.claim);
    AdmitAfter(cfg, s, op.request, op.claim);
    AdmissionIsSafe(s, After(cfg, s, op));
  }

  lemma HousekeepingSafe(cfg: Config, s: State, op: Op)
    requires Consistent(s) && (op.OpIncarnation? || op.OpRegister? || op.OpRetire? || op.OpTick? || op.OpCompact?)
    ensures Safe(s, After(cfg, s, op))
  {
    HousekeepingFrame(cfg, s, op);
    StaySafe(s, After(cfg, s, op));
  }

  lemma HousekeepingFrame(cfg: Config, s: State, op: Op)
    requires op.OpIncarnation? || op.OpRegister? || op.OpRetire? || op.OpTick? || op.OpCompact?
    ensures
      var s' := After(cfg, s, op);
      s'.auth == s.auth && s'.ledger == s.ledger && s'.history == s.history && s'.audit == s.audit && s'.nextDecision == s.nextDecision
  {}

  /** Every operation other than an enforcing publication keeps the engine
      consistent and closed accounts closed, whatever the journal does. */
  lemma StepSafe(cfg: Config, s: State, op: Op)
    requires Consistent(s) && !Enforcing(op)
    ensures Safe(s, After(cfg, s, op))
  {
    if op.OpAdmit? {
      AdmitStepSafe(cfg, s, op);
    } else if op.OpRevalidate? {
      RevalidateStepSafe(cfg, s, op.decision);
    } else if op.OpRevoke? {
      RevokeStepSafe(cfg, s, op.revoked, op.reason);
    } else if op.OpIncarnation? || op.OpRegister? || op.OpRetire? || op.OpTick? || op.OpCompact? {
      HousekeepingSafe(cfg, s, op);
    } else {
      CatalogStepSafe(cfg, s, op);
    }
  }

  lemma PublicationStep(cfg: Config, s: State, op: Op)
    requires Consistent(s) && Enforcing(op)
    ensures Step(cfg, s, op).0.Answer? && PublicationSafe(s, Step(cfg, s, op).0.status, After(cfg, s, op))
  {
    match op
    case OpPolicy(p) => PolicySafe(s, p);
    case OpCapacity(c) => CapacitySafe(s, c);
    case OpReservations(r) => ReservationsSafe(s, r);
  }

  /** The last publication that changed an enforced authority returned Ok. */
  ghost predicate Accounted(cfg: Config, s: State, ops: seq<Op>) {
    if ops == [] then true
    else
      var n := |ops| - 1;
      var before := Run(cfg, s, ops[..n]);
      if Enforcing(ops[n]) && After(cfg, before, ops[n]).auth != before.auth
      then Step(cfg, before, ops[n]).0 == Answer(Ok)
      else Accounted(cfg, s, ops[..n])
  }

  lemma {:induction false} RunConsistent(cfg: Config, s: State, ops: seq<Op>)
    requires Consistent(s)
    ensures Consistent(Run(cfg, s, ops))
  {
    if ops != [] {
      var n := |ops| - 1;
      RunConsistent(cfg, s, ops[..n]);
      var before := Run(cfg, s, ops[..n]);
      if Enforcing(ops[n]) {
        PublicationStep(cfg, before, ops[n]);
      } else {
        StepSafe(cfg, before, ops[n]);
      }
    }
  }

  /** Accounting closure over every run: after any sequence of operations, with
      any pattern of journal failures, if the last publication that changed an
      enforced authority returned Ok then the accounts are closed. */
  lemma {:induction false} ClosureOverRuns(cfg: Config, s: State, ops: seq<Op>)
    requires Consistent(s) && Closed(s)
    requires Accounted(cfg, s, ops)
    ensures Closed(Run(cfg, s, ops))
  {
    if ops != [] {
      var n := |ops| - 1;
      var before := Run(cfg, s, ops[..n]);
      RunConsistent(cfg, s, ops[..n]);
      if Enforcing(ops[n]) {
        PublicationStep(cfg, before, ops[n]);
        if After(cfg, before, ops[n]).auth == before.auth {
          ClosureOverRuns(cfg, s, ops[..n]);
        }
      } else {
        StepSafe(cfg, before, ops[n]);
        ClosureOverRuns(cfg, s, ops[..n]);
      }
    }
  }

  /** What closed accounts say about a resource that carries load: its capacity
      is known and the plain sum of load, obligations and headroom fits in it;
      where obligations and headroom alone do not fit, nothing is admitted. */
  lemma ClosedMeansItFits(s: State, r: u64)
    requires Consistent(s) && Closed(s) && s.auth.capacity.Some? && Admitted(s.ledger, r) > 0
    ensures
      Known(s.auth, r) &&
      var c := FindCapacity(s.auth, r).value;
      Admitted(s.ledger, r) + ObligationsFor(s.auth, r) + HeadroomFor(s.auth.policy, c) <= c.usable
  {
    ClosedLoad(s, r);
    WithinAllowance(s.auth, r, Admitted(s.ledger, r));
  }
}
