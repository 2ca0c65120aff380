/** Crash atomicity of every operation, and durability over every run. */
module Crash {
  import opened Base
  import opened Model
  import opened Snapshots
  import opened Ledger
  import opened History
  import opened Evaluate
  import opened Engine
  import opened Invariants
  import opened Enforcement
  import opened Closure
  import opened CleanRuns
  import opened Recovery
  import opened Meaning
  import opened Compaction
  import opened Durability

  // ------------------------------------------------------------------
  // Release
  // ------------------------------------------------------------------

  lemma ReleaseMeans(b: Recovering, log: seq<Record>, l: ReleaseRecord, k: Counters, m: Meaning)
    requires Means(b, log, k, m) && l.decision in m.held && |l.released| <= MAX_RESOURCE_BINDINGS
    ensures Means(b, log + [LedgerRelease(l)], k, m.(held := m.held - {l.decision}))
  {
    SaysRelease(ReplayLog(b, log).state, l, k, m);
    ReplaySnoc(b, log, LedgerRelease(l));
  }

  lemma RevocationMeans(b: Recovering, log: seq<Record>, v: RevocationRecord, k: Counters, m: Meaning)
    requires Means(b, log, k, m) && (v.decision in m.held <==> !Released(v.state)) && v.audit <= k.audit
    ensures Means(b, log + [Model.Revocation(v)], k, m)
  {
    SaysRevocation(ReplayLog(b, log).state, v, k, m);
    ReplaySnoc(b, log, Model.Revocation(v));
  }

  /** The release record decides: with it the load is gone, without it the load
      is held. */
  lemma RemovalLands(b: Recovering, s: State, d: nat, reason: RevocationReason)
    requires Durable(b, s) && Orderly(s) && Holds(s.ledger, d)
    ensures
      var (written, s1) := Write(s, LedgerRelease(ReleaseRecord(d, s.epoch, reason, s.ledger.byDecision[d])));
      var (removed, l) := ReleasedLoad(s1.ledger, d);
      removed == Ok && l.byDecision == s.ledger.byDecision - {d} && Landed(b, s, if written then s1.(ledger := l) else s1)
  {
    var r := ReleaseRecord(d, s.epoch, reason, s.ledger.byDecision[d]);
    var (written, s1) := Write(s, LedgerRelease(r));
    var l := ReleasedLoad(s.ledger, d).1;
    ReleasePositive(s.ledger, d);
    ReleaseConserves(s.ledger, d);
    if s.journal.attached {
      HeldFromMeans(b, s);
      ReleaseMeans(b, s.journal.log, r, Next(s), MeaningOf(s));
    }
    WriteLands(b, s, LedgerRelease(r), if written then s1.(ledger := l) else s1);
  }

  lemma RevokedLands(b: Recovering, s: State, v: RevocationRecord, s': State)
    requires Durable(b, s) && v.decision !in s.ledger.byDecision && Released(v.state) && v.audit <= s.audit
    requires s'.journal == Appended(s.journal, Model.Revocation(v)).1 && MeaningOf(s') == MeaningOf(s) && Next(s') == Next(s)
    ensures Landed(b, s, s')
  {
    if s.journal.attached {
      RevocationMeans(b, s.journal.log, v, Next(s), MeaningOf(s));
    }
    WriteLands(b, s, Model.Revocation(v), s');
  }

  lemma ReleaseFrame(s: State, d: nat, reason: RevocationReason, state: RevalidationState)
    requires Holds(s.ledger, d) && ReleasedLoad(s.ledger, d).0 == Ok
    requires Write(s, LedgerRelease(ReleaseRecord(d, s.epoch, reason, s.ledger.byDecision[d]))).0
    ensures
      var s1 := Write(s, LedgerRelease(ReleaseRecord(d, s.epoch, reason, s.ledger.byDecision[d]))).1;
      var s' := ReleaseDecision(s, d, reason, state).1;
      s'.ledger == ReleasedLoad(s.ledger, d).1 && s'.auth == s.auth && Next(s') == Next(s) &&
      s'.journal == Appended(s1.journal, Model.Revocation(RevocationRecord(d, s.epoch, s.audit, reason, state))).1
  {}

  lemma ReleaseLands(b: Recovering, s: State, d: nat, reason: RevocationReason, state: RevalidationState)
    requires Durable(b, s) && Orderly(s) && Released(state)
    ensures Landed(b, s, ReleaseDecision(s, d, reason, state).1)
  {
    var s' := ReleaseDecision(s, d, reason, state).1;
    if Holds(s.ledger, d) {
      RemovalLands(b, s, d, reason);
      var (written, s1) := Write(s, LedgerRelease(ReleaseRecord(d, s.epoch, reason, s.ledger.byDecision[d])));
      if written {
        var s2 := s1.(ledger := ReleasedLoad(s1.ledger, d).1);
        ReleaseFrame(s, d, reason, state);
        RevokedLands(b, s2, RevocationRecord(d, s.epoch, s.audit, reason, state), s');
        LandedTwice(b, s, s2, s');
      }
    } else {
      QuietLands(b, s, s);
    }
  }

  lemma EvictLands(b: Recovering, s: State, d: nat, reason: RevocationReason)
    requires Durable(b, s) && Orderly(s)
    ensures Landed(b, s, Evict(s, d, reason).1)
  {
    ReleaseLands(b, s, d, reason, Revoked);
  }

  lemma OutdateLands(b: Recovering, s: State, d: nat)
    requires Durable(b, s) && d in s.history.records && Holds(s.ledger, d)
    ensures Landed(b, s, Outdate(s, d).1)
  {
    var v := RevocationRecord(d, s.epoch, s.audit, GenerationAdvance, Invalidated);
    if s.journal.attached {
      RevocationMeans(b, s.journal.log, v, Next(s), MeaningOf(s));
    }
    WriteLands(b, s, Model.Revocation(v), Outdate(s, d).1);
  }

  lemma ExamineHeld(s: State, d: nat)
    requires Examine(s, d).Outdated?
    ensures d in s.history.records && Holds(s.ledger, d)
  {}

  lemma RevalidateLands(b: Recovering, s: State, d: nat)
    requires Durable(b, s) && Orderly(s)
    ensures Landed(b, s, Revalidate(s, d).1)
  {
    match Examine(s, d)
    case MustRelease(reason) => EvictLands(b, s, d, reason);
    case Outdated => ExamineHeld(s, d); OutdateLands(b, s, d);
    case NoLongerHeld => QuietLands(b, s, Revalidate(s, d).1);
    case _ => QuietLands(b, s, s);
  }

  lemma RevokeLands(b: Recovering, s: State, d: nat, reason: RevocationReason)
    requires Durable(b, s) && Orderly(s)
    ensures Landed(b, s, Revoke(s, d, reason).1)
  {
    QuietLands(b, s, s);
    EvictLands(b, s, d, reason);
  }

  // ------------------------------------------------------------------
  // Admission
  // ------------------------------------------------------------------

  /** The grant's intent can be read back: at most 1024 resources. */
  predicate Recordable(s: State, op: Op) {
    op.OpAdmit? ==>
      var e := EvaluateRequest(s.auth, s.ledger, s.tick, s.pendingReconciliation, op.request);
      e.Granted? ==> |e.targets| <= MAX_RESOURCE_BINDINGS
  }

  lemma AdmitNewLands(b: Recovering, cfg: Config, s: State, req: Request)
    requires Durable(b, s) && Consistent(s)
    requires
      var e := EvaluateRequest(s.auth, s.ledger, s.tick, s.pendingReconciliation, req);
      e.Granted? ==> |e.targets| <= MAX_RESOURCE_BINDINGS
    ensures Landed(b, s, AdmitNew(cfg, s, req).1)
  {
    var e := EvaluateRequest(s.auth, s.ledger, s.tick, s.pendingReconciliation, req);
    EvaluationSound(s.auth, s.ledger, s.tick, s.pendingReconciliation, req);
    if e.Refusal? {
      RefuseLands(b, cfg, s, req, e.outcome, true);
    } else {
      var s1 := BeginDecision(cfg, s, req, e.outcome).1;
      AdmissionLands(b, cfg, s, s1, GrantedDecision(cfg, s, req, e), AmountsAt(e.targets, e.grant));
    }
  }

  lemma AdmitLands(b: Recovering, cfg: Config, s: State, req: Request, claim: Claim)
    requires Durable(b, s) && Consistent(s) && Recordable(s, OpAdmit(req, claim))
    ensures Landed(b, s, AdmitRequest(cfg, s, req, claim).1)
  {
    match PlanFor(cfg, s, req, claim)
    case RefuseWith(outcome, recordAttempt) => RefuseLands(b, cfg, s, req, outcome, recordAttempt);
    case ReplayOf(d) => QuietLands(b, s, s);
    case Evaluate => AdmitNewLands(b, cfg, s, req);
  }

  // ------------------------------------------------------------------
  // Enforcement
  // ------------------------------------------------------------------

  /** Part way through a pass: settled at and above t, untouched below. */
  ghost function PartMeaning(s0: State, t: nat): Meaning
    requires Consistent(s0)
  {
    var kept := set d | d in s0.ledger.byDecision && (AuditOf(s0, d) < t || Survives(s0, d));
    Meaning(Only(s0.ledger.byDecision, kept), s0.auth.policy)
  }

  lemma SettledMeans(s0: State, s: State, t: nat)
    requires Consistent(s0) && Settled(s0, s, t)
    ensures MeaningOf(s) == PartMeaning(s0, t)
  {
    var m := PartMeaning(s0, t).held;
    forall d ensures d in m <==> d in s.ledger.byDecision {}
    assert m == s.ledger.byDecision;
  }

  ghost predicate MeansPart(b: Recovering, s0: State, log: seq<Record>, k: Counters)
    requires Consistent(s0)
  {
    exists t: nat :: Means(b, log, k, PartMeaning(s0, t))
  }

  /** Every content the journal passes through during the pass means the pass
      carried out down to some audit number. */
  ghost predicate PassSurvivable(b: Recovering, s0: State, j: JournalState, j': JournalState, k: Counters)
    requires Consistent(s0)
  {
    j.attached == j'.attached && j.images <= j'.images &&
    forall i :: |j.images| <= i < |j'.images| ==> MeansPart(b, s0, j'.images[i], k)
  }

  lemma PassTransitive(b: Recovering, s0: State, j: JournalState, j1: JournalState, j2: JournalState, k: Counters)
    requires Consistent(s0) && PassSurvivable(b, s0, j, j1, k) && PassSurvivable(b, s0, j1, j2, k)
    ensures PassSurvivable(b, s0, j, j2, k)
  {
    forall i | |j.images| <= i < |j2.images| ensures MeansPart(b, s0, j2.images[i], k) {
      if i < |j1.images| {
        assert j2.images[i] == j1.images[i];
      }
    }
  }

  lemma LandedPass(b: Recovering, s0: State, j: JournalState, j': JournalState, k: Counters, m: Meaning, m': Meaning, t: nat, u: nat)
    requires Consistent(s0) && Survivable(b, j, j', k, m, m') && m == PartMeaning(s0, t) && m' == PartMeaning(s0, u)
    ensures PassSurvivable(b, s0, j, j', k)
  {
    forall i | |j.images| <= i < |j'.images| ensures MeansPart(b, s0, j'.images[i], k) {}
  }

  /** What the pass keeps while it runs. */
  ghost predicate Passing(b: Recovering, s0: State, s: State, t: nat) {
    Consistent(s0) && Durable(b, s) && Orderly(s) && Settled(s0, s, t) && Next(s) == Next(s0)
  }

  /** The pass has come from s to s', settling what lies at or above u. */
  ghost predicate Passed(b: Recovering, s0: State, s: State, s': State, u: nat) {
    Passing(b, s0, s', u) && PassSurvivable(b, s0, s.journal, s'.journal, Next(s0))
  }

  lemma PassedTwice(b: Recovering, s0: State, s: State, s1: State, s2: State, t: nat, u: nat)
    requires Passed(b, s0, s, s1, t) && Passed(b, s0, s1, s2, u)
    ensures Passed(b, s0, s, s2, u)
  {
    PassTransitive(b, s0, s.journal, s1.journal, s2.journal, Next(s0));
  }

  lemma EnforceOneLands(b: Recovering, s0: State, s: State, reason: RevocationReason, ordered: seq<DecisionRecord>, n: nat, t: nat)
    returns (u: nat)
    requires Passing(b, s0, s, t) && Orders(s0, ordered) && n > 0 && SplitAt(ordered, n, t)
    ensures
      var (st, s1, k) := EnforceOne(s, reason, ordered[n - 1]);
      Passed(b, s0, s, s1, u) && (st == Ok ==> u == ordered[n - 1].audit)
  {
    var (st, s1, k) := EnforceOne(s, reason, ordered[n - 1]);
    u := EnforceOneSettles(s0, s, reason, ordered, n, t);
    EnforceOneOrderly(s, reason, ordered[n - 1]);
    EnforceOneKeeps(s, reason, ordered[n - 1]);
    if s1 == s {
      QuietLands(b, s, s);
    } else {
      ReleaseLands(b, s, ordered[n - 1].decision, reason, Revoked);
    }
    SettledMeans(s0, s, t);
    SettledMeans(s0, s1, u);
    LandedPass(b, s0, s.journal, s1.journal, Next(s0), MeaningOf(s), MeaningOf(s1), t, u);
  }

  lemma StartsPassed(b: Recovering, s0: State, s: State, t: nat)
    requires Passing(b, s0, s, t)
    ensures Passed(b, s0, s, s, t)
  {}

  lemma {:induction false} EnforceFromLands(b: Recovering, s0: State, s: State, reason: RevocationReason, ordered: seq<DecisionRecord>, n: nat, t: nat, s': State)
    returns (u: nat)
    requires n <= |ordered| && s' == EnforceFrom(s, reason, ordered, n).1
    requires Passing(b, s0, s, t) && Orders(s0, ordered) && SplitAt(ordered, n, t)
    ensures Passed(b, s0, s, s', u)
    decreases n
  {
    if n == 0 {
      u := t;
      StartsPassed(b, s0, s, t);
    } else {
      SplitStep(s0, ordered, n, t);
      var v := EnforceOneLands(b, s0, s, reason, ordered, n, t);
      var (st, s1, k) := EnforceOne(s, reason, ordered[n - 1]);
      u := v;
      if st == Ok {
        u := EnforceFromLands(b, s0, s1, reason, ordered, n - 1, v, s');
        PassedTwice(b, s0, s, s1, s', v, u);
      }
    }
  }

  /** Revalidation flags carry no meaning. */
  lemma MeansSame(b: Recovering, log: seq<Record>, k: Counters, m: Meaning, m': Meaning)
    requires Means(b, log, k, m) && SameGrants(m.held, m'.held) && m'.policy == m.policy
    ensures Means(b, log, k, m')
  {}

  lemma MarkMeans(b: Recovering, log: seq<Record>, r: AuditMarkRecord, k: Counters, m: Meaning)
    requires Means(b, log, k, m) && r.sequence <= k.audit
    ensures Means(b, log + [AuditMark(r)], k, m)
  {
    SaysMark(ReplayLog(b, log).state, r, k, m);
    ReplaySnoc(b, log, AuditMark(r));
  }

  lemma ClearedDurable(b: Recovering, s: State)
    requires Durable(b, s)
    ensures Durable(b, Cleared(s))
  {
    FlagsSameGrants(s.ledger, false);
    if s.journal.attached {
      MeansSame(b, s.journal.log, Next(s), MeaningOf(s), MeaningOf(Cleared(s)));
    }
  }

  lemma MarkedPass(b: Recovering, s0: State, s: State, t: nat, r: AuditMarkRecord)
    requires Passing(b, s0, s, t) && r.sequence <= s.audit
    ensures PassSurvivable(b, s0, s.journal, Appended(s.journal, AuditMark(r)).1, Next(s0))
  {
    SettledMeans(s0, s, t);
    if s.journal.attached {
      MarkMeans(b, s.journal.log, r, Next(s), MeaningOf(s));
    }
    AppendSurvives(b, s.journal, AuditMark(r), Next(s), MeaningOf(s), MeaningOf(s));
    LandedPass(b, s0, s.journal, Appended(s.journal, AuditMark(r)).1, Next(s0), MeaningOf(s), MeaningOf(s), t, t);
  }

  lemma MarkDurable(b: Recovering, s: State, r: AuditMarkRecord)
    requires Durable(b, s) && r.sequence <= s.audit
    ensures Durable(b, Write(s, AuditMark(r)).1)
  {
    if s.journal.attached {
      MarkMeans(b, s.journal.log, r, Next(s), MeaningOf(s));
    }
  }

  lemma FinishLands(b: Recovering, s0: State, st: Status, s: State, revoked: nat, t: nat)
    requires Passing(b, s0, s, t)
    ensures
      var s' := FinishEnforcement(st, s, revoked).1;
      Durable(b, s') && PassSurvivable(b, s0, s.journal, s'.journal, Next(s0))
  {
    if st == Ok {
      var s1 := Cleared(s);
      var r := AuditMarkRecord(s1.audit, s1.epoch, |s1.journal.log|);
      ClearedDurable(b, s);
      MarkDurable(b, s1, r);
      MarkedPass(b, s0, s, t, r);
    }
  }

  /** A crash at any point of an enforcement pass recovers the pass carried out
      down to some audit number: the closed form at and above it, the original
      grants below it. */
  lemma EnforceLands(b: Recovering, s: State, reason: RevocationReason)
    requires Durable(b, s) && Orderly(s)
    ensures
      var s' := Enforce(s, reason).1;
      Durable(b, s') && PassSurvivable(b, s, s.journal, s'.journal, Next(s))
  {
    if s.auth.capacity.Some? {
      var ordered := InAuditOrder(s.history);
      AuditOrderOrders(s);
      StartsSettled(s, ordered);
      var t := EnforceFromLands(b, s, s, reason, ordered, |ordered|, s.audit + 1, EnforceFrom(s, reason, ordered, |ordered|).1);
      var (st, s1, k) := EnforceFrom(s, reason, ordered, |ordered|);
      FinishLands(b, s, st, s1, k, t);
      PassTransitive(b, s, s.journal, s1.journal, FinishEnforcement(st, s1, k).1.journal, Next(s));
    }
  }

  // ------------------------------------------------------------------
  // Publications
  // ------------------------------------------------------------------

  /** The publication is durable once done; a crash on the way leaves the
      published authority with the pass carried out part way. */
  ghost predicate Published(b: Recovering, s: State, s1: State, s': State) {
    Consistent(s1) && s1.ledger == s.ledger && s1.history == s.history && Next(s1) == Next(s) &&
    Durable(b, s') && PassSurvivable(b, s1, s.journal, s'.journal, Next(s))
  }

  lemma PublishLands(b: Recovering, s: State, s1: State, reason: RevocationReason)
    requires Durable(b, s1) && Orderly(s1) && s1.ledger == s.ledger && s1.history == s.history && Next(s1) == Next(s)
    requires PassSurvivable(b, s1, s.journal, s1.journal, Next(s))
    ensures Published(b, s, s1, Enforce(s1, reason).1)
  {
    EnforceLands(b, s1, reason);
    PassTransitive(b, s1, s.journal, s1.journal, Enforce(s1, reason).1.journal, Next(s));
  }

  lemma PolicyMeans(b: Recovering, log: seq<Record>, p: Policy, k: Counters, m: Meaning)
    requires Means(b, log, k, m) && ValidPolicy(p)
    ensures Means(b, log + [PolicyConfig(p)], k, m.(policy := Some(p)))
  {
    SaysPolicy(ReplayLog(b, log).state, p, k, m);
    ReplaySnoc(b, log, PolicyConfig(p));
  }

  lemma UntouchedMeans(s: State)
    requires Consistent(s)
    ensures MeaningOf(s) == PartMeaning(s, s.audit)
  {
    AuditOrderOrders(s);
    StartsSettled(s, InAuditOrder(s.history));
    SettledMeans(s, s, s.audit);
  }

  ghost function WithPolicy(s: State, p: Policy): State {
    var s1 := Write(s, PolicyConfig(p)).1;
    s1.(auth := s1.auth.(policy := Some(p)), tick := Later(s1.tick, p.observedTick))
  }

  lemma PolicyRecorded(b: Recovering, s: State, p: Policy)
    requires Durable(b, s) && Orderly(s) && ValidPolicy(p) && Write(s, PolicyConfig(p)).0
    ensures
      var s1 := WithPolicy(s, p);
      Durable(b, s1) && Orderly(s1) && PassSurvivable(b, s1, s.journal, s1.journal, Next(s))
  {
    var s1 := WithPolicy(s, p);
    ReauthorizedConsistent(s, s1);
    UntouchedMeans(s1);
    if s.journal.attached {
      PolicyMeans(b, s.journal.log, p, Next(s), MeaningOf(s));
    }
    AppendSurvives(b, s.journal, PolicyConfig(p), Next(s), MeaningOf(s1), MeaningOf(s1));
    LandedPass(b, s1, s.journal, s1.journal, Next(s), MeaningOf(s1), MeaningOf(s1), s1.audit, s1.audit);
  }

  /** A publication either takes effect, and is then atomic up to how far its
      enforcement got, or leaves the journal's meaning alone. */
  ghost predicate PublicationLanded(b: Recovering, s: State, s1: State, s': State) {
    Landed(b, s, s') || Published(b, s, s1, s')
  }

  lemma PolicyLands(b: Recovering, s: State, p: Policy)
    requires Durable(b, s) && Orderly(s)
    ensures PublicationLanded(b, s, WithPolicy(s, p), PublishPolicy(s, p).1)
  {
    var s' := PublishPolicy(s, p).1;
    if ValidPolicy(p) && s.epoch != 0 && p.epoch == s.epoch && PolicyFreshness(s.auth, p).Advances? && Write(s, PolicyConfig(p)).0 {
      PolicyRecorded(b, s, p);
      PublishLands(b, s, WithPolicy(s, p), PolicyChange);
    } else {
      QuietLands(b, s, s');
    }
  }

  lemma ReauthorizedLands(b: Recovering, s: State, s1: State, reason: RevocationReason)
    requires Durable(b, s) && Orderly(s) && Consistent(s1) && s1.ledger == s.ledger && s1.history == s.history
    requires Next(s1) == Next(s) && s1.journal == s.journal && s1.auth.policy == s.auth.policy
    ensures Published(b, s, s1, Enforce(s1, reason).1)
  {
    PublishLands(b, s, s1, reason);
  }

  lemma CapacityLands(b: Recovering, s: State, c: CapacitySnapshot)
    requires Durable(b, s) && Orderly(s)
    ensures PublicationLanded(b, s, s.(auth := s.auth.(capacity := Some(c)), tick := Later(s.tick, c.observedTick)), PublishCapacity(s, c).1)
  {
    var s1 := s.(auth := s.auth.(capacity := Some(c)), tick := Later(s.tick, c.observedTick));
    if ValidCapacity(c) && s.epoch != 0 && c.epoch == s.epoch && CapacityFreshness(s.auth, c).Advances? {
      ReauthorizedConsistent(s, s1);
      ReauthorizedLands(b, s, s1, CapacityReduction);
    } else {
      QuietLands(b, s, s);
    }
  }

  lemma ReservationsLand(b: Recovering, s: State, r: ReservationSnapshot)
    requires Durable(b, s) && Orderly(s)
    ensures PublicationLanded(b, s, s.(auth := s.auth.(reservations := Some(r)), tick := Later(s.tick, r.observedTick)), PublishReservations(s, r).1)
  {
    var s1 := s.(auth := s.auth.(reservations := Some(r)), tick := Later(s.tick, r.observedTick));
    if ValidReservations(r) && s.epoch != 0 && ReservationFreshness(s.auth, r).Advances? {
      ReauthorizedConsistent(s, s1);
      ReauthorizedLands(b, s, s1, ObligationChange);
    } else {
      QuietLands(b, s, s);
    }
  }

  // ------------------------------------------------------------------
  // Every operation
  // ------------------------------------------------------------------

  lemma BootMeans(b: Recovering, log: seq<Record>, r: BootRecord, k: Counters, m: Meaning)
    requires Means(b, log, k, m) && OwnBoot(r)
    ensures Means(b, log + [BootEpoch(r)], k, m)
  {
    SaysBoot(ReplayLog(b, log).state, r, k, m);
    ReplaySnoc(b, log, BootEpoch(r));
  }

  lemma IncarnationLands(b: Recovering, s: State, incarnation: u64)
    requires Durable(b, s)
    ensures Landed(b, s, NewIncarnation(s, incarnation).1)
  {
    if s.epoch == MAX64 {
      QuietLands(b, s, s);
    } else {
      var s1 := s.(epoch := s.epoch + 1, incarnation := incarnation, sessions := map[], nextNonce := 1);
      if s.journal.attached {
        BootMeans(b, s.journal.log, BootOf(s1).boot, Next(s), MeaningOf(s));
      }
      WriteLands(b, s, BootOf(s1), NewIncarnation(s, incarnation).1);
    }
  }

  predicate Silent(op: Op) {
    op.OpPaths? || op.OpQos? || op.OpPriorities? || op.OpInvalidateCapacity? || op.OpInvalidatePaths? ||
    op.OpRegister? || op.OpRetire? || op.OpTick?
  }

  ghost predicate WritesNothing(s: State, s': State) {
    s'.ledger == s.ledger && s'.auth.policy == s.auth.policy && s'.journal == s.journal && Next(s') == Next(s)
  }

  lemma CatalogWritesNothing(cfg: Config, s: State, op: Op)
    requires op.OpPaths? || op.OpQos? || op.OpPriorities? || op.OpInvalidateCapacity? || op.OpInvalidatePaths?
    ensures WritesNothing(s, After(cfg, s, op))
  {}

  lemma SessionWritesNothing(cfg: Config, s: State, op: Op)
    requires op.OpRegister? || op.OpRetire? || op.OpTick?
    ensures WritesNothing(s, After(cfg, s, op))
  {}

  lemma SilentLands(b: Recovering, cfg: Config, s: State, op: Op)
    requires Durable(b, s) && Silent(op)
    ensures Landed(b, s, After(cfg, s, op))
  {
    var s' := After(cfg, s, op);
    if op.OpRegister? || op.OpRetire? || op.OpTick? {
      SessionWritesNothing(cfg, s, op);
    } else {
      CatalogWritesNothing(cfg, s, op);
    }
    QuietLands(b, s, s');
  }

  /** Crash atomicity of a single operation: whatever the journal held at any
      instant of it means the state just before it or the state just after. */
  lemma OperationLands(b: Recovering, cfg: Config, s: State, op: Op)
    requires Durable(b, s) && Orderly(s) && !Enforcing(op) && Recordable(s, op)
    ensures Landed(b, s, After(cfg, s, op))
  {
    if Silent(op) {
      SilentLands(b, cfg, s, op);
    } else {
      match op
      case OpAdmit(req, claim) => AdmitLands(b, cfg, s, req, claim);
      case OpRevalidate(d) => RevalidateLands(b, s, d);
      case OpRevoke(d, reason) => RevokeLands(b, s, d, reason);
      case OpIncarnation(i) => IncarnationLands(b, s, i);
      case OpCompact => CompactNowLands(b, s);
    }
  }

  lemma CompactNowLands(b: Recovering, s: State)
    requires Durable(b, s) && Consistent(s)
    ensures Landed(b, s, Compact(s).1)
  {
    if s.journal.attached {
      HeldFromMeans(b, s);
    }
    CompactLands(b, s);
  }

  lemma PublicationDurable(b: Recovering, cfg: Config, s: State, op: Op)
    requires Durable(b, s) && Orderly(s) && Enforcing(op)
    ensures Durable(b, After(cfg, s, op))
  {
    match op
    case OpPolicy(p) => PolicyLands(b, s, p);
    case OpCapacity(c) => CapacityLands(b, s, c);
    case OpReservations(r) => ReservationsLand(b, s, r);
  }

  lemma StepDurable(b: Recovering, cfg: Config, s: State, op: Op)
    requires Durable(b, s) && Orderly(s) && Recordable(s, op)
    ensures Durable(b, After(cfg, s, op))
  {
    if Enforcing(op) {
      PublicationDurable(b, cfg, s, op);
    } else {
      OperationLands(b, cfg, s, op);
    }
  }

  /** Every grant of the run can be read back from the journal. */
  ghost predicate AllRecordable(cfg: Config, s: State, ops: seq<Op>) {
    forall i :: 0 <= i < |ops| ==> Recordable(Run(cfg, s, ops[..i]), ops[i])
  }

  /** After every run, with any pattern of journal failures, the journal means
      exactly what the engine holds. */
  lemma {:induction false} DurabilityOverRuns(b: Recovering, cfg: Config, s: State, ops: seq<Op>)
    requires Durable(b, s) && Orderly(s) && AllAskForSomething(ops) && AllRecordable(cfg, s, ops)
    ensures Durable(b, Run(cfg, s, ops)) && Orderly(Run(cfg, s, ops))
  {
    if ops != [] {
      var n := |ops| - 1;
      var front := ops[..n];
      assert forall i :: 0 <= i < n ==> front[..i] == ops[..i];
      DurabilityOverRuns(b, cfg, s, front);
      OrderOverRuns(cfg, s, ops);
      assert Recordable(Run(cfg, s, ops[..n]), ops[n]);
      StepDurable(b, cfg, Run(cfg, s, front), ops[n]);
    }
  }
}
