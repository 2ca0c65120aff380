/** The engine object (EngineCore in src/engine/engine_core.hpp, with the
    operations of src/engine/admission.cpp and src/engine/engine.cpp): every
    operation moves its state as the function of the same name in module Engine
    says. */
module EngineObject {
  import opened Base
  import opened Model
  import opened Snapshots
  import opened Ledger
  import opened LedgerStore
  import opened History
  import opened Attempts
  import opened HistoryStore
  import opened Evaluate
  import opened Selection
  import opened Checks
  import opened Engine
  import opened Recovery

  class EngineCore {
    const cfg: Config
    const ledger: AdmittedLoadLedger
    const history: DecisionHistory
    const attempts: AttemptRegistry
    var epoch: u64
    var incarnation: u64
    var tick: u64
    var auth: Authorities
    var index: ObligationIndex
    var cache: map<nat, Decision>
    var sessions: map<nat, Session>
    var nextNonce: nat
    var nextDecision: nat
    var audit: nat
    var pendingReconciliation: bool
    var journal: JournalState

    function View(): State
      reads this, ledger, history, attempts
    {
      State(epoch, incarnation, tick, auth, ledger.View(), history.View(), attempts.View(), cache, sessions,
            nextNonce, nextDecision, audit, pendingReconciliation, journal)
    }

    /** Authorities were validated on publication, and the obligation index was
        built from the reservations in force. */
    ghost predicate Valid()
      reads this
    {
      ValidAuthorities(auth) && Describes(auth, index)
    }

    constructor (cfg: Config, epoch: u64, incarnation: u64, tick: u64, historyCapacity: nat, attemptCapacity: nat)
      ensures Valid() && View() == Initial(epoch, incarnation, tick, historyCapacity, attemptCapacity) && this.cfg == cfg
      ensures fresh(ledger) && fresh(history) && fresh(attempts)
    {
      this.cfg := cfg;
      ledger := new AdmittedLoadLedger();
      history := new DecisionHistory(historyCapacity);
      attempts := new AttemptRegistry(attemptCapacity);
      this.epoch, this.incarnation, this.tick := epoch, incarnation, tick;
      auth, index := NO_AUTHORITIES, EMPTY_INDEX;
      cache, sessions, nextNonce, nextDecision, audit := map[], map[], 1, 1, 0;
      pendingReconciliation := false;
      journal := JournalState(false, [], [], []);
    }

    // ----------------------------------------------------------------
    // Journal
    // ----------------------------------------------------------------

    method Append(r: Record) returns (ok: bool)
      modifies this`journal
      ensures (ok, View()) == Write(old(View()), r)
    {
      if !journal.attached {
        return true;
      }
      if NextFails(journal) {
        journal := Consume(journal);
        return false;
      }
      journal := WithLog(Consume(journal), journal.log + [r]);
      return true;
    }

    /** Live grants as intent and commit, everything else as history. */
    method RewrittenRecords() returns (frames: seq<Record>)
      ensures frames == CompactedRecords(ledger.View(), History.InAuditOrder(history.View()))
    {
      var ordered := history.InAuditOrder();
      frames := [];
      for i := 0 to |ordered|
        invariant frames == CompactedRecords(ledger.View(), ordered[..i])
      {
        assert ordered[..i + 1][..i] == ordered[..i];
        frames := frames + CompactedRecord(ledger.View(), ordered[i]);
      }
      assert ordered[..|ordered|] == ordered;
    }

    method RewrittenLog() returns (frames: seq<Record>)
      ensures frames == CompactedLog(View())
    {
      var records := RewrittenRecords();
      frames := [BootOf(View())] + (if auth.policy.Some? then [PolicyConfig(auth.policy.value)] else []) + records;
      frames := frames + [AuditMark(AuditMarkRecord(audit, epoch, |frames|))];
    }

    /** Rewrites the journal with what a restart needs. */
    method Compact() returns (st: Status)
      modifies this`journal
      ensures (st, View()) == Engine.Compact(old(View()))
    {
      if !journal.attached {
        return InvalidArgument;
      }
      var frames := RewrittenLog();
      if NextFails(journal) {
        journal := Consume(journal);
        return DurableFailure;
      }
      journal := WithLog(Consume(journal), frames);
      return Ok;
    }

    method CompactIfNeeded() returns (st: Status)
      modifies this`journal
      ensures (st, View()) == Engine.CompactIfNeeded(cfg, old(View()))
    {
      if !journal.attached || |journal.log| < cfg.compactAt {
        return Ok;
      }
      st := Compact();
    }

    // ----------------------------------------------------------------
    // Decisions
    // ----------------------------------------------------------------

    method BeginDecision(req: Request, outcome: Outcome) returns (d: Decision)
      modifies this`nextDecision, this`audit
      ensures (d, View()) == Engine.BeginDecision(cfg, old(View()), req, outcome)
    {
      d := Decision(nextDecision, audit, outcome, req.request, req.demand, req.demandGeneration, req.attempt,
                    epoch, incarnation, tick, 0, 0, 0, 0, cfg.fingerprint(req), false);
      nextDecision, audit := nextDecision + 1, audit + 1;
    }

    method TrimHistory()
      modifies history
      ensures history.View() == TrimIfNeeded(old(history.View()), ledger.byDecision.Keys)
    {
      if |history.records| > history.capacity {
        history.Trim(ledger.byDecision.Keys);
      }
    }

    method File(d: Decision, r: DecisionRecord, recordAttempt: bool)
      modifies this`cache, history, attempts
      ensures View() == Filed(old(View()), d, r, recordAttempt)
    {
      history.Insert(r);
      TrimHistory();
      if recordAttempt {
        attempts.Record(AttemptOf(d, tick));
      }
      if |cache| >= MAX_DECISION_RECORDS && cache.Keys != {} {
        cache := cache - {SortedKeys(cache.Keys)[0]};
      }
      cache := cache[d.decision := d];
    }

    method FinishRefusal(d: Decision, recordAttempt: bool) returns (r: AdmitResult)
      modifies this`journal, this`cache, history, attempts
      ensures (r, View()) == Engine.FinishRefusal(old(View()), d, recordAttempt)
    {
      var record := ToRecord(auth, d);
      var ok := Append(AdmissionRefused(record));
      if !ok {
        return Failed(DurableFailure);
      }
      File(d, record, recordAttempt);
      return Decided(d);
    }

    method Refuse(req: Request, outcome: Outcome, recordAttempt: bool) returns (r: AdmitResult)
      modifies this`nextDecision, this`audit, this`journal, this`cache, history, attempts
      ensures (r, View()) == Engine.Refuse(cfg, old(View()), req, outcome, recordAttempt)
    {
      var d := BeginDecision(req, outcome);
      r := FinishRefusal(d, recordAttempt);
    }

    /** Intent, reservation, commit; then compaction if the journal has grown. */
    method FinishAdmission(d: Decision, amounts: seq<Amount>) returns (r: AdmitResult)
      modifies this`journal, this`cache, ledger, history, attempts
      ensures (r, View()) == Engine.FinishAdmission(cfg, old(View()), d, amounts)
    {
      var prepared := Append(AdmissionPrepare(IntentOf(d, amounts)));
      if !prepared {
        return Failed(DurableFailure);
      }
      var reserved := ledger.Reserve(d.decision, d.demand, d.epoch, d.boundCapacity, d.path, amounts);
      if reserved != Ok {
        return Failed(reserved);
      }
      r := CommitAdmission(d);
    }

    method CommitAdmission(d: Decision) returns (r: AdmitResult)
      modifies this`journal, this`cache, ledger, history, attempts
      ensures (r, View()) ==
        var s := old(View());
        var record := ToRecord(s.auth, d).(ledgerLive := true);
        var (committed, s1) := Write(s, AdmissionCommit(record));
        if !committed then (Failed(DurableFailure), s1.(ledger := ReleasedLoad(s1.ledger, d.decision).1))
        else
          var (compacted, s2) := Engine.CompactIfNeeded(cfg, Filed(s1, d, record, true));
          (if compacted == Ok then Decided(d) else Failed(compacted), s2)
    {
      var record := ToRecord(auth, d).(ledgerLive := true);
      var committed := Append(AdmissionCommit(record));
      if !committed {
        var st, released := ledger.Release(d.decision);
        return Failed(DurableFailure);
      }
      File(d, record, true);
      var compacted := CompactIfNeeded();
      return if compacted == Ok then Decided(d) else Failed(compacted);
    }

    // ----------------------------------------------------------------
    // Admission
    // ----------------------------------------------------------------

    method EvaluateTargets(req: Request, choice: Choice) returns (e: Evaluation)
      requires Valid() && !choice.Refused?
      ensures e == EvaluateGrant(auth, ledger.View(), tick, req, choice)
    {
      var traversal := match choice
        case NoPath => []
        case ViaPath(fact, _) => fact.resources
        case CapacityBlocked(resources) => resources;
      var targets := Targets(req, traversal);
      if targets == [] {
        return Refusal(RejectPolicy);
      }
      var v := EvaluateCapacity(auth, index, ledger.View(), tick, req, targets, if choice.ViaPath? then Some(choice.fact) else None);
      e := SettleGrant(req, choice, targets, v);
    }

    /** The grant the ceiling allows, or why there is none. */
    method SettleGrant(req: Request, choice: Choice, targets: seq<u64>, v: CapacityResult) returns (e: Evaluation)
      ensures e ==
        var grant := Min(v.ceiling, req.rate.maximum);
        if v.outcome != Admit then Refusal(v.outcome)
        else if grant < req.rate.minimum then Refusal(RejectCapacity)
        else if grant < req.rate.desired && !DegradeAllowed(auth, req) then Refusal(RejectCapacity)
        else Granted(if grant < req.rate.desired then AdmitDegraded else Admit, grant, targets,
                     if choice.ViaPath? then choice.fact.path else 0, if choice.ViaPath? then choice.generation else 0)
    {
      if v.outcome != Admit {
        return Refusal(v.outcome);
      }
      var grant := Min(v.ceiling, req.rate.maximum);
      if grant < req.rate.minimum || (grant < req.rate.desired && !DegradeAllowed(auth, req)) {
        return Refusal(RejectCapacity);
      }
      return Granted(if grant < req.rate.desired then AdmitDegraded else Admit, grant, targets,
                     if choice.ViaPath? then choice.fact.path else 0, if choice.ViaPath? then choice.generation else 0);
    }

    method Evaluate(req: Request) returns (e: Evaluation)
      requires Valid()
      ensures e == EvaluateRequest(auth, ledger.View(), tick, pendingReconciliation, req)
    {
      var readiness := ReadinessVerdict(auth, pendingReconciliation);
      if readiness != Admit {
        return Refusal(readiness);
      }
      var met := CheckExpectations(auth, req);
      if !met {
        return Refusal(StaleInput);
      }
      var policy := PolicyVerdict(auth, req);
      if policy != Admit {
        return Refusal(policy);
      }
      var choice := ChoosePath(auth, index, ledger.View(), req);
      if choice.Refused? {
        return Refusal(choice.outcome);
      }
      e := EvaluateTargets(req, choice);
    }

    method AdmitNew(req: Request) returns (r: AdmitResult)
      requires Valid()
      modifies this`nextDecision, this`audit, this`journal, this`cache, ledger, history, attempts
      ensures Valid() && (r, View()) == Engine.AdmitNew(cfg, old(View()), req)
    {
      var e := Evaluate(req);
      if e.Refusal? {
        r := Refuse(req, e.outcome, true);
        return;
      }
      r := Grant(req, e);
    }

    method Grant(req: Request, e: Evaluation) returns (r: AdmitResult)
      requires e.Granted?
      modifies this`nextDecision, this`audit, this`journal, this`cache, ledger, history, attempts
      ensures (r, View()) ==
        var (d, s1) := Engine.BeginDecision(cfg, old(View()), req, e.outcome);
        Engine.FinishAdmission(cfg, s1,
          d.(path := e.path, pathGeneration := e.pathGeneration, granted := e.grant,
             boundCapacity := GenerationOf(old(auth)).capacityGeneration),
          AmountsAt(e.targets, e.grant))
    {
      var d := BeginDecision(req, e.outcome);
      d := d.(path := e.path, pathGeneration := e.pathGeneration, granted := e.grant,
              boundCapacity := GenerationOf(auth).capacityGeneration);
      r := FinishAdmission(d, AmountsAt(e.targets, e.grant));
    }

    /** Contract, fence, identity, then evaluation. */
    method AdmitRequest(req: Request, claim: Claim) returns (r: AdmitResult)
      requires Valid()
      modifies this`nextDecision, this`audit, this`journal, this`cache, ledger, history, attempts
      ensures Valid() && (r, View()) == Engine.AdmitRequest(cfg, old(View()), req, claim)
    {
      match PlanFor(cfg, View(), req, claim)
      case RefuseWith(outcome, recordAttempt) =>
        r := Refuse(req, outcome, recordAttempt);
      case ReplayOf(d) =>
        r := Decided(d);
      case Evaluate =>
        r := AdmitNew(req);
    }

    // ----------------------------------------------------------------
    // Release, revalidation, revocation
    // ----------------------------------------------------------------

    method Mark(d: nat, state: RevalidationState, reason: RevocationReason, live: bool)
      modifies history
      ensures history.View() == Marked(old(history.View()), d, state, reason, live)
    {
      if d in history.records {
        var found := history.Update(d, history.records[d].(state := state, reason := reason, ledgerLive := live));
      }
    }

    /** Release record, ledger, revocation record, history. */
    method ReleaseDecision(d: nat, reason: RevocationReason, state: RevalidationState) returns (st: Status)
      modifies this`journal, this`cache, ledger, history
      ensures (st, View()) == Engine.ReleaseDecision(old(View()), d, reason, state)
      ensures st == Ok ==> ledger.byDecision == old(ledger.byDecision) - {d}
    {
      if d !in ledger.byDecision {
        return NotFound;
      }
      var written := Append(LedgerRelease(ReleaseRecord(d, epoch, reason, ledger.byDecision[d])));
      if !written {
        return DurableFailure;
      }
      var removed, released := ledger.Release(d);
      if removed != Ok {
        return removed;
      }
      var journaled := Append(Model.Revocation(RevocationRecord(d, epoch, audit, reason, state)));
      if !journaled {
        return DurableFailure;
      }
      Mark(d, state, reason, false);
      history.NoteRelease();
      cache := cache - {d};
      return Ok;
    }

    method Evict(d: nat, reason: RevocationReason) returns (r: RevalidationResult)
      modifies this`journal, this`cache, ledger, history
      ensures (r, View()) == Engine.Evict(old(View()), d, reason)
    {
      var st := ReleaseDecision(d, reason, Revoked);
      return if st == Ok then Revalidated(Revoked, reason, true) else NotRevalidated(st);
    }

    /** Whether every resource the decision holds is known and within its
        allowance. */
    method CheckFit(entries: seq<LedgerEntry>) returns (fits: bool)
      requires Valid()
      ensures fits <==> forall i :: 0 <= i < |entries| ==> EntryFits(auth, ledger.View(), entries[i])
    {
      for i := 0 to |entries|
        invariant forall j :: 0 <= j < i ==> EntryFits(auth, ledger.View(), entries[j])
      {
        var known, usable, afterHeadroom, allowance := ComputeAllowance(auth, index, entries[i].resource);
        if !known || Admitted(ledger.View(), entries[i].resource) > allowance {
          assert !EntryFits(auth, ledger.View(), entries[i]);
          return false;
        }
      }
      return true;
    }

    method Outdate(d: nat) returns (r: RevalidationResult)
      requires d in history.records
      modifies this`journal, history
      ensures (r, View()) == Engine.Outdate(old(View()), d)
    {
      var live := history.records[d].ledgerLive;
      var journaled := Append(Model.Revocation(RevocationRecord(d, epoch, audit, GenerationAdvance, Invalidated)));
      if !journaled {
        return NotRevalidated(DurableFailure);
      }
      Mark(d, Invalidated, GenerationAdvance, live);
      return Revalidated(Invalidated, GenerationAdvance, false);
    }

    /** The checks of a revalidation, in order. */
    method Inspect(d: nat) returns (f: Finding)
      requires Valid()
      ensures f == Examine(View(), d)
    {
      if d !in history.records { return Unanswerable(NotFound); }
      var r := history.records[d];
      if !Admitting(r.outcome) { return Unanswerable(InvalidArgument); }
      if Released(r.state) { return AlreadyReleased; }
      if d !in ledger.byDecision { return NoLongerHeld; }
      if r.epoch != epoch || r.incarnation != incarnation { return MustRelease(CoordinatorRestart); }
      if AnyFlagged(ledger.byDecision[d]) { return Unreconciled; }
      if auth.capacity.None? { return MustRelease(CapacityReduction); }
      if auth.reservations.None? || auth.policy.None? { return MustRelease(PolicyChange); }
      if r.path != 0 && !PathUsable(auth, r.path) { return MustRelease(PathRevoked); }
      var fits := CheckFit(ledger.byDecision[d]);
      if !fits { return MustRelease(CapacityReduction); }
      return if Superseded(auth, r) then Outdated else StillValid;
    }

    method Revalidate(d: nat) returns (r: RevalidationResult)
      requires Valid()
      modifies this`journal, this`cache, ledger, history
      ensures Valid() && (r, View()) == Engine.Revalidate(old(View()), d)
    {
      var f := Inspect(d);
      match f
      case Unanswerable(status) => r := NotRevalidated(status);
      case AlreadyReleased => r := Revalidated(history.records[d].state, history.records[d].reason, false);
      case NoLongerHeld =>
        Mark(d, Revoked, ClaimantDeath, false);
        r := Revalidated(Revoked, ClaimantDeath, false);
      case MustRelease(reason) => r := Evict(d, reason);
      case Unreconciled => r := Revalidated(Ambiguous, NotRevoked, false);
      case StillValid => r := Revalidated(RevalidationState.Valid, NotRevoked, false);
      case Outdated => r := Outdate(d);
    }

    method Revoke(d: nat, reason: RevocationReason) returns (r: RevalidationResult)
      modifies this`journal, this`cache, ledger, history
      ensures (r, View()) == Engine.Revoke(old(View()), d, reason)
    {
      if d !in history.records {
        return NotRevalidated(NotFound);
      }
      var record := history.records[d];
      if !Admitting(record.outcome) {
        return Revalidated(RevalidationState.Valid, reason, false);
      }
      if Released(record.state) || d !in ledger.byDecision {
        return Revalidated(Revoked, if record.reason != NotRevoked then record.reason else reason, false);
      }
      r := Evict(d, reason);
    }

    // ----------------------------------------------------------------
    // Enforcement
    // ----------------------------------------------------------------

    /** Releases one decision if it holds load and does not fit as things stand. */
    method EnforceOne(reason: RevocationReason, r: DecisionRecord) returns (st: Status, revoked: nat)
      requires Valid()
      modifies this`journal, this`cache, ledger, history
      ensures Valid() && (st, View(), revoked) == Engine.EnforceOne(old(View()), reason, r)
    {
      if !Admitting(r.outcome) || r.decision !in ledger.byDecision {
        return Ok, 0;
      }
      var fits := CheckFit(ledger.byDecision[r.decision]);
      if fits {
        return Ok, 0;
      }
      st := ReleaseDecision(r.decision, reason, Revoked);
      revoked := 1;
    }

    /** Newest first over the decisions in audit order. */
    method EnforceAll(reason: RevocationReason, ordered: seq<DecisionRecord>) returns (st: Status, revoked: nat)
      requires Valid()
      modifies this`journal, this`cache, ledger, history
      ensures Valid()
      ensures
        var (st', s, k) := EnforceFrom(old(View()), reason, ordered, |ordered|);
        st == st' && View() == s && (st == Ok ==> revoked == k)
    {
      revoked := 0;
      ghost var target := EnforceFrom(View(), reason, ordered, |ordered|);
      var n: nat := |ordered|;
      while n > 0
        invariant Valid() && n <= |ordered|
        invariant Remaining(target, EnforceFrom(View(), reason, ordered, n), revoked)
      {
        ghost var before := View();
        var one, k := EnforceOne(reason, ordered[n - 1]);
        EnforceTurn(before, reason, ordered, n, target, revoked, one, View(), k);
        if one != Ok {
          return one, 0;
        }
        revoked := revoked + k;
        n := n - 1;
      }
      return Ok, revoked;
    }

    /** The whole pass: releases, flags, audit mark. */
    method Enforce(reason: RevocationReason) returns (st: Status)
      requires Valid()
      modifies this`journal, this`cache, this`pendingReconciliation, ledger, history
      ensures Valid() && (st, View()) == Engine.Enforce(old(View()), reason)
    {
      if auth.capacity.None? {
        return Ok;
      }
      var ordered := history.InAuditOrder();
      var passed, revoked := EnforceAll(reason, ordered);
      if passed != Ok {
        return passed;
      }
      ledger.SetRevalidationFlags(false);
      pendingReconciliation := false;
      if revoked == 0 {
        return Ok;
      }
      var marked := Append(AuditMark(AuditMarkRecord(audit, epoch, |journal.log|)));
      return if marked then Ok else DurableFailure;
    }

    // ----------------------------------------------------------------
    // Publications
    // ----------------------------------------------------------------

    method PublishPolicy(p: Policy) returns (st: Status)
      requires Valid()
      modifies this, ledger, history
      ensures Valid() && (st, View()) == Engine.PublishPolicy(old(View()), p)
    {
      if !ValidPolicy(p) {
        return MalformedInput;
      }
      if epoch == 0 || p.epoch != epoch {
        return EpochMismatch;
      }
      var f := PolicyFreshness(auth, p);
      if !f.Advances? {
        return Declined(f);
      }
      var written := Append(PolicyConfig(p));
      if !written {
        return DurableFailure;
      }
      auth, tick := auth.(policy := Some(p)), Later(tick, p.observedTick);
      st := Enforce(PolicyChange);
    }

    /** A snapshot that is not well formed is refused, with whatever status its
        validation gives; otherwise the outcome is that of the specification. */
    method PublishCapacity(c: CapacitySnapshot) returns (st: Status)
      requires Valid()
      modifies this, ledger, history
      ensures Valid() && View() == Engine.PublishCapacity(old(View()), c).1
      ensures if ValidCapacity(c) then st == Engine.PublishCapacity(old(View()), c).0 else st != Ok
    {
      var valid := ValidateCapacity(c);
      if valid != Ok {
        return valid;
      }
      if epoch == 0 || c.epoch != epoch {
        return EpochMismatch;
      }
      var f := CapacityFreshness(auth, c);
      if !f.Advances? {
        return Declined(f);
      }
      st := ApplyCapacity(c);
    }

    method ApplyCapacity(c: CapacitySnapshot) returns (st: Status)
      requires Valid() && ValidCapacity(c)
      modifies this, ledger, history
      ensures Valid() && (st, View()) ==
        Engine.Enforce(old(View()).(auth := old(auth).(capacity := Some(c)), tick := Later(old(tick), c.observedTick)), CapacityReduction)
    {
      auth, tick := auth.(capacity := Some(c)), Later(tick, c.observedTick);
      st := Enforce(CapacityReduction);
    }

    /** The obligation index is rebuilt before anything is enforced against it. */
    method PublishReservations(r: ReservationSnapshot) returns (st: Status)
      requires Valid()
      modifies this, ledger, history
      ensures Valid() && View() == Engine.PublishReservations(old(View()), r).1
      ensures if ValidReservations(r) then st == Engine.PublishReservations(old(View()), r).0 else st != Ok
    {
      var valid := ValidateReservations(r);
      if valid != Ok {
        return valid;
      }
      if epoch == 0 {
        return EpochMismatch;
      }
      var f := ReservationFreshness(auth, r);
      if !f.Advances? {
        return Declined(f);
      }
      st := ApplyReservations(r);
    }

    method ApplyReservations(r: ReservationSnapshot) returns (st: Status)
      requires Valid() && ValidReservations(r)
      modifies this, ledger, history
      ensures Valid() && (st, View()) ==
        Engine.Enforce(old(View()).(auth := old(auth).(reservations := Some(r)), tick := Later(old(tick), r.observedTick)), ObligationChange)
    {
      auth, tick := auth.(reservations := Some(r)), Later(tick, r.observedTick);
      index := RebuildObligationIndex(r.obligations);
      st := Enforce(ObligationChange);
    }

    method PublishPaths(c: PathCatalog) returns (st: Status)
      requires Valid()
      modifies this`auth, this`tick
      ensures Valid() && View() == Engine.PublishPaths(old(View()), c).1
      ensures if ValidPaths(c) then st == Engine.PublishPaths(old(View()), c).0 else st != Ok
    {
      var valid := ValidatePaths(c);
      if valid != Ok {
        return valid;
      }
      if epoch == 0 {
        return EpochMismatch;
      }
      var f := PathFreshness(auth, c);
      if !f.Advances? {
        return Declined(f);
      }
      auth, tick := auth.(paths := Some(c)), Later(tick, c.observedTick);
      return Ok;
    }

    // ----------------------------------------------------------------
    // Recovery
    // ----------------------------------------------------------------

    method RestoreGrant(p: PrepareRecord) returns (st: Status)
      modifies ledger
      ensures (st, ledger.View()) == RestoreOne(Ok, old(ledger.View()), p)
    {
      st := ledger.Reserve(p.decision, p.demand, p.epoch, p.boundCapacity, p.path, p.amounts);
    }

    method RestoreEach(grants: map<nat, PrepareRecord>, keys: seq<nat>) returns (st: Status)
      requires ledger.View() == EMPTY_LEDGER && forall i :: 0 <= i < |keys| ==> keys[i] in grants
      modifies ledger
      ensures st == RestoreFirst(grants, keys, |keys|).0
      ensures st == Ok ==> ledger.View() == RestoreFirst(grants, keys, |keys|).1
    {
      for i := 0 to |keys|
        invariant RestoreFirst(grants, keys, i) == (Ok, ledger.View())
      {
        ghost var before := ledger.View();
        st := RestoreGrant(grants[keys[i]]);
        RestoreFirstNext(grants, keys, i, before, st, ledger.View());
        if st != Ok {
          RestoreStops(grants, keys, i + 1, |keys|);
          return;
        }
      }
      st := Ok;
    }

    /** Reserves the live grants in order of decision, all to be revalidated. */
    method RestoreGrants(grants: map<nat, PrepareRecord>) returns (st: Status)
      requires ledger.View() == EMPTY_LEDGER
      modifies ledger
      ensures st == RestoredLedger(grants).0
      ensures st == Ok ==> ledger.View() == RestoredLedger(grants).1
    {
      var keys := SortedKeys(grants.Keys);
      assert forall i :: 0 <= i < |keys| ==> keys[i] in keys;
      st := RestoreEach(grants, keys);
      if st == Ok {
        ledger.SetRevalidationFlags(true);
      }
    }

    /** Opens a journal in a freshly constructed engine. */
    method OpenDurable(scan: Recovery.Scan, log: seq<Record>, outcomes: seq<bool>) returns (st: Status, report: Option<RecoveryReport>)
      requires Valid() && ledger.View() == EMPTY_LEDGER && history.View() == EmptyHistory(history.capacity)
      requires attempts.View() == EmptyAttempts(attempts.capacity)
      modifies this, ledger, history, attempts
      ensures match Recovery.OpenDurable(old(View()), scan, log, outcomes)
              case OpenedWith(rep, s) => st == Ok && report == Some(rep) && View() == s
              case NotOpened(status) => st == status && report == None
    {
      report := None;
      var r := ReplayRecords(Blank(history.capacity, attempts.capacity), log);
      if r.Unrecoverable? {
        return r.status, None;
      }
      var rec := r.state;
      ReplayBounds(Blank(history.capacity, attempts.capacity), log);
      var reserved := RestoreGrants(LiveGrants(rec));
      if reserved != Ok {
        return reserved, None;
      }
      var verdict := EpochVerdict(rec.epoch, epoch);
      if verdict != Ok {
        return verdict, None;
      }
      Install(rec, log, outcomes);
      var booted := Append(BootOf(View()));
      if !booted {
        return DurableFailure, None;
      }
      return Ok, Some(RecoveryReport(OutcomeFor(scan, rec.pending.Keys), rec.pending.Keys));
    }

    method InstallHistory(h: HistoryState, a: AttemptState)
      requires h.capacity == history.capacity && a.capacity == attempts.capacity
      modifies history, attempts
      ensures history.View() == TrimIfNeeded(h, ledger.byDecision.Keys) && attempts.View() == a
    {
      history.records, history.auditIndex, history.cursor := h.records, h.auditIndex, h.cursor;
      attempts.attempts, attempts.fingerprints := a.attempts, a.fingerprints;
      TrimHistory();
    }

    method InstallCounters(rec: Recovering)
      modifies this`sessions, this`nextNonce, this`nextDecision, this`audit, this`pendingReconciliation
      ensures View() == old(View()).(sessions := map[], nextNonce := 1, nextDecision := rec.maxDecision + 1, audit := rec.audit,
                                     pendingReconciliation := ledger.byDecision.Keys != {})
    {
      sessions, nextNonce, nextDecision, audit := map[], 1, rec.maxDecision + 1, rec.audit;
      pendingReconciliation := ledger.byDecision.Keys != {};
    }

    method InstallFields(rec: Recovering, log: seq<Record>, outcomes: seq<bool>)
      requires EpochVerdict(rec.epoch, epoch) == Ok
      modifies this`epoch, this`auth, this`journal
      ensures View() == old(View()).(
        epoch := NextEpoch(rec.epoch, old(epoch)),
        auth := old(auth).(policy := if rec.policy.Some? then rec.policy else old(auth).policy),
        journal := JournalState(true, log, [log], outcomes))
    {
      epoch := NextEpoch(rec.epoch, epoch);
      if rec.policy.Some? {
        auth := auth.(policy := rec.policy);
      }
      journal := JournalState(true, log, [log], outcomes);
    }

    method Install(rec: Recovering, log: seq<Record>, outcomes: seq<bool>)
      requires EpochVerdict(rec.epoch, epoch) == Ok && rec.history.capacity == history.capacity && rec.attempts.capacity == attempts.capacity
      modifies this, history, attempts
      ensures View() == Revived(old(View()), rec, old(ledger.View()), log, outcomes)
    {
      InstallHistory(rec.history, rec.attempts);
      InstallFields(rec, log, outcomes);
      InstallCounters(rec);
    }

    // ----------------------------------------------------------------
    // Sessions and epochs
    // ----------------------------------------------------------------

    method Register(publisher: u64, boot: u64) returns (r: RegisterResult)
      modifies this`sessions, this`nextNonce
      ensures (r, View()) == Engine.Register(cfg, old(View()), publisher, boot)
    {
      if publisher == 0 || boot == 0 { return NotRegistered(InvalidArgument); }
      if epoch == 0 { return NotRegistered(EpochMismatch); }
      if |sessions| >= cfg.sessionCapacity { return NotRegistered(Busy); }
      r := Registered(SessionGrant(nextNonce, incarnation, epoch, publisher, boot));
      sessions := sessions[nextNonce := Session(publisher, boot)];
      nextNonce := nextNonce + 1;
    }

    method Retire(session: nat) returns (st: Status)
      modifies this`sessions
      ensures (st, View()) == Engine.Retire(old(View()), session)
    {
      if session !in sessions { return NotFound; }
      sessions := sessions - {session};
      return Ok;
    }

    method NewIncarnation(next: u64) returns (st: Status)
      modifies this`epoch, this`incarnation, this`sessions, this`nextNonce, this`journal
      ensures (st, View()) == Engine.NewIncarnation(old(View()), next)
    {
      if epoch == MAX64 { return ArithmeticOverflow; }
      epoch, incarnation, sessions, nextNonce := epoch + 1, next, map[], 1;
      var written := Append(BootOf(View()));
      return if written then Ok else DurableFailure;
    }
  }

  /** The replay loop: the first record that cannot be absorbed refuses. */
  method ReplayRecords(b: Recovering, log: seq<Record>) returns (r: Replayed)
    ensures r == ReplayLog(b, log)
  {
    r := Replaying(b);
    for i := 0 to |log|
      invariant r.Replaying? && r == ReplayLog(b, log[..i])
    {
      assert log[..i + 1][..i] == log[..i];
      r := Absorb(r.state, log[i]);
      if r.Unrecoverable? {
        StaysUnrecoverable(b, log, i + 1);
        return;
      }
    }
    assert log[..|log|] == log;
  }

  lemma {:induction false} StaysUnrecoverable(b: Recovering, log: seq<Record>, n: nat)
    requires n <= |log| && ReplayLog(b, log[..n]).Unrecoverable?
    ensures ReplayLog(b, log) == ReplayLog(b, log[..n])
  {
    assert log == log[..n] + log[n..];
    ReplayConcat(b, log[..n], log[n..]);
  }

  lemma {:induction false} RestoreStops(grants: map<nat, PrepareRecord>, keys: seq<nat>, n: nat, m: nat)
    requires n <= m <= |keys| && (forall i :: 0 <= i < |keys| ==> keys[i] in grants) && RestoreFirst(grants, keys, n).0 != Ok
    ensures RestoreFirst(grants, keys, m) == RestoreFirst(grants, keys, n)
    decreases m - n
  {
    if n < m {
      RestoreStops(grants, keys, n, m - 1);
    }
  }

  /** What is left of a pass, counting the releases already made. */
  ghost predicate Remaining(target: (Status, State, nat), rest: (Status, State, nat), revoked: nat) {
    target.0 == rest.0 && target.1 == rest.1 && (target.0 == Ok ==> target.2 == revoked + rest.2)
  }

  lemma EnforceTurn(s: State, reason: RevocationReason, ordered: seq<DecisionRecord>, n: nat, target: (Status, State, nat), revoked: nat,
                    st: Status, s1: State, k: nat)
    requires 0 < n <= |ordered| && Remaining(target, EnforceFrom(s, reason, ordered, n), revoked)
    requires (st, s1, k) == Engine.EnforceOne(s, reason, ordered[n - 1])
    ensures st != Ok ==> target.0 == st && target.1 == s1
    ensures st == Ok ==> Remaining(target, EnforceFrom(s1, reason, ordered, n - 1), revoked + k)
  {}

  lemma RestoreFirstNext(grants: map<nat, PrepareRecord>, keys: seq<nat>, i: nat, l: LedgerState, st: Status, l': LedgerState)
    requires i < |keys| && (forall j :: 0 <= j < |keys| ==> keys[j] in grants) && RestoreFirst(grants, keys, i) == (Ok, l)
    requires (st, l') == RestoreOne(Ok, l, grants[keys[i]])
    ensures RestoreFirst(grants, keys, i + 1) == (st, l')
  {}
}
