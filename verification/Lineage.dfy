/** What an engine writes of its decisions: over every run each decision is
    recorded once, as it was answered, in every content the journal passes
    through (src/engine/admission.cpp, src/engine/engine.cpp). */
module Lineage {
  import opened Base
  import opened Model
  import opened Ledger
  import opened History
  import opened Attempts
  import opened Engine
  import opened Frames
  import opened Invariants
  import opened Closure
  import opened CleanRuns
  import opened Idempotence
  import opened Recovery
  import opened Durability
  import opened Reissue
  import opened Registry

  /** No two entries record the same decision. */
  ghost predicate OncePerDecision(log: seq<Record>) {
    forall i, j :: 0 <= i < j < |log| && IsDecision(log[i]) && IsDecision(log[j]) ==>
      DecisionIn(log[i]).decision != DecisionIn(log[j]).decision
  }

  /** The record is of decision o, made under the key. */
  predicate Tells(r: DecisionRecord, key: AttemptKey, o: Decision) {
    Agrees(r, o) && AttemptKey(r.demand, r.attempt) == key
  }

  /** Each decision is recorded once, below the next id to be issued, and o, if it
      is there, as it was answered. */
  ghost predicate Tidy(log: seq<Record>, next: nat, key: AttemptKey, o: Decision) {
    OncePerDecision(log) && AllBelow(log, next) &&
    forall i :: 0 <= i < |log| && Settles(log[i], o.decision) ==> Tells(DecisionIn(log[i]), key, o)
  }

  /** So is every content the journal has passed through. */
  ghost predicate StaysTidy(j: JournalState, j': JournalState, next: nat, key: AttemptKey, o: Decision) {
    j'.attached == j.attached && j.images <= j'.images && Tidy(j'.log, next, key, o) &&
    forall i :: |j.images| <= i < |j'.images| ==> Tidy(j'.images[i], next, key, o)
  }

  lemma TidyLater(log: seq<Record>, next: nat, next': nat, key: AttemptKey, o: Decision)
    requires Tidy(log, next, key, o) && next <= next'
    ensures Tidy(log, next', key, o)
  {}

  lemma TidySelf(j: JournalState, j': JournalState, next: nat, key: AttemptKey, o: Decision)
    requires Tidy(j.log, next, key, o) && j'.attached == j.attached && j'.images == j.images && j'.log == j.log
    ensures StaysTidy(j, j', next, key, o)
  {}

  lemma TidyTransitive(a: JournalState, b: JournalState, c: JournalState, next: nat, next': nat, key: AttemptKey, o: Decision)
    requires StaysTidy(a, b, next, key, o) && StaysTidy(b, c, next', key, o) && next <= next'
    ensures StaysTidy(a, c, next', key, o)
  {
    forall i | |a.images| <= i < |c.images| ensures Tidy(c.images[i], next', key, o) {
      if i < |b.images| {
        assert c.images[i] == b.images[i];
        TidyLater(b.images[i], next, next', key, o);
      }
    }
  }

  /** The record may be added: it is no decision, or a new one, and o's own if it
      carries o's id. */
  ghost predicate MayAdd(log: seq<Record>, r: Record, next: nat, key: AttemptKey, o: Decision) {
    IsDecision(r) ==>
      AllBelow(log, DecisionIn(r).decision) && DecisionIn(r).decision < next &&
      (DecisionIn(r).decision == o.decision ==> Tells(DecisionIn(r), key, o))
  }

  lemma TidySnoc(log: seq<Record>, r: Record, next: nat, key: AttemptKey, o: Decision)
    requires Tidy(log, next, key, o) && MayAdd(log, r, next, key, o)
    ensures Tidy(log + [r], next, key, o)
  {
    AllBelowSnoc(log, r, next);
  }

  lemma WriteTidy(s: State, r: Record, next: nat, key: AttemptKey, o: Decision)
    requires Tidy(s.journal.log, next, key, o) && MayAdd(s.journal.log, r, next, key, o)
    ensures StaysTidy(s.journal, Write(s, r).1.journal, next, key, o)
  {
    TidySnoc(s.journal.log, r, next, key, o);
  }

  // ------------------------------------------------------------------
  // Compaction
  // ------------------------------------------------------------------

  /** Every decision in the log is one of the records. */
  ghost predicate Within(log: seq<Record>, ordered: seq<DecisionRecord>) {
    forall i :: 0 <= i < |log| && IsDecision(log[i]) ==> DecisionIn(log[i]) in ordered
  }

  ghost predicate DistinctIds(ordered: seq<DecisionRecord>) {
    forall i, j :: 0 <= i < j < |ordered| ==> ordered[i].decision != ordered[j].decision
  }

  ghost predicate AllTell(ordered: seq<DecisionRecord>, next: nat, key: AttemptKey, o: Decision) {
    forall i :: 0 <= i < |ordered| ==> ordered[i].decision < next && (ordered[i].decision == o.decision ==> Tells(ordered[i], key, o))
  }

  lemma OnceSnoc(log: seq<Record>, r: Record, ordered: seq<DecisionRecord>)
    requires OncePerDecision(log) && Within(log, ordered) && IsDecision(r)
    requires forall i :: 0 <= i < |ordered| ==> ordered[i].decision != DecisionIn(r).decision
    ensures OncePerDecision(log + [r]) && Within(log + [r], ordered + [DecisionIn(r)])
  {
    forall i | 0 <= i < |log| && IsDecision(log[i]) ensures DecisionIn(log[i]).decision != DecisionIn(r).decision {
      assert DecisionIn(log[i]) in ordered;
    }
    forall i | 0 <= i < |log + [r]| && IsDecision((log + [r])[i]) ensures DecisionIn((log + [r])[i]) in ordered + [DecisionIn(r)] {
      if i < |log| {
        assert DecisionIn(log[i]) in ordered;
      } else {
        assert (ordered + [DecisionIn(r)])[|ordered|] == DecisionIn(r);
      }
    }
  }

  lemma OnceOther(log: seq<Record>, r: Record, ordered: seq<DecisionRecord>)
    requires OncePerDecision(log) && Within(log, ordered) && !IsDecision(r)
    ensures OncePerDecision(log + [r]) && Within(log + [r], ordered)
  {}

  lemma {:induction false} RecordsOnce(head: seq<Record>, l: LedgerState, ordered: seq<DecisionRecord>)
    requires DistinctIds(ordered) && forall i :: 0 <= i < |head| ==> !IsDecision(head[i])
    ensures OncePerDecision(head + CompactedRecords(l, ordered)) && Within(head + CompactedRecords(l, ordered), ordered)
    decreases |ordered|
  {
    if ordered == [] {
      assert head + CompactedRecords(l, ordered) == head;
    } else {
      var n := |ordered| - 1;
      var front, r := ordered[..n], ordered[n];
      RecordsOnce(head, l, front);
      var log := head + CompactedRecords(l, front);
      assert ordered == front + [r];
      if Admitting(r.outcome) && Holds(l, r.decision) {
        var p := AdmissionPrepare(PrepareOf(r, l.byDecision[r.decision]));
        OnceOther(log, p, front);
        OnceSnoc(log + [p], AdmissionCommit(r), front);
        assert head + CompactedRecords(l, ordered) == log + [p] + [AdmissionCommit(r)];
      } else {
        OnceSnoc(log, AdmissionRefused(r), front);
        assert head + CompactedRecords(l, ordered) == log + [AdmissionRefused(r)];
      }
    }
  }

  lemma WithinTidy(log: seq<Record>, ordered: seq<DecisionRecord>, next: nat, key: AttemptKey, o: Decision)
    requires OncePerDecision(log) && Within(log, ordered) && AllTell(ordered, next, key, o)
    ensures Tidy(log, next, key, o)
  {
    forall i | 0 <= i < |log| && IsDecision(log[i])
      ensures DecisionIn(log[i]).decision < next
      ensures DecisionIn(log[i]).decision == o.decision ==> Tells(DecisionIn(log[i]), key, o)
    {
      assert DecisionIn(log[i]) in ordered;
    }
  }

  /** What is left of o in the history tells of it. */
  ghost predicate HistoryTells(s: State, key: AttemptKey, o: Decision) {
    o.decision in s.history.records ==> Tells(s.history.records[o.decision], key, o)
  }

  lemma OrderedTells(s: State, ordered: seq<DecisionRecord>, key: AttemptKey, o: Decision)
    requires Indexed(s.history, s.audit) && IdsBelow(s.history.records, s.nextDecision) && HistoryTells(s, key, o)
    requires ordered == InAuditOrder(s.history)
    ensures DistinctIds(ordered) && AllTell(ordered, s.nextDecision, key, o)
  {
    AuditOrderSound(s.history, s.audit);
  }

  lemma CompactedShape(s: State, ordered: seq<DecisionRecord>) returns (head: seq<Record>, mark: Record)
    requires ordered == InAuditOrder(s.history)
    ensures CompactedLog(s) == head + CompactedRecords(s.ledger, ordered) + [mark] && !IsDecision(mark)
    ensures forall i :: 0 <= i < |head| ==> !IsDecision(head[i])
  {
    head := [BootOf(s)] + (if s.auth.policy.Some? then [PolicyConfig(s.auth.policy.value)] else []);
    mark := AuditMark(AuditMarkRecord(s.audit, s.epoch, |head + CompactedRecords(s.ledger, ordered)|));
  }

  lemma CompactedTidy(s: State, key: AttemptKey, o: Decision)
    requires Consistent(s) && HistoryTells(s, key, o)
    ensures Tidy(CompactedLog(s), s.nextDecision, key, o)
  {
    var ordered := InAuditOrder(s.history);
    OrderedTells(s, ordered, key, o);
    var head, mark := CompactedShape(s, ordered);
    ShapeTidy(head, s.ledger, ordered, mark, s.nextDecision, key, o);
  }

  lemma ShapeTidy(head: seq<Record>, l: LedgerState, ordered: seq<DecisionRecord>, mark: Record, next: nat, key: AttemptKey, o: Decision)
    requires DistinctIds(ordered) && AllTell(ordered, next, key, o) && !IsDecision(mark) && forall i :: 0 <= i < |head| ==> !IsDecision(head[i])
    ensures Tidy(head + CompactedRecords(l, ordered) + [mark], next, key, o)
  {
    RecordsOnce(head, l, ordered);
    OnceOther(head + CompactedRecords(l, ordered), mark, ordered);
    WithinTidy(head + CompactedRecords(l, ordered) + [mark], ordered, next, key, o);
  }

  lemma ReplacedTidy(j: JournalState, log: seq<Record>, next: nat, key: AttemptKey, o: Decision)
    requires Tidy(j.log, next, key, o) && Tidy(log, next, key, o)
    ensures StaysTidy(j, WithLog(Consume(j), log), next, key, o) && StaysTidy(j, Consume(j), next, key, o)
  {}

  lemma CompactTidy(s: State, key: AttemptKey, o: Decision)
    requires Consistent(s) && HistoryTells(s, key, o) && Tidy(s.journal.log, s.nextDecision, key, o)
    ensures StaysTidy(s.journal, Compact(s).1.journal, s.nextDecision, key, o)
  {
    CompactedTidy(s, key, o);
    ReplacedTidy(s.journal, CompactedLog(s), s.nextDecision, key, o);
    TidySelf(s.journal, s.journal, s.nextDecision, key, o);
    CompactWrites(s);
  }

  lemma CompactWrites(s: State)
    ensures Compact(s).1.journal == s.journal || Compact(s).1.journal == Consume(s.journal) ||
      Compact(s).1.journal == WithLog(Consume(s.journal), CompactedLog(s))
  {}

  // ------------------------------------------------------------------
  // Decisions
  // ------------------------------------------------------------------

  /** The engine's journal is tidy and its history tells of o. */
  ghost predicate Recollects(s: State, key: AttemptKey, o: Decision) {
    Tidy(s.journal.log, s.nextDecision, key, o) && HistoryTells(s, key, o)
  }

  /** Decision d, if it is o, is o under its key. */
  predicate MayBe(d: Decision, key: AttemptKey, o: Decision) {
    d.decision == o.decision ==> d == o && AttemptKey(d.demand, d.attempt) == key
  }

  lemma RecordMayBe(auth: Authorities, d: Decision, live: bool, key: AttemptKey, o: Decision)
    requires MayBe(d, key, o)
    ensures
      var r := ToRecord(auth, d).(ledgerLive := live);
      r.decision == o.decision ==> Tells(r, key, o)
  {}

  lemma RefuseTidy(cfg: Config, s: State, req: Request, outcome: Outcome, recordAttempt: bool, key: AttemptKey, o: Decision)
    requires Recollects(s, key, o) && MayBe(BeginDecision(cfg, s, req, outcome).0, key, o)
    ensures StaysTidy(s.journal, Refuse(cfg, s, req, outcome, recordAttempt).1.journal, s.nextDecision + 1, key, o)
  {
    var (d, s1) := BeginDecision(cfg, s, req, outcome);
    TidyLater(s.journal.log, s.nextDecision, s.nextDecision + 1, key, o);
    WriteTidy(s1, AdmissionRefused(ToRecord(s1.auth, d)), s.nextDecision + 1, key, o);
  }

  lemma FiledTells(s: State, d: Decision, r: DecisionRecord, key: AttemptKey, o: Decision)
    requires HistoryTells(s, key, o) && (r.decision == o.decision ==> Tells(r, key, o))
    ensures HistoryTells(Filed(s, d, r, true), key, o)
  {
    TrimSubset(Inserted(s.history, r), s.ledger.byDecision.Keys);
  }

  lemma CompactIfNeededTidy(cfg: Config, s: State, key: AttemptKey, o: Decision)
    requires Consistent(s) && Recollects(s, key, o)
    ensures StaysTidy(s.journal, CompactIfNeeded(cfg, s).1.journal, s.nextDecision, key, o)
  {
    CompactTidy(s, key, o);
    TidySelf(s.journal, s.journal, s.nextDecision, key, o);
  }

  /** Intent and commit, then the compaction if it is due. */
  lemma AdmissionTidy(cfg: Config, s: State, d: Decision, amounts: seq<Amount>, key: AttemptKey, o: Decision)
    requires Opened(s, d) && Admitting(d.outcome) && AscendingAmounts(amounts) && MayBe(d, key, o)
    requires Tidy(s.journal.log, d.decision, key, o) && HistoryTells(s, key, o)
    ensures StaysTidy(s.journal, FinishAdmission(cfg, s, d, amounts).1.journal, s.nextDecision, key, o)
  {
    var next := s.nextDecision;
    var p := AdmissionPrepare(IntentOf(d, amounts));
    var (prepared, s1) := Write(s, p);
    WriteTidy(s, p, d.decision, key, o);
    TidyGrows(s.journal, s1.journal, d.decision, next, key, o);
    var (reserved, l) := Reserved(s1.ledger, HoldOf(d, amounts));
    var s2 := s1.(ledger := l);
    var r := ToRecord(s2.auth, d).(ledgerLive := true);
    var (committed, s3) := Write(s2, AdmissionCommit(r));
    RecordMayBe(s2.auth, d, true, key, o);
    WriteTidy(s2, AdmissionCommit(r), next, key, o);
    TidyTransitive(s.journal, s1.journal, s3.journal, next, next, key, o);
    if prepared && reserved == Ok && committed {
      var s4 := Filed(s3, d, r, true);
      FiledConsistent(cfg, s, d, amounts);
      FiledTells(s3, d, r, key, o);
      CompactIfNeededTidy(cfg, s4, key, o);
      TidyTransitive(s.journal, s3.journal, CompactIfNeeded(cfg, s4).1.journal, next, next, key, o);
    }
    FinishJournals(cfg, s, d, amounts, s1, s2, s3, r);
  }

  lemma TidyGrows(j: JournalState, j': JournalState, next: nat, next': nat, key: AttemptKey, o: Decision)
    requires StaysTidy(j, j', next, key, o) && next <= next'
    ensures StaysTidy(j, j', next', key, o)
  {
    forall i | |j.images| <= i < |j'.images| ensures Tidy(j'.images[i], next', key, o) {
      TidyLater(j'.images[i], next, next', key, o);
    }
  }

  lemma FinishJournals(cfg: Config, s: State, d: Decision, amounts: seq<Amount>, s1: State, s2: State, s3: State, r: DecisionRecord)
    requires s1 == Write(s, AdmissionPrepare(IntentOf(d, amounts))).1 && s2 == s1.(ledger := Reserved(s1.ledger, HoldOf(d, amounts)).1)
    requires r == ToRecord(s2.auth, d).(ledgerLive := true) && s3 == Write(s2, AdmissionCommit(r)).1
    ensures FinishAdmission(cfg, s, d, amounts).1.journal ==
      (if !Write(s, AdmissionPrepare(IntentOf(d, amounts))).0 || Reserved(s1.ledger, HoldOf(d, amounts)).0 != Ok then s1.journal
       else if !Write(s2, AdmissionCommit(r)).0 then s3.journal
       else CompactIfNeeded(cfg, Filed(s3, d, r, true)).1.journal)
  {}

  lemma AdmitNewTidy(cfg: Config, s: State, req: Request, e: Evaluation, key: AttemptKey, o: Decision)
    requires Consistent(s) && Recollects(s, key, o) && e == EvaluateRequest(s.auth, s.ledger, s.tick, s.pendingReconciliation, req)
    requires MayBe(Begun(cfg, s, req), key, o)
    ensures StaysTidy(s.journal, AdmitNew(cfg, s, req).1.journal, s.nextDecision + 1, key, o)
  {
    AdmitNewDecides(cfg, s, req, e);
    match e
    case Refusal(outcome) => RefuseTidy(cfg, s, req, outcome, true, key, o);
    case Granted(outcome, grant, targets, _, _) =>
      EvaluationSound(s.auth, s.ledger, s.tick, s.pendingReconciliation, req);
      var (d, s1) := (GrantedDecision(cfg, s, req, e), BeginDecision(cfg, s, req, outcome).1);
      assert Opened(s1, d);
      AdmissionTidy(cfg, s1, d, AmountsAt(targets, grant), key, o);
  }

  // ------------------------------------------------------------------
  // The other operations
  // ------------------------------------------------------------------

  lemma OtherWriteTidy(s: State, r: Record, key: AttemptKey, o: Decision)
    requires Tidy(s.journal.log, s.nextDecision, key, o) && !IsDecision(r)
    ensures StaysTidy(s.journal, Write(s, r).1.journal, s.nextDecision, key, o) && Write(s, r).1 == s.(journal := Write(s, r).1.journal)
  {
    WriteTidy(s, r, s.nextDecision, key, o);
  }

  /** The operation wrote no decision and issued none. */
  ghost predicate TidyFor(s: State, s': State, key: AttemptKey, o: Decision) {
    s'.nextDecision == s.nextDecision && StaysTidy(s.journal, s'.journal, s.nextDecision, key, o)
  }

  lemma TidyForSelf(s: State, s': State, key: AttemptKey, o: Decision)
    requires Tidy(s.journal.log, s.nextDecision, key, o) && s'.nextDecision == s.nextDecision && s'.journal == s.journal
    ensures TidyFor(s, s', key, o)
  {
    TidySelf(s.journal, s'.journal, s.nextDecision, key, o);
  }

  lemma TidyForTransitive(a: State, b: State, c: State, key: AttemptKey, o: Decision)
    requires TidyFor(a, b, key, o) && TidyFor(b, c, key, o)
    ensures TidyFor(a, c, key, o)
  {
    TidyTransitive(a.journal, b.journal, c.journal, a.nextDecision, a.nextDecision, key, o);
  }

  lemma OneWriteTidy(s: State, r: Record, key: AttemptKey, o: Decision)
    requires Tidy(s.journal.log, s.nextDecision, key, o) && !IsDecision(r)
    ensures TidyFor(s, Write(s, r).1, key, o)
  {
    OtherWriteTidy(s, r, key, o);
  }

  lemma ReleaseTidy(s: State, d: nat, reason: RevocationReason, key: AttemptKey, o: Decision)
    requires Tidy(s.journal.log, s.nextDecision, key, o)
    ensures TidyFor(s, ReleaseDecision(s, d, reason, Revoked).1, key, o)
  {
    TidyForSelf(s, s, key, o);
    if Holds(s.ledger, d) {
      var a := LedgerRelease(ReleaseRecord(d, s.epoch, reason, s.ledger.byDecision[d]));
      var b := Model.Revocation(RevocationRecord(d, s.epoch, s.audit, reason, Revoked));
      OneWriteTidy(s, a, key, o);
      var s1 := Write(s, a).1;
      var s2 := s1.(ledger := ReleasedLoad(s1.ledger, d).1);
      OneWriteTidy(s2, b, key, o);
      TidyForTransitive(s, s1, Write(s2, b).1, key, o);
      ReleaseJournals(s, d, reason, s1, Write(s2, b).1);
    }
  }

  lemma ReleaseJournals(s: State, d: nat, reason: RevocationReason, s1: State, s3: State)
    requires Holds(s.ledger, d) && s1 == Write(s, LedgerRelease(ReleaseRecord(d, s.epoch, reason, s.ledger.byDecision[d]))).1
    requires s3 == Write(s1.(ledger := ReleasedLoad(s1.ledger, d).1), Model.Revocation(RevocationRecord(d, s.epoch, s.audit, reason, Revoked))).1
    ensures
      var s' := ReleaseDecision(s, d, reason, Revoked).1;
      s'.nextDecision == s.nextDecision && (s'.journal == s1.journal || s'.journal == s3.journal)
  {}

  lemma OneTidy(s: State, reason: RevocationReason, r: DecisionRecord, key: AttemptKey, o: Decision)
    requires Tidy(s.journal.log, s.nextDecision, key, o)
    ensures TidyFor(s, EnforceOne(s, reason, r).1, key, o)
  {
    TidyForSelf(s, s, key, o);
    ReleaseTidy(s, r.decision, reason, key, o);
  }

  lemma {:induction false} PassTidy(s: State, reason: RevocationReason, ordered: seq<DecisionRecord>, n: nat, key: AttemptKey, o: Decision)
    requires n <= |ordered| && Tidy(s.journal.log, s.nextDecision, key, o)
    ensures TidyFor(s, EnforceFrom(s, reason, ordered, n).1, key, o)
    decreases n
  {
    TidyForSelf(s, s, key, o);
    if n > 0 {
      var (st, s1, k) := EnforceOne(s, reason, ordered[n - 1]);
      OneTidy(s, reason, ordered[n - 1], key, o);
      if st == Ok {
        PassTidy(s1, reason, ordered, n - 1, key, o);
        TidyForTransitive(s, s1, EnforceFrom(s1, reason, ordered, n - 1).1, key, o);
      }
    }
  }

  lemma FinishTidy(st: Status, s: State, revoked: nat, key: AttemptKey, o: Decision)
    requires Tidy(s.journal.log, s.nextDecision, key, o)
    ensures TidyFor(s, FinishEnforcement(st, s, revoked).1, key, o)
  {
    TidyForSelf(s, s, key, o);
    var s1 := s.(ledger := Flagged(s.ledger, false), pendingReconciliation := false);
    TidyForSelf(s, s1, key, o);
    OneWriteTidy(s1, AuditMark(AuditMarkRecord(s1.audit, s1.epoch, |s1.journal.log|)), key, o);
  }

  lemma EnforceTidy(s: State, reason: RevocationReason, key: AttemptKey, o: Decision)
    requires Tidy(s.journal.log, s.nextDecision, key, o)
    ensures TidyFor(s, Enforce(s, reason).1, key, o)
  {
    TidyForSelf(s, s, key, o);
    if s.auth.capacity.Some? {
      var ordered := InAuditOrder(s.history);
      PassTidy(s, reason, ordered, |ordered|, key, o);
      var (st, s1, revoked) := EnforceFrom(s, reason, ordered, |ordered|);
      FinishTidy(st, s1, revoked, key, o);
      TidyForTransitive(s, s1, FinishEnforcement(st, s1, revoked).1, key, o);
    }
  }

  lemma PolicyTidy(s: State, p: Policy, key: AttemptKey, o: Decision)
    requires Tidy(s.journal.log, s.nextDecision, key, o)
    ensures TidyFor(s, PublishPolicy(s, p).1, key, o)
  {
    TidyForSelf(s, s, key, o);
    var (written, s1) := Write(s, PolicyConfig(p));
    OneWriteTidy(s, PolicyConfig(p), key, o);
    var s2 := s1.(auth := s1.auth.(policy := Some(p)), tick := Later(s1.tick, p.observedTick));
    EnforceTidy(s2, PolicyChange, key, o);
    TidyForTransitive(s, s2, Enforce(s2, PolicyChange).1, key, o);
  }

  lemma CapacityTidy(s: State, c: CapacitySnapshot, key: AttemptKey, o: Decision)
    requires Tidy(s.journal.log, s.nextDecision, key, o)
    ensures TidyFor(s, PublishCapacity(s, c).1, key, o)
  {
    TidyForSelf(s, s, key, o);
    EnforceTidy(s.(auth := s.auth.(capacity := Some(c)), tick := Later(s.tick, c.observedTick)), CapacityReduction, key, o);
  }

  lemma ReservationsTidy(s: State, r: ReservationSnapshot, key: AttemptKey, o: Decision)
    requires Tidy(s.journal.log, s.nextDecision, key, o)
    ensures TidyFor(s, PublishReservations(s, r).1, key, o)
  {
    TidyForSelf(s, s, key, o);
    EnforceTidy(s.(auth := s.auth.(reservations := Some(r)), tick := Later(s.tick, r.observedTick)), ObligationChange, key, o);
  }

  lemma OutdateTidy(s: State, d: nat, key: AttemptKey, o: Decision)
    requires Tidy(s.journal.log, s.nextDecision, key, o) && d in s.history.records
    ensures TidyFor(s, Outdate(s, d).1, key, o)
  {
    OneWriteTidy(s, Model.Revocation(RevocationRecord(d, s.epoch, s.audit, GenerationAdvance, Invalidated)), key, o);
  }

  lemma RevalidateTidy(s: State, d: nat, key: AttemptKey, o: Decision)
    requires Tidy(s.journal.log, s.nextDecision, key, o)
    ensures TidyFor(s, Revalidate(s, d).1, key, o)
  {
    TidyForSelf(s, s, key, o);
    match Examine(s, d)
    case MustRelease(reason) => ReleaseTidy(s, d, reason, key, o);
    case Outdated => OutdateTidy(s, d, key, o);
    case _ => TidyForSelf(s, Revalidate(s, d).1, key, o);
  }

  lemma RevokeTidy(s: State, d: nat, reason: RevocationReason, key: AttemptKey, o: Decision)
    requires Tidy(s.journal.log, s.nextDecision, key, o)
    ensures TidyFor(s, Revoke(s, d, reason).1, key, o)
  {
    TidyForSelf(s, s, key, o);
    ReleaseTidy(s, d, reason, key, o);
  }

  lemma IncarnationTidy(s: State, incarnation: u64, key: AttemptKey, o: Decision)
    requires Tidy(s.journal.log, s.nextDecision, key, o)
    ensures TidyFor(s, NewIncarnation(s, incarnation).1, key, o)
  {
    TidyForSelf(s, s, key, o);
    if s.epoch != MAX64 {
      var s1 := s.(epoch := s.epoch + 1, incarnation := incarnation, sessions := map[], nextNonce := 1);
      OneWriteTidy(s1, BootOf(s1), key, o);
    }
  }

  // ------------------------------------------------------------------
  // Steps and runs
  // ------------------------------------------------------------------

  /** Another decision has another id. */
  lemma BegunIsOther(cfg: Config, s: State, req: Request, key: AttemptKey, o: Decision)
    requires o.decision < s.nextDecision
    ensures MayBe(Begun(cfg, s, req), key, o)
  {}

  lemma RefusedTidy(cfg: Config, s: State, req: Request, outcome: Outcome, recordAttempt: bool, key: AttemptKey, o: Decision)
    requires Recollects(s, key, o) && o.decision < s.nextDecision
    ensures
      var s' := Refuse(cfg, s, req, outcome, recordAttempt).1;
      StaysTidy(s.journal, s'.journal, s'.nextDecision, key, o)
  {
    RefuseTidy(cfg, s, req, outcome, recordAttempt, key, o);
  }

  lemma EvaluatedTidy(cfg: Config, s: State, req: Request, key: AttemptKey, o: Decision)
    requires Consistent(s) && Recollects(s, key, o) && o.decision < s.nextDecision
    ensures
      var s' := AdmitNew(cfg, s, req).1;
      StaysTidy(s.journal, s'.journal, s'.nextDecision, key, o)
  {
    BegunIsOther(cfg, s, req, key, o);
    AdmitNewTidy(cfg, s, req, EvaluateRequest(s.auth, s.ledger, s.tick, s.pendingReconciliation, req), key, o);
    AdmitNewNext(cfg, s, req);
  }

  lemma AdmitTidy(cfg: Config, s: State, req: Request, claim: Claim, key: AttemptKey, o: Decision)
    requires Consistent(s) && Recollects(s, key, o) && o.decision < s.nextDecision
    ensures
      var s' := AdmitRequest(cfg, s, req, claim).1;
      StaysTidy(s.journal, s'.journal, s'.nextDecision, key, o)
  {
    match PlanFor(cfg, s, req, claim)
    case RefuseWith(outcome, recordAttempt) => RefusedTidy(cfg, s, req, outcome, recordAttempt, key, o);
    case ReplayOf(d) => TidySelf(s.journal, s.journal, s.nextDecision, key, o);
    case Evaluate => EvaluatedTidy(cfg, s, req, key, o);
  }

  lemma QuietTidy(cfg: Config, s: State, op: Op, key: AttemptKey, o: Decision)
    requires Tidy(s.journal.log, s.nextDecision, key, o)
    requires op.OpPaths? || op.OpQos? || op.OpPriorities? || op.OpInvalidateCapacity? || op.OpInvalidatePaths? || op.OpRegister? || op.OpRetire? || op.OpTick?
    ensures TidyFor(s, After(cfg, s, op), key, o)
  {
    QuietJournal(cfg, s, op);
    TidyForSelf(s, After(cfg, s, op), key, o);
  }

  lemma QuietJournal(cfg: Config, s: State, op: Op)
    requires op.OpPaths? || op.OpQos? || op.OpPriorities? || op.OpInvalidateCapacity? || op.OpInvalidatePaths? || op.OpRegister? || op.OpRetire? || op.OpTick?
    ensures After(cfg, s, op).journal == s.journal && After(cfg, s, op).nextDecision == s.nextDecision
  {}

  lemma OtherTidy(cfg: Config, s: State, op: Op, key: AttemptKey, o: Decision)
    requires Consistent(s) && Recollects(s, key, o) && !op.OpAdmit?
    ensures TidyFor(s, After(cfg, s, op), key, o)
  {
    match op
    case OpPolicy(p) => PolicyTidy(s, p, key, o);
    case OpCapacity(c) => CapacityTidy(s, c, key, o);
    case OpReservations(r) => ReservationsTidy(s, r, key, o);
    case OpRevalidate(d) => RevalidateTidy(s, d, key, o);
    case OpRevoke(d, reason) => RevokeTidy(s, d, reason, key, o);
    case OpIncarnation(i) => IncarnationTidy(s, i, key, o);
    case OpCompact => CompactTidy(s, key, o);
    case _ => QuietTidy(cfg, s, op, key, o);
  }

  lemma CarriedTells(s: State, s': State, key: AttemptKey, o: Decision)
    requires HistoryTells(s, key, o) && Carries(s, s') && o.decision < s.nextDecision
    ensures HistoryTells(s', key, o)
  {}

  lemma StepTidy(cfg: Config, s: State, op: Op, key: AttemptKey, o: Decision)
    requires Consistent(s) && Recollects(s, key, o) && o.decision < s.nextDecision
    ensures
      var s' := After(cfg, s, op);
      StaysTidy(s.journal, s'.journal, s'.nextDecision, key, o) && Recollects(s', key, o) && s.nextDecision <= s'.nextDecision
  {
    if op.OpAdmit? {
      AdmitTidy(cfg, s, op.request, op.claim, key, o);
    } else {
      OtherTidy(cfg, s, op, key, o);
    }
    StepCarries(cfg, s, op);
    CarriedTells(s, After(cfg, s, op), key, o);
  }

  /** Over every run, in every content the journal passes through. */
  lemma {:induction false} TidyOverRuns(cfg: Config, s: State, ops: seq<Op>, key: AttemptKey, o: Decision)
    requires Consistent(s) && Recollects(s, key, o) && o.decision < s.nextDecision
    ensures
      var s' := Run(cfg, s, ops);
      StaysTidy(s.journal, s'.journal, s'.nextDecision, key, o) && Recollects(s', key, o) && s.nextDecision <= s'.nextDecision
  {
    if ops == [] {
      TidySelf(s.journal, s.journal, s.nextDecision, key, o);
    } else {
      var n := |ops| - 1;
      TidyOverRuns(cfg, s, ops[..n], key, o);
      RunConsistent(cfg, s, ops[..n]);
      var s1 := Run(cfg, s, ops[..n]);
      StepTidy(cfg, s1, ops[n], key, o);
      var s' := After(cfg, s1, ops[n]);
      TidyTransitive(s.journal, s1.journal, s'.journal, s1.nextDecision, s'.nextDecision, key, o);
    }
  }

  // ------------------------------------------------------------------
  // The decision as it is answered
  // ------------------------------------------------------------------

  /** The journal records each decision once, below the next id. */
  ghost predicate Regular(s: State) {
    OncePerDecision(s.journal.log) && AllBelow(s.journal.log, s.nextDecision)
  }

  lemma RefusalTells(cfg: Config, s: State, req: Request, outcome: Outcome)
    requires HistoryTells(s, KeyFor(req), BeginDecision(cfg, s, req, outcome).0)
    ensures HistoryTells(Refuse(cfg, s, req, outcome, true).1, KeyFor(req), BeginDecision(cfg, s, req, outcome).0)
  {
    var (d, s1) := BeginDecision(cfg, s, req, outcome);
    var r := ToRecord(s1.auth, d);
    FiledTells(Write(s1, AdmissionRefused(r)).1, d, r, KeyFor(req), d);
  }

  lemma AdmissionTells(cfg: Config, s: State, d: Decision, amounts: seq<Amount>, key: AttemptKey)
    requires HistoryTells(s, key, d) && AttemptKey(d.demand, d.attempt) == key
    ensures HistoryTells(FinishAdmission(cfg, s, d, amounts).1, key, d)
  {
    var s1 := Write(s, AdmissionPrepare(IntentOf(d, amounts))).1;
    var s2 := s1.(ledger := Reserved(s1.ledger, HoldOf(d, amounts)).1);
    var r := ToRecord(s2.auth, d).(ledgerLive := true);
    FiledTells(Write(s2, AdmissionCommit(r)).1, d, r, key, d);
  }

  lemma AnswerIsBegun(cfg: Config, s: State, req: Request, e: Evaluation)
    requires e == EvaluateRequest(s.auth, s.ledger, s.tick, s.pendingReconciliation, req) && AdmitNew(cfg, s, req).0.Decided?
    ensures AdmitNew(cfg, s, req).0.decision == Begun(cfg, s, req)
  {
    if e.Granted? {
      GrantFinishes(cfg, s, req, e);
    }
  }

  lemma NewIsUntold(s: State, key: AttemptKey, o: Decision)
    requires Consistent(s) && Regular(s) && o.decision == s.nextDecision
    ensures Recollects(s, key, o)
  {}

  lemma AnsweredTells(cfg: Config, s: State, req: Request, e: Evaluation, o: Decision)
    requires e == EvaluateRequest(s.auth, s.ledger, s.tick, s.pendingReconciliation, req) && o == Begun(cfg, s, req)
    requires HistoryTells(s, KeyFor(req), o)
    ensures HistoryTells(AdmitNew(cfg, s, req).1, KeyFor(req), o)
  {
    BegunKey(cfg, s, req);
    match e
    case Refusal(outcome) => RefusalTells(cfg, s, req, outcome);
    case Granted(outcome, grant, targets, _, _) =>
      GrantFinishes(cfg, s, req, e);
      AdmissionTells(cfg, BeginDecision(cfg, s, req, outcome).1, o, AmountsAt(targets, grant), KeyFor(req));
  }

  /** An answered decision is in the journal as it was answered, if at all. */
  lemma AnsweredIsTold(cfg: Config, s: State, req: Request)
    requires Consistent(s) && Regular(s) && AdmitNew(cfg, s, req).0.Decided?
    ensures
      var (answer, s') := AdmitNew(cfg, s, req);
      var o := answer.decision;
      o.decision < s'.nextDecision && o.decision != 0 && Recollects(s', KeyFor(req), o) && Consistent(s') &&
      StaysTidy(s.journal, s'.journal, s'.nextDecision, KeyFor(req), o)
  {
    var e := EvaluateRequest(s.auth, s.ledger, s.tick, s.pendingReconciliation, req);
    var o := Begun(cfg, s, req);
    AnswerIsBegun(cfg, s, req, e);
    BegunKey(cfg, s, req);
    NewIsUntold(s, KeyFor(req), o);
    AdmitNewTidy(cfg, s, req, e, KeyFor(req), o);
    AnsweredTells(cfg, s, req, e, o);
    AdmitNewNext(cfg, s, req);
    AdmitNewSafe(cfg, s, req);
  }
}
