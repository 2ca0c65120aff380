/** Crash atomicity: at every instant the journal means the state before or the
    state after the operation in progress. */
module Durability {
  import opened Base
  import opened Model
  import opened Ledger
  import opened Engine
  import opened Invariants
  import opened Recovery
  import opened Restoration
  import opened Meaning
  import opened Compaction

  ghost predicate IsBlank(b: Recovering) {
    b == Blank(b.history.capacity, b.attempts.capacity)
  }

  /** What the journal holds means what the engine holds. */
  ghost predicate Current(b: Recovering, s: State, k: Counters) {
    s.journal.attached ==> Means(b, s.journal.log, k, MeaningOf(s))
  }

  ghost predicate Durable(b: Recovering, s: State) {
    IsBlank(b) && Current(b, s, Next(s))
  }

  /** Every content the journal passed through means one or the other. */
  ghost predicate Survivable(b: Recovering, j: JournalState, j': JournalState, k: Counters, before: Meaning, after: Meaning) {
    j.attached == j'.attached && j.images <= j'.images &&
    forall i :: |j.images| <= i < |j'.images| ==>
      Means(b, j'.images[i], k, before) || Means(b, j'.images[i], k, after)
  }

  /** The operation is durable once done and atomic under a crash. */
  ghost predicate Landed(b: Recovering, s: State, s': State) {
    Durable(b, s') && Survivable(b, s.journal, s'.journal, Next(s'), MeaningOf(s), MeaningOf(s'))
  }

  lemma SurvivableTransitive(b: Recovering, j: JournalState, j1: JournalState, j2: JournalState, k: Counters, before: Meaning, after: Meaning)
    requires Survivable(b, j, j1, k, before, after) && Survivable(b, j1, j2, k, before, after)
    ensures Survivable(b, j, j2, k, before, after)
  {
    forall i | |j.images| <= i < |j2.images|
      ensures Means(b, j2.images[i], k, before) || Means(b, j2.images[i], k, after)
    {
      if i < |j1.images| {
        assert j2.images[i] == j1.images[i];
      }
    }
  }

  lemma ImageSurvives(b: Recovering, j: JournalState, log: seq<Record>, k: Counters, before: Meaning, after: Meaning)
    requires Means(b, log, k, before) || Means(b, log, k, after)
    ensures Survivable(b, j, WithLog(Consume(j), log), k, before, after)
  {
    var j' := WithLog(Consume(j), log);
    assert j'.images == j.images + [log];
  }

  lemma AppendSurvives(b: Recovering, j: JournalState, r: Record, k: Counters, before: Meaning, after: Meaning)
    requires j.attached ==> Means(b, j.log + [r], k, before) || Means(b, j.log + [r], k, after)
    ensures
      var (ok, j') := Appended(j, r);
      Survivable(b, j, j', k, before, after) && j'.log == (if ok && j.attached then j.log + [r] else j.log)
  {
    if j.attached && !NextFails(j) {
      ImageSurvives(b, j, j.log + [r], k, before, after);
    }
  }

  /** An operation that wrote nothing and changed no load. */
  lemma QuietLands(b: Recovering, s: State, s': State)
    requires Durable(b, s) && s'.ledger.byDecision == s.ledger.byDecision && s'.auth.policy == s.auth.policy
    requires s'.journal.log == s.journal.log && s'.journal.images == s.journal.images && s'.journal.attached == s.journal.attached
    requires NoLater(Next(s), Next(s'))
    ensures Landed(b, s, s')
  {
    if s.journal.attached {
      MeansLater(b, s.journal.log, Next(s), Next(s'), MeaningOf(s));
    }
  }

  /** An operation that tried to write one record with a settled meaning. */
  lemma WriteLands(b: Recovering, s: State, r: Record, s': State)
    requires Durable(b, s) && NoLater(Next(s), Next(s'))
    requires s'.journal == Appended(s.journal, r).1
    requires !Appended(s.journal, r).0 ==> MeaningOf(s') == MeaningOf(s)
    requires s.journal.attached && Appended(s.journal, r).0 ==> Means(b, s.journal.log + [r], Next(s'), MeaningOf(s'))
    ensures Landed(b, s, s')
  {
    var (ok, j') := Appended(s.journal, r);
    if s.journal.attached {
      if ok {
        ImageSurvives(b, s.journal, s.journal.log + [r], Next(s'), MeaningOf(s), MeaningOf(s'));
      } else {
        MeansLater(b, s.journal.log, Next(s), Next(s'), MeaningOf(s));
      }
    }
  }

  lemma SurvivableLater(b: Recovering, j: JournalState, j': JournalState, k: Counters, k': Counters, before: Meaning, after: Meaning)
    requires Survivable(b, j, j', k, before, before) && NoLater(k, k')
    ensures Survivable(b, j, j', k', before, after) && Survivable(b, j, j', k', after, before)
  {
    forall i | |j.images| <= i < |j'.images| ensures Means(b, j'.images[i], k', before) {
      MeansLater(b, j'.images[i], k, k', before);
    }
  }

  /** One of two consecutive operations changes no meaning. */
  lemma LandedTwice(b: Recovering, s: State, s1: State, s2: State)
    requires Landed(b, s, s1) && Landed(b, s1, s2) && NoLater(Next(s1), Next(s2))
    requires MeaningOf(s1) == MeaningOf(s) || (MeaningOf(s1) == MeaningOf(s2) && Next(s1) == Next(s2))
    ensures Landed(b, s, s2)
  {
    if MeaningOf(s1) == MeaningOf(s) {
      SurvivableLater(b, s.journal, s1.journal, Next(s1), Next(s2), MeaningOf(s), MeaningOf(s2));
    }
    SurvivableTransitive(b, s.journal, s1.journal, s2.journal, Next(s2), MeaningOf(s), MeaningOf(s2));
  }

  // ------------------------------------------------------------------
  // Admission
  // ------------------------------------------------------------------

  ghost predicate Intends(b: Recovering, log: seq<Record>, p: PrepareRecord) {
    ReplayLog(b, log).Replaying? && p.decision in ReplayLog(b, log).state.pending && ReplayLog(b, log).state.pending[p.decision] == p
  }

  /** A journaled intent adds no load and is on record as unresolved. */
  lemma IntentMeans(b: Recovering, log: seq<Record>, p: PrepareRecord, k: Counters, m: Meaning)
    requires Means(b, log, k, m) && GoodIntent(p.decision, p)
    ensures Means(b, log + [AdmissionPrepare(p)], k, m) && Intends(b, log + [AdmissionPrepare(p)], p)
  {
    SaysPrepare(ReplayLog(b, log).state, p, k, m);
    ReplaySnoc(b, log, AdmissionPrepare(p));
  }

  lemma CommitMeans(b: Recovering, log: seq<Record>, p: PrepareRecord, r: DecisionRecord, k: Counters, m: Meaning)
    requires Means(b, log, k, m) && Intends(b, log, p) && p.decision == r.decision && k.decision <= r.decision && k.audit <= r.audit && r.decision != 0
    requires Admitting(r.outcome) && !Released(r.state) && Matches(r, p)
    ensures Means(b, log + [AdmissionCommit(r)], Counters(r.decision + 1, r.audit + 1), m.(held := m.held[r.decision := EntriesFor(HoldFrom(p))]))
  {
    SaysCommit(ReplayLog(b, log).state, r, k, m);
    ReplaySnoc(b, log, AdmissionCommit(r));
  }

  lemma RefusedMeans(b: Recovering, log: seq<Record>, r: DecisionRecord, k: Counters, m: Meaning)
    requires Means(b, log, k, m) && k.decision <= r.decision && k.audit <= r.audit && r.decision != 0
    ensures Means(b, log + [AdmissionRefused(r)], Counters(r.decision + 1, r.audit + 1), m)
  {
    SaysRefused(ReplayLog(b, log).state, r, k, m);
    ReplaySnoc(b, log, AdmissionRefused(r));
  }

  lemma CompactLands(b: Recovering, s: State)
    requires Durable(b, s) && Consistent(s) && (s.journal.attached ==> HeldDecodable(s.ledger))
    ensures Landed(b, s, Compact(s).1)
  {
    var s' := Compact(s).1;
    if s.journal.attached && !NextFails(s.journal) {
      CompactionPreservesMeaning(b, s);
      ImageSurvives(b, s.journal, CompactedLog(s), Next(s), MeaningOf(s), MeaningOf(s'));
    } else {
      QuietLands(b, s, s');
    }
  }

  lemma HeldFromMeans(b: Recovering, s: State)
    requires Durable(b, s) && s.journal.attached
    ensures HeldDecodable(s.ledger)
  {
    var t := TableOf(LiveGrants(ReplayLog(b, s.journal.log).state));
    forall d | d in s.ledger.byDecision ensures |s.ledger.byDecision[d]| <= MAX_RESOURCE_BINDINGS {
      assert d in t;
      assert |WithFlags(t[d], false)| == |WithFlags(s.ledger.byDecision[d], false)|;
    }
  }

  lemma CompactIfNeededLands(b: Recovering, cfg: Config, s: State)
    requires Durable(b, s) && Consistent(s)
    ensures
      var s' := CompactIfNeeded(cfg, s).1;
      Landed(b, s, s') && MeaningOf(s') == MeaningOf(s) && Next(s') == Next(s)
  {
    if !s.journal.attached || |s.journal.log| < cfg.compactAt {
      QuietLands(b, s, s);
    } else {
      HeldFromMeans(b, s);
      CompactLands(b, s);
    }
  }

  lemma RefuseLands(b: Recovering, cfg: Config, s: State, req: Request, outcome: Outcome, recordAttempt: bool)
    requires Durable(b, s) && Consistent(s)
    ensures Landed(b, s, Refuse(cfg, s, req, outcome, recordAttempt).1)
  {
    var s' := Refuse(cfg, s, req, outcome, recordAttempt).1;
    var (d, s1) := BeginDecision(cfg, s, req, outcome);
    var r := ToRecord(s1.auth, d);
    if s.journal.attached {
      RefusedMeans(b, s.journal.log, r, Next(s), MeaningOf(s));
    }
    WriteLands(b, s, AdmissionRefused(r), s');
  }

  /** The state as the admission of d begins: its identity is consumed. */
  ghost predicate Begins(b: Recovering, s0: State, s: State, d: Decision, amounts: seq<Amount>) {
    Durable(b, s0) && Consistent(s0) && s == s0.(nextDecision := s0.nextDecision + 1, audit := s0.audit + 1) &&
    d.decision == s0.nextDecision && d.audit == s0.audit && Admitting(d.outcome) &&
    AscendingAmounts(amounts) && Decodable(IntentOf(d, amounts))
  }

  lemma PrepareLands(b: Recovering, s0: State, s: State, d: Decision, amounts: seq<Amount>)
    requires Begins(b, s0, s, d, amounts)
    ensures
      var p := IntentOf(d, amounts);
      var (prepared, s1) := Write(s, AdmissionPrepare(p));
      Landed(b, s0, s1) && MeaningOf(s1) == MeaningOf(s0) &&
      (prepared && s.journal.attached ==> Means(b, s1.journal.log, Counters(d.decision, d.audit), MeaningOf(s0)) && Intends(b, s1.journal.log, p))
  {
    var p := IntentOf(d, amounts);
    var (prepared, s1) := Write(s, AdmissionPrepare(p));
    if s.journal.attached {
      IntentMeans(b, s.journal.log, p, Counters(d.decision, d.audit), MeaningOf(s0));
      MeansLater(b, s.journal.log + [AdmissionPrepare(p)], Counters(d.decision, d.audit), Next(s), MeaningOf(s0));
    }
    WriteLands(b, s0, AdmissionPrepare(p), s1);
  }

  lemma CommitLands(b: Recovering, s1: State, s3: State, d: Decision, amounts: seq<Amount>, r: DecisionRecord)
    requires Durable(b, s1) && Next(s1) == Next(s3) == Counters(d.decision + 1, d.audit + 1) && d.decision != 0 && r.decision == d.decision && r.audit == d.audit
    requires Admitting(r.outcome) && !Released(r.state) && Matches(r, IntentOf(d, amounts))
    requires s1.journal.attached ==> Means(b, s1.journal.log, Counters(d.decision, d.audit), MeaningOf(s1)) && Intends(b, s1.journal.log, IntentOf(d, amounts))
    requires s3.journal == Appended(s1.journal, AdmissionCommit(r)).1 && Appended(s1.journal, AdmissionCommit(r)).0
    requires s3.auth == s1.auth && s3.ledger.byDecision == s1.ledger.byDecision[d.decision := EntriesFor(HoldOf(d, amounts))]
    ensures Landed(b, s1, s3)
  {
    if s1.journal.attached {
      CommitMeans(b, s1.journal.log, IntentOf(d, amounts), r, Counters(d.decision, d.audit), MeaningOf(s1));
    }
    WriteLands(b, s1, AdmissionCommit(r), s3);
  }

  lemma FileLands(b: Recovering, cfg: Config, s1: State, s3: State, s4: State)
    requires Landed(b, s1, s3) && Consistent(s4) && s4.ledger == s3.ledger && s4.auth == s3.auth && s4.journal == s3.journal
    requires Next(s1) == Next(s3) == Next(s4)
    ensures Landed(b, s1, CompactIfNeeded(cfg, s4).1)
  {
    QuietLands(b, s3, s4);
    LandedTwice(b, s1, s3, s4);
    CompactIfNeededLands(b, cfg, s4);
    var s5 := CompactIfNeeded(cfg, s4).1;
    LandedTwice(b, s1, s4, s5);
  }

  /** An admission that fills no journal ends at the filed decision. */
  lemma FinishFiles(c: Config, s: State, d: Decision, amounts: seq<Amount>)
    requires c.compactAt == |s.journal.log| + 3
    ensures
      var (prepared, s1) := Write(s, AdmissionPrepare(IntentOf(d, amounts)));
      var (reserved, l) := Reserved(s1.ledger, HoldOf(d, amounts));
      var s2 := s1.(ledger := l);
      var r := ToRecord(s2.auth, d).(ledgerLive := true);
      var (committed, s3) := Write(s2, AdmissionCommit(r));
      prepared && reserved == Ok && committed ==> FinishAdmission(c, s, d, amounts).1 == Filed(s3, d, r, true)
  {}

  lemma FiledConsistent(cfg: Config, s: State, d: Decision, amounts: seq<Amount>)
    requires Opened(s, d) && Admitting(d.outcome) && AscendingAmounts(amounts)
    ensures
      var (prepared, s1) := Write(s, AdmissionPrepare(IntentOf(d, amounts)));
      var (reserved, l) := Reserved(s1.ledger, HoldOf(d, amounts));
      var s2 := s1.(ledger := l);
      var r := ToRecord(s2.auth, d).(ledgerLive := true);
      var (committed, s3) := Write(s2, AdmissionCommit(r));
      prepared && reserved == Ok && committed ==> Consistent(Filed(s3, d, r, true))
  {
    var c := cfg.(compactAt := |s.journal.log| + 3);
    FinishFiles(c, s, d, amounts);
    AdmissionKeeps(c, s, d, amounts);
  }

  /** The state between intent and commit: the load of d is in the ledger. */
  ghost predicate Between(b: Recovering, s1: State, s2: State, d: Decision, amounts: seq<Amount>) {
    Durable(b, s1) && Next(s1) == Counters(d.decision + 1, d.audit + 1) && d.decision != 0 && Admitting(d.outcome) && DistinctAmounts(amounts) &&
    Conserved(s1.ledger) && Reserved(s1.ledger, HoldOf(d, amounts)).0 == Ok && s2 == s1.(ledger := Reserved(s1.ledger, HoldOf(d, amounts)).1) &&
    (s1.journal.attached ==> Means(b, s1.journal.log, Counters(d.decision, d.audit), MeaningOf(s1)) && Intends(b, s1.journal.log, IntentOf(d, amounts)))
  }

  lemma CommittedLands(b: Recovering, cfg: Config, s1: State, s2: State, d: Decision, amounts: seq<Amount>, r: DecisionRecord)
    requires Between(b, s1, s2, d, amounts) && r == ToRecord(s2.auth, d).(ledgerLive := true)
    requires Write(s2, AdmissionCommit(r)).0 && Consistent(Filed(Write(s2, AdmissionCommit(r)).1, d, r, true))
    ensures Landed(b, s1, CompactIfNeeded(cfg, Filed(Write(s2, AdmissionCommit(r)).1, d, r, true)).1)
  {
    var s3 := Write(s2, AdmissionCommit(r)).1;
    ReserveConserves(s1.ledger, HoldOf(d, amounts));
    CommitLands(b, s1, s3, d, amounts, r);
    FileLands(b, cfg, s1, s3, Filed(s3, d, r, true));
  }

  lemma UncommittedLands(b: Recovering, s1: State, s2: State, d: Decision, amounts: seq<Amount>, r: DecisionRecord)
    requires Between(b, s1, s2, d, amounts) && !Write(s2, AdmissionCommit(r)).0
    ensures
      var s3 := Write(s2, AdmissionCommit(r)).1;
      Landed(b, s1, s3.(ledger := ReleasedLoad(s3.ledger, d.decision).1))
  {
    var s3 := Write(s2, AdmissionCommit(r)).1;
    UndoneReservation(s1.ledger, HoldOf(d, amounts));
    QuietLands(b, s1, s3.(ledger := ReleasedLoad(s3.ledger, d.decision).1));
  }

  lemma ReservedLands(b: Recovering, cfg: Config, s0: State, s: State, d: Decision, amounts: seq<Amount>)
    requires Begins(b, s0, s, d, amounts)
    requires Write(s, AdmissionPrepare(IntentOf(d, amounts))).0 && Reserved(s.ledger, HoldOf(d, amounts)).0 == Ok
    ensures Landed(b, Write(s, AdmissionPrepare(IntentOf(d, amounts))).1, FinishAdmission(cfg, s, d, amounts).1)
  {
    PrepareLands(b, s0, s, d, amounts);
    var s1 := Write(s, AdmissionPrepare(IntentOf(d, amounts))).1;
    var s2 := s1.(ledger := Reserved(s1.ledger, HoldOf(d, amounts)).1);
    var r := ToRecord(s2.auth, d).(ledgerLive := true);
    assert Between(b, s1, s2, d, amounts);
    if Write(s2, AdmissionCommit(r)).0 {
      assert Opened(s, d);
      FiledConsistent(cfg, s, d, amounts);
      CommittedLands(b, cfg, s1, s2, d, amounts, r);
    } else {
      UncommittedLands(b, s1, s2, d, amounts, r);
    }
  }

  lemma FiledNext(cfg: Config, s: State, d: Decision, r: DecisionRecord)
    ensures Next(CompactIfNeeded(cfg, Filed(s, d, r, true)).1) == Next(s)
  {}

  lemma AdmissionNext(cfg: Config, s: State, d: Decision, amounts: seq<Amount>)
    ensures Next(FinishAdmission(cfg, s, d, amounts).1) == Next(s)
  {
    var s1 := Write(s, AdmissionPrepare(IntentOf(d, amounts))).1;
    var s2 := s1.(ledger := Reserved(s1.ledger, HoldOf(d, amounts)).1);
    var r := ToRecord(s2.auth, d).(ledgerLive := true);
    FiledNext(cfg, Write(s2, AdmissionCommit(r)).1, d, r);
  }

  /** Between intent and commit a crash leaves the state before the admission;
      from the commit on it leaves the state after. */
  lemma AdmissionLands(b: Recovering, cfg: Config, s0: State, s: State, d: Decision, amounts: seq<Amount>)
    requires Begins(b, s0, s, d, amounts)
    ensures Landed(b, s0, FinishAdmission(cfg, s, d, amounts).1)
  {
    var s' := FinishAdmission(cfg, s, d, amounts).1;
    PrepareLands(b, s0, s, d, amounts);
    var (prepared, s1) := Write(s, AdmissionPrepare(IntentOf(d, amounts)));
    if prepared {
      ReserveConserves(s.ledger, HoldOf(d, amounts));
      if Reserved(s.ledger, HoldOf(d, amounts)).0 != Ok {
        QuietLands(b, s1, s');
      } else {
        ReservedLands(b, cfg, s0, s, d, amounts);
      }
      AdmissionNext(cfg, s, d, amounts);
      LandedTwice(b, s0, s1, s');
    }
  }
}
