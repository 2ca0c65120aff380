/** Runs of a journaled engine on the small network, each showing a departure. */
module Mishaps {
  import opened Base
  import opened Model
  import opened Ledger
  import opened History
  import opened Attempts
  import opened Evaluate
  import opened Engine
  import opened Invariants
  import opened Enforcement
  import opened Closure
  import opened Recovery
  import opened Restart
  import opened Interrupted
  import opened Collisions
  import opened Fencing
  import opened Reissue
  import opened Answers
  import opened Scenario
  import opened Episodes

  /** A journal that has grown record by record to `log`. */
  function Grown(log: seq<Record>, outcomes: seq<bool>): JournalState {
    JournalState(true, log, seq(|log| + 1, i requires 0 <= i <= |log| => log[..i]), outcomes)
  }

  predicate NextSucceeds(outcomes: seq<bool>) {
    outcomes == [] || outcomes[0]
  }

  function Left(outcomes: seq<bool>): seq<bool> {
    if outcomes == [] then [] else outcomes[1..]
  }

  lemma Grows(log: seq<Record>, outcomes: seq<bool>, r: Record)
    requires NextSucceeds(outcomes)
    ensures Appended(Grown(log, outcomes), r) == (true, Grown(log + [r], Left(outcomes)))
  {
    var a, b := Grown(log, outcomes), Grown(log + [r], Left(outcomes));
    forall i | 0 <= i <= |log| ensures (log + [r])[..i] == log[..i] {}
    assert (log + [r])[..|log| + 1] == log + [r];
    assert b.images == a.images + [log + [r]];
  }

  const BOOT := BootEpoch(BootRecord(1, FORMAT_REVISION, PRODUCT_NAME, 1, 1))

  /** Opening an empty journal gives a fresh engine with its boot record written. */
  lemma OpenedFresh(outcomes: seq<bool>)
    requires NextSucceeds(outcomes)
    ensures OpenDurable(FreshOn(DETACHED), Scan(true, 0), [], outcomes)
         == OpenedWith(RecoveryReport(FreshStart, {}), FreshOn(Grown([BOOT], Left(outcomes))))
  {
    assert LiveGrants(Blank(4, 4)) == map[];
    NothingRestored();
    var s := FreshOn(JournalState(true, [], [[]], outcomes));
    assert Revived(FreshOn(DETACHED), Blank(4, 4), EMPTY_LEDGER, [], outcomes) == s;
    Grows([], outcomes, BOOT);
    assert [] + [BOOT] == [BOOT];
    assert Grown([], outcomes).images == [[]];
  }

  lemma NothingRestored()
    ensures RestoredLedger(map[]) == (Ok, EMPTY_LEDGER)
  {
    var none: map<nat, PrepareRecord> := map[];
    assert none.Keys == {};
    assert SortedKeys({}) == [];
    assert Flagged(EMPTY_LEDGER, true) == EMPTY_LEDGER;
  }

  const POLICY_RECORD := PolicyConfig(POLICY)

  function Intent(cfg: Config): Record {
    AdmissionPrepare(IntentOf(GrantOf(cfg), AMOUNTS))
  }

  function Commit(cfg: Config, usable: u64): Record {
    AdmissionCommit(RecordOf(cfg, usable))
  }

  lemma Supplies(cfg: Config, outcomes: seq<bool>, usable: u64)
    requires NextSucceeds(outcomes)
    ensures Run(cfg, FreshOn(Grown([BOOT], outcomes)), Setup(usable)) == Supplied(Grown([BOOT, POLICY_RECORD], Left(outcomes)), usable)
  {
    Grows([BOOT], outcomes, POLICY_RECORD);
    assert [BOOT] + [POLICY_RECORD] == [BOOT, POLICY_RECORD];
    SetUp(cfg, Grown([BOOT], outcomes), Grown([BOOT, POLICY_RECORD], Left(outcomes)), usable);
  }

  lemma TakesBoth(cfg: Config, outcomes: seq<bool>, usable: u64)
    requires NextSucceeds(outcomes) && NextSucceeds(Left(outcomes)) && cfg.compactAt > 4
    ensures Takes(cfg, usable, Grown([BOOT, POLICY_RECORD], outcomes), Grown([BOOT, POLICY_RECORD, Intent(cfg)], Left(outcomes)),
                  Grown([BOOT, POLICY_RECORD, Intent(cfg), Commit(cfg, usable)], Left(Left(outcomes))))
  {
    Grows([BOOT, POLICY_RECORD], outcomes, Intent(cfg));
    assert [BOOT, POLICY_RECORD] + [Intent(cfg)] == [BOOT, POLICY_RECORD, Intent(cfg)];
    Grows([BOOT, POLICY_RECORD, Intent(cfg)], Left(outcomes), Commit(cfg, usable));
    assert [BOOT, POLICY_RECORD, Intent(cfg)] + [Commit(cfg, usable)] == [BOOT, POLICY_RECORD, Intent(cfg), Commit(cfg, usable)];
  }

  // ------------------------------------------------------------------
  // A publication that failed, repeated
  // ------------------------------------------------------------------

  lemma ReleaseRefused(s: State, r: DecisionRecord, reason: RevocationReason)
    requires Keeps1(s, r) && s.journal.attached && s.journal.outcomes == [false]
    ensures ReleaseDecision(s, 1, reason, Revoked) == (DurableFailure, s.(journal := s.journal.(outcomes := [])))
  {
    assert [false][1..] == [];
  }

  lemma MisfitRefused(s: State, r: DecisionRecord, reason: RevocationReason, s1: State)
    requires r.decision == 1 && Admitting(r.outcome) && Holds(s.ledger, 1) && !Fits(s.auth, s.ledger, 1)
    requires ReleaseDecision(s, 1, reason, Revoked) == (DurableFailure, s1)
    ensures EnforceFrom(s, reason, [r], 1) == (DurableFailure, s1, 0)
  {}

  /** The pass stops at its first journal write and leaves the grant in place. */
  lemma PassStops(s: State, r: DecisionRecord, reason: RevocationReason, generation: u64, usable: u64)
    requires Keeps1(s, r) && s.auth == World(POLICY, CapacityAt(1, generation, usable), 0) && usable < 5
    requires s.journal.attached && s.journal.outcomes == [false]
    ensures Enforce(s, reason) == (DurableFailure, s.(journal := s.journal.(outcomes := [])))
  {
    OneListed(r);
    OneFits(generation, usable);
    ReleaseRefused(s, r, reason);
    MisfitRefused(s, r, reason, s.(journal := s.journal.(outcomes := [])));
  }

  lemma LeftOpen(s: State, r: DecisionRecord)
    requires Keeps1(s, r) && OthersStand(s.auth) && s.auth.capacity.Some? && s.auth.capacity.value.generation == 5
    requires s.journal.attached && s.journal.outcomes == [false]
    ensures
      var c := CapacityAt(1, 6, 1);
      var (first, s1) := PublishCapacity(s, c);
      first == DurableFailure && PublishCapacity(s1, c) == (Ok, s1) && !Closed(s1)
  {
    var c := CapacityAt(1, 6, 1);
    PartsValid(1, false, 6, 1, 1);
    Repeated(s, c);
    ImposedWorld(s.auth, 6, 1);
    PassStops(Imposed(s, c), r, CapacityReduction, 6, 1);
    OneFits(6, 1);
  }

  /** Departure: the release record of the only grant cannot be written, so the
      publication fails; publishing the same snapshot again answers Ok, and a load
      of 5 stays on a resource of capacity 1. */
  lemma RepublishLeavesOpen(cfg: Config)
    requires cfg.acceptInProcess && cfg.compactAt > 4
    ensures
      var start := OpenDurable(FreshOn(DETACHED), Scan(true, 0), [], [true, true, true, true, false]);
      start.OpenedWith? &&
      var s := Run(cfg, start.state, GrantRun(10));
      var c := CapacityAt(1, 6, 1);
      var (first, s1) := PublishCapacity(s, c);
      first == DurableFailure && PublishCapacity(s1, c) == (Ok, s1) && !Closed(s1)
  {
    var outcomes := [true, true, true, true, false];
    OpenedFresh(outcomes);
    var s := GrantedOn(cfg, Left(outcomes), 10);
    HoldingKeeps(cfg, s.journal, 10);
    LeftOpen(s, RecordOf(cfg, 10));
  }

  lemma GrantedOn(cfg: Config, outcomes: seq<bool>, usable: u64) returns (s: State)
    requires cfg.acceptInProcess && cfg.compactAt > 4 && usable >= 5
    requires NextSucceeds(outcomes) && NextSucceeds(Left(outcomes)) && NextSucceeds(Left(Left(outcomes)))
    ensures Run(cfg, FreshOn(Grown([BOOT], outcomes)), GrantRun(usable)) == s
    ensures s == Holding(cfg, s.journal, usable, RecordOf(cfg, usable))
    ensures s.journal == Grown([BOOT, POLICY_RECORD, Intent(cfg), Commit(cfg, usable)], Left(Left(Left(outcomes))))
  {
    var j := Grown([BOOT, POLICY_RECORD], Left(outcomes));
    Grows([BOOT], outcomes, POLICY_RECORD);
    assert [BOOT] + [POLICY_RECORD] == [BOOT, POLICY_RECORD];
    TakesBoth(cfg, Left(outcomes), usable);
    var j2 := Grown([BOOT, POLICY_RECORD, Intent(cfg), Commit(cfg, usable)], Left(Left(Left(outcomes))));
    Granting(cfg, Grown([BOOT], outcomes), j, Grown([BOOT, POLICY_RECORD, Intent(cfg)], Left(Left(outcomes))), j2, usable);
    s := Holding(cfg, j2, usable, RecordOf(cfg, usable));
  }

  // ------------------------------------------------------------------
  // One id, two requests
  // ------------------------------------------------------------------

  const SECOND := Demand(2, [], 5)

  /** What the journal holds if the engine dies between intent and commit. */
  function Torn(cfg: Config): seq<Record> {
    [BOOT, POLICY_RECORD, Intent(cfg)]
  }

  /** What recovery makes of it. */
  function Recovered1(cfg: Config): Recovering {
    Blank(4, 4).(epoch := 1, policy := Some(POLICY), pending := map[1 := IntentOf(GrantOf(cfg), AMOUNTS)])
  }

  lemma TornReplays(cfg: Config)
    ensures ReplayLog(Blank(4, 4), Torn(cfg)) == Replaying(Recovered1(cfg))
  {
    var b := Blank(4, 4);
    HeadReplays();
    ReplaySnoc(b, [BOOT, POLICY_RECORD], Intent(cfg));
    assert [BOOT, POLICY_RECORD] + [Intent(cfg)] == Torn(cfg);
  }

  lemma HeadReplays()
    ensures ReplayLog(Blank(4, 4), [BOOT, POLICY_RECORD]) == Replaying(Blank(4, 4).(epoch := 1, policy := Some(POLICY)))
  {
    var b := Blank(4, 4);
    BootAbsorbed(b);
    PolicyAbsorbed(b.(epoch := 1));
    ReplaySnoc(b, [], BOOT);
    assert [] + [BOOT] == [BOOT];
    ReplaySnoc(b, [BOOT], POLICY_RECORD);
    assert [BOOT] + [POLICY_RECORD] == [BOOT, POLICY_RECORD];
  }

  lemma BootAbsorbed(b: Recovering)
    requires b.epoch == 0
    ensures Absorb(b, BOOT) == Replaying(b.(epoch := 1))
  {}

  lemma PolicyAbsorbed(b: Recovering)
    ensures Absorb(b, POLICY_RECORD) == Replaying(b.(policy := Some(POLICY)))
  {
    PartsValid(1, false, 5, 10, 1);
  }

  /** The reopened engine, apart from its journal. */
  function Reborn1(j: JournalState): State {
    FreshOn(j).(epoch := 2, auth := NO_AUTHORITIES.(policy := Some(POLICY)))
  }

  lemma TornOpens(cfg: Config)
    ensures
      var o := OpenDurable(FreshOn(DETACHED), Scan(false, 0), Torn(cfg), []);
      o.OpenedWith? && o.report.ambiguous == {1} && o.state == Reborn1(o.state.journal) && o.state.journal.outcomes == []
  {
    TornReplays(cfg);
    assert LiveGrants(Recovered1(cfg)) == map[];
    NothingRestored();
    assert Recovered1(cfg).pending.Keys == {1};
  }

  lemma SecondDecided(cfg: Config, j: JournalState)
    requires cfg.acceptInProcess && j.outcomes == []
    ensures
      var answer := AdmitRequest(cfg, Reborn1(j), SECOND, LOCAL).0;
      answer.Decided? && answer.decision.decision == 1 && answer.decision.request == 2
  {
    PartsValid(1, false, 5, 10, 2);
    assert PlanFor(cfg, Reborn1(j), SECOND, LOCAL) == Plan.Evaluate;
    assert EvaluateRequest(Reborn1(j).auth, EMPTY_LEDGER, 0, false, SECOND) == Refusal(StaleInput);
  }

  lemma TornIsCrashContent(cfg: Config)
    requires cfg.acceptInProcess && cfg.compactAt > 4
    ensures CrashContent(Supplied(Grown([BOOT, POLICY_RECORD], []), 10),
                         Holding(cfg, Grown([BOOT, POLICY_RECORD, Intent(cfg), Commit(cfg, 10)], []), 10, RecordOf(cfg, 10)), Torn(cfg))
  {
    var log := [BOOT, POLICY_RECORD, Intent(cfg), Commit(cfg, 10)];
    assert log[..3] == Torn(cfg);
    assert Grown(log, []).images[3] == Torn(cfg);
  }

  /** Departure: the engine writes the intent of decision 1 for the first request
      and dies before the commit. The reopened engine reports decision 1 as
      ambiguous and gives the same id to the next request. */
  lemma TwoRequestsOneId(cfg: Config)
    requires cfg.acceptInProcess && cfg.compactAt > 4
    ensures
      var start := OpenDurable(FreshOn(DETACHED), Scan(true, 0), [], []);
      start.OpenedWith? &&
      var before := Run(cfg, start.state, Setup(10));
      var (answer, after) := AdmitRequest(cfg, before, FIRST, LOCAL);
      answer.Decided? && answer.decision.decision == 1 && answer.decision.request == 1 && CrashContent(before, after, Torn(cfg)) &&
      var o := OpenDurable(FreshOn(DETACHED), Scan(false, 0), Torn(cfg), []);
      o.OpenedWith? && o.report.ambiguous == {1} &&
      var second := AdmitRequest(cfg, o.state, SECOND, LOCAL).0;
      second.Decided? && second.decision.decision == 1 && second.decision.request == 2
  {
    OpenedFresh([]);
    Supplies(cfg, [], 10);
    TakesBoth(cfg, [], 10);
    FirstGranted(cfg, Grown([BOOT, POLICY_RECORD], []), Grown(Torn(cfg), []),
                 Grown([BOOT, POLICY_RECORD, Intent(cfg), Commit(cfg, 10)], []), 10);
    TornIsCrashContent(cfg);
    TornOpens(cfg);
    SecondDecided(cfg, OpenDurable(FreshOn(DETACHED), Scan(false, 0), Torn(cfg), []).state.journal);
  }

  // ------------------------------------------------------------------
  // A grant that enforcement no longer sees
  // ------------------------------------------------------------------

  /** What the journal holds once the first grant is committed. */
  function Committed(cfg: Config): seq<Record> {
    [BOOT, POLICY_RECORD, Intent(cfg), Commit(cfg, 10)]
  }

  function RestoredRecord(cfg: Config): DecisionRecord {
    RecordOf(cfg, 10).(restoredFromDisk := true, ledgerLive := true)
  }

  /** What recovery makes of it, apart from the attempts. */
  function Recovered2(cfg: Config, attempts: AttemptState): Recovering {
    Blank(4, 4).(epoch := 1, policy := Some(POLICY), committed := map[1 := IntentOf(GrantOf(cfg), AMOUNTS)],
      history := HistoryState(4, map[1 := RestoredRecord(cfg)], map[0 := 1], 0), attempts := attempts, maxDecision := 1)
  }

  lemma CommitAbsorbed(cfg: Config) returns (attempts: AttemptState)
    ensures Absorb(Recovered1(cfg), Commit(cfg, 10)) == Replaying(Recovered2(cfg, attempts))
  {
    attempts := Noted(EmptyAttempts(4), RestoredRecord(cfg));
    assert Recovered1(cfg).pending - {1} == map[];
  }

  lemma CommittedReplays(cfg: Config) returns (attempts: AttemptState)
    ensures ReplayLog(Blank(4, 4), Committed(cfg)) == Replaying(Recovered2(cfg, attempts))
  {
    TornReplays(cfg);
    attempts := CommitAbsorbed(cfg);
    ReplaySnoc(Blank(4, 4), Torn(cfg), Commit(cfg, 10));
    assert Torn(cfg) + [Commit(cfg, 10)] == Committed(cfg);
  }

  lemma GrantRestored(cfg: Config)
    ensures RestoredLedger(map[1 := IntentOf(GrantOf(cfg), AMOUNTS)]) == (Ok, Flagged(ONE, true))
  {
    var grants := map[1 := IntentOf(GrantOf(cfg), AMOUNTS)];
    assert grants.Keys == {1};
    SortedKeysCount({1});
    assert 1 in SortedKeys({1});
    assert SortedKeys({1}) == [1];
    GrantReserved(cfg);
    assert RestoreFirst(grants, [1], 0) == (Ok, EMPTY_LEDGER);
    assert RestoreFirst(grants, [1], 1) == (Ok, ONE);
  }

  /** The engine reopened on the committed grant, apart from journal and attempts. */
  function Reborn2(cfg: Config, j: JournalState, attempts: AttemptState): State {
    Reborn1(j).(ledger := Flagged(ONE, true), history := HistoryState(4, map[1 := RestoredRecord(cfg)], map[0 := 1], 0),
      attempts := attempts, nextDecision := 2, pendingReconciliation := true)
  }

  lemma CommittedOpens(cfg: Config) returns (attempts: AttemptState)
    ensures
      var o := OpenDurable(FreshOn(DETACHED), Scan(false, 0), Committed(cfg), []);
      o.OpenedWith? && o.state == Reborn2(cfg, o.state.journal, attempts) && o.state.journal.outcomes == []
  {
    attempts := CommittedReplays(cfg);
    assert LiveGrants(Recovered2(cfg, attempts)) == map[1 := IntentOf(GrantOf(cfg), AMOUNTS)];
    GrantRestored(cfg);
    var h := Recovered2(cfg, attempts).history;
    assert |h.records| == 1;
    assert TrimIfNeeded(h, Flagged(ONE, true).byDecision.Keys) == h;
    assert 1 in Flagged(ONE, true).byDecision.Keys;
  }

  /** The engine after the refused request, whose record takes audit slot 0. */
  lemma RefusalRecorded(cfg: Config, j: JournalState, attempts: AttemptState) returns (r: DecisionRecord, s1: State)
    requires j.outcomes == []
    ensures AdmitRequest(cfg, Reborn2(cfg, j, attempts), NAMELESS, ANYONE).1 == s1
    ensures
      var answer := AdmitRequest(cfg, Reborn2(cfg, j, attempts), NAMELESS, ANYONE).0;
      answer.Decided? && answer.decision.outcome == RejectPolicy
    ensures s1.ledger == Flagged(ONE, true) && s1.auth == NO_AUTHORITIES.(policy := Some(POLICY)) && s1.epoch == 2 && s1.tick == 0
    ensures r.outcome == RejectPolicy && s1.history == HistoryState(4, map[1 := RestoredRecord(cfg), 2 := r], map[0 := 2], 0)
  {
    var s := Reborn2(cfg, j, attempts);
    assert PlanFor(cfg, s, NAMELESS, ANYONE) == RefuseWith(RejectPolicy, false);
    var (d, s0) := BeginDecision(cfg, s, NAMELESS, RejectPolicy);
    r := ToRecord(s0.auth, d);
    s1 := Refuse(cfg, s, NAMELESS, RejectPolicy, false).1;
    var h := Inserted(s.history, r);
    assert h == HistoryState(4, map[1 := RestoredRecord(cfg), 2 := r], map[0 := 2], 0);
    assert |h.records| == 2;
  }

  lemma SecondListed(cfg: Config, r: DecisionRecord)
    ensures InAuditOrder(HistoryState(4, map[1 := RestoredRecord(cfg), 2 := r], map[0 := 2], 0)) == [r]
  {
    var h := HistoryState(4, map[1 := RestoredRecord(cfg), 2 := r], map[0 := 2], 0);
    assert h.auditIndex.Keys == {0};
    SortedKeysCount({0});
    assert 0 in SortedKeys({0});
    assert SortedKeys({0}) == [0];
    assert [0][..0] == [];
    assert Collect(h, []) == [];
  }

  lemma RefusedPassedOver(s: State, r: DecisionRecord, reason: RevocationReason)
    requires InAuditOrder(s.history) == [r] && !Admitting(r.outcome) && s.auth.capacity.Some?
    ensures Enforce(s, reason) == (Ok, Cleared(s))
  {
    assert EnforceOne(s, reason, r) == (Ok, s, 0);
    OnePass(s, reason, r);
  }

  lemma OneOverdrawn(auth: Authorities)
    requires auth == NO_AUTHORITIES.(policy := Some(POLICY), capacity := Some(CapacityAt(2, 1, 1)))
    ensures !Fits(auth, ONE, 1)
  {
    assert Known(auth, 1) && Allowance(auth, 1) == 1;
    assert !EntryFits(auth, ONE, ONE.byDecision[1][0]);
  }

  lemma OverdrawnUnseen(s: State, r: DecisionRecord)
    requires s.ledger == Flagged(ONE, true) && s.auth == NO_AUTHORITIES.(policy := Some(POLICY)) && s.epoch == 2 && s.tick == 0
    requires InAuditOrder(s.history) == [r] && !Admitting(r.outcome)
    ensures
      var (st, s2) := PublishCapacity(s, CapacityAt(2, 1, 1));
      st == Ok && s2.auth.capacity == Some(CapacityAt(2, 1, 1)) && Admitted(s2.ledger, 1) == 5 && !Closed(s2)
  {
    var c := CapacityAt(2, 1, 1);
    PartsValid(2, false, 1, 1, 1);
    var s1 := s.(auth := s.auth.(capacity := Some(c)));
    RefusedPassedOver(s1, r, CapacityReduction);
    assert PublishCapacity(s, c) == (Ok, Cleared(s1));
    assert Flagged(Flagged(ONE, true), false) == ONE by {
      assert WithFlags(WithFlags([ENTRY], true), false) == [ENTRY];
    }
    OneOverdrawn(s1.auth);
  }

  /** Departure: the engine admits a rate of 5, dies after the commit and is
      reopened. One refused request takes the grant's audit slot, and the
      publication of a capacity of 1 is then answered Ok with the 5 still held. */
  lemma CollisionLeavesOpen(cfg: Config)
    requires cfg.acceptInProcess && cfg.compactAt > 4
    ensures
      var start := OpenDurable(FreshOn(DETACHED), Scan(true, 0), [], []);
      start.OpenedWith? &&
      Run(cfg, start.state, GrantRun(10)).journal.log == Committed(cfg) &&
      var o := OpenDurable(FreshOn(DETACHED), Scan(false, 0), Committed(cfg), []);
      o.OpenedWith? &&
      var (refused, s1) := AdmitRequest(cfg, o.state, NAMELESS, ANYONE);
      refused.Decided? && refused.decision.outcome == RejectPolicy &&
      var (st, s2) := PublishCapacity(s1, CapacityAt(2, 1, 1));
      st == Ok && Admitted(s2.ledger, 1) == 5 && !Closed(s2)
  {
    OpenedFresh([]);
    var s := GrantedOn(cfg, [], 10);
    var attempts := CommittedOpens(cfg);
    SlotLost(cfg, OpenDurable(FreshOn(DETACHED), Scan(false, 0), Committed(cfg), []).state, attempts);
  }

  lemma SlotLost(cfg: Config, s: State, attempts: AttemptState)
    requires s == Reborn2(cfg, s.journal, attempts) && s.journal.outcomes == []
    ensures
      var (refused, s1) := AdmitRequest(cfg, s, NAMELESS, ANYONE);
      refused.Decided? && refused.decision.outcome == RejectPolicy &&
      var (st, s2) := PublishCapacity(s1, CapacityAt(2, 1, 1));
      st == Ok && Admitted(s2.ledger, 1) == 5 && !Closed(s2)
  {
    var r, s1 := RefusalRecorded(cfg, s.journal, attempts);
    SecondListed(cfg, r);
    OverdrawnUnseen(s1, r);
  }

  // ------------------------------------------------------------------
  // One epoch, two incarnations
  // ------------------------------------------------------------------

  lemma BootOpens()
    ensures OpenDurable(FreshOn(DETACHED), Scan(false, 0), [BOOT], []).OpenedWith?
  {
    var b := Blank(4, 4);
    BootAbsorbed(b);
    ReplaySnoc(b, [], BOOT);
    assert [] + [BOOT] == [BOOT];
    assert LiveGrants(b.(epoch := 1)) == map[];
    NothingRestored();
  }

  lemma FirstEpochOnly()
    ensures BootReaches([BOOT], 1) && !BootReaches([BOOT], 2)
  {
    assert [BOOT][0].boot.epoch == 1;
  }

  /** Departure: the boot record of the second epoch cannot be written, a session
      is granted in that epoch all the same, and the engine dies. The reopened
      engine is in the second epoch again, and once it has granted a session the
      claim from before the restart passes the fence. */
  lemma ClaimOutlivesRestart(cfg: Config)
    requires cfg.sessionCapacity > 0
    ensures
      var start := OpenDurable(FreshOn(DETACHED), Scan(true, 0), [], [true, false]);
      start.OpenedWith? &&
      var (st, s1) := NewIncarnation(start.state, 1);
      var (answer, s2) := Register(cfg, s1, 7, 7);
      st == DurableFailure && answer.Registered? && answer.grant.epoch == 2 && s2.journal.log == [BOOT] &&
      var o := OpenDurable(FreshOn(DETACHED), Scan(false, 0), s2.journal.log, []);
      o.OpenedWith? && FenceVerdict(cfg, Register(cfg, o.state, 7, 7).1, ClaimFrom(answer.grant, Claimant)) == Admit
  {
    OpenedFresh([true, false]);
    var s := FreshOn(Grown([BOOT], [false]));
    assert Left([true, false]) == [false];
    BootOpens();
    FirstEpochOnly();
    FirstSession(cfg, s, 1, 7, 7);
    EpochReissued(cfg, s, 1, 7, 7, FreshOn(DETACHED), Scan(false, 0), [], Claimant);
  }

  // ------------------------------------------------------------------
  // Answers at odds with the ledger
  // ------------------------------------------------------------------

  /** A claim without an epoch, as no session grants it. */
  const STRANGER := Claim(Claimant, 3, 3, 3, 1, 0)

  /** Departure: the first request is granted and a stranger repeats it. The
      rightful claimant who then repeats it is told it was fenced, under a new
      decision, while decision 1 holds its load. */
  lemma StrangerHidesGrant(cfg: Config)
    requires cfg.acceptInProcess
    ensures
      var s := Run(cfg, FreshOn(DETACHED), GrantRun(10));
      var s1 := AdmitRequest(cfg, s, FIRST, STRANGER).1;
      var (answer, s2) := AdmitRequest(cfg, s1, FIRST, LOCAL);
      KeyFor(FIRST) in s.attempts.attempts && s.attempts.attempts[KeyFor(FIRST)].decision == 1 &&
      KeyFor(FIRST) in s1.attempts.attempts && s1.attempts.attempts[KeyFor(FIRST)] != s.attempts.attempts[KeyFor(FIRST)] &&
      answer.Decided? && answer.decision.decision == 2 && answer.decision.outcome == FencedClaimant && s2.ledger == ONE
  {
    var s := Holding(cfg, DETACHED, 10, RecordOf(cfg, 10));
    Granting(cfg, DETACHED, DETACHED, DETACHED, DETACHED, 10);
    IssuedOverRuns(cfg, FreshOn(DETACHED), GrantRun(10));
    HoldingRemembers(cfg);
    StrangerFenced(cfg, s);
    FenceOverwritesIff(cfg, s, FIRST, STRANGER);
    FenceHidesGrant(cfg, s, FIRST, STRANGER, LOCAL);
  }

  lemma StrangerFenced(cfg: Config, s: State)
    requires cfg.acceptInProcess && !s.journal.attached
    ensures FencedOnRecord(cfg, s, FIRST, STRANGER) && FenceVerdict(cfg, s, STRANGER) == FencedClaimant && FenceVerdict(cfg, s, LOCAL) == Admit
  {
    PartsValid(1, false, 5, 10, 1);
  }

  lemma HoldingRemembers(cfg: Config)
    ensures
      var a := Holding(cfg, DETACHED, 10, RecordOf(cfg, 10)).attempts.attempts;
      KeyFor(FIRST) in a && a[KeyFor(FIRST)].decision == 1
  {}

  lemma SuppliedConsistent(cfg: Config, outcomes: seq<bool>)
    requires NextSucceeds(outcomes)
    ensures Consistent(Supplied(Grown([BOOT, POLICY_RECORD], Left(outcomes)), 10))
  {
    InitialConsistent(1, 1, 0, 4, 4);
    JournalConsistent(Initial(1, 1, 0, 4, 4), Grown([BOOT], outcomes));
    Supplies(cfg, outcomes, 10);
    RunConsistent(cfg, FreshOn(Grown([BOOT], outcomes)), Setup(10));
  }

  lemma CompactionRefused(cfg: Config)
    requires cfg.compactAt == 4
    ensures CompactionFails(cfg, Grown([BOOT, POLICY_RECORD], [true, true, false]))
  {}

  lemma FailsHeld(cfg: Config, outcomes: seq<bool>)
    requires cfg.acceptInProcess && cfg.compactAt == 4 && outcomes == [true, true, true, false]
    ensures
      var (answer, s') := AdmitRequest(cfg, Supplied(Grown([BOOT, POLICY_RECORD], Left(outcomes)), 10), FIRST, LOCAL);
      answer.Failed? && 1 in s'.ledger.byDecision
  {
    assert Left(outcomes) == [true, true, false];
    var j := Grown([BOOT, POLICY_RECORD], Left(outcomes));
    SuppliedConsistent(cfg, outcomes);
    CompactionRefused(cfg);
    FirstEvaluates(cfg, j);
    FailsHeldOn(cfg, j);
  }

  lemma FirstEvaluates(cfg: Config, j: JournalState)
    requires cfg.acceptInProcess
    ensures AdmitRequest(cfg, Supplied(j, 10), FIRST, LOCAL) == AdmitNew(cfg, Supplied(j, 10), FIRST)
  {
    GrantPlanned(cfg, j, 10);
  }

  lemma FailsHeldOn(cfg: Config, j: JournalState)
    requires Consistent(Supplied(j, 10)) && CompactionFails(cfg, j)
    ensures
      var (answer, s') := AdmitNew(cfg, Supplied(j, 10), FIRST);
      answer.Failed? && 1 in s'.ledger.byDecision
  {
    GrantEvaluated(j, 10);
    FailedButHeldIff(cfg, Supplied(j, 10), FIRST);
  }

  /** Departure: intent and commit of the first grant are journaled, the
      compaction then due is not, and the claimant is answered with a failure
      while the load is held. */
  lemma FailedAnswerHeld(cfg: Config)
    requires cfg.acceptInProcess && cfg.compactAt == 4
    ensures
      var start := OpenDurable(FreshOn(DETACHED), Scan(true, 0), [], [true, true, true, true, false]);
      start.OpenedWith? &&
      var (answer, s') := AdmitRequest(cfg, Run(cfg, start.state, Setup(10)), FIRST, LOCAL);
      answer.Failed? && 1 in s'.ledger.byDecision
  {
    var outcomes := [true, true, true, true, false];
    OpenedFresh(outcomes);
    assert Left(outcomes) == [true, true, true, false];
    Supplies(cfg, Left(outcomes), 10);
    FailsHeld(cfg, Left(outcomes));
  }
}
