/** More runs of a journaled engine on the small network, each showing where a
    promise about revocation, revalidation or replay fails. */
module Lapses {
  import opened Base
  import opened Model
  import opened Ledger
  import opened History
  import opened Engine
  import opened Invariants
  import opened Closure
  import opened Recovery
  import opened Interrupted
  import opened Scenario
  import opened Episodes
  import opened Mishaps
  import opened Revocations
  import opened Revalidations
  import opened Idempotence
  import opened Registry
  import opened Lineage
  import opened Recall

  // ------------------------------------------------------------------
  // Released, but not said so
  // ------------------------------------------------------------------

  lemma HoldingConsistent(cfg: Config, outcomes: seq<bool>, s: State)
    requires s == Run(cfg, FreshOn(Grown([BOOT], outcomes)), GrantRun(10))
    ensures Consistent(s)
  {
    InitialConsistent(1, 1, 0, 4, 4);
    JournalConsistent(Initial(1, 1, 0, 4, 4), Grown([BOOT], outcomes));
    RunConsistent(cfg, FreshOn(Grown([BOOT], outcomes)), GrantRun(10));
  }

  lemma OneNotStuck()
    ensures 1 in ONE.byDecision && !Stuck(ONE, 1)
  {
    assert ONE.byDecision[1] == [ENTRY];
  }

  /** Departure: the release record of the only grant is written and the
      revocation record is not. The operator is answered with a failure, and the
      load is gone. */
  lemma ReleasedUnsaid(cfg: Config)
    requires cfg.acceptInProcess && cfg.compactAt > 4
    ensures
      var start := OpenDurable(FreshOn(DETACHED), Scan(true, 0), [], [true, true, true, true, true, false]);
      start.OpenedWith? &&
      var s := Run(cfg, start.state, GrantRun(10));
      var (a, s') := Revoke(s, 1, OperatorRequest);
      a == NotRevalidated(DurableFailure) && 1 in s.ledger.byDecision && 1 !in s'.ledger.byDecision
  {
    var outcomes := [true, true, true, true, true, false];
    OpenedFresh(outcomes);
    var s := GrantedOn(cfg, Left(outcomes), 10);
    assert s.journal.outcomes == [true, false];
    HoldingConsistent(cfg, Left(outcomes), s);
    HalfRevoked(s);
  }

  lemma HalfRevoked(s: State)
    requires Consistent(s) && s.ledger == ONE && s.journal.attached && s.journal.outcomes == [true, false]
    ensures
      var (a, s') := Revoke(s, 1, OperatorRequest);
      a == NotRevalidated(DurableFailure) && 1 !in s'.ledger.byDecision
  {
    OneNotStuck();
    assert Succeeds(s.journal, 0) && !Succeeds(s.journal, 1);
    RevokeExact(s, 1, OperatorRequest);
  }

  // ------------------------------------------------------------------
  // A conflict that hides the grant after a restart
  // ------------------------------------------------------------------

  /** The first demand and attempt again, with other content. */
  const ALTERED := FIRST.(fairnessGroup := 9)

  predicate TellsApart(cfg: Config) {
    cfg.fingerprint(ALTERED) != cfg.fingerprint(FIRST) && cfg.fingerprint(ALTERED) != 0 && cfg.fingerprint(FIRST) != 0
  }

  function ConflictOf(cfg: Config, s: State): Decision {
    BeginDecision(cfg, s, ALTERED, ConflictingInput).0
  }

  lemma HoldingOnRecord(cfg: Config, j: JournalState)
    ensures
      var a := Holding(cfg, j, 10, RecordOf(cfg, 10)).attempts.attempts;
      KeyFor(FIRST) in a && a[KeyFor(FIRST)].fingerprint == cfg.fingerprint(FIRST)
  {}

  lemma AlteredConflicts(cfg: Config, s: State)
    requires cfg.acceptInProcess && TellsApart(cfg) && s == Holding(cfg, s.journal, 10, RecordOf(cfg, 10))
    ensures PlanFor(cfg, s, ALTERED, LOCAL) == RefuseWith(ConflictingInput, false)
  {
    PartsValid(1, false, 5, 10, 1);
    HoldingOnRecord(cfg, s.journal);
  }

  /** The refusal is journaled under the key it conflicts with. */
  lemma ConflictJournaled(cfg: Config, s: State) returns (r: DecisionRecord)
    requires cfg.acceptInProcess && TellsApart(cfg) && s == Holding(cfg, s.journal, 10, RecordOf(cfg, 10))
    requires s.journal == Grown(Committed(cfg), [])
    ensures AdmitRequest(cfg, s, ALTERED, LOCAL).1.journal.log == Committed(cfg) + [AdmissionRefused(r)]
    ensures r.decision == 2 && r.audit == 1 && r.outcome == ConflictingInput && r.demand == FIRST.demand && r.attempt == FIRST.attempt && r.fingerprint == cfg.fingerprint(ALTERED)
  {
    AlteredConflicts(cfg, s);
    r := ToRecord(s.auth, ConflictOf(cfg, s));
    Grows(Committed(cfg), [], AdmissionRefused(r));
  }

  /** What the journal holds then. */
  function Conflicted(cfg: Config, r: DecisionRecord): seq<Record> {
    Committed(cfg) + [AdmissionRefused(r)]
  }

  lemma ConflictReplays(cfg: Config, r: DecisionRecord) returns (st: Recovering)
    requires r.decision == 2
    ensures ReplayLog(Blank(4, 4), Conflicted(cfg, r)) == Replaying(st)
    ensures st.epoch == 1 && LiveGrants(st) == map[1 := IntentOf(GrantOf(cfg), AMOUNTS)]
  {
    var attempts := CommittedReplays(cfg);
    ReplaySnoc(Blank(4, 4), Committed(cfg), AdmissionRefused(r));
    st := Restored(Recovered2(cfg, attempts), r.(restoredFromDisk := true, ledgerLive := false));
    assert forall d :: IsLive(st, d) <==> d == 1;
  }

  lemma ConflictOpens(cfg: Config, r: DecisionRecord)
    requires r.decision == 2
    ensures
      var o := OpenDurable(FreshOn(DETACHED), Scan(false, 0), Conflicted(cfg, r), []);
      o.OpenedWith? && o.state.ledger == Flagged(ONE, true)
  {
    var st := ConflictReplays(cfg, r);
    GrantRestored(cfg);
  }

  lemma ConflictOnce(cfg: Config, r: DecisionRecord)
    requires r.decision == 2
    ensures OncePerDecision(Conflicted(cfg, r)) && Conflicted(cfg, r)[3] == Commit(cfg, 10) && Conflicted(cfg, r)[4] == AdmissionRefused(r)
  {
    var log := Conflicted(cfg, r);
    assert log == [BOOT, POLICY_RECORD, Intent(cfg), Commit(cfg, 10), AdmissionRefused(r)];
  }

  lemma ConflictHides(cfg: Config, r: DecisionRecord)
    requires TellsApart(cfg) && r.decision == 2 && r.demand == FIRST.demand && r.attempt == FIRST.attempt && r.fingerprint == cfg.fingerprint(ALTERED)
    ensures
      var o := OpenDurable(FreshOn(DETACHED), Scan(false, 0), Conflicted(cfg, r), []);
      o.OpenedWith? && 1 in o.state.ledger.byDecision && !Remembered(o.state, KeyFor(FIRST), GrantOf(cfg))
  {
    var log := Conflicted(cfg, r);
    ConflictOpens(cfg, r);
    ConflictOnce(cfg, r);
    assert RegistersUnder(log[4], KeyFor(FIRST));
    assert !LatestUnder(log, KeyFor(FIRST), 3);
    RecalledIff(FreshOn(DETACHED), Blank(4, 4), Scan(false, 0), log, [], KeyFor(FIRST), GrantOf(cfg), 3);
  }

  /** Departure: the first request is granted, a request with other content under
      its demand and attempt is refused, and the engine is reopened. The journal
      holds the grant and the ledger its load, but the key now names the refusal,
      and the engine no longer remembers the grant under it. */
  lemma ConflictHidesGrant(cfg: Config)
    requires cfg.acceptInProcess && cfg.compactAt > 5 && TellsApart(cfg)
    ensures
      var start := OpenDurable(FreshOn(DETACHED), Scan(true, 0), [], []);
      start.OpenedWith? &&
      var s := Run(cfg, start.state, GrantRun(10));
      var log := AdmitRequest(cfg, s, ALTERED, LOCAL).1.journal.log;
      Remembered(s, KeyFor(FIRST), GrantOf(cfg)) && (exists n :: 0 <= n < |log| && Settles(log[n], 1)) &&
      var o := OpenDurable(FreshOn(DETACHED), Scan(false, 0), log, []);
      o.OpenedWith? && 1 in o.state.ledger.byDecision && !Remembered(o.state, KeyFor(FIRST), GrantOf(cfg))
  {
    OpenedFresh([]);
    var s := GrantedOn(cfg, [], 10);
    HoldingRecalls(cfg, s);
    var r := ConflictJournaled(cfg, s);
    ConflictOnce(cfg, r);
    assert Settles(Conflicted(cfg, r)[3], 1);
    ConflictHides(cfg, r);
  }

  lemma HoldingRecalls(cfg: Config, s: State)
    requires s == Holding(cfg, s.journal, 10, RecordOf(cfg, 10))
    ensures Remembered(s, KeyFor(FIRST), GrantOf(cfg))
  {}

  // ------------------------------------------------------------------
  // A grant of an epoch that is used again
  // ------------------------------------------------------------------

  function GrantOf2(cfg: Config): Decision {
    GrantOf(cfg).(epoch := 2)
  }

  const ENTRY2 := ENTRY.(epoch := 2)
  const ONE2 := ONE.(byDecision := map[1 := [ENTRY2]])

  function RecordOf2(cfg: Config): DecisionRecord {
    RecordOf(cfg, 10).(epoch := 2)
  }

  function Intent2(cfg: Config): Record {
    AdmissionPrepare(IntentOf(GrantOf2(cfg), AMOUNTS))
  }

  /** What the journal holds once the grant is committed: no boot record of the
      second epoch. */
  function Committed2(cfg: Config): seq<Record> {
    [BOOT, POLICY_RECORD, Intent2(cfg), AdmissionCommit(RecordOf2(cfg))]
  }

  /** The engine in its second epoch, whose boot record was not written. */
  function Renewed(j: JournalState): State {
    Supplied(j, 10).(epoch := 2)
  }

  lemma RenewalUnwritten()
    ensures NewIncarnation(Supplied(Grown([BOOT, POLICY_RECORD], [false]), 10), 1) == (DurableFailure, Renewed(Grown([BOOT, POLICY_RECORD], [])))
  {
    assert [false][1..] == [];
  }

  lemma Reserves2(cfg: Config)
    ensures Reserved(EMPTY_LEDGER, HoldOf(GrantOf2(cfg), AMOUNTS)) == (Ok, ONE2)
  {
    assert AMOUNTS[..0] == [];
    assert AddAll(map[], AMOUNTS) == map[1 := 5];
    assert EntriesFor(HoldOf(GrantOf2(cfg), AMOUNTS)) == [ENTRY2];
  }

  lemma PlanOf2(cfg: Config, j: JournalState)
    requires cfg.acceptInProcess
    ensures PlanFor(cfg, Renewed(j), FIRST, LOCAL) == Plan.Evaluate
  {
    PartsValid(1, false, 5, 10, 1);
  }

  lemma New2(cfg: Config, j: JournalState)
    ensures AdmitNew(cfg, Renewed(j), FIRST) == FinishAdmission(cfg, Renewed(j).(nextDecision := 2, audit := 1), GrantOf2(cfg), AMOUNTS)
  {
    GrantEvaluated(j, 10);
    assert AmountsAt([1], 5) == AMOUNTS;
  }

  lemma Planned2(cfg: Config, j: JournalState)
    requires cfg.acceptInProcess
    ensures AdmitRequest(cfg, Renewed(j), FIRST, LOCAL) == FinishAdmission(cfg, Renewed(j).(nextDecision := 2, audit := 1), GrantOf2(cfg), AMOUNTS)
  {
    PlanOf2(cfg, j);
    New2(cfg, j);
  }

  lemma Finishes2(cfg: Config)
    requires cfg.compactAt > 4
    ensures
      var (answer, s') := FinishAdmission(cfg, Renewed(Grown([BOOT, POLICY_RECORD], [])).(nextDecision := 2, audit := 1), GrantOf2(cfg), AMOUNTS);
      answer == Decided(GrantOf2(cfg)) && s'.journal.log == Committed2(cfg)
  {
    Reserves2(cfg);
    Grows([BOOT, POLICY_RECORD], [], Intent2(cfg));
    assert [BOOT, POLICY_RECORD] + [Intent2(cfg)] == [BOOT, POLICY_RECORD, Intent2(cfg)];
    Grows([BOOT, POLICY_RECORD, Intent2(cfg)], [], AdmissionCommit(RecordOf2(cfg)));
    assert [BOOT, POLICY_RECORD, Intent2(cfg)] + [AdmissionCommit(RecordOf2(cfg))] == Committed2(cfg);
  }

  function Record2(cfg: Config): DecisionRecord {
    RecordOf2(cfg).(restoredFromDisk := true, ledgerLive := true)
  }

  lemma Replays2(cfg: Config) returns (st: Recovering)
    ensures ReplayLog(Blank(4, 4), Committed2(cfg)) == Replaying(st)
    ensures st.epoch == 1 && st.history == HistoryState(4, map[1 := Record2(cfg)], map[0 := 1], 0) && st.maxDecision == 1 && st.released == {}
    ensures st.committed == map[1 := IntentOf(GrantOf2(cfg), AMOUNTS)]
  {
    HeadReplays();
    var b := Blank(4, 4);
    var p := IntentOf(GrantOf2(cfg), AMOUNTS);
    ReplaySnoc(b, [BOOT, POLICY_RECORD], Intent2(cfg));
    assert [BOOT, POLICY_RECORD] + [Intent2(cfg)] == [BOOT, POLICY_RECORD, Intent2(cfg)];
    ReplaySnoc(b, [BOOT, POLICY_RECORD, Intent2(cfg)], AdmissionCommit(RecordOf2(cfg)));
    assert [BOOT, POLICY_RECORD, Intent2(cfg)] + [AdmissionCommit(RecordOf2(cfg))] == Committed2(cfg);
    st := Absorb(b.(epoch := 1, policy := Some(POLICY), pending := map[1 := p]), AdmissionCommit(RecordOf2(cfg))).state;
  }

  lemma Restored2(cfg: Config)
    ensures RestoredLedger(map[1 := IntentOf(GrantOf2(cfg), AMOUNTS)]) == (Ok, Flagged(ONE2, true))
  {
    var grants := map[1 := IntentOf(GrantOf2(cfg), AMOUNTS)];
    assert grants.Keys == {1};
    SortedKeysCount({1});
    assert 1 in SortedKeys({1});
    assert SortedKeys({1}) == [1];
    Reserves2(cfg);
    assert RestoreFirst(grants, [1], 0) == (Ok, EMPTY_LEDGER);
    assert RestoreFirst(grants, [1], 1) == (Ok, ONE2);
  }

  lemma Live2(cfg: Config, st: Recovering)
    requires st.history == HistoryState(4, map[1 := Record2(cfg)], map[0 := 1], 0) && st.released == {}
    requires st.committed == map[1 := IntentOf(GrantOf2(cfg), AMOUNTS)]
    ensures LiveGrants(st) == map[1 := IntentOf(GrantOf2(cfg), AMOUNTS)] && TrimIfNeeded(st.history, {1}) == st.history
  {
    assert |st.history.records| == 1;
  }

  lemma Opens2(cfg: Config)
    ensures
      var o := OpenDurable(FreshOn(DETACHED), Scan(false, 0), Committed2(cfg), []);
      o.OpenedWith? && o.state.epoch == 2 && o.state.incarnation == 1 && o.state.auth.capacity.None? &&
      o.state.ledger == Flagged(ONE2, true) && o.state.history.records == map[1 := Record2(cfg)]
  {
    var st := Replays2(cfg);
    Live2(cfg, st);
    Restored2(cfg);
    assert Flagged(ONE2, true).byDecision.Keys == {1};
  }

  lemma Unconfirmed2(s: State, r: DecisionRecord)
    requires s.epoch == 2 && s.incarnation == 1 && s.ledger == Flagged(ONE2, true) && s.history.records == map[1 := r]
    requires Admitting(r.outcome) && !Released(r.state) && r.epoch == 2 && r.incarnation == 1
    ensures Revalidate(s, 1) == (Revalidated(Ambiguous, NotRevoked, false), s)
  {
    assert s.ledger.byDecision[1][0].requiresRevalidation;
    assert AnyFlagged(s.ledger.byDecision[1]);
  }

  lemma Granted2(cfg: Config, s: State)
    requires cfg.acceptInProcess && cfg.compactAt > 4 && s == Supplied(Grown([BOOT, POLICY_RECORD], [false]), 10)
    ensures
      var (st, s1) := NewIncarnation(s, 1);
      var (answer, s2) := AdmitRequest(cfg, s1, FIRST, LOCAL);
      st == DurableFailure && answer == Decided(GrantOf2(cfg)) && s2.journal.log == Committed2(cfg)
  {
    RenewalUnwritten();
    Planned2(cfg, Grown([BOOT, POLICY_RECORD], []));
    Finishes2(cfg);
  }

  ghost predicate KeptUnjustified(s: State) {
    1 in s.history.records && 1 in s.ledger.byDecision && !Justified(s, s.history.records[1], s.ledger.byDecision[1]) &&
    Revalidate(s, 1) == (Revalidated(Ambiguous, NotRevoked, false), s)
  }

  lemma Kept2(cfg: Config)
    ensures
      var o := OpenDurable(FreshOn(DETACHED), Scan(false, 0), Committed2(cfg), []);
      o.OpenedWith? && KeptUnjustified(o.state)
  {
    Opens2(cfg);
    Unconfirmed2(OpenDurable(FreshOn(DETACHED), Scan(false, 0), Committed2(cfg), []).state, Record2(cfg));
  }

  /** Departure: the boot record of the second epoch is not written, a grant is
      made in that epoch, and the engine is reopened under the same incarnation
      number. It is in the second epoch again, takes the grant for its own, and
      revalidation keeps it although no capacity is known at all. */
  lemma UnjustifiedKept(cfg: Config)
    requires cfg.acceptInProcess && cfg.compactAt > 4
    ensures
      var start := OpenDurable(FreshOn(DETACHED), Scan(true, 0), [], [true, true, false]);
      start.OpenedWith? &&
      var (st, s1) := NewIncarnation(Run(cfg, start.state, Setup(10)), 1);
      var (answer, s2) := AdmitRequest(cfg, s1, FIRST, LOCAL);
      st == DurableFailure && answer == Decided(GrantOf2(cfg)) &&
      var o := OpenDurable(FreshOn(DETACHED), Scan(false, 0), s2.journal.log, []);
      o.OpenedWith? && KeptUnjustified(o.state)
  {
    var outcomes := [true, true, false];
    OpenedFresh(outcomes);
    assert Left(outcomes) == [true, false] && Left([true, false]) == [false];
    Supplies(cfg, [true, false], 10);
    Granted2(cfg, Supplied(Grown([BOOT, POLICY_RECORD], [false]), 10));
    Kept2(cfg);
  }
}
