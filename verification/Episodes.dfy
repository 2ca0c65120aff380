/** Short runs of the engine on the small network, each showing a departure. */
module Episodes {
  import opened Base
  import opened Model
  import opened Snapshots
  import opened Ledger
  import opened History
  import opened Attempts
  import opened Selection
  import opened Engine
  import opened Staleness
  import opened Scenario

  /** A fresh engine on the given journal. */
  function FreshOn(j: JournalState): State {
    Initial(1, 1, 0, 4, 4).(journal := j)
  }

  const POLICY := PolicyAt(1, false)

  function Setup(usable: u64): seq<Op> {
    [OpPolicy(POLICY), OpCapacity(CapacityAt(1, 5, usable)), OpReservations(RESERVATIONS), OpPaths(PathsWith(0)), OpQos(QOS), OpPriorities(PRIORITIES)]
  }

  /** The engine once every authority has spoken. */
  function Supplied(j: JournalState, usable: u64): State {
    FreshOn(j).(auth := World(POLICY, CapacityAt(1, 5, usable), 0))
  }

  lemma RunSnoc(cfg: Config, s: State, ops: seq<Op>, op: Op, s1: State)
    requires Run(cfg, s, ops) == s1
    ensures Run(cfg, s, ops + [op]) == After(cfg, s1, op)
  {
    assert (ops + [op])[..|ops|] == ops;
  }

  ghost predicate Quiet(s: State) {
    s.history.auditIndex == map[] && s.ledger == EMPTY_LEDGER && !s.pendingReconciliation
  }

  lemma QuietEnforce(s: State, reason: RevocationReason)
    requires Quiet(s)
    ensures Enforce(s, reason) == (Ok, s)
  {
    assert InAuditOrder(s.history) == [];
    assert Flagged(EMPTY_LEDGER, false) == EMPTY_LEDGER;
  }

  lemma PolicyIn(s: State)
    requires Quiet(s) && s.epoch == 1 && s.auth == NO_AUTHORITIES && s.tick == 0 && Write(s, PolicyConfig(POLICY)).0
    ensures PublishPolicy(s, POLICY).1 == Write(s, PolicyConfig(POLICY)).1.(auth := s.auth.(policy := Some(POLICY)))
  {
    PartsValid(1, false, 5, 5, 1);
    var s1 := Write(s, PolicyConfig(POLICY)).1;
    QuietEnforce(s1.(auth := s1.auth.(policy := Some(POLICY))), PolicyChange);
  }

  lemma CapacityIn(s: State, usable: u64)
    requires Quiet(s) && s.epoch == 1 && s.auth.capacity.None? && s.tick == 0
    ensures PublishCapacity(s, CapacityAt(1, 5, usable)).1 == s.(auth := s.auth.(capacity := Some(CapacityAt(1, 5, usable))))
  {
    PartsValid(1, false, 5, usable, 1);
    QuietEnforce(s.(auth := s.auth.(capacity := Some(CapacityAt(1, 5, usable)))), CapacityReduction);
  }

  lemma ReservationsIn(s: State)
    requires Quiet(s) && s.epoch == 1 && s.auth.reservations.None? && s.tick == 0
    ensures PublishReservations(s, RESERVATIONS).1 == s.(auth := s.auth.(reservations := Some(RESERVATIONS)))
  {
    assert ValidReservations(RESERVATIONS);
    QuietEnforce(s.(auth := s.auth.(reservations := Some(RESERVATIONS))), ObligationChange);
  }

  lemma CatalogIn(cfg: Config, s: State, op: Op)
    requires s.epoch == 1 && s.tick == 0
    requires op == OpPaths(PathsWith(0)) || op == OpQos(QOS) || op == OpPriorities(PRIORITIES)
    requires (op.OpPaths? ==> s.auth.paths.None?) && (op.OpQos? ==> s.auth.qos.None?) && (op.OpPriorities? ==> s.auth.priorities.None?)
    ensures After(cfg, s, op) == s.(auth :=
      match op
      case OpPaths(c) => s.auth.(paths := Some(c))
      case OpQos(c) => s.auth.(qos := Some(c))
      case OpPriorities(c) => s.auth.(priorities := Some(c))
      case _ => s.auth)
  {}

  /** The engine once the first n authorities have spoken. */
  function Partly(j: JournalState, usable: u64, n: nat): State {
    var w := World(POLICY, CapacityAt(1, 5, usable), 0);
    FreshOn(j).(auth := Authorities(
      w.policy, if n >= 2 then w.capacity else None, if n >= 3 then w.reservations else None,
      if n >= 4 then w.paths else None, if n >= 5 then w.qos else None, if n >= 6 then w.priorities else None))
  }

  lemma FirstStep(cfg: Config, j: JournalState, usable: u64)
    requires Write(FreshOn(j), PolicyConfig(POLICY)).0
    ensures After(cfg, FreshOn(j), Setup(usable)[0]) == Partly(Write(FreshOn(j), PolicyConfig(POLICY)).1.journal, usable, 1)
  {
    PolicyIn(FreshOn(j));
  }

  lemma LaterStep(cfg: Config, j: JournalState, usable: u64, n: nat)
    requires 1 <= n < 6
    ensures After(cfg, Partly(j, usable, n), Setup(usable)[n]) == Partly(j, usable, n + 1)
  {
    var s := Partly(j, usable, n);
    if n == 1 {
      CapacityIn(s, usable);
    } else if n == 2 {
      ReservationsIn(s);
    } else {
      CatalogIn(cfg, s, Setup(usable)[n]);
    }
  }

  lemma {:induction false} SetUpTo(cfg: Config, j: JournalState, j': JournalState, usable: u64, n: nat)
    requires Write(FreshOn(j), PolicyConfig(POLICY)) == (true, FreshOn(j')) && 1 <= n <= 6
    ensures Run(cfg, FreshOn(j), Setup(usable)[..n]) == Partly(j', usable, n)
  {
    var s, ops := FreshOn(j), Setup(usable);
    if n == 1 {
      FirstStep(cfg, j, usable);
      RunSnoc(cfg, s, [], ops[0], s);
      assert [] + [ops[0]] == ops[..1];
    } else {
      SetUpTo(cfg, j, j', usable, n - 1);
      LaterStep(cfg, j', usable, n - 1);
      RunSnoc(cfg, s, ops[..n - 1], ops[n - 1], Partly(j', usable, n - 1));
      assert ops[..n - 1] + [ops[n - 1]] == ops[..n];
    }
  }

  /** Publishing every authority in turn supplies the engine. */
  lemma SetUp(cfg: Config, j: JournalState, j': JournalState, usable: u64)
    requires Write(FreshOn(j), PolicyConfig(POLICY)) == (true, FreshOn(j'))
    ensures Run(cfg, FreshOn(j), Setup(usable)) == Supplied(j', usable)
  {
    SetUpTo(cfg, j, j', usable, 6);
    assert Setup(usable)[..6] == Setup(usable);
  }

  // ------------------------------------------------------------------
  // The first grant
  // ------------------------------------------------------------------

  const FIRST := Demand(1, [], 5)

  function GrantOf(cfg: Config): Decision {
    Decision(1, 0, Admit, 1, 1, 1, 1, 1, 1, 0, 0, 0, 5, 5, cfg.fingerprint(FIRST), false)
  }

  const AMOUNTS := [Amount(1, 5)]
  const ENTRY := LedgerEntry(1, 1, 1, 5, 0, 1, 5, false)
  const ONE := LedgerState(map[1 := 5], map[], map[1 := [ENTRY]], 1)

  function RecordOf(cfg: Config, usable: u64): DecisionRecord {
    ToRecord(World(POLICY, CapacityAt(1, 5, usable), 0), GrantOf(cfg)).(ledgerLive := true)
  }

  lemma GrantEvaluated(j: JournalState, usable: u64)
    requires usable >= 5
    ensures
      var s := Supplied(j, usable);
      EvaluateRequest(s.auth, s.ledger, s.tick, s.pendingReconciliation, FIRST) == Granted(Admit, 5, [1], 0, 0)
  {
    var s := Supplied(j, usable);
    Welcome(false, 1, 5, usable, 0, 1, []);
    Room(POLICY, 1, 5, usable, 0);
    StageGrants(s.auth, EMPTY_LEDGER, 0, 1, [], 5, NoPath);
  }

  lemma GrantPlanned(cfg: Config, j: JournalState, usable: u64)
    requires cfg.acceptInProcess && usable >= 5
    ensures PlanFor(cfg, Supplied(j, usable), FIRST, LOCAL) == Plan.Evaluate
  {
    PartsValid(1, false, 5, usable, 1);
  }

  /** The engine with the identity of the first grant consumed. */
  function Begun1(j: JournalState, usable: u64): State {
    Supplied(j, usable).(nextDecision := 2, audit := 1)
  }

  lemma GrantFinishing(cfg: Config, j: JournalState, usable: u64)
    requires cfg.acceptInProcess && usable >= 5
    ensures AdmitRequest(cfg, Supplied(j, usable), FIRST, LOCAL) == FinishAdmission(cfg, Begun1(j, usable), GrantOf(cfg), AMOUNTS)
  {
    GrantPlanned(cfg, j, usable);
    GrantNew(cfg, j, usable);
  }

  lemma GrantNew(cfg: Config, j: JournalState, usable: u64)
    requires usable >= 5
    ensures AdmitNew(cfg, Supplied(j, usable), FIRST) == FinishAdmission(cfg, Begun1(j, usable), GrantOf(cfg), AMOUNTS)
  {
    GrantEvaluated(j, usable);
    assert AmountsAt([1], 5) == AMOUNTS;
  }

  lemma GrantReserved(cfg: Config)
    ensures Reserved(EMPTY_LEDGER, HoldOf(GrantOf(cfg), AMOUNTS)) == (Ok, ONE)
  {
    var h := HoldOf(GrantOf(cfg), AMOUNTS);
    assert AMOUNTS[..0] == [];
    assert AddAll(map[], AMOUNTS) == map[1 := 5];
    assert EntriesFor(h) == [ENTRY];
  }

  /** The engine holding the first grant, filed as r. */
  function Holding(cfg: Config, j: JournalState, usable: u64, r: DecisionRecord): State {
    Begun1(j, usable).(
      ledger := ONE, history := HistoryState(4, map[1 := r], map[0 := 1], 0),
      attempts := Recorded(EmptyAttempts(4), AttemptOf(GrantOf(cfg), 0)), cache := map[1 := GrantOf(cfg)])
  }

  lemma GrantFiled(cfg: Config, j: JournalState, usable: u64)
    ensures Filed(Begun1(j, usable).(ledger := ONE), GrantOf(cfg), RecordOf(cfg, usable), true) == Holding(cfg, j, usable, RecordOf(cfg, usable))
  {
    var h := Inserted(EmptyHistory(4), RecordOf(cfg, usable));
    assert h == HistoryState(4, map[1 := RecordOf(cfg, usable)], map[0 := 1], 0);
    assert |h.records| == 1;
  }

  /** The journal takes the intent and the commit of the first grant. */
  ghost predicate Takes(cfg: Config, usable: u64, j: JournalState, j1: JournalState, j2: JournalState) {
    Appended(j, AdmissionPrepare(IntentOf(GrantOf(cfg), AMOUNTS))) == (true, j1) &&
    Appended(j1, AdmissionCommit(RecordOf(cfg, usable))) == (true, j2) &&
    (j2.attached ==> |j2.log| < cfg.compactAt)
  }

  lemma GrantCommits(cfg: Config, j: JournalState, j1: JournalState, j2: JournalState, usable: u64)
    requires Takes(cfg, usable, j, j1, j2)
    ensures FinishAdmission(cfg, Begun1(j, usable), GrantOf(cfg), AMOUNTS)
         == (Decided(GrantOf(cfg)), Holding(cfg, j2, usable, RecordOf(cfg, usable)))
  {
    GrantReserved(cfg);
    GrantFiled(cfg, j2, usable);
  }

  /** The first request is granted rate 5 on resource 1. */
  lemma FirstGranted(cfg: Config, j: JournalState, j1: JournalState, j2: JournalState, usable: u64)
    requires cfg.acceptInProcess && usable >= 5 && Takes(cfg, usable, j, j1, j2)
    ensures AdmitRequest(cfg, Supplied(j, usable), FIRST, LOCAL) == (Decided(GrantOf(cfg)), Holding(cfg, j2, usable, RecordOf(cfg, usable)))
  {
    GrantFinishing(cfg, j, usable);
    GrantCommits(cfg, j, j1, j2, usable);
  }

  // ------------------------------------------------------------------
  // Enforcement over the one grant
  // ------------------------------------------------------------------

  /** r says what the first grant's record says, apart from its lifecycle. */
  predicate Describes1(r: DecisionRecord) {
    r.decision == 1 && r.audit == 0 && r.outcome == Admit && r.epoch == 1 && r.incarnation == 1 && r.path == 0 &&
    !Released(r.state) && r.boundCapacity == 5 && r.boundPolicy == 1 && r.boundQos == 1 && r.boundPriority == 1 &&
    r.boundPath == 1 && r.boundReservation == 1
  }

  lemma CollectOne(h: HistoryState, r: DecisionRecord)
    requires h.auditIndex == map[0 := 1] && h.records == map[1 := r]
    ensures Collect(h, [0]) == [r]
  {
    assert [0][..0] == [];
    assert Collect(h, []) == [];
  }

  lemma OneListed(r: DecisionRecord)
    ensures InAuditOrder(HistoryState(4, map[1 := r], map[0 := 1], 0)) == [r]
  {
    var h := HistoryState(4, map[1 := r], map[0 := 1], 0);
    assert h.auditIndex.Keys == {0};
    SortedKeysCount({0});
    assert 0 in SortedKeys({0});
    assert SortedKeys({0}) == [0];
    CollectOne(h, r);
  }

  /** The one grant fits exactly within a capacity of at least 5. */
  lemma OneFits(generation: u64, usable: u64)
    ensures Fits(World(POLICY, CapacityAt(1, generation, usable), 0), ONE, 1) <==> usable >= 5
  {
    Room(POLICY, 1, generation, usable, 0);
    assert ONE.byDecision[1][0] == ENTRY;
  }

  /** Nothing but the authorities and the journal differs from Holding. */
  ghost predicate Keeps1(s: State, r: DecisionRecord) {
    Describes1(r) && s.ledger == ONE && s.history == HistoryState(4, map[1 := r], map[0 := 1], 0) &&
    s.epoch == 1 && s.incarnation == 1 && s.tick == 0 && !s.pendingReconciliation && s.nextDecision == 2
  }

  /** Everything but the capacity is as it was published. */
  predicate OthersStand(auth: Authorities) {
    auth == World(POLICY, CapacityAt(1, 5, 10), 0).(capacity := auth.capacity)
  }

  lemma ImposedWorld(auth: Authorities, generation: u64, usable: u64)
    requires OthersStand(auth)
    ensures auth.(capacity := Some(CapacityAt(1, generation, usable))) == World(POLICY, CapacityAt(1, generation, usable), 0)
  {}

  lemma NothingToFlag()
    ensures Flagged(ONE, false) == ONE
  {
    assert WithFlags([ENTRY], false) == [ENTRY];
  }

  lemma OneStays(s: State, r: DecisionRecord, reason: RevocationReason, generation: u64, usable: u64)
    requires Keeps1(s, r) && s.auth == World(POLICY, CapacityAt(1, generation, usable), 0) && usable >= 5
    ensures Enforce(s, reason) == (Ok, s)
  {
    OneListed(r);
    OneFits(generation, usable);
    NothingToFlag();
    FittingStays(s, reason, r);
    OnePass(s, reason, r);
    CleanFinish(s);
  }

  lemma FittingStays(s: State, reason: RevocationReason, r: DecisionRecord)
    requires Holds(s.ledger, r.decision) && Fits(s.auth, s.ledger, r.decision)
    ensures EnforceOne(s, reason, r) == (Ok, s, 0)
  {}

  lemma OnePass(s: State, reason: RevocationReason, r: DecisionRecord)
    requires EnforceOne(s, reason, r) == (Ok, s, 0)
    ensures EnforceFrom(s, reason, [r], 1) == (Ok, s, 0)
  {
    assert EnforceFrom(s, reason, [r], 0) == (Ok, s, 0);
  }

  lemma CleanFinish(s: State)
    requires Flagged(s.ledger, false) == s.ledger && !s.pendingReconciliation
    ensures FinishEnforcement(Ok, s, 0) == (Ok, s)
  {}

  /** A capacity that still carries the grant is installed and nothing else
      happens. */
  lemma CapacityMoves(s: State, r: DecisionRecord, generation: u64, usable: u64)
    requires Keeps1(s, r) && OthersStand(s.auth) && usable >= 5 && WellFormedGeneration(generation)
    requires s.auth.capacity.Some? ==> s.auth.capacity.value.generation < generation
    ensures PublishCapacity(s, CapacityAt(1, generation, usable)) == (Ok, s.(auth := World(POLICY, CapacityAt(1, generation, usable), 0)))
  {
    PartsValid(1, false, generation, usable, 1);
    ImposedWorld(s.auth, generation, usable);
    OneStays(s.(auth := World(POLICY, CapacityAt(1, generation, usable), 0)), r, CapacityReduction, generation, usable);
  }

  /** The grant is valid under the generation it was bound to and outdated under
      any other. */
  lemma Examined(s: State, r: DecisionRecord, generation: u64, usable: u64)
    requires Keeps1(s, r) && s.auth == World(POLICY, CapacityAt(1, generation, usable), 0) && usable >= 5
    ensures Examine(s, 1) == if generation == 5 then StillValid else Outdated
  {
    OneFits(generation, usable);
    assert ONE.byDecision[1] == [ENTRY];
  }

  function Outdated1(r: DecisionRecord): DecisionRecord {
    r.(state := Invalidated, reason := GenerationAdvance)
  }

  lemma Outdating(s: State, r: DecisionRecord)
    requires Keeps1(s, r) && !s.journal.attached && Examine(s, 1) == Outdated
    ensures Revalidate(s, 1) == (Revalidated(Invalidated, GenerationAdvance, false), s.(history := s.history.(records := map[1 := Outdated1(r)])))
    ensures Keeps1(Revalidate(s, 1).1, Outdated1(r))
  {
    assert map[1 := r][1 := Outdated1(r)] == map[1 := Outdated1(r)];
  }

  // ------------------------------------------------------------------
  // A stale decision comes back
  // ------------------------------------------------------------------

  lemma AfterCapacity(cfg: Config, s: State, c: CapacitySnapshot)
    ensures After(cfg, s, OpCapacity(c)) == PublishCapacity(s, c).1
  {}

  lemma AfterAdmit(cfg: Config, s: State, req: Request)
    ensures After(cfg, s, OpAdmit(req, LOCAL)) == AdmitRequest(cfg, s, req, LOCAL).1
  {}

  lemma AfterRevalidate(cfg: Config, s: State, d: nat)
    ensures After(cfg, s, OpRevalidate(d)) == Revalidate(s, d).1
  {}

  lemma AfterInvalidate(cfg: Config, s: State)
    ensures After(cfg, s, OpInvalidateCapacity) == s.(auth := s.auth.(capacity := None))
  {}

  lemma RunOn(cfg: Config, s: State, ops: seq<Op>, op: Op, s1: State, s2: State)
    requires Run(cfg, s, ops) == s1 && After(cfg, s1, op) == s2
    ensures Run(cfg, s, ops + [op]) == s2
  {
    RunSnoc(cfg, s, ops, op, s1);
  }

  const DETACHED := JournalState(false, [], [], [])

  function GrantRun(usable: u64): seq<Op> {
    Setup(usable) + [OpAdmit(FIRST, LOCAL)]
  }

  /** Setting up and asking leads to the grant, whatever the journal, as long as
      it takes the three records. */
  lemma Granting(cfg: Config, j0: JournalState, j: JournalState, j1: JournalState, j2: JournalState, usable: u64)
    requires cfg.acceptInProcess && usable >= 5
    requires Write(FreshOn(j0), PolicyConfig(POLICY)) == (true, FreshOn(j)) && Takes(cfg, usable, j, j1, j2)
    ensures Run(cfg, FreshOn(j0), GrantRun(usable)) == Holding(cfg, j2, usable, RecordOf(cfg, usable))
  {
    SetUp(cfg, j0, j, usable);
    FirstGranted(cfg, j, j1, j2, usable);
    AfterAdmit(cfg, Supplied(j, usable), FIRST);
    RunOn(cfg, FreshOn(j0), Setup(usable), OpAdmit(FIRST, LOCAL), Supplied(j, usable), Holding(cfg, j2, usable, RecordOf(cfg, usable)));
  }

  lemma HoldingKeeps(cfg: Config, j: JournalState, usable: u64)
    requires usable >= 5
    ensures Keeps1(Holding(cfg, j, usable, RecordOf(cfg, usable)), RecordOf(cfg, usable))
  {}

  /** The engine after capacity generation 6 has superseded the binding. */
  function Overtaken(cfg: Config): State {
    Holding(cfg, DETACHED, 10, RecordOf(cfg, 10)).(auth := World(POLICY, CapacityAt(1, 6, 10), 0))
  }

  lemma OvertakenReached(cfg: Config)
    requires cfg.acceptInProcess
    ensures Run(cfg, FreshOn(DETACHED), GrantRun(10) + [OpCapacity(CapacityAt(1, 6, 10))]) == Overtaken(cfg)
  {
    var s := Holding(cfg, DETACHED, 10, RecordOf(cfg, 10));
    Granting(cfg, DETACHED, DETACHED, DETACHED, DETACHED, 10);
    HoldingKeeps(cfg, DETACHED, 10);
    CapacityMoves(s, RecordOf(cfg, 10), 6, 10);
    AfterCapacity(cfg, s, CapacityAt(1, 6, 10));
    RunOn(cfg, FreshOn(DETACHED), GrantRun(10), OpCapacity(CapacityAt(1, 6, 10)), s, Overtaken(cfg));
  }

  lemma OvertakenIsStale(cfg: Config)
    ensures Stale(Overtaken(cfg), 1) && Revalidate(Overtaken(cfg), 1).0 == Revalidated(Invalidated, GenerationAdvance, false)
    ensures Keeps1(Revalidate(Overtaken(cfg), 1).1, Outdated1(RecordOf(cfg, 10)))
    ensures Revalidate(Overtaken(cfg), 1).1.auth == Overtaken(cfg).auth
  {
    Examined(Overtaken(cfg), RecordOf(cfg, 10), 6, 10);
    Outdating(Overtaken(cfg), RecordOf(cfg, 10));
  }

  /** Departure: decision 1 is stale and reported so; after an invalidate call and
      a publication of the generation it was bound to, it is reported valid. */
  lemma StaleComesBack(cfg: Config)
    requires cfg.acceptInProcess
    ensures
      var up := Run(cfg, FreshOn(DETACHED), GrantRun(10) + [OpCapacity(CapacityAt(1, 6, 10))]);
      var back := Run(cfg, up, [OpRevalidate(1), OpInvalidateCapacity, OpCapacity(CapacityAt(1, 5, 10))]);
      Stale(up, 1) && Revalidate(up, 1).0 == Revalidated(Invalidated, GenerationAdvance, false) &&
      Revalidate(back, 1).0 == Revalidated(Valid, NotRevoked, false)
  {
    OvertakenReached(cfg);
    OvertakenIsStale(cfg);
    var s := Revalidate(Overtaken(cfg), 1).1;
    ComesBack(cfg, Overtaken(cfg), s, Outdated1(RecordOf(cfg, 10)));
    ValidAgain(s, Outdated1(RecordOf(cfg, 10)));
  }

  lemma ValidAgain(s: State, r: DecisionRecord)
    requires Keeps1(s, r)
    ensures Revalidate(s.(auth := World(POLICY, CapacityAt(1, 5, 10), 0)), 1).0 == Revalidated(Valid, NotRevoked, false)
  {
    Examined(s.(auth := World(POLICY, CapacityAt(1, 5, 10), 0)), r, 5, 10);
  }

  lemma ThreeSteps(cfg: Config, s0: State, a: Op, b: Op, c: Op, s1: State, s2: State, s3: State)
    requires After(cfg, s0, a) == s1 && After(cfg, s1, b) == s2 && After(cfg, s2, c) == s3
    ensures Run(cfg, s0, [a, b, c]) == s3
  {
    RunOn(cfg, s0, [], a, s0, s1);
    assert [] + [a] == [a];
    RunOn(cfg, s0, [a], b, s1, s2);
    assert [a] + [b] == [a, b];
    RunOn(cfg, s0, [a, b], c, s2, s3);
    assert [a, b] + [c] == [a, b, c];
  }

  lemma ComesBack(cfg: Config, up: State, s: State, r: DecisionRecord)
    requires Revalidate(up, 1).1 == s && Keeps1(s, r) && s.auth == World(POLICY, CapacityAt(1, 6, 10), 0)
    ensures Run(cfg, up, [OpRevalidate(1), OpInvalidateCapacity, OpCapacity(CapacityAt(1, 5, 10))])
         == s.(auth := World(POLICY, CapacityAt(1, 5, 10), 0))
  {
    var unknown := s.(auth := s.auth.(capacity := None));
    var back := s.(auth := World(POLICY, CapacityAt(1, 5, 10), 0));
    AfterRevalidate(cfg, up, 1);
    AfterInvalidate(cfg, s);
    AfterCapacity(cfg, unknown, CapacityAt(1, 5, 10));
    CapacityMoves(unknown, r, 5, 10);
    ThreeSteps(cfg, up, OpRevalidate(1), OpInvalidateCapacity, OpCapacity(CapacityAt(1, 5, 10)), s, unknown, back);
  }
}
