/** What an admission request is answered and what it leaves (check_fence,
    admit_locked, finish_refusal and finish_admission, src/engine/admission.cpp),
    stated over the claim, the records, the ledger and the journal. */
module Admissions {
  import opened Base
  import opened Model
  import opened Ledger
  import opened History
  import opened Attempts
  import opened Checks
  import opened Engine
  import opened Frames
  import opened Invariants
  import opened Closure
  import opened CleanRuns
  import opened Interrupted
  import opened Answers
  import opened Registry
  import opened Revocations

  // ------------------------------------------------------------------
  // The fence
  // ------------------------------------------------------------------

  predicate Trusted(cfg: Config, claim: Claim) {
    cfg.acceptInProcess && claim.origin == InProcess
  }

  /** A session of this incarnation stands behind the claim. */
  predicate Vouched(s: State, claim: Claim) {
    s.epoch != 0 && claim.epoch == s.epoch && claim.incarnation == s.incarnation &&
    claim.session != 0 && claim.session in s.sessions &&
    s.sessions[claim.session].publisher == claim.publisher && s.sessions[claim.session].boot == claim.boot
  }

  predicate Passes(cfg: Config, s: State, claim: Claim) {
    if Trusted(cfg, claim)
    then (claim.epoch != 0 ==> claim.epoch == s.epoch) && (claim.incarnation != 0 ==> claim.incarnation == s.incarnation)
    else Vouched(s, claim)
  }

  /** A claim passes exactly when it is trusted and names no other incarnation, or
      a live session vouches for it; a claim from a later epoch is a conflict. */
  lemma FenceExact(cfg: Config, s: State, claim: Claim)
    ensures FenceVerdict(cfg, s, claim) ==
      (if Passes(cfg, s, claim) then Admit
       else if !Trusted(cfg, claim) && claim.epoch > s.epoch then ConflictingInput
       else FencedClaimant)
  {}

  // ------------------------------------------------------------------
  // What is filed of a decision
  // ------------------------------------------------------------------

  function GenerationInForce(auth: Authorities): u64 {
    match auth.capacity
    case None => 0
    case Some(c) => c.generation
  }

  /** The record is bound to the generations in force. */
  predicate BoundNow(r: DecisionRecord, auth: Authorities) {
    (match auth.policy case None => r.boundPolicy == 0 case Some(p) => r.boundPolicy == p.generation) &&
    (match auth.qos case None => r.boundQos == 0 case Some(c) => r.boundQos == c.generation) &&
    (match auth.priorities case None => r.boundPriority == 0 case Some(c) => r.boundPriority == c.generation) &&
    (match auth.paths case None => r.boundPath == 0 case Some(c) => r.boundPath == c.generation) &&
    (match auth.reservations case None => r.boundReservation == 0 case Some(c) => r.boundReservation == c.generation)
  }

  /** The record says what the decision says, is bound to what is in force, and is
      fresh. */
  predicate Writes(r: DecisionRecord, o: Decision, auth: Authorities, live: bool) {
    r.decision == o.decision && r.audit == o.audit && r.outcome == o.outcome && r.request == o.request && r.demand == o.demand &&
    r.demandGeneration == o.demandGeneration && r.attempt == o.attempt && r.path == o.path && r.granted == o.granted &&
    r.epoch == o.epoch && r.incarnation == o.incarnation && r.decidedTick == o.decidedTick && r.fingerprint == o.fingerprint &&
    r.boundCapacity == o.boundCapacity && BoundNow(r, auth) && r.state == Fresh && r.reason == NotRevoked &&
    r.ledgerLive == live && !r.restoredFromDisk
  }

  lemma RecordWrites(auth: Authorities, d: Decision, live: bool)
    ensures Writes(ToRecord(auth, d).(ledgerLive := live), d, auth, live)
  {}

  /** The history gains the record; what makes room for it is as it was. */
  ghost predicate HistoryTakes(h: HistoryState, h': HistoryState, r: DecisionRecord) {
    (forall d :: d in h'.records ==> if d == r.decision then h'.records[d] == r else d in h.records && h'.records[d] == h.records[d]) &&
    (|h.records| < h.capacity && r.decision !in h.records ==>
      h'.records == h.records[r.decision := r] && h'.auditIndex == h.auditIndex[r.audit := r.decision])
  }

  /** The registry gains the attempt, overwriting its key or making room for it. */
  ghost predicate RegistryTakes(a: AttemptState, a': AttemptState, o: Decision, tick: u64) {
    var key := AttemptKey(o.demand, o.attempt);
    a'.capacity == a.capacity &&
    a'.attempts.Keys == (if key in a.attempts then a.attempts.Keys else Room(a.attempts.Keys, a.capacity) + {key}) &&
    a'.attempts[key] == AttemptRecord(o.request, o.demand, o.demandGeneration, o.attempt, o.fingerprint, o.decision, o.outcome, tick) &&
    (forall k :: k in a'.attempts && k != key ==> k in a.attempts && a'.attempts[k] == a.attempts[k]) &&
    a'.fingerprints == (if o.request == 0 || o.request in a.fingerprints then a.fingerprints else a.fingerprints[o.request := o.fingerprint])
  }

  /** The cache gains the decision; when it is full the lowest id makes room. */
  ghost predicate CacheTakes(c: map<nat, Decision>, c': map<nat, Decision>, o: Decision) {
    o.decision in c' && c'[o.decision] == o &&
    (forall d :: d in c' && d != o.decision ==> d in c && c'[d] == c[d]) &&
    (forall d :: d in c && d != o.decision ==> (d !in c' <==> |c| >= MAX_DECISION_RECORDS && forall x :: x in c ==> d <= x))
  }

  ghost predicate Files(s: State, s': State, o: Decision, r: DecisionRecord, onRecord: bool) {
    HistoryTakes(s.history, s'.history, r) && CacheTakes(s.cache, s'.cache, o) &&
    (if onRecord then RegistryTakes(s.attempts, s'.attempts, o, s.tick) else s'.attempts == s.attempts)
  }

  lemma LowestKey(c: map<nat, Decision>)
    requires c.Keys != {}
    ensures
      var keys := SortedKeys(c.Keys);
      keys != [] && keys[0] in c && forall x :: x in c ==> keys[0] <= x
  {
    var keys := SortedKeys(c.Keys);
    forall x | x in c ensures keys != [] && keys[0] <= x {
      assert x in keys;
    }
  }

  lemma CacheRoom(c: map<nat, Decision>, o: Decision, low: nat)
    requires low in c && (forall x :: x in c ==> low <= x) && |c| >= MAX_DECISION_RECORDS
    ensures CacheTakes(c, (c - {low})[o.decision := o], o)
  {
    forall d | d in c && (forall x :: x in c ==> d <= x) ensures d == low {
      assert low in c;
    }
  }

  lemma CacheExact(c: map<nat, Decision>, o: Decision)
    ensures CacheTakes(c, Remember(c, o), o)
  {
    if |c| >= MAX_DECISION_RECORDS {
      assert |c.Keys| == |c|;
      LowestKey(c);
      CacheRoom(c, o, SortedKeys(c.Keys)[0]);
    }
  }

  lemma RegistryTakesIt(a: AttemptState, o: Decision, tick: u64)
    ensures RegistryTakes(a, Recorded(a, AttemptOf(o, tick)), o, tick)
  {
    EvictExact(a.attempts, a.capacity);
    var key := AttemptKey(o.demand, o.attempt);
    var room := if key in a.attempts then a.attempts else EvictDown(a.attempts, a.capacity);
    assert room[key := AttemptOf(o, tick)].Keys == room.Keys + {key};
  }

  lemma HistoryTakesIt(h: HistoryState, held: set<nat>, r: DecisionRecord)
    requires r.decision != 0
    ensures HistoryTakes(h, TrimIfNeeded(Inserted(h, r), held), r)
  {
    TrimSubset(Inserted(h, r), held);
    if r.decision !in h.records {
      assert |h.records[r.decision := r]| == |h.records| + 1;
    }
  }

  lemma FiledExact(s: State, d: Decision, r: DecisionRecord, onRecord: bool)
    requires r.decision != 0
    ensures
      var s' := Filed(s, d, r, onRecord);
      Files(s, s', d, r, onRecord) && s' == s.(history := s'.history, attempts := s'.attempts, cache := s'.cache)
  {
    HistoryTakesIt(s.history, s.ledger.byDecision.Keys, r);
    RegistryTakesIt(s.attempts, d, s.tick);
    CacheExact(s.cache, d);
  }

  // ------------------------------------------------------------------
  // Refusals
  // ------------------------------------------------------------------

  /** The decision a request begins. */
  function DecisionOn(cfg: Config, s: State, req: Request, outcome: Outcome, path: u64, pathGeneration: u64, grant: u64, capacity: u64): Decision {
    Decision(s.nextDecision, s.audit, outcome, req.request, req.demand, req.demandGeneration, req.attempt,
             s.epoch, s.incarnation, s.tick, path, pathGeneration, grant, capacity, cfg.fingerprint(req), false)
  }

  /** An identity is consumed and nothing else has happened. */
  ghost predicate OnlyBegun(s: State, s': State) {
    s' == s.(nextDecision := s.nextDecision + 1, audit := s.audit + 1, journal := s'.journal)
  }

  /** The request is refused, and the refusal is journaled before it is answered. */
  ghost predicate RefusedAs(cfg: Config, s: State, req: Request, outcome: Outcome, onRecord: bool, a: AdmitResult, s': State) {
    var o := DecisionOn(cfg, s, req, outcome, 0, 0, 0, 0);
    if !Succeeds(s.journal, 0) then a == Failed(DurableFailure) && OnlyBegun(s, s') && Journals(s, s', [])
    else
      a == Decided(o) && s'.ledger == s.ledger && s'.auth == s.auth && s'.nextDecision == s.nextDecision + 1 && s'.audit == s.audit + 1 &&
      exists r :: Writes(r, o, s.auth, false) && Files(s, s', o, r, onRecord) && Journals(s, s', [AdmissionRefused(r)])
  }

  lemma RefuseExact(cfg: Config, s: State, req: Request, outcome: Outcome, onRecord: bool)
    requires s.nextDecision != 0
    ensures
      var (a, s') := Refuse(cfg, s, req, outcome, onRecord);
      RefusedAs(cfg, s, req, outcome, onRecord, a, s')
  {
    var (d, s1) := BeginDecision(cfg, s, req, outcome);
    var r := ToRecord(s1.auth, d);
    FirstWrite(s1, AdmissionRefused(r));
    var s2 := Write(s1, AdmissionRefused(r)).1;
    FiledExact(s2, d, r, onRecord);
    RecordWrites(s1.auth, d, false);
    if Succeeds(s.journal, 0) {
      var s' := Filed(s2, d, r, onRecord);
      assert Writes(r, d, s.auth, false) && Files(s, s', d, r, onRecord) && Journals(s, s', [AdmissionRefused(r)]);
    }
  }

  // ------------------------------------------------------------------
  // Grants
  // ------------------------------------------------------------------

  /** The granted rate on every target. */
  ghost predicate Charges(amounts: seq<Amount>, targets: seq<u64>, grant: u64) {
    |amounts| == |targets| && forall i :: 0 <= i < |targets| ==> amounts[i].resource == targets[i] && amounts[i].rate == grant
  }

  function IntentFor(o: Decision, amounts: seq<Amount>): Record {
    AdmissionPrepare(PrepareRecord(o.decision, o.demand, o.attempt, o.fingerprint, o.epoch, o.boundCapacity, o.path, amounts))
  }

  /** The ledger holds what it held, whatever was tried. */
  ghost predicate LedgerKept(l: LedgerState, l': LedgerState) {
    l'.byDecision == l.byDecision && forall r: u64 :: Admitted(l', r) == Admitted(l, r)
  }

  /** The ledger holds the grant as well. */
  ghost predicate LedgerTakes(l: LedgerState, l': LedgerState, o: Decision, targets: seq<u64>, grant: u64) {
    o.decision !in l.byDecision && o.decision in l'.byDecision && l'.byDecision - {o.decision} == l.byDecision &&
    |l'.byDecision[o.decision]| == |targets| &&
    (forall i :: 0 <= i < |targets| ==>
      l'.byDecision[o.decision][i] == LedgerEntry(o.decision, o.demand, targets[i], grant, o.path, o.epoch, o.boundCapacity, false)) &&
    (forall r: u64 :: Admitted(l', r) == Admitted(l, r) + (if r in targets then grant else 0))
  }

  ghost predicate PathTakes(l: LedgerState, l': LedgerState, path: u64, grant: u64) {
    forall p: u64 :: AdmittedOnPath(l', p) == AdmittedOnPath(l, p) + (if p == path && p != 0 then grant else 0)
  }

  /** Intent and commit are in the journal, or it has been compacted since. */
  ghost predicate JournalTakes(cfg: Config, s: State, s': State, records: seq<Record>) {
    s'.journal.attached == s.journal.attached &&
    if !s.journal.attached then s'.journal.log == s.journal.log
    else if |s.journal.log| + 2 < cfg.compactAt || !Succeeds(s.journal, 2) then s'.journal.log == s.journal.log + records
    else s'.journal.log == CompactedLog(s')
  }

  /** The request is granted: intent, load, commit, files; a failure before the
      commit leaves no load, one after it only spoils the answer. */
  ghost predicate GrantedAs(cfg: Config, s: State, req: Request, e: Evaluation, amounts: seq<Amount>, a: AdmitResult, s': State)
    requires e.Granted?
  {
    var o := DecisionOn(cfg, s, req, e.outcome, e.path, e.pathGeneration, e.grant, GenerationInForce(s.auth));
    Charges(amounts, e.targets, e.grant) &&
    if !Succeeds(s.journal, 0) then a == Failed(DurableFailure) && OnlyBegun(s, s') && Journals(s, s', [])
    else if s.ledger.entryCount + |e.targets| > MAX_LEDGER_ENTRIES then
      a == Failed(OversizedInput) && OnlyBegun(s, s') && Journals(s, s', [IntentFor(o, amounts)])
    else if !Succeeds(s.journal, 1) then
      a == Failed(DurableFailure) && OnlyBegun(s, s'.(ledger := s.ledger)) && LedgerKept(s.ledger, s'.ledger) && Journals(s, s', [IntentFor(o, amounts)])
    else
      a == (if CompactionFails(cfg, s.journal) then Failed(DurableFailure) else Decided(o)) &&
      s'.auth == s.auth && s'.nextDecision == s.nextDecision + 1 && s'.audit == s.audit + 1 &&
      LedgerTakes(s.ledger, s'.ledger, o, e.targets, e.grant) && PathTakes(s.ledger, s'.ledger, e.path, e.grant) &&
      exists r :: Writes(r, o, s.auth, true) && Files(s, s', o, r, true) && JournalTakes(cfg, s, s', [IntentFor(o, amounts), AdmissionCommit(r)])
  }

  lemma ChargedLedger(l: LedgerState, d: Decision, targets: seq<u64>, grant: u64, amounts: seq<Amount>)
    requires Conserved(l) && amounts == AmountsAt(targets, grant) && AscendingAmounts(amounts) && Reserved(l, HoldOf(d, amounts)).0 == Ok
    requires forall i, j :: 0 <= i < j < |targets| ==> targets[i] < targets[j]
    ensures LedgerTakes(l, Reserved(l, HoldOf(d, amounts)).1, d, targets, grant)
  {
    var h := HoldOf(d, amounts);
    ReserveConserves(l, h);
    var l' := Reserved(l, h).1;
    assert l'.byDecision - {d.decision} == l.byDecision;
    forall r: u64 ensures AmountOn(amounts, r) == if r in targets then grant else 0 {
      AmountsAtSum(targets, grant, r);
    }
  }

  lemma ChargedPath(l: LedgerState, d: Decision, targets: seq<u64>, grant: u64, amounts: seq<Amount>)
    requires amounts == AmountsAt(targets, grant) && Reserved(l, HoldOf(d, amounts)).0 == Ok
    ensures PathTakes(l, Reserved(l, HoldOf(d, amounts)).1, d.path, grant)
  {}

  /** The admission up to its commit. */
  lemma CommitFate(s: State, d: Decision, amounts: seq<Amount>, l: LedgerState, r: DecisionRecord)
    ensures
      var p := AdmissionPrepare(IntentOf(d, amounts));
      var (prepared, s1) := Write(s, p);
      var (committed, s3) := Write(s1.(ledger := l), AdmissionCommit(r));
      (prepared <==> Succeeds(s.journal, 0)) && s1 == s.(journal := s1.journal) && Journals(s, s1, if prepared then [p] else []) &&
      (prepared ==>
        (committed <==> Succeeds(s.journal, 1)) && s3 == s.(ledger := l, journal := s3.journal) &&
        Journals(s, s3, if committed then [p, AdmissionCommit(r)] else [p]))
  {
    var p := AdmissionPrepare(IntentOf(d, amounts));
    FirstWrite(s, p);
    var s1 := Write(s, p).1;
    var s2 := s1.(ledger := l);
    if Write(s, p).0 {
      BothWrites(s, s1, s2, Write(s2, AdmissionCommit(r)).1, p, AdmissionCommit(r));
    }
  }

  lemma FinishFates(cfg: Config, s: State, d: Decision, amounts: seq<Amount>, l: LedgerState, r: DecisionRecord)
    requires l == Reserved(s.ledger, HoldOf(d, amounts)).1 && r == ToRecord(s.auth, d).(ledgerLive := true)
    ensures
      var (a, s') := FinishAdmission(cfg, s, d, amounts);
      var (prepared, s1) := Write(s, AdmissionPrepare(IntentOf(d, amounts)));
      var (committed, s3) := Write(s1.(ledger := l), AdmissionCommit(r));
      if !prepared then a == Failed(DurableFailure) && s' == s1
      else if Reserved(s.ledger, HoldOf(d, amounts)).0 != Ok then a == Failed(Reserved(s.ledger, HoldOf(d, amounts)).0) && s' == s1.(ledger := l)
      else if !committed then a == Failed(DurableFailure) && s' == s3.(ledger := ReleasedLoad(l, d.decision).1)
      else
        var (st, s4) := CompactIfNeeded(cfg, Filed(s3, d, r, true));
        a == (if st == Ok then Decided(d) else Failed(st)) && s' == s4
  {}

  /** The compaction that may follow the commit. */
  lemma CompactionFate(cfg: Config, s: State, s3: State, s4: State, a: Record, b: Record)
    requires Journals(s, s3, [a, b]) && Succeeds(s.journal, 0) && Succeeds(s.journal, 1) && s4 == s3.(history := s4.history, attempts := s4.attempts, cache := s4.cache)
    requires s.journal.attached ==> (Succeeds(s3.journal, 0) <==> Succeeds(s.journal, 2))
    ensures
      var (st, s') := CompactIfNeeded(cfg, s4);
      (st != Ok <==> CompactionFails(cfg, s.journal)) && (st != Ok ==> st == DurableFailure) && s' == s4.(journal := s'.journal) &&
      JournalTakes(cfg, s, s', [a, b])
  {
    var (st, s') := CompactIfNeeded(cfg, s4);
    if s.journal.attached && |s4.journal.log| >= cfg.compactAt && Succeeds(s.journal, 2) {
      CompactedSame(s4, s');
    }
  }

  lemma CompactedSame(s: State, s': State)
    requires s' == s.(journal := s'.journal)
    ensures CompactedLog(s') == CompactedLog(s)
  {}

  /** What a committed admission leaves, apart from the content of the ledger. */
  ghost predicate CommittedWith(cfg: Config, s: State, d: Decision, r: DecisionRecord, amounts: seq<Amount>, l: LedgerState, a: AdmitResult, s': State) {
    a == (if CompactionFails(cfg, s.journal) then Failed(DurableFailure) else Decided(d)) &&
    s'.ledger == l && s'.auth == s.auth && s'.nextDecision == s.nextDecision && s'.audit == s.audit && Files(s, s', d, r, true) &&
    JournalTakes(cfg, s, s', [AdmissionPrepare(IntentOf(d, amounts)), AdmissionCommit(r)])
  }

  lemma CommittedLeaves(cfg: Config, s: State, d: Decision, amounts: seq<Amount>, l: LedgerState, r: DecisionRecord, a: AdmitResult, s': State)
    requires d.decision != 0 && Reserved(s.ledger, HoldOf(d, amounts)) == (Ok, l) && r == ToRecord(s.auth, d).(ledgerLive := true)
    requires Succeeds(s.journal, 0) && Succeeds(s.journal, 1) && FinishAdmission(cfg, s, d, amounts) == (a, s')
    ensures CommittedWith(cfg, s, d, r, amounts, l, a, s')
  {
    var p := AdmissionPrepare(IntentOf(d, amounts));
    CommitFate(s, d, amounts, l, r);
    FinishFates(cfg, s, d, amounts, l, r);
    var s3 := Write(Write(s, p).1.(ledger := l), AdmissionCommit(r)).1;
    TwoWrites(s, l, p, AdmissionCommit(r));
    FiledAndCompacted(cfg, s, s3, d, r, p, AdmissionCommit(r), l);
  }

  lemma FiledAndCompacted(cfg: Config, s: State, s3: State, d: Decision, r: DecisionRecord, p: Record, c: Record, l: LedgerState)
    requires d.decision != 0 && r.decision == d.decision && s3 == s.(ledger := l, journal := s3.journal)
    requires Journals(s, s3, [p, c]) && Succeeds(s.journal, 0) && Succeeds(s.journal, 1)
    requires s.journal.attached ==> (Succeeds(s3.journal, 0) <==> Succeeds(s.journal, 2))
    ensures
      var (st, s') := CompactIfNeeded(cfg, Filed(s3, d, r, true));
      (st != Ok <==> CompactionFails(cfg, s.journal)) && (st != Ok ==> st == DurableFailure) &&
      s'.ledger == l && s'.auth == s.auth && s'.nextDecision == s.nextDecision && s'.audit == s.audit && Files(s, s', d, r, true) &&
      JournalTakes(cfg, s, s', [p, c])
  {
    FiledExact(s3, d, r, true);
    CompactionFate(cfg, s, s3, Filed(s3, d, r, true), p, c);
  }

  /** The state in which the decision has begun. */
  ghost predicate BegunOn(cfg: Config, s0: State, s: State, req: Request, e: Evaluation, d: Decision, amounts: seq<Amount>)
    requires e.Granted?
  {
    Consistent(s0) && SoundGrant(s0.auth, s0.ledger, req, e) && amounts == AmountsAt(e.targets, e.grant) &&
    s == s0.(nextDecision := s0.nextDecision + 1, audit := s0.audit + 1) &&
    d == DecisionOn(cfg, s0, req, e.outcome, e.path, e.pathGeneration, e.grant, GenerationInForce(s0.auth))
  }

  lemma ChargesAscend(e: Evaluation, auth: Authorities, l: LedgerState, req: Request, amounts: seq<Amount>)
    requires e.Granted? && SoundGrant(auth, l, req, e) && amounts == AmountsAt(e.targets, e.grant)
    ensures AscendingAmounts(amounts) && Charges(amounts, e.targets, e.grant)
  {}

  lemma CommittedAs(cfg: Config, s0: State, s: State, req: Request, e: Evaluation, d: Decision, amounts: seq<Amount>, a: AdmitResult, s': State)
    requires e.Granted? && BegunOn(cfg, s0, s, req, e, d, amounts) && s.ledger.entryCount + |e.targets| <= MAX_LEDGER_ENTRIES
    requires Reserved(s.ledger, HoldOf(d, amounts)).0 == Ok && Succeeds(s.journal, 0) && Succeeds(s.journal, 1)
    requires FinishAdmission(cfg, s, d, amounts) == (a, s')
    ensures GrantedAs(cfg, s0, req, e, amounts, a, s')
  {
    var l := Reserved(s.ledger, HoldOf(d, amounts)).1;
    var r := ToRecord(s.auth, d).(ledgerLive := true);
    CommittedLeaves(cfg, s, d, amounts, l, r, a, s');
    RecordWrites(s.auth, d, true);
    ChargesAscend(e, s0.auth, s0.ledger, req, amounts);
    ChargedLedger(s.ledger, d, e.targets, e.grant, amounts);
    ChargedPath(s.ledger, d, e.targets, e.grant, amounts);
    CommittedMeans(cfg, s0, s, req, e, d, amounts, l, r, a, s');
  }

  lemma CommittedMeans(cfg: Config, s0: State, s: State, req: Request, e: Evaluation, d: Decision, amounts: seq<Amount>,
                       l: LedgerState, r: DecisionRecord, a: AdmitResult, s': State)
    requires e.Granted? && s == s0.(nextDecision := s0.nextDecision + 1, audit := s0.audit + 1)
    requires d == DecisionOn(cfg, s0, req, e.outcome, e.path, e.pathGeneration, e.grant, GenerationInForce(s0.auth))
    requires CommittedWith(cfg, s, d, r, amounts, l, a, s') && Writes(r, d, s0.auth, true) && Charges(amounts, e.targets, e.grant)
    requires LedgerTakes(s0.ledger, l, d, e.targets, e.grant) && PathTakes(s0.ledger, l, e.path, e.grant)
    requires s.ledger.entryCount + |e.targets| <= MAX_LEDGER_ENTRIES && Succeeds(s.journal, 0) && Succeeds(s.journal, 1)
    ensures GrantedAs(cfg, s0, req, e, amounts, a, s')
  {
    assert Writes(r, d, s0.auth, true) && Files(s0, s', d, r, true);
  }

  /** The fates short of a commit. */
  lemma UncommittedAs(cfg: Config, s0: State, s: State, req: Request, e: Evaluation, d: Decision, amounts: seq<Amount>, a: AdmitResult, s': State)
    requires e.Granted? && BegunOn(cfg, s0, s, req, e, d, amounts)
    requires Reserved(s.ledger, HoldOf(d, amounts)).0 == (if s.ledger.entryCount + |e.targets| > MAX_LEDGER_ENTRIES then OversizedInput else Ok)
    requires !Succeeds(s.journal, 0) || !Succeeds(s.journal, 1) || Reserved(s.ledger, HoldOf(d, amounts)).0 != Ok
    requires FinishAdmission(cfg, s, d, amounts) == (a, s')
    ensures GrantedAs(cfg, s0, req, e, amounts, a, s')
  {
    var l := Reserved(s.ledger, HoldOf(d, amounts)).1;
    var r := ToRecord(s.auth, d).(ledgerLive := true);
    CommitFate(s, d, amounts, l, r);
    FinishFates(cfg, s, d, amounts, l, r);
    ChargesAscend(e, s0.auth, s0.ledger, req, amounts);
    if Reserved(s.ledger, HoldOf(d, amounts)).0 == Ok {
      UndoneReservation(s.ledger, HoldOf(d, amounts));
    } else {
      OversizedUntouched(s.ledger, HoldOf(d, amounts));
    }
  }

  lemma OversizedUntouched(l: LedgerState, h: Hold)
    requires Reserved(l, h).0 == OversizedInput
    ensures Reserved(l, h).1 == l
  {}

  lemma GrantExact(cfg: Config, s: State, req: Request, e: Evaluation)
    requires Consistent(s) && e == EvaluateRequest(s.auth, s.ledger, s.tick, s.pendingReconciliation, req) && e.Granted?
    ensures
      var (a, s') := AdmitNew(cfg, s, req);
      exists amounts :: GrantedAs(cfg, s, req, e, amounts, a, s')
  {
    var (a, s') := AdmitNew(cfg, s, req);
    var amounts := AmountsAt(e.targets, e.grant);
    var d := Begun(cfg, s, req);
    var s1 := BeginDecision(cfg, s, req, e.outcome).1;
    GrantFinishes(cfg, s, req, e);
    EvaluationSound(s.auth, s.ledger, s.tick, s.pendingReconciliation, req);
    GrantsNeverRollBack(cfg, s, req);
    assert BegunOn(cfg, s, s1, req, e, d, amounts);
    if Succeeds(s.journal, 0) && Succeeds(s.journal, 1) && Reserved(s.ledger, HoldOf(d, amounts)).0 == Ok {
      CommittedAs(cfg, s, s1, req, e, d, amounts, a, s');
    } else {
      UncommittedAs(cfg, s, s1, req, e, d, amounts, a, s');
    }
  }

  // ------------------------------------------------------------------
  // Any request
  // ------------------------------------------------------------------

  /** The answer says what the record says, and that it is a repetition. */
  predicate Retells(o: Decision, r: DecisionRecord) {
    o.decision == r.decision && o.audit == r.audit && o.outcome == r.outcome && o.request == r.request && o.demand == r.demand &&
    o.demandGeneration == r.demandGeneration && o.attempt == r.attempt && o.epoch == r.epoch && o.incarnation == r.incarnation &&
    o.decidedTick == r.decidedTick && o.path == r.path && o.pathGeneration == r.boundPath && o.granted == r.granted &&
    o.boundCapacity == r.boundCapacity && o.fingerprint == r.fingerprint && o.idempotentReplay
  }

  /** An attempt on record is repeated where its decision is still known, and a
      conflict otherwise. */
  ghost predicate RepeatedAs(cfg: Config, s: State, req: Request, known: AttemptRecord, a: AdmitResult, s': State) {
    if known.fingerprint == cfg.fingerprint(req) && known.decision in s.cache then
      s' == s && a == Decided(s.cache[known.decision].(idempotentReplay := true))
    else if known.fingerprint == cfg.fingerprint(req) && known.decision in s.history.records then
      s' == s && a.Decided? && Retells(a.decision, s.history.records[known.decision])
    else RefusedAs(cfg, s, req, ConflictingInput, false, a, s')
  }

  /** The request id is known with other content. */
  predicate ReusesRequest(cfg: Config, s: State, req: Request) {
    req.request != 0 && req.request in s.attempts.fingerprints && s.attempts.fingerprints[req.request] != cfg.fingerprint(req)
  }

  /** A new attempt is answered as it is evaluated. */
  ghost predicate EvaluatedAs(cfg: Config, s: State, req: Request, a: AdmitResult, s': State) {
    var e := EvaluateRequest(s.auth, s.ledger, s.tick, s.pendingReconciliation, req);
    match e
    case Refusal(outcome) => RefusedAs(cfg, s, req, outcome, true, a, s')
    case Granted(_, _, _, _, _) => exists amounts :: GrantedAs(cfg, s, req, e, amounts, a, s')
  }

  ghost predicate AnsweredAs(cfg: Config, s: State, req: Request, claim: Claim, a: AdmitResult, s': State) {
    var key := AttemptKey(req.demand, req.attempt);
    if !ValidRequest(req) then RefusedAs(cfg, s, req, RejectPolicy, false, a, s')
    else if !Passes(cfg, s, claim) then
      RefusedAs(cfg, s, req, if !Trusted(cfg, claim) && claim.epoch > s.epoch then ConflictingInput else FencedClaimant, true, a, s')
    else if key in s.attempts.attempts then RepeatedAs(cfg, s, req, s.attempts.attempts[key], a, s')
    else if ReusesRequest(cfg, s, req) then RefusedAs(cfg, s, req, ConflictingInput, false, a, s')
    else EvaluatedAs(cfg, s, req, a, s')
  }

  lemma EvaluateExact(cfg: Config, s: State, req: Request)
    requires Consistent(s)
    ensures EvaluatedAs(cfg, s, req, AdmitNew(cfg, s, req).0, AdmitNew(cfg, s, req).1)
  {
    var e := EvaluateRequest(s.auth, s.ledger, s.tick, s.pendingReconciliation, req);
    if e.Granted? {
      GrantExact(cfg, s, req, e);
    } else {
      RefuseExact(cfg, s, req, e.outcome, true);
    }
  }

  /** Every answer of an admission request and everything it changes. */
  lemma AdmitExact(cfg: Config, s: State, req: Request, claim: Claim)
    requires Consistent(s)
    ensures AnsweredAs(cfg, s, req, claim, AdmitRequest(cfg, s, req, claim).0, AdmitRequest(cfg, s, req, claim).1)
  {
    FenceExact(cfg, s, claim);
    var plan := PlanFor(cfg, s, req, claim);
    PlanExact(cfg, s, req, claim, plan);
    match plan
    case RefuseWith(outcome, onRecord) => RefuseExact(cfg, s, req, outcome, onRecord);
    case ReplayOf(d) =>
    case Evaluate => EvaluateExact(cfg, s, req);
  }

  lemma PlanExact(cfg: Config, s: State, req: Request, claim: Claim, plan: Plan)
    requires plan == PlanFor(cfg, s, req, claim)
    ensures
      var key := AttemptKey(req.demand, req.attempt);
      if !ValidRequest(req) then plan == RefuseWith(RejectPolicy, false)
      else if FenceVerdict(cfg, s, claim) != Admit then plan == RefuseWith(FenceVerdict(cfg, s, claim), true)
      else if key in s.attempts.attempts then
        var known := s.attempts.attempts[key];
        if known.fingerprint == cfg.fingerprint(req) && known.decision in s.cache
        then plan == ReplayOf(s.cache[known.decision].(idempotentReplay := true))
        else if known.fingerprint == cfg.fingerprint(req) && known.decision in s.history.records
        then plan.ReplayOf? && Retells(plan.decision, s.history.records[known.decision])
        else plan == RefuseWith(ConflictingInput, false)
      else if ReusesRequest(cfg, s, req) then plan == RefuseWith(ConflictingInput, false)
      else plan == Plan.Evaluate
  {}
}
