/** Recovery from the journal (AdmissionEngine::open_durable, src/engine/engine.cpp). */
module Recovery {
  import opened Base
  import opened Model
  import opened Ledger
  import opened History
  import opened Attempts
  import opened Evaluate
  import opened Engine

  /** What replaying the records so far has rebuilt. */
  datatype Recovering = Recovering(
    policy: Option<Policy>,
    pending: map<nat, PrepareRecord>,
    committed: map<nat, PrepareRecord>,
    released: set<nat>,
    history: HistoryState,
    attempts: AttemptState,
    epoch: u64,
    maxDecision: nat,
    audit: nat)

  datatype Replayed = Replaying(state: Recovering) | Unrecoverable(status: Status)

  function Blank(historyCapacity: nat, attemptCapacity: nat): Recovering {
    Recovering(None, map[], map[], {}, EmptyHistory(historyCapacity), EmptyAttempts(attemptCapacity), 0, 0, 0)
  }

  predicate IsDecision(r: Record) {
    r.AdmissionCommit? || r.AdmissionRefused?
  }

  function DecisionIn(r: Record): DecisionRecord
    requires IsDecision(r)
  {
    if r.AdmissionCommit? then r.commit else r.refused
  }

  function Noted(a: AttemptState, r: DecisionRecord): AttemptState {
    if r.attempt != 0 && r.fingerprint != 0
    then Recorded(a, AttemptRecord(r.request, r.demand, r.demandGeneration, r.attempt, r.fingerprint, r.decision, r.outcome, r.decidedTick))
    else a
  }

  /** A decision record joins the rebuilt history. */
  function Restored(st: Recovering, r: DecisionRecord): Recovering {
    st.(history := Inserted(st.history, r), attempts := Noted(st.attempts, r),
        maxDecision := Max(st.maxDecision, r.decision), audit := Max(st.audit, r.audit))
  }

  function AbsorbCommit(st: Recovering, r: DecisionRecord): Replayed {
    if Admitting(r.outcome) && r.decision !in st.pending then Unrecoverable(CorruptJournal)
    else
      var known := r.(restoredFromDisk := true, ledgerLive := Admitting(r.outcome) && r.state != Revoked);
      var st1 :=
        if r.decision in st.pending
        then st.(committed := st.committed[r.decision := st.pending[r.decision]], pending := st.pending - {r.decision})
        else st;
      Replaying(Restored(st1, known))
  }

  function AbsorbRevocation(st: Recovering, v: RevocationRecord): Recovering {
    st.(history := Marked(st.history, v.decision, v.state, v.reason, false), audit := Max(st.audit, v.audit))
  }

  /** One record of the journal. A record its decoder would not accept refuses
      recovery. */
  function Absorb(st: Recovering, r: Record): Replayed {
    match r
    case BootEpoch(b) =>
      if b.formatRevision != FORMAT_REVISION || b.product != PRODUCT_NAME then Unrecoverable(Unsupported)
      else Replaying(st.(epoch := Max(st.epoch, b.epoch)))
    case PolicyConfig(p) =>
      if !ValidPolicy(p) then Unrecoverable(MalformedInput) else Replaying(st.(policy := Some(p)))
    case AdmissionPrepare(p) =>
      if |p.amounts| > MAX_RESOURCE_BINDINGS then Unrecoverable(OversizedInput)
      else Replaying(st.(pending := st.pending[p.decision := p]))
    case AdmissionCommit(d) => AbsorbCommit(st, d)
    case AdmissionRefused(d) => Replaying(Restored(st, d.(restoredFromDisk := true, ledgerLive := false)))
    case LedgerRelease(l) =>
      if |l.released| > MAX_RESOURCE_BINDINGS then Unrecoverable(OversizedInput)
      else Replaying(st.(released := st.released + {l.decision}))
    case Revocation(v) => Replaying(AbsorbRevocation(st, v))
    case AuditMark(m) => Replaying(st.(audit := Max(st.audit, m.sequence)))
  }

  function ReplayLog(st: Recovering, log: seq<Record>): Replayed {
    if log == [] then Replaying(st)
    else
      match ReplayLog(st, log[..|log| - 1])
      case Unrecoverable(status) => Unrecoverable(status)
      case Replaying(st') => Absorb(st', log[|log| - 1])
  }

  lemma {:induction false} ReplayConcat(st: Recovering, a: seq<Record>, b: seq<Record>)
    ensures ReplayLog(st, a + b) ==
      match ReplayLog(st, a)
      case Unrecoverable(status) => Unrecoverable(status)
      case Replaying(st') => ReplayLog(st', b)
  {
    if b == [] {
      assert a + b == a;
    } else {
      var n := |b| - 1;
      ReplayConcat(st, a, b[..n]);
      assert (a + b)[..|a + b| - 1] == a + b[..n];
    }
  }

  lemma ReplaySnoc(st: Recovering, log: seq<Record>, r: Record)
    requires ReplayLog(st, log).Replaying?
    ensures ReplayLog(st, log + [r]) == Absorb(ReplayLog(st, log).state, r)
  {
    assert (log + [r])[..|log|] == log;
  }

  /** Replay keeps the configured bounds. */
  lemma {:induction false} ReplayBounds(b: Recovering, log: seq<Record>)
    requires ReplayLog(b, log).Replaying?
    ensures ReplayLog(b, log).state.history.capacity == b.history.capacity && ReplayLog(b, log).state.attempts.capacity == b.attempts.capacity
  {
    if log != [] {
      ReplayBounds(b, log[..|log| - 1]);
    }
  }

  // ------------------------------------------------------------------
  // The live ledger: committed admissions minus releases
  // ------------------------------------------------------------------

  predicate IsLive(st: Recovering, d: nat) {
    d in st.committed && d in st.history.records && Admitting(st.history.records[d].outcome) &&
    !Released(st.history.records[d].state) && d !in st.released
  }

  function LiveGrants(st: Recovering): map<nat, PrepareRecord> {
    map d | d in st.committed && IsLive(st, d) :: st.committed[d]
  }

  function HoldFrom(p: PrepareRecord): Hold {
    Hold(p.decision, p.demand, p.epoch, p.boundCapacity, p.path, p.amounts)
  }

  function RestoreOne(st: Status, l: LedgerState, p: PrepareRecord): (Status, LedgerState) {
    if st != Ok then (st, l) else Reserved(l, HoldFrom(p))
  }

  /** Reserves the grants of keys[..n] in order, stopping at the first refusal. */
  function RestoreFirst(grants: map<nat, PrepareRecord>, keys: seq<nat>, n: nat): (Status, LedgerState)
    requires n <= |keys| && forall i :: 0 <= i < |keys| ==> keys[i] in grants
  {
    if n == 0 then (Ok, EMPTY_LEDGER)
    else
      var (st, l) := RestoreFirst(grants, keys, n - 1);
      RestoreOne(st, l, grants[keys[n - 1]])
  }

  function RestoredLedger(grants: map<nat, PrepareRecord>): (Status, LedgerState) {
    var keys := SortedKeys(grants.Keys);
    assert forall i :: 0 <= i < |keys| ==> keys[i] in keys;
    var (st, l) := RestoreFirst(grants, keys, |keys|);
    (st, Flagged(l, true))
  }

  // ------------------------------------------------------------------
  // The recovered engine
  // ------------------------------------------------------------------

  datatype RecoveryOutcome = FreshStart | Recovered | RepairedTornTail | RecoveredWithAmbiguity

  /** What opening the journal file found. */
  datatype Scan = Scan(created: bool, truncated: nat)

  datatype RecoveryReport = RecoveryReport(outcome: RecoveryOutcome, ambiguous: set<nat>)

  datatype OpenResult = OpenedWith(report: RecoveryReport, state: State) | NotOpened(status: Status)

  function OutcomeFor(scan: Scan, ambiguous: set<nat>): RecoveryOutcome {
    if ambiguous == {} && scan.truncated == 0 && !scan.created then Recovered
    else if ambiguous != {} then RecoveredWithAmbiguity
    else if scan.truncated != 0 then RepairedTornTail
    else FreshStart
  }

  /** A journal may not be ahead of the configured epoch, and opening one always
      advances the epoch. */
  function EpochVerdict(recovered: u64, configured: u64): Status {
    if recovered != 0 && configured != 0 && recovered > configured then EpochMismatch
    else if recovered == MAX64 then ArithmeticOverflow
    else Ok
  }

  function NextEpoch(recovered: u64, configured: u64): u64
    requires EpochVerdict(recovered, configured) == Ok
  {
    if recovered != 0 then recovered + 1 else if configured != 0 then configured else 1
  }

  /** The engine as recovery rebuilds it, before it writes its boot record. */
  function Revived(blank: State, st: Recovering, l: LedgerState, log: seq<Record>, outcomes: seq<bool>): State
    requires EpochVerdict(st.epoch, blank.epoch) == Ok
  {
    blank.(
      epoch := NextEpoch(st.epoch, blank.epoch),
      auth := blank.auth.(policy := if st.policy.Some? then st.policy else blank.auth.policy),
      ledger := l,
      history := TrimIfNeeded(st.history, l.byDecision.Keys),
      attempts := st.attempts,
      sessions := map[], nextNonce := 1,
      nextDecision := st.maxDecision + 1, audit := st.audit,
      pendingReconciliation := l.byDecision.Keys != {},
      journal := JournalState(true, log, [log], outcomes))
  }

  /** Opens a journal holding `log` in a freshly constructed engine. */
  function OpenDurable(blank: State, scan: Scan, log: seq<Record>, outcomes: seq<bool>): OpenResult {
    match ReplayLog(Blank(blank.history.capacity, blank.attempts.capacity), log)
    case Unrecoverable(status) => NotOpened(status)
    case Replaying(st) =>
      var (reserved, l) := RestoredLedger(LiveGrants(st));
      if reserved != Ok then NotOpened(reserved)
      else if EpochVerdict(st.epoch, blank.epoch) != Ok then NotOpened(EpochVerdict(st.epoch, blank.epoch))
      else
        var s := Revived(blank, st, l, log, outcomes);
        var (booted, s') := Write(s, BootOf(s));
        if !booted then NotOpened(DurableFailure)
        else OpenedWith(RecoveryReport(OutcomeFor(scan, st.pending.Keys), st.pending.Keys), s')
  }
}
