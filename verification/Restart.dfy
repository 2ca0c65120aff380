/** Reopening the engine on what a crash left in the journal. */
module Restart {
  import opened Base
  import opened Model
  import opened Ledger
  import opened History
  import opened Evaluate
  import opened Engine
  import opened Invariants
  import opened Enforcement
  import opened Closure
  import opened CleanRuns
  import opened Recovery
  import opened Restoration
  import opened Meaning
  import opened Compaction
  import opened Durability
  import opened Crash

  /** A meaning some engine could have had. */
  ghost predicate Possible(m: Meaning) {
    Holdable(m.held) && AllPositive(m.held) && (m.policy.Some? ==> ValidPolicy(m.policy.value))
  }

  lemma OrderlyPossible(s: State)
    requires Orderly(s)
    ensures Possible(MeaningOf(s))
  {
    ConservedHoldable(s.ledger);
  }

  lemma LiveOwnIds(st: Recovering, k: Counters)
    requires Sane(st, k)
    ensures OwnIds(LiveGrants(st))
  {}

  /** The ledger recovery builds is exactly the ledger the journal means, every
      total included; it is refused exactly when some path's sum does not fit. */
  lemma RecoversLedger(st: Recovering, k: Counters, m: Meaning)
    requires Says(st, k, m) && Possible(m)
    ensures
      var (status, l) := RestoredLedger(LiveGrants(st));
      (status == Ok <==> PathsFit(m.held)) && (status == Ok ==> HoldsAnew(l, m.held) && Positive(l))
  {
    var grants := LiveGrants(st);
    var whole := TableOf(grants);
    LiveOwnIds(st, k);
    SameHoldable(whole, m.held);
    SamePositive(whole, m.held);
    RestoreExact(grants);
    if RestoredLedger(grants).0 == Ok {
      RestoredPositive(grants);
      AnewTransfers(RestoredLedger(grants).1, whole, m.held);
    }
  }

  lemma AnewTransfers(l: LedgerState, a: Table, h: Table)
    requires HoldsAnew(l, a) && SameGrants(a, h) && Holdable(h)
    ensures HoldsAnew(l, h)
  {
    SameHoldable(a, h);
    forall r: u64 ensures Admitted(l, r) == LoadOn(h, r) {
      assert LoadOn(a, r) == LoadOn(h, r);
    }
  }

  /** A freshly constructed engine with the same bounds as b. */
  ghost predicate Template(e: State, b: Recovering) {
    e == Initial(e.epoch, e.incarnation, e.tick, e.history.capacity, e.attempts.capacity) &&
    b == Blank(e.history.capacity, e.attempts.capacity)
  }

  /** What an engine reopened on a journal with this meaning looks like. */
  ghost predicate Reopened(st: Recovering, m: Meaning, log: seq<Record>, s: State) {
    HoldsAnew(s.ledger, m.held) && Positive(s.ledger) && s.auth == NO_AUTHORITIES.(policy := m.policy) &&
    s.pendingReconciliation == (m.held.Keys != {}) && s.history == TrimIfNeeded(st.history, m.held.Keys) &&
    s.nextDecision == st.maxDecision + 1 && s.audit == st.audit && st.epoch < s.epoch &&
    s.sessions == map[] && s.journal.attached && s.journal.log == log + [BootOf(s)]
  }

  lemma RevivedReopens(e: State, b: Recovering, st: Recovering, k: Counters, m: Meaning, l: LedgerState, log: seq<Record>, outcomes: seq<bool>)
    requires Template(e, b) && Says(st, k, m) && HoldsAnew(l, m.held) && Positive(l) && EpochVerdict(st.epoch, e.epoch) == Ok
    requires Write(Revived(e, st, l, log, outcomes), BootOf(Revived(e, st, l, log, outcomes))).0
    ensures Reopened(st, m, log, Write(Revived(e, st, l, log, outcomes), BootOf(Revived(e, st, l, log, outcomes))).1)
  {}

  /** Recovery succeeds exactly when the ledger's path sums fit, the configured
      epoch is not behind the journal's, and the boot record can be written; and
      then it rebuilds exactly what the journal means. An intent without a commit
      is reported ambiguous. */
  lemma OpenExact(e: State, b: Recovering, scan: Scan, log: seq<Record>, outcomes: seq<bool>, k: Counters, m: Meaning)
    requires Template(e, b) && Means(b, log, k, m) && Possible(m)
    ensures
      var st := ReplayLog(b, log).state;
      var o := OpenDurable(e, scan, log, outcomes);
      (o.OpenedWith? <==> PathsFit(m.held) && EpochVerdict(st.epoch, e.epoch) == Ok && (outcomes == [] || outcomes[0])) &&
      (o.OpenedWith? ==> Reopened(st, m, log, o.state) && o.report.ambiguous == st.pending.Keys)
  {
    var st := ReplayLog(b, log).state;
    RecoversLedger(st, k, m);
    var o := OpenDurable(e, scan, log, outcomes);
    if o.OpenedWith? {
      RevivedReopens(e, b, st, k, m, RestoredLedger(LiveGrants(st)).1, log, outcomes);
    }
  }

  // ------------------------------------------------------------------
  // The reopened engine starts where the run theorems start
  // ------------------------------------------------------------------

  /** A live grant already carries the audit number that comes next. */
  ghost predicate Collides(st: Recovering) {
    exists d :: IsLive(st, d) && st.history.records[d].audit == st.audit
  }

  /** Recovery resumes at the highest audit number found, not above it. A refused
      or released decision that carries it does no harm. */
  lemma ResumesAnchored(st: Recovering, k: Counters)
    requires Sane(st, k) && !Collides(st)
    ensures Anchored(st.history, LiveGrants(st).Keys, st.audit)
  {}

  lemma ResumesIndexed(st: Recovering, k: Counters)
    requires Sane(st, k)
    ensures Indexed(st.history, st.audit)
  {}

  lemma EntriesBack(r: DecisionRecord, p: PrepareRecord, entries: seq<LedgerEntry>)
    requires GoodIntent(r.decision, p) && Matches(r, p) && WithFlags(entries, false) == WithFlags(EntriesFor(HoldFrom(p)), false)
    ensures Ascending(entries) && forall i :: 0 <= i < |entries| ==> EntryMatches(r, entries[i])
  {
    var given := EntriesFor(HoldFrom(p));
    forall i | 0 <= i < |entries| ensures i < |p.amounts| && entries[i] == given[i].(requiresRevalidation := entries[i].requiresRevalidation) {
      SameEntry(entries, given, i);
    }
  }

  lemma BackedAgain(st: Recovering, k: Counters, m: Meaning, table: Table, d: nat)
    requires Says(st, k, m) && SameGrants(m.held, table) && d in table
    ensures Backed(st.history.records, d, table[d])
  {
    LiveIffHeld(st, m.held, d);
    var t := TableOf(LiveGrants(st));
    assert WithFlags(t[d], false) == WithFlags(m.held[d], false) == WithFlags(table[d], false);
    EntriesBack(st.history.records[d], st.committed[d], table[d]);
  }

  lemma StillBacked(h: HistoryState, table: Table, audit: nat)
    requires Indexed(h, audit) && Anchored(h, table.Keys, audit) && AllBacked(h.records, table)
    ensures
      var t := TrimIfNeeded(h, table.Keys);
      Indexed(t, audit) && Anchored(t, table.Keys, audit) && AllBacked(t.records, table) && forall d :: d in t.records ==> d in h.records
  {
    TrimKeeps(h, table.Keys, audit);
    var t := TrimIfNeeded(h, table.Keys);
    RetainsAnchored(h, t, table.Keys, audit);
    forall d | d in table ensures Backed(t.records, d, table[d]) {
      assert Backed(h.records, d, table[d]);
    }
  }

  lemma ReopenedConsistent(st: Recovering, k: Counters, m: Meaning, log: seq<Record>, s: State)
    requires Says(st, k, m) && Possible(m) && Reopened(st, m, log, s) && !Collides(st)
    ensures Consistent(s)
  {
    var table := s.ledger.byDecision;
    ResumesIndexed(st, k);
    ResumesAnchored(st, k);
    LiveAreHeld(st, k, m);
    forall d | d in table ensures Backed(st.history.records, d, table[d]) {
      BackedAgain(st, k, m, table, d);
    }
    assert m.held.Keys == table.Keys;
    StillBacked(st.history, table, st.audit);
  }

  lemma LiveAreHeld(st: Recovering, k: Counters, m: Meaning)
    requires Says(st, k, m)
    ensures LiveGrants(st).Keys == m.held.Keys
  {
    assert TableOf(LiveGrants(st)).Keys == LiveGrants(st).Keys;
  }

  lemma ResumesSane(st: Recovering, k: Counters, m: Meaning)
    requires Says(st, k, m) && !Collides(st)
    ensures Says(st, Counters(st.maxDecision + 1, st.audit), m)
  {
    ResumesIndexed(st, k);
    ResumesAnchored(st, k);
  }

  lemma ReopenedDurable(b: Recovering, k: Counters, m: Meaning, log: seq<Record>, s: State)
    requires IsBlank(b) && Means(b, log, k, m) && Reopened(ReplayLog(b, log).state, m, log, s)
    requires !Collides(ReplayLog(b, log).state)
    ensures Durable(b, s)
  {
    ResumesSane(ReplayLog(b, log).state, k, m);
    BootMeans(b, log, BootOf(s).boot, Next(s), m);
    MeansSame(b, s.journal.log, Next(s), m, MeaningOf(s));
  }

  lemma {:induction false} ReplayCursor(b: Recovering, log: seq<Record>)
    requires IsBlank(b) && ReplayLog(b, log).Replaying?
    ensures ReplayLog(b, log).state.history.cursor == 0
  {
    if log != [] {
      ReplayCursor(b, log[..|log| - 1]);
    }
  }

  lemma TrimmedClean(h: HistoryState, held: set<nat>, audit: nat)
    requires Indexed(h, audit) && Anchored(h, held, audit) && h.cursor == 0
    ensures CursorOk(TrimIfNeeded(h, held), held) && TrimIfNeeded(h, held).cursor <= audit
  {
    if |h.records| > h.capacity {
      TrimComplete(h, held, audit);
    }
  }

  /** Everything the theorems over runs ask of their starting state. */
  ghost predicate StartsAgain(b: Recovering, s: State) {
    Orderly(s) && Durable(b, s) && Closed(s) && (WritesSucceed(s.journal) ==> Clean(s))
  }

  lemma ReopenedStarts(b: Recovering, k: Counters, m: Meaning, log: seq<Record>, s: State)
    requires IsBlank(b) && Means(b, log, k, m) && Possible(m) && Reopened(ReplayLog(b, log).state, m, log, s)
    requires !Collides(ReplayLog(b, log).state)
    ensures StartsAgain(b, s)
  {
    var st := ReplayLog(b, log).state;
    ReopenedConsistent(st, k, m, log, s);
    ReopenedDurable(b, k, m, log, s);
    ResumesIndexed(st, k);
    ResumesAnchored(st, k);
    LiveAreHeld(st, k, m);
    ReplayCursor(b, log);
    TrimmedClean(st.history, m.held.Keys, st.audit);
    assert m.held.Keys == s.ledger.byDecision.Keys;
  }

  // ------------------------------------------------------------------
  // A crash at any instant
  // ------------------------------------------------------------------

  /** What the journal can hold if the engine dies during the step from s to s'. */
  ghost predicate CrashContent(s: State, s': State, log: seq<Record>) {
    log == s.journal.log || exists i :: |s.journal.images| <= i < |s'.journal.images| && s'.journal.images[i] == log
  }

  lemma LandedContent(b: Recovering, s: State, s': State, log: seq<Record>) returns (k: Counters, m: Meaning)
    requires Durable(b, s) && s.journal.attached && Landed(b, s, s') && CrashContent(s, s', log)
    ensures Means(b, log, k, m) && (m == MeaningOf(s) || m == MeaningOf(s'))
  {
    if log == s.journal.log {
      k, m := Next(s), MeaningOf(s);
    } else {
      var i :| |s.journal.images| <= i < |s'.journal.images| && s'.journal.images[i] == log;
      k := Next(s');
      m := if Means(b, log, k, MeaningOf(s)) then MeaningOf(s) else MeaningOf(s');
    }
  }

  /** An operation interrupted at any instant is recovered as not done or as done. */
  lemma CrashDuringOperation(b: Recovering, cfg: Config, s: State, op: Op, log: seq<Record>) returns (k: Counters, m: Meaning)
    requires Durable(b, s) && Orderly(s) && s.journal.attached && !Enforcing(op) && AsksForSomething(op) && Recordable(s, op)
    requires CrashContent(s, After(cfg, s, op), log)
    ensures Means(b, log, k, m) && Possible(m) && (m == MeaningOf(s) || m == MeaningOf(After(cfg, s, op)))
  {
    OperationLands(b, cfg, s, op);
    StepOrderly(cfg, s, op);
    OrderlyPossible(s);
    OrderlyPossible(After(cfg, s, op));
    k, m := LandedContent(b, s, After(cfg, s, op), log);
  }

  lemma PartPossible(s: State, t: nat)
    requires Orderly(s)
    ensures Possible(PartMeaning(s, t))
  {
    ConservedHoldable(s.ledger);
    PartHoldable(s.ledger.byDecision, PartMeaning(s, t).held.Keys);
  }

  lemma PublishedContent(b: Recovering, s: State, s1: State, s': State, log: seq<Record>) returns (k: Counters, m: Meaning)
    requires Durable(b, s) && Orderly(s) && s.journal.attached && Published(b, s, s1, s') && CrashContent(s, s', log)
    ensures Means(b, log, k, m) && Possible(m) && (m == MeaningOf(s) || exists t: nat :: m == PartMeaning(s1, t))
  {
    k := Next(s);
    if log == s.journal.log {
      m := MeaningOf(s);
      OrderlyPossible(s);
    } else {
      var i :| |s.journal.images| <= i < |s'.journal.images| && s'.journal.images[i] == log;
      assert MeansPart(b, s1, s'.journal.images[i], k);
      var t: nat :| Means(b, log, k, PartMeaning(s1, t));
      m := PartMeaning(s1, t);
      PartPossible(s1, t);
    }
  }

  /** The authority is in force and its enforcement has not begun. */
  ghost function Republished(s: State, op: Op): State
    requires Enforcing(op)
  {
    match op
    case OpPolicy(p) => WithPolicy(s, p)
    case OpCapacity(c) => s.(auth := s.auth.(capacity := Some(c)), tick := Later(s.tick, c.observedTick))
    case OpReservations(r) => s.(auth := s.auth.(reservations := Some(r)), tick := Later(s.tick, r.observedTick))
  }

  lemma PublicationLands(b: Recovering, cfg: Config, s: State, op: Op)
    requires Durable(b, s) && Orderly(s) && Enforcing(op)
    ensures PublicationLanded(b, s, Republished(s, op), After(cfg, s, op))
  {
    match op
    case OpPolicy(p) => PolicyLands(b, s, p);
    case OpCapacity(c) => CapacityLands(b, s, c);
    case OpReservations(r) => ReservationsLand(b, s, r);
  }

  /** A publication interrupted at any instant is recovered as not done, as done,
      or with its enforcement carried out down to some audit number. */
  lemma CrashDuringPublication(b: Recovering, cfg: Config, s: State, op: Op, log: seq<Record>) returns (k: Counters, m: Meaning)
    requires Durable(b, s) && Orderly(s) && s.journal.attached && Enforcing(op) && CrashContent(s, After(cfg, s, op), log)
    ensures Means(b, log, k, m) && Possible(m)
    ensures m == MeaningOf(s) || m == MeaningOf(After(cfg, s, op)) ||
      (Consistent(Republished(s, op)) && exists t: nat :: m == PartMeaning(Republished(s, op), t))
  {
    var s' := After(cfg, s, op);
    PublicationLands(b, cfg, s, op);
    if Landed(b, s, s') {
      StepOrderly(cfg, s, op);
      OrderlyPossible(s);
      OrderlyPossible(s');
      k, m := LandedContent(b, s, s', log);
    } else {
      k, m := PublishedContent(b, s, Republished(s, op), s', log);
    }
  }

  /** However the engine dies during an operation, an engine that reopens the
      journal holds a possible outcome of that operation exactly, and, unless a
      live grant carries the resumed audit number, starts from a state every theorem over runs
      applies to again. */
  lemma CrashRecovers(b: Recovering, cfg: Config, s: State, op: Op, log: seq<Record>, e: State, scan: Scan, outcomes: seq<bool>)
    returns (m: Meaning)
    requires Template(e, b) && Durable(b, s) && Orderly(s) && s.journal.attached && AsksForSomething(op) && Recordable(s, op)
    requires CrashContent(s, After(cfg, s, op), log)
    ensures m == MeaningOf(s) || m == MeaningOf(After(cfg, s, op)) ||
      (Enforcing(op) && Consistent(Republished(s, op)) && exists t: nat :: m == PartMeaning(Republished(s, op), t))
    ensures ReplayLog(b, log).Replaying?
    ensures
      var st := ReplayLog(b, log).state;
      var o := OpenDurable(e, scan, log, outcomes);
      (o.OpenedWith? <==> PathsFit(m.held) && EpochVerdict(st.epoch, e.epoch) == Ok && (outcomes == [] || outcomes[0])) &&
      (o.OpenedWith? ==>
        Reopened(st, m, log, o.state) && o.report.ambiguous == st.pending.Keys &&
        (!Collides(st) ==> StartsAgain(b, o.state)))
  {
    var k: Counters;
    if Enforcing(op) {
      k, m := CrashDuringPublication(b, cfg, s, op, log);
    } else {
      k, m := CrashDuringOperation(b, cfg, s, op, log);
    }
    OpenExact(e, b, scan, log, outcomes, k, m);
    var st := ReplayLog(b, log).state;
    var o := OpenDurable(e, scan, log, outcomes);
    if o.OpenedWith? && !Collides(st) {
      ReopenedStarts(b, k, m, log, o.state);
    }
  }
}
