/** What an audit number used twice does to the accounts
    (AdmissionEngine::open_durable, src/engine/engine.cpp). */
module Collisions {
  import opened Base
  import opened Model
  import opened Ledger
  import opened History
  import opened Engine
  import opened Enforcement
  import opened Closure
  import opened CleanRuns
  import opened Staleness
  import opened Recovery
  import opened Meaning
  import opened Durability
  import opened Crash
  import opened Restart
  import opened Departures

  // ------------------------------------------------------------------
  // The next decision takes the slot
  // ------------------------------------------------------------------

  /** Retirement only removes slots. */
  ghost predicate FewerSlots(h: HistoryState, t: HistoryState) {
    forall a :: a in t.auditIndex ==> a in h.auditIndex && t.auditIndex[a] == h.auditIndex[a]
  }

  lemma {:induction false} TrimFromSlots(h: HistoryState, held: set<nat>, keys: seq<nat>, i: nat)
    requires Pending(h, keys, i)
    ensures FewerSlots(h, TrimFrom(h, held, keys, i).0)
    decreases |keys| - i
  {
    if |h.records| > h.capacity && i < |keys| {
      PendingStep(h, held, keys, i);
      TrimFromSlots(ScanOne(h, held, keys[i]), held, keys, i + 1);
    }
  }

  lemma TrimSlots(h: HistoryState, held: set<nat>)
    ensures FewerSlots(h, TrimIfNeeded(h, held))
  {
    if |h.records| > h.capacity {
      var keys, start, t, n := TrimIsScan(h, held);
      TrimFromSlots(h, held, keys, start);
    }
  }

  lemma NoSlotUnlisted(h: HistoryState, audit: nat, d: nat)
    requires Indexed(h, audit) && forall a :: a in h.auditIndex ==> h.auditIndex[a] != d
    ensures forall i :: 0 <= i < |InAuditOrder(h)| ==> InAuditOrder(h)[i].decision != d
  {
    var keys := SortedKeys(h.auditIndex.Keys);
    assert forall i :: 0 <= i < |keys| ==> keys[i] in keys;
    CollectedOnce(h, keys, d);
  }

  /** Filing a record under a number d already carries leaves d no slot. */
  lemma SlotTaken(h: HistoryState, r: DecisionRecord, held: set<nat>, d: nat)
    requires Indexed(h, r.audit) && d in h.records && h.records[d].audit == r.audit && r.decision !in h.records && r.decision != 0
    ensures
      var t := TrimIfNeeded(Inserted(h, r), held);
      forall i :: 0 <= i < |InAuditOrder(t)| ==> InAuditOrder(t)[i].decision != d
  {
    var g := Inserted(h, r);
    var t := TrimIfNeeded(g, held);
    InsertIndexed(h, r, r.audit);
    TrimKeeps(g, held, r.audit + 1);
    TrimSlots(g, held);
    forall a | a in t.auditIndex ensures t.auditIndex[a] != d {
      assert g.auditIndex[a] == t.auditIndex[a];
    }
    NoSlotUnlisted(t, r.audit + 1, d);
  }

  // ------------------------------------------------------------------
  // Two operations that leave the accounts open
  // ------------------------------------------------------------------

  /** A request that names nothing: its contract is refused. */
  const NAMELESS := Request(0, 0, 0, 0, RateBounds(1, 1, 1), 0, 0, 0, 0, 0, [], [], 0, [], 0, 0, false, false, false,
                            InheritContention, InheritDegrade, 0, 0, 0, Expectation(0, 0, 0, 0, 0, 0, 0, 0), 0, 0)

  const ANYONE := Claim(InProcess, 0, 0, 0, 0, 0)

  /** A capacity snapshot that knows no resource. */
  function Nothing(epoch: u64): CapacitySnapshot {
    CapacitySnapshot(1, 1, epoch, 0, [])
  }

  /** d holds load and the next decision will take its audit slot. */
  ghost predicate Endangered(s: State, d: nat) {
    Indexed(s.history, s.audit) && d in s.ledger.byDecision && s.ledger.byDecision[d] != [] &&
    d in s.history.records && s.history.records[d].audit == s.audit && d < s.nextDecision &&
    s.nextDecision !in s.history.records
  }

  lemma RefusedTakesSlot(cfg: Config, s: State, d: nat)
    requires Endangered(s, d) && WritesSucceed(s.journal)
    ensures
      var s1 := After(cfg, s, OpAdmit(NAMELESS, ANYONE));
      Unlisted(s1, d) && s1.ledger == s.ledger && s1.auth == s.auth && s1.epoch == s.epoch
  {
    assert PlanFor(cfg, s, NAMELESS, ANYONE) == RefuseWith(RejectPolicy, false);
    var (dec, s0) := BeginDecision(cfg, s, NAMELESS, RejectPolicy);
    var r := ToRecord(s0.auth, dec);
    WriteClean(s0, AdmissionRefused(r));
    SlotTaken(s.history, r, s.ledger.byDecision.Keys, d);
    assert After(cfg, s, OpAdmit(NAMELESS, ANYONE)) == Refuse(cfg, s, NAMELESS, RejectPolicy, false).1;
  }

  lemma UnknownDoesNotFit(auth: Authorities, l: LedgerState, d: nat)
    requires d in l.byDecision && l.byDecision[d] != [] && auth.capacity.Some? && auth.capacity.value.resources == []
    ensures !Fits(auth, l, d)
  {
    assert !EntryFits(auth, l, l.byDecision[d][0]);
  }

  /** An unlisted grant outlives the publication of a capacity that knows nothing. */
  lemma UnlistedLeftOpen(cfg: Config, s: State, d: nat)
    requires Unlisted(s, d) && d in s.ledger.byDecision && s.ledger.byDecision[d] != [] && s.auth.capacity.None? && s.epoch != 0
    ensures !Closed(After(cfg, s, OpCapacity(Nothing(s.epoch))))
  {
    var c := Nothing(s.epoch);
    var s1 := s.(auth := s.auth.(capacity := Some(c)), tick := Later(s.tick, c.observedTick));
    var s' := Enforce(s1, CapacityReduction).1;
    assert PublishCapacity(s, c).1 == s';
    EnforceAuth(s1, CapacityReduction);
    UnlistedEscapesEnforcement(s1, CapacityReduction, d);
    assert |WithFlags(s'.ledger.byDecision[d], false)| == |WithFlags(s.ledger.byDecision[d], false)|;
    UnknownDoesNotFit(s'.auth, s'.ledger, d);
  }

  function OpeningRun(epoch: u64): seq<Op> {
    [OpAdmit(NAMELESS, ANYONE), OpCapacity(Nothing(epoch))]
  }

  lemma EndangeredOpens(cfg: Config, s: State, d: nat)
    requires Endangered(s, d) && WritesSucceed(s.journal) && s.auth.capacity.None? && s.epoch != 0
    ensures !Closed(Run(cfg, s, OpeningRun(s.epoch)))
  {
    var a, c := OpAdmit(NAMELESS, ANYONE), OpCapacity(Nothing(s.epoch));
    RefusedTakesSlot(cfg, s, d);
    UnlistedLeftOpen(cfg, After(cfg, s, a), d);
    TwoSteps(cfg, s, a, c);
  }

  lemma TwoSteps(cfg: Config, s: State, a: Op, c: Op)
    ensures Run(cfg, s, [a, c]) == After(cfg, After(cfg, s, a), c)
  {
    assert [a, c][..1] == [a];
    assert [a][..0] == [];
    assert Run(cfg, s, []) == s;
    assert Run(cfg, s, [a]) == After(cfg, s, a);
  }

  // ------------------------------------------------------------------
  // The reopened engine
  // ------------------------------------------------------------------

  lemma CollidingEndangered(st: Recovering, k: Counters, m: Meaning, log: seq<Record>, s: State) returns (d: nat)
    requires Says(st, k, m) && Possible(m) && Reopened(st, m, log, s) && Collides(st)
    ensures Endangered(s, d) && s.auth.capacity.None? && s.epoch != 0
  {
    d :| IsLive(st, d) && st.history.records[d].audit == st.audit;
    LiveIffHeld(st, m.held, d);
    ResumesIndexed(st, k);
    TrimKeeps(st.history, m.held.Keys, st.audit);
    assert EntriesOk(d, s.ledger.byDecision[d]);
  }

  /** Whatever the engine is asked to do, its accounts stay closed. */
  ghost predicate StaysClosed(cfg: Config, s: State) {
    forall ops :: AllAskForSomething(ops) ==> Closed(Run(cfg, s, ops))
  }

  lemma CollidingOpens(b: Recovering, cfg: Config, log: seq<Record>, k: Counters, m: Meaning, s: State)
    requires Means(b, log, k, m) && Possible(m) && Reopened(ReplayLog(b, log).state, m, log, s) && WritesSucceed(s.journal)
    requires Collides(ReplayLog(b, log).state)
    ensures !Closed(Run(cfg, s, OpeningRun(s.epoch))) && AllAskForSomething(OpeningRun(s.epoch))
  {
    var d := CollidingEndangered(ReplayLog(b, log).state, k, m, log, s);
    EndangeredOpens(cfg, s, d);
    OpeningAsks(s.epoch);
  }

  lemma OpeningAsks(epoch: u64)
    ensures AllAskForSomething(OpeningRun(epoch))
  {}

  lemma StartsClosedForGood(b: Recovering, cfg: Config, s: State)
    requires StartsAgain(b, s) && WritesSucceed(s.journal)
    ensures StaysClosed(cfg, s)
  {
    forall ops | AllAskForSomething(ops) ensures Closed(Run(cfg, s, ops)) {
      ClosureOverCleanRuns(cfg, s, ops);
    }
  }

  /** Departure, and its exact condition: the accounts of a reopened engine whose
      journal writes succeed stay closed over every run exactly when no live grant
      carries the audit number it resumed at. Otherwise one refused request and
      one capacity publication leave them open. */
  lemma StaysClosedIff(b: Recovering, cfg: Config, log: seq<Record>, k: Counters, m: Meaning, s: State)
    requires IsBlank(b) && Means(b, log, k, m) && Possible(m) && Reopened(ReplayLog(b, log).state, m, log, s) && WritesSucceed(s.journal)
    ensures StaysClosed(cfg, s) <==> !Collides(ReplayLog(b, log).state)
  {
    if Collides(ReplayLog(b, log).state) {
      CollidingOpens(b, cfg, log, k, m, s);
    } else {
      ReopenedStarts(b, k, m, log, s);
      StartsClosedForGood(b, cfg, s);
    }
  }

  lemma CrashMeaning(b: Recovering, cfg: Config, s: State, op: Op, log: seq<Record>) returns (k: Counters, m: Meaning)
    requires Durable(b, s) && Orderly(s) && s.journal.attached && AsksForSomething(op) && Recordable(s, op)
    requires CrashContent(s, After(cfg, s, op), log)
    ensures Means(b, log, k, m) && Possible(m)
  {
    if Enforcing(op) {
      k, m := CrashDuringPublication(b, cfg, s, op, log);
    } else {
      k, m := CrashDuringOperation(b, cfg, s, op, log);
    }
  }

  /** The same of a running engine: however it dies during an operation, the
      accounts of the engine reopened on its journal stay closed exactly then. */
  lemma CrashedStaysClosedIff(b: Recovering, cfg: Config, s: State, op: Op, log: seq<Record>, e: State, scan: Scan, outcomes: seq<bool>)
    requires Template(e, b) && Durable(b, s) && Orderly(s) && s.journal.attached && AsksForSomething(op) && Recordable(s, op)
    requires CrashContent(s, After(cfg, s, op), log) && OpenDurable(e, scan, log, outcomes).OpenedWith?
    requires WritesSucceed(OpenDurable(e, scan, log, outcomes).state.journal)
    ensures ReplayLog(b, log).Replaying?
    ensures StaysClosed(cfg, OpenDurable(e, scan, log, outcomes).state) <==> !Collides(ReplayLog(b, log).state)
  {
    var k, m := CrashMeaning(b, cfg, s, op, log);
    OpenExact(e, b, scan, log, outcomes, k, m);
    StaysClosedIff(b, cfg, log, k, m, OpenDurable(e, scan, log, outcomes).state);
  }
}
