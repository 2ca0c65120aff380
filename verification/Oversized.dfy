/** Grants over more resources than a journaled intent may name
    (src/engine/engine.cpp, src/durable/records.cpp). */
module Oversized {
  import opened Base
  import opened Model
  import opened Snapshots
  import opened Ledger
  import opened History
  import opened Evaluate
  import opened Selection
  import opened Checks
  import opened Engine
  import opened Invariants
  import opened Closure
  import opened Recovery
  import opened Durability
  import opened Crash

  // ------------------------------------------------------------------
  // The journal after such an admission
  // ------------------------------------------------------------------

  predicate IsOversized(r: Record) {
    r.AdmissionPrepare? && |r.prepare.amounts| > MAX_RESOURCE_BINDINGS
  }

  ghost predicate HasOversized(log: seq<Record>) {
    exists i :: 0 <= i < |log| && IsOversized(log[i])
  }

  /** An intent over more than 1024 resources is written but cannot be read back:
      no journal containing it can ever be recovered. */
  lemma {:induction false} OversizedIntentUnrecoverable(b: Recovering, log: seq<Record>, p: PrepareRecord, rest: seq<Record>)
    requires |p.amounts| > MAX_RESOURCE_BINDINGS
    ensures ReplayLog(b, log + [AdmissionPrepare(p)] + rest).Unrecoverable?
  {
    assert (log + [AdmissionPrepare(p)])[..|log|] == log;
    ReplayConcat(b, log + [AdmissionPrepare(p)], rest);
  }

  lemma OversizedUnrecoverable(b: Recovering, log: seq<Record>)
    requires HasOversized(log)
    ensures ReplayLog(b, log).Unrecoverable?
  {
    var i :| 0 <= i < |log| && IsOversized(log[i]);
    OversizedIntentUnrecoverable(b, log[..i], log[i].prepare, log[i + 1..]);
    assert log[..i] + [log[i]] + log[i + 1..] == log;
  }

  lemma OversizedStays(log: seq<Record>, r: Record)
    requires HasOversized(log) || IsOversized(r)
    ensures HasOversized(log + [r])
  {
    if HasOversized(log) {
      var i :| 0 <= i < |log| && IsOversized(log[i]);
      assert (log + [r])[i] == log[i];
    } else {
      assert (log + [r])[|log|] == r;
    }
  }

  lemma HasInPart(a: seq<Record>, b: seq<Record>, c: seq<Record>)
    requires HasOversized(b)
    ensures HasOversized(a + b + c)
  {
    var i :| 0 <= i < |b| && IsOversized(b[i]);
    assert (a + b + c)[|a| + i] == b[i];
  }

  lemma {:induction false} RewrittenHas(l: LedgerState, ordered: seq<DecisionRecord>, i: nat)
    requires i < |ordered| && HasOversized(CompactedRecord(l, ordered[i]))
    ensures HasOversized(CompactedRecords(l, ordered))
  {
    var n := |ordered| - 1;
    var front, last := CompactedRecords(l, ordered[..n]), CompactedRecord(l, ordered[n]);
    if i == n {
      HasInPart(front, last, []);
      assert front + last + [] == front + last;
    } else {
      RewrittenHas(l, ordered[..n], i);
      HasInPart([], front, last);
      assert [] + front + last == front + last;
    }
  }

  /** A compaction writes the intent of every live grant again. */
  lemma CompactedHas(s: State, d: nat)
    requires Consistent(s) && d in s.ledger.byDecision && |s.ledger.byDecision[d]| > MAX_RESOURCE_BINDINGS
    ensures HasOversized(CompactedLog(s))
  {
    var ordered := InAuditOrder(s.history);
    assert Listed(s.history, d) && Backed(s.history.records, d, s.ledger.byDecision[d]);
    var i := AuditOrderComplete(s.history, s.audit, d);
    assert IsOversized(CompactedRecord(s.ledger, ordered[i])[0]);
    RewrittenHas(s.ledger, ordered, i);
    var head := [BootOf(s)] + (if s.auth.policy.Some? then [PolicyConfig(s.auth.policy.value)] else []);
    var body := CompactedRecords(s.ledger, ordered);
    HasInPart(head, body, [AuditMark(AuditMarkRecord(s.audit, s.epoch, |head + body|))]);
  }

  lemma CompactIfNeededHas(cfg: Config, s: State, d: nat)
    requires Consistent(s) && d in s.ledger.byDecision && |s.ledger.byDecision[d]| > MAX_RESOURCE_BINDINGS && HasOversized(s.journal.log)
    ensures HasOversized(CompactIfNeeded(cfg, s).1.journal.log)
  {
    CompactedHas(s, d);
  }

  lemma CommittedHas(cfg: Config, s: State, s3: State, d: Decision, amounts: seq<Amount>, r: DecisionRecord)
    requires Opened(s, d) && Admitting(d.outcome) && AscendingAmounts(amounts) && Reserved(s.ledger, HoldOf(d, amounts)).0 == Ok
    requires s3 == s.(ledger := Reserved(s.ledger, HoldOf(d, amounts)).1, journal := s3.journal) && r == ToRecord(s.auth, d).(ledgerLive := true)
    requires |amounts| > MAX_RESOURCE_BINDINGS && HasOversized(s3.journal.log)
    ensures HasOversized(CompactIfNeeded(cfg, Filed(s3, d, r, true)).1.journal.log)
  {
    CommittedKeeps(s, s3, d, amounts, r);
    CompactIfNeededHas(cfg, Filed(s3, d, r, true), d.decision);
  }

  /** However the admission goes on, its intent stays in the journal. */
  lemma FinishHas(cfg: Config, s: State, d: Decision, amounts: seq<Amount>)
    requires Opened(s, d) && Admitting(d.outcome) && AscendingAmounts(amounts) && |amounts| > MAX_RESOURCE_BINDINGS
    requires s.journal.attached && !NextFails(s.journal)
    ensures HasOversized(FinishAdmission(cfg, s, d, amounts).1.journal.log)
  {
    var prepare := AdmissionPrepare(IntentOf(d, amounts));
    var (prepared, s1) := Write(s, prepare);
    OversizedStays(s.journal.log, prepare);
    var (reserved, l) := Reserved(s1.ledger, HoldOf(d, amounts));
    if reserved == Ok {
      var s2 := s1.(ledger := l);
      var r := ToRecord(s2.auth, d).(ledgerLive := true);
      OversizedStays(s2.journal.log, AdmissionCommit(r));
      var (committed, s3) := Write(s2, AdmissionCommit(r));
      if committed {
        CommittedHas(cfg, s, s3, d, amounts, r);
      }
    }
  }

  lemma AdmitNewHas(cfg: Config, s: State, req: Request, e: Evaluation)
    requires Consistent(s) && s.journal.attached && !NextFails(s.journal)
    requires e == EvaluateRequest(s.auth, s.ledger, s.tick, s.pendingReconciliation, req) && e.Granted? && |e.targets| > MAX_RESOURCE_BINDINGS
    ensures HasOversized(AdmitNew(cfg, s, req).1.journal.log)
  {
    EvaluationSound(s.auth, s.ledger, s.tick, s.pendingReconciliation, req);
    FinishHas(cfg, BeginDecision(cfg, s, req, e.outcome).1, GrantedDecision(cfg, s, req, e), AmountsAt(e.targets, e.grant));
  }

  /** Departure, and its exact condition: once the intent of a grant has been
      journaled, the journal can be read back after the admission, whatever
      became of it, exactly when the grant covers at most 1024 resources. */
  lemma ReadableIff(b: Recovering, cfg: Config, s: State, req: Request)
    requires Durable(b, s) && Consistent(s) && s.journal.attached && !NextFails(s.journal)
    requires EvaluateRequest(s.auth, s.ledger, s.tick, s.pendingReconciliation, req).Granted?
    ensures
      var e := EvaluateRequest(s.auth, s.ledger, s.tick, s.pendingReconciliation, req);
      ReplayLog(b, AdmitNew(cfg, s, req).1.journal.log).Replaying? <==> |e.targets| <= MAX_RESOURCE_BINDINGS
  {
    var e := EvaluateRequest(s.auth, s.ledger, s.tick, s.pendingReconciliation, req);
    if |e.targets| <= MAX_RESOURCE_BINDINGS {
      StillReadable(b, cfg, s, req);
    } else {
      AdmitNewHas(cfg, s, req, e);
      OversizedUnrecoverable(b, AdmitNew(cfg, s, req).1.journal.log);
    }
  }

  lemma StillReadable(b: Recovering, cfg: Config, s: State, req: Request)
    requires Durable(b, s) && Consistent(s) && s.journal.attached
    requires
      var e := EvaluateRequest(s.auth, s.ledger, s.tick, s.pendingReconciliation, req);
      e.Granted? && |e.targets| <= MAX_RESOURCE_BINDINGS
    ensures ReplayLog(b, AdmitNew(cfg, s, req).1.journal.log).Replaying?
  {
    AdmitNewLands(b, cfg, s, req);
  }

  // ------------------------------------------------------------------
  // A grant over 1025 resources
  // ------------------------------------------------------------------

  function CapacityEntry(r: u64): ResourceCapacity {
    ResourceCapacity(r, 1, EvidenceKnown, 10, 0)
  }

  /** Resources 1 to 1025, each of capacity 10. */
  function WideCapacity(): (c: CapacitySnapshot)
    ensures |c.resources| == 1025 && forall i :: 0 <= i < 1025 ==> c.resources[i] == CapacityEntry(i + 1)
  {
    CapacitySnapshot(1, 1, 1, 0, seq(1025, i requires 0 <= i < 1025 => CapacityEntry(i + 1)))
  }

  const LAST := PathFact(1, 1, PathUp, 10, 0, [1025])

  function WideWorld(): Authorities {
    Authorities(
      Some(Policy(1, 1, 1, 0, 0, 0, false, false, false, false, false, RejectOnContention, [], [], 1, 128, 1, 0)),
      Some(WideCapacity()), Some(ReservationSnapshot(1, 1, 1, 0, [])), Some(PathCatalog(1, 1, 0, [LAST])),
      Some(QosCatalog(1, 1, 0, [QosFact(1, 1, 0, MAX64, MAX64, false)])),
      Some(PriorityCatalog(1, 1, 0, [PriorityFact(1, 1, 1, false)])))
  }

  /** Rate 1 on resources 1 to 1024 and over a path across resource 1025. */
  function WideDemand(): (req: Request)
    ensures |req.bindings| == 1024 && forall i :: 0 <= i < 1024 ==> req.bindings[i] == Binding(i + 1, 1)
  {
    Request(1, 1, 1, 1, RateBounds(1, 1, 1), 1, 1, 1, 1, 0,
            seq(1024, i requires 0 <= i < 1024 => Binding(i + 1, 1)), [Candidate(1, 1)], 0, [], 0, 0,
            false, false, false, InheritContention, InheritDegrade, 0, 0, 0, Expectation(1, 1, 1, 1, 1, 1, 1, 1), 0, 0)
  }

  lemma WideOrdered()
    ensures OrderedBy(WideCapacity().resources, ResourceOf) && ValidCapacity(WideCapacity())
  {
    var rs := WideCapacity().resources;
    assert forall i, j :: 0 <= i < j < |rs| ==> ResourceOf(rs[i]) < ResourceOf(rs[j]);
  }

  lemma WideValid()
    ensures ValidAuthorities(WideWorld()) && ValidRequest(WideDemand())
  {
    WideOrdered();
    assert ValidReservations(WideWorld().reservations.value);
  }

  lemma WideKnown(r: u64)
    requires 1 <= r <= 1025
    ensures FindCapacity(WideWorld(), r) == Some(CapacityEntry(r)) && Known(WideWorld(), r) && Allowance(WideWorld(), r) == 10
  {
    WideOrdered();
    LookupUnique(WideCapacity().resources, ResourceOf, r, r - 1);
  }

  /** The numbers 1 to n. */
  function FirstNumbers(n: nat): (r: set<nat>)
    ensures |r| == n && forall x :: x in r <==> 1 <= x <= n
  {
    if n == 0 then {} else FirstNumbers(n - 1) + {n}
  }

  lemma RangeCount(s: set<nat>, n: nat)
    requires forall x :: x in s <==> 1 <= x <= n
    ensures |s| == n
  {
    assert s == FirstNumbers(n);
  }

  lemma WideBound(r: nat)
    ensures r in BoundResources(WideDemand()) <==> 1 <= r <= 1024
  {
    var req := WideDemand();
    if 1 <= r <= 1024 {
      assert req.bindings[r - 1].resource == r;
    }
  }

  /** Targets that are the numbers 1 to n are n in number. */
  lemma TargetsInRange(req: Request, traversal: seq<u64>, n: nat)
    requires forall r: nat :: r in BoundResources(req) || r in traversal <==> 1 <= r <= n
    ensures
      var t := Targets(req, traversal);
      |t| == n && forall i :: 0 <= i < |t| ==> 1 <= t[i] <= n
  {
    var wanted := BoundResources(req) + set r | r in traversal;
    RangeCount(wanted, n);
    SortedKeysCount(wanted);
    var t := Targets(req, traversal);
    forall i | 0 <= i < |t| ensures 1 <= t[i] <= n {
      assert t[i] in t;
    }
  }

  lemma WideTargets()
    ensures
      var t := Targets(WideDemand(), [1025]);
      |t| == 1025 && forall i :: 0 <= i < |t| ==> 1 <= t[i] <= 1025
  {
    forall r: nat ensures r in BoundResources(WideDemand()) || r in [1025] <==> 1 <= r <= 1025 {
      WideBound(r);
    }
    TargetsInRange(WideDemand(), [1025], 1025);
  }

  lemma WideWelcome()
    ensures ReadinessVerdict(WideWorld(), false) == Admit && ExpectationsMet(WideWorld(), WideDemand()) && PolicyVerdict(WideWorld(), WideDemand()) == Admit
  {
    var auth, req := WideWorld(), WideDemand();
    forall i | 0 <= i < |req.bindings| ensures BindingCurrent(auth, req.bindings[i]) {
      WideKnown(i + 1);
    }
    assert CandidateCurrent(auth, Candidate(1, 1));
  }

  lemma WidePath()
    ensures SelectPath(WideWorld(), EMPTY_LEDGER, WideDemand()) == ViaPath(LAST, 1)
  {
    var auth, req := WideWorld(), WideDemand();
    WideKnown(1025);
    assert Judge(auth, EMPTY_LEDGER, req, Candidate(1, 1)) == Usable(LAST);
    assert TryOrder(auth, req) == [Candidate(1, 1)];
    WinnerFound([Candidate(1, 1)], Judged(auth, EMPTY_LEDGER, req, [Candidate(1, 1)]), 0);
  }

  lemma WideServes(targets: seq<u64>)
    requires forall i :: 0 <= i < |targets| ==> 1 <= targets[i] <= 1025
    ensures CapacityVerdict(WideWorld(), EMPTY_LEDGER, 0, WideDemand(), targets, Some(LAST)) == CapacityResult(Admit, 1)
  {
    var auth, req := WideWorld(), WideDemand();
    forall i | 0 <= i < |targets| ensures Serves(auth, EMPTY_LEDGER, req, targets[i]) {
      WideKnown(targets[i]);
    }
    CapacityVerdictExact(auth, EMPTY_LEDGER, 0, req, targets, Some(LAST));
  }

  lemma WideStage(targets: seq<u64>)
    requires targets == Targets(WideDemand(), [1025]) && targets != []
    requires CapacityVerdict(WideWorld(), EMPTY_LEDGER, 0, WideDemand(), targets, Some(LAST)) == CapacityResult(Admit, 1)
    ensures EvaluateGrant(WideWorld(), EMPTY_LEDGER, 0, WideDemand(), ViaPath(LAST, 1)) == Granted(Admit, 1, targets, 1, 1)
  {}

  lemma StagesJoin(auth: Authorities, l: LedgerState, tick: u64, req: Request, choice: Choice, e: Evaluation)
    requires ReadinessVerdict(auth, false) == Admit && ExpectationsMet(auth, req) && PolicyVerdict(auth, req) == Admit
    requires SelectPath(auth, l, req) == choice && !choice.Refused? && EvaluateGrant(auth, l, tick, req, choice) == e
    ensures EvaluateRequest(auth, l, tick, false, req) == e
  {}

  /** Departure: a valid request with 1024 bindings and a path across one more
      resource is granted over 1025 resources. */
  lemma WideGranted()
    ensures
      var e := EvaluateRequest(WideWorld(), EMPTY_LEDGER, 0, false, WideDemand());
      ValidAuthorities(WideWorld()) && ValidRequest(WideDemand()) && e.Granted? && |e.targets| == MAX_RESOURCE_BINDINGS + 1
  {
    WideValid();
    var targets := WideEvaluated();
  }

  lemma WideEvaluated() returns (targets: seq<u64>)
    ensures |targets| == 1025 && EvaluateRequest(WideWorld(), EMPTY_LEDGER, 0, false, WideDemand()) == Granted(Admit, 1, targets, 1, 1)
  {
    targets := Targets(WideDemand(), [1025]);
    WideWelcome();
    WidePath();
    WideTargets();
    WideServes(targets);
    WideStage(targets);
    StagesJoin(WideWorld(), EMPTY_LEDGER, 0, WideDemand(), ViaPath(LAST, 1), Granted(Admit, 1, targets, 1, 1));
  }
}
