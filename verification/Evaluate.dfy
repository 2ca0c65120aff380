/** The read-only evaluation steps of an admission (src/engine/admission.cpp). */
module Evaluate {
  import opened Base
  import opened Model
  import opened Checked
  import opened Snapshots
  import opened Ledger

  /** Published authority passed its validation. */
  ghost predicate ValidAuthorities(auth: Authorities) {
    (auth.policy.Some? ==> ValidPolicy(auth.policy.value)) &&
    (auth.capacity.Some? ==> ValidCapacity(auth.capacity.value)) &&
    (auth.reservations.Some? ==> ValidReservations(auth.reservations.value)) &&
    (auth.paths.Some? ==> ValidPaths(auth.paths.value)) &&
    (auth.qos.Some? ==> ValidQos(auth.qos.value)) &&
    (auth.priorities.Some? ==> ValidPriorities(auth.priorities.value))
  }

  predicate IncreasingIds(ids: seq<u64>) {
    forall i :: 0 <= i < |ids| ==> ids[i] != 0 && (i > 0 ==> ids[i - 1] < ids[i])
  }

  predicate ValidPolicy(p: Policy) {
    p.id != 0 && WellFormedGeneration(p.generation) && p.epoch != 0 && p.headroomPermille <= 1000 &&
    0 < p.maxExplanationConstraints <= 48 && 128 <= p.maxExplanationBytes <= 8192 &&
    0 < p.maxEffectiveResources <= 64 &&
    |p.allowedQos| <= MAX_ALLOWED_CLASSES && IncreasingIds(p.allowedQos) &&
    |p.allowedPriorities| <= MAX_ALLOWED_CLASSES && IncreasingIds(p.allowedPriorities)
  }

  predicate ValidQos(c: QosCatalog) {
    WellFormedGeneration(c.generation) && c.epoch != 0 && |c.classes| <= MAX_QOS_CLASSES &&
    (forall i, j :: 0 <= i < j < |c.classes| ==> QosOf(c.classes[i]) < QosOf(c.classes[j])) &&
    (forall i :: 0 <= i < |c.classes| ==>
      c.classes[i].qos != 0 && WellFormedGeneration(c.classes[i].generation) &&
      c.classes[i].minimumRate <= c.classes[i].maximumRate && c.classes[i].maximumRate != 0)
  }

  predicate ValidPriorities(c: PriorityCatalog) {
    WellFormedGeneration(c.generation) && c.epoch != 0 && |c.classes| <= MAX_PRIORITY_CLASSES &&
    (forall i, j :: 0 <= i < j < |c.classes| ==> PriorityOf(c.classes[i]) < PriorityOf(c.classes[j])) &&
    (forall i, j :: 0 <= i < j < |c.classes| ==> c.classes[i].rank != c.classes[j].rank) &&
    (forall i :: 0 <= i < |c.classes| ==> c.classes[i].priority != 0 && WellFormedGeneration(c.classes[i].generation))
  }

  // ------------------------------------------------------------------
  // Lookups and the allowance of a resource
  // ------------------------------------------------------------------

  function FindCapacity(auth: Authorities, resource: u64): Option<ResourceCapacity> {
    if auth.capacity.None? then None else Lookup(auth.capacity.value.resources, ResourceOf, resource)
  }

  function FindPath(auth: Authorities, path: u64): Option<PathFact> {
    if auth.paths.None? then None else Lookup(auth.paths.value.paths, PathOf, path)
  }

  function FindQos(auth: Authorities, qos: u64): Option<QosFact> {
    if auth.qos.None? then None else Lookup(auth.qos.value.classes, QosOf, qos)
  }

  function FindPriority(auth: Authorities, priority: u64): Option<PriorityFact> {
    if auth.priorities.None? then None else Lookup(auth.priorities.value.classes, PriorityOf, priority)
  }

  predicate Known(auth: Authorities, resource: u64) {
    var c := FindCapacity(auth, resource);
    c.Some? && c.value.evidence == EvidenceKnown
  }

  /** The floored permille share, saturating where it would not fit. */
  function PermilleShare(value: u64, parts: u64): u64 {
    if value * parts < TWO64 * 1000 then value * parts / 1000 else MAX64
  }

  /** The largest of the mandatory, proportional and absolute headroom, never
      more than the resource itself. */
  function HeadroomFor(policy: Option<Policy>, c: ResourceCapacity): (h: u64)
    ensures h <= c.usable
  {
    var wanted :=
      if policy.None? then c.mandatoryHeadroom
      else Max(Max(c.mandatoryHeadroom, PermilleShare(c.usable, policy.value.headroomPermille)), policy.value.headroomFloor);
    Min(wanted, c.usable)
  }

  function ObligationsFor(auth: Authorities, resource: u64): nat {
    if auth.reservations.None? then 0 else ObligationSum(auth.reservations.value.obligations, resource)
  }

  /** What admission may hold on a resource: usable capacity less headroom less
      protected obligations, each step flooring at zero. */
  function Allowance(auth: Authorities, resource: u64): u64 {
    var c := FindCapacity(auth, resource);
    if c.None? then 0
    else SatSub(SatSub(c.value.usable, HeadroomFor(auth.policy, c.value)), ObligationsFor(auth, resource))
  }

  function Available(auth: Authorities, l: LedgerState, resource: u64): u64 {
    SatSub(Allowance(auth, resource), Admitted(l, resource))
  }

  lemma PermilleFits(value: u64, parts: u64)
    requires parts <= 1000
    ensures value * parts < TWO64 * 1000
  {
    MulOrder(parts, 1000, value);
  }

  /** Headroom computed with the 64-bit multiply-divide equals the closed form. */
  method ComputeHeadroom(policy: Option<Policy>, c: ResourceCapacity) returns (headroom: u64)
    ensures headroom == HeadroomFor(policy, c)
    ensures headroom <= c.usable
    ensures policy.Some? && policy.value.headroomPermille <= 1000 ==>
      headroom == Min(c.usable, Max(Max(c.mandatoryHeadroom, c.usable * policy.value.headroomPermille / 1000), policy.value.headroomFloor))
  {
    headroom := c.mandatoryHeadroom;
    if policy.Some? {
      var ok, percent := MulDivFloor(c.usable, policy.value.headroomPermille, 1000);
      if !ok {
        percent := MAX64;
      }
      assert percent == PermilleShare(c.usable, policy.value.headroomPermille);
      assert policy.value.headroomPermille <= 1000 ==> ok by {
        if policy.value.headroomPermille <= 1000 {
          PermilleFits(c.usable, policy.value.headroomPermille);
        }
      }
      if percent > headroom { headroom := percent; }
      if policy.value.headroomFloor > headroom { headroom := policy.value.headroomFloor; }
    }
    if c.usable <= headroom { headroom := c.usable; }
  }

  /** Admitted load within its allowance means the plain sum fits: no obligation
      and no headroom is ever borrowed. */
  lemma WithinAllowance(auth: Authorities, resource: u64, admitted: u64)
    requires Known(auth, resource) && admitted <= Allowance(auth, resource)
    ensures
      var c := FindCapacity(auth, resource).value;
      var committed := ObligationsFor(auth, resource) + HeadroomFor(auth.policy, c);
      (committed <= c.usable ==> admitted + committed <= c.usable) &&
      (committed > c.usable ==> admitted == 0)
  {}

  // ------------------------------------------------------------------
  // Capacity stage
  // ------------------------------------------------------------------

  predicate DeferPreferred(auth: Authorities, req: Request) {
    req.contention == PreferDefer ||
    (req.contention == InheritContention && auth.policy.Some? && auth.policy.value.onContention == DeferOnContention)
  }

  function Willing(auth: Authorities, req: Request): u64 {
    if auth.policy.Some? then Min(req.deadlineTicks, auth.policy.value.deferHorizonTicks) else 0
  }

  predicate ObligationReleases(auth: Authorities, resource: u64, tick: u64, horizon: u64) {
    auth.reservations.Some? &&
    exists i :: 0 <= i < |auth.reservations.value.obligations| &&
      ReleasesWithin(auth.reservations.value.obligations[i], resource, tick, horizon)
  }

  function TargetVerdict(auth: Authorities, l: LedgerState, tick: u64, req: Request, resource: u64): Outcome {
    if !Known(auth, resource) then StaleInput
    else
      var c := FindCapacity(auth, resource).value;
      var minimum := req.rate.minimum;
      if c.usable < minimum then RejectCapacity
      else if SatSub(c.usable, HeadroomFor(auth.policy, c)) < minimum then RejectCapacity
      else if Allowance(auth, resource) < minimum then
        if DeferPreferred(auth, req) && ObligationReleases(auth, resource, tick, SatAdd(tick, Willing(auth, req)))
        then Defer else RejectObligation
      else if Available(auth, l, resource) < minimum then
        if DeferPreferred(auth, req) && Willing(auth, req) != 0 then Defer else RejectCapacity
      else Admit
  }

  /** The first target that cannot serve the minimum decides. */
  function TargetsVerdict(auth: Authorities, l: LedgerState, tick: u64, req: Request, targets: seq<u64>): Outcome {
    if targets == [] then Admit
    else
      var front := TargetsVerdict(auth, l, tick, req, targets[..|targets| - 1]);
      if front != Admit then front else TargetVerdict(auth, l, tick, req, targets[|targets| - 1])
  }

  function Ceiling(auth: Authorities, l: LedgerState, req: Request, targets: seq<u64>): u64 {
    if targets == [] then req.rate.maximum
    else Min(Ceiling(auth, l, req, targets[..|targets| - 1]), Available(auth, l, targets[|targets| - 1]))
  }

  function PathFree(l: LedgerState, f: PathFact): u64 {
    SatSub(f.usable, AdmittedOnPath(l, f.path))
  }

  datatype CapacityResult = CapacityResult(outcome: Outcome, ceiling: u64)

  function CapacityVerdict(auth: Authorities, l: LedgerState, tick: u64, req: Request, targets: seq<u64>, path: Option<PathFact>): CapacityResult {
    var verdict := TargetsVerdict(auth, l, tick, req, targets);
    if verdict != Admit then CapacityResult(verdict, req.rate.maximum)
    else if path.Some? && PathFree(l, path.value) < req.rate.minimum then CapacityResult(RejectCapacity, req.rate.maximum)
    else
      var limit := Ceiling(auth, l, req, targets);
      CapacityResult(Admit, if path.Some? then Min(limit, PathFree(l, path.value)) else limit)
  }

  predicate Serves(auth: Authorities, l: LedgerState, req: Request, resource: u64) {
    Known(auth, resource) && Available(auth, l, resource) >= req.rate.minimum
  }

  lemma TargetAdmits(auth: Authorities, l: LedgerState, tick: u64, req: Request, resource: u64)
    ensures TargetVerdict(auth, l, tick, req, resource) == Admit <==> Serves(auth, l, req, resource)
  {}

  lemma {:induction false} TargetsAdmit(auth: Authorities, l: LedgerState, tick: u64, req: Request, targets: seq<u64>)
    ensures TargetsVerdict(auth, l, tick, req, targets) == Admit <==>
      forall i :: 0 <= i < |targets| ==> Serves(auth, l, req, targets[i])
  {
    if targets != [] {
      var n := |targets| - 1;
      TargetsAdmit(auth, l, tick, req, targets[..n]);
      TargetAdmits(auth, l, tick, req, targets[n]);
      assert targets == targets[..n] + [targets[n]];
    }
  }

  lemma {:induction false} CeilingBounds(auth: Authorities, l: LedgerState, req: Request, targets: seq<u64>)
    ensures
      var c := Ceiling(auth, l, req, targets);
      c <= req.rate.maximum && (forall i :: 0 <= i < |targets| ==> c <= Available(auth, l, targets[i])) &&
      (c == req.rate.maximum || exists i :: 0 <= i < |targets| && c == Available(auth, l, targets[i]))
  {
    if targets != [] {
      var n := |targets| - 1;
      CeilingBounds(auth, l, req, targets[..n]);
      assert targets == targets[..n] + [targets[n]];
    }
  }

  ghost predicate CanServe(auth: Authorities, l: LedgerState, req: Request, targets: seq<u64>, path: Option<PathFact>) {
    (forall i :: 0 <= i < |targets| ==> Serves(auth, l, req, targets[i])) &&
    (path.Some? ==> PathFree(l, path.value) >= req.rate.minimum)
  }

  /** c respects every limit on the grant. */
  ghost predicate WithinLimits(auth: Authorities, l: LedgerState, req: Request, targets: seq<u64>, path: Option<PathFact>, c: nat) {
    c <= req.rate.maximum && (forall i :: 0 <= i < |targets| ==> c <= Available(auth, l, targets[i])) &&
    (path.Some? ==> c <= PathFree(l, path.value))
  }

  /** The stage admits exactly when every target and the selected path can serve
      the minimum, and then grants the largest rate within every limit. */
  lemma CapacityVerdictExact(auth: Authorities, l: LedgerState, tick: u64, req: Request, targets: seq<u64>, path: Option<PathFact>)
    ensures
      var v := CapacityVerdict(auth, l, tick, req, targets, path);
      (v.outcome == Admit <==> CanServe(auth, l, req, targets, path)) &&
      (v.outcome == Admit ==>
        WithinLimits(auth, l, req, targets, path, v.ceiling) &&
        (forall c: nat :: WithinLimits(auth, l, req, targets, path, c) ==> c <= v.ceiling) &&
        (req.rate.minimum <= req.rate.maximum ==> req.rate.minimum <= v.ceiling))
  {
    TargetsAdmit(auth, l, tick, req, targets);
    CeilingBounds(auth, l, req, targets);
  }

  /** The refusal reported is that of the first target that cannot serve. */
  lemma {:induction false} FirstTargetDecides(auth: Authorities, l: LedgerState, tick: u64, req: Request, targets: seq<u64>, i: nat)
    requires i < |targets| && !Serves(auth, l, req, targets[i])
    requires forall j :: 0 <= j < i ==> Serves(auth, l, req, targets[j])
    ensures TargetsVerdict(auth, l, tick, req, targets) == TargetVerdict(auth, l, tick, req, targets[i]) != Admit
  {
    var n := |targets| - 1;
    TargetAdmits(auth, l, tick, req, targets[i]);
    if i < n {
      FirstTargetDecides(auth, l, tick, req, targets[..n], i);
    } else {
      TargetsAdmit(auth, l, tick, req, targets[..n]);
    }
  }

  // ------------------------------------------------------------------
  // The loops
  // ------------------------------------------------------------------

  /** The obligation index describes the current reservations. */
  ghost predicate Describes(auth: Authorities, index: ObligationIndex) {
    IndexesObligations(if auth.reservations.Some? then auth.reservations.value.obligations else [], index)
  }

  lemma IndexedObligations(auth: Authorities, index: ObligationIndex, resource: u64, x: u64)
    requires Describes(auth, index)
    ensures SatSub(x, AtKey(index.totals, resource)) == SatSub(x, ObligationsFor(auth, resource))
  {
    assert ObligationsFor(auth, resource) == 0 || auth.reservations.Some?;
  }

  method LookupCapacity(auth: Authorities, resource: u64) returns (c: Option<ResourceCapacity>)
    requires ValidAuthorities(auth)
    ensures c == FindCapacity(auth, resource)
  {
    if auth.capacity.None? {
      return None;
    }
    c := FindBy(auth.capacity.value.resources, ResourceOf, resource);
  }

  /** The allowance through binary search, 64-bit headroom and indexed
      obligations. */
  method ComputeAllowance(auth: Authorities, index: ObligationIndex, resource: u64)
    returns (known: bool, usable: u64, afterHeadroom: u64, allowance: u64)
    requires ValidAuthorities(auth) && Describes(auth, index)
    ensures known == Known(auth, resource)
    ensures known ==>
      var c := FindCapacity(auth, resource).value;
      usable == c.usable && afterHeadroom == SatSub(c.usable, HeadroomFor(auth.policy, c)) &&
      allowance == Allowance(auth, resource)
  {
    var c := LookupCapacity(auth, resource);
    if c.None? || c.value.evidence != EvidenceKnown {
      return false, 0, 0, 0;
    }
    var headroom := ComputeHeadroom(auth.policy, c.value);
    known, usable, afterHeadroom := true, c.value.usable, SatSub(c.value.usable, headroom);
    allowance := SatSub(afterHeadroom, AtKey(index.totals, resource));
    IndexedObligations(auth, index, resource, afterHeadroom);
  }

  method JudgeTarget(auth: Authorities, index: ObligationIndex, l: LedgerState, tick: u64, req: Request, resource: u64)
    returns (verdict: Outcome, available: u64)
    requires ValidAuthorities(auth) && Describes(auth, index)
    ensures verdict == TargetVerdict(auth, l, tick, req, resource)
    ensures verdict == Admit ==> available == Available(auth, l, resource)
  {
    var known, usable, afterHeadroom, allowance := ComputeAllowance(auth, index, resource);
    if !known {
      return StaleInput, 0;
    }
    available := SatSub(allowance, Admitted(l, resource));
    if usable < req.rate.minimum { return RejectCapacity, available; }
    if afterHeadroom < req.rate.minimum { return RejectCapacity, available; }
    if allowance < req.rate.minimum {
      var releases := false;
      if auth.reservations.Some? {
        releases := ObligationReleasesWithin(auth.reservations.value.obligations, index, resource, tick, SatAdd(tick, Willing(auth, req)));
      }
      return if DeferPreferred(auth, req) && releases then Defer else RejectObligation, available;
    }
    if available < req.rate.minimum {
      return if DeferPreferred(auth, req) && Willing(auth, req) != 0 then Defer else RejectCapacity, available;
    }
    return Admit, available;
  }

  /** The capacity stage as the engine runs it. */
  method EvaluateCapacity(auth: Authorities, index: ObligationIndex, l: LedgerState, tick: u64, req: Request, targets: seq<u64>, path: Option<PathFact>)
    returns (r: CapacityResult)
    requires ValidAuthorities(auth) && Describes(auth, index)
    ensures r == CapacityVerdict(auth, l, tick, req, targets, path)
  {
    var limiting := req.rate.maximum;
    for i := 0 to |targets|
      invariant TargetsVerdict(auth, l, tick, req, targets[..i]) == Admit
      invariant limiting == Ceiling(auth, l, req, targets[..i])
    {
      var verdict, available := JudgeTarget(auth, index, l, tick, req, targets[i]);
      assert targets[..i + 1][..i] == targets[..i];
      if verdict != Admit {
        TargetsAdmit(auth, l, tick, req, targets[..i]);
        TargetAdmits(auth, l, tick, req, targets[i]);
        FirstTargetDecides(auth, l, tick, req, targets, i);
        return CapacityResult(verdict, req.rate.maximum);
      }
      if available < limiting {
        limiting := available;
      }
    }
    assert targets[..|targets|] == targets;
    if path.Some? {
      var free := SatSub(path.value.usable, AdmittedOnPath(l, path.value.path));
      if free < req.rate.minimum {
        return CapacityResult(RejectCapacity, req.rate.maximum);
      }
      if free < limiting {
        limiting := free;
      }
    }
    return CapacityResult(Admit, limiting);
  }
}
