/** Request contract, authority binding and policy checks
    (src/model/request.cpp, src/engine/admission.cpp). */
module Checks {
  import opened Base
  import opened Model
  import opened Snapshots
  import opened Evaluate
  import opened Selection

  // ------------------------------------------------------------------
  // Request contract
  // ------------------------------------------------------------------

  /** minimum <= desired <= maximum with a non-zero ceiling. A zero minimum is
      accepted. */
  predicate Coherent(r: RateBounds) {
    r.maximum != 0 && r.minimum <= r.desired <= r.maximum
  }

  predicate OrderedBindings(bs: seq<Binding>) {
    forall i :: 0 <= i < |bs| ==>
      bs[i].resource != 0 && WellFormedGeneration(bs[i].generation) && (i > 0 ==> bs[i - 1].resource < bs[i].resource)
  }

  predicate DistinctCandidates(cs: seq<Candidate>) {
    (forall i :: 0 <= i < |cs| ==> cs[i].path != 0 && WellFormedGeneration(cs[i].generation)) &&
    (forall i, j :: 0 <= i < j < |cs| ==> cs[i].path != cs[j].path)
  }

  predicate OrderedRefs(rs: seq<ReservationRef>) {
    forall i :: 0 <= i < |rs| ==>
      rs[i].reservation != 0 && WellFormedGeneration(rs[i].generation) && (i > 0 ==> rs[i - 1].reservation < rs[i].reservation)
  }

  predicate ValidRequest(req: Request) {
    req.request != 0 && req.demand != 0 && req.attempt != 0 &&
    WellFormedGeneration(req.demandGeneration) && WellFormedGeneration(req.qosGeneration) &&
    WellFormedGeneration(req.priorityGeneration) && req.qos != 0 && req.priority != 0 &&
    Coherent(req.rate) &&
    |req.bindings| <= MAX_RESOURCE_BINDINGS && OrderedBindings(req.bindings) &&
    |req.candidates| <= MAX_PATH_CANDIDATES && DistinctCandidates(req.candidates) &&
    (req.bindings != [] || req.candidates != []) &&
    (req.requiredPath != 0 ==>
      (exists i :: 0 <= i < |req.candidates| && req.candidates[i].path == req.requiredPath) &&
      !(req.allowPathSubstitution && |req.candidates| > 1)) &&
    |req.reservationRefs| <= MAX_RESERVATION_REFS && OrderedRefs(req.reservationRefs) &&
    (req.provenanceAttempt != 0 ==> req.provenanceAttempt == req.attempt) &&
    req.expected.capacityGeneration != MAX64 && req.expected.reservationGeneration != MAX64 &&
    req.expected.pathGeneration != MAX64 && req.expected.policyGeneration != MAX64 &&
    req.expected.qosGeneration != MAX64 && req.expected.priorityGeneration != MAX64
  }

  // ------------------------------------------------------------------
  // Readiness and policy
  // ------------------------------------------------------------------

  /** Admit means the engine is ready. */
  function ReadinessVerdict(auth: Authorities, pendingReconciliation: bool): Outcome {
    if auth.policy.None? then RejectPolicy
    else if auth.capacity.None? || auth.reservations.None? || auth.qos.None? || auth.priorities.None? then StaleInput
    else if auth.policy.value.requirePathBinding && auth.paths.None? then RejectPath
    else if pendingReconciliation then StaleInput
    else Admit
  }

  /** Admit means policy, qos and priority permit the request. */
  function PolicyVerdict(auth: Authorities, req: Request): Outcome {
    if auth.policy.None? then RejectPolicy
    else
      var p := auth.policy.value;
      if p.allowedQos != [] && req.qos !in p.allowedQos then RejectQoS
      else if p.allowedPriorities != [] && req.priority !in p.allowedPriorities then RejectPolicy
      else if p.requireReservationReference && req.reservationRefs == [] then RejectPolicy
      else if req.preemptible && !p.allowPreemptible then RejectPolicy
      else if req.requestsObligationPreemption then RejectObligation
      else
        var q := FindQos(auth, req.qos);
        if q.None? then RejectQoS
        else if req.rate.minimum < q.value.minimumRate then RejectQoS
        else if req.rate.maximum > q.value.maximumRate then RejectQoS
        else if req.maximumLatency > q.value.maximumLatency then RejectQoS
        else Admit
  }

  predicate DegradeAllowed(auth: Authorities, req: Request) {
    auth.policy.Some? && auth.policy.value.allowDegraded && req.degradation != NeverDegrade &&
    var q := FindQos(auth, req.qos);
    q.None? || q.value.degradationAllowed
  }

  // ------------------------------------------------------------------
  // Authority binding
  // ------------------------------------------------------------------

  function GenerationOf(auth: Authorities): Expectation {
    Expectation(
      if auth.capacity.Some? then auth.capacity.value.snapshot else 0,
      if auth.capacity.Some? then auth.capacity.value.generation else 0,
      if auth.reservations.Some? then auth.reservations.value.snapshot else 0,
      if auth.reservations.Some? then auth.reservations.value.generation else 0,
      if auth.paths.Some? then auth.paths.value.generation else 0,
      if auth.policy.Some? then auth.policy.value.generation else 0,
      if auth.qos.Some? then auth.qos.value.generation else 0,
      if auth.priorities.Some? then auth.priorities.value.generation else 0)
  }

  /** The claimant stated the revision and it is the current one. */
  predicate Observed(stated: u64, current: u64) {
    stated != 0 && stated == current
  }

  function ReservationOf(o: Obligation): u64 { o.reservation }

  predicate BindingCurrent(auth: Authorities, b: Binding) {
    Known(auth, b.resource) && FindCapacity(auth, b.resource).value.generation == b.generation
  }

  predicate CandidateCurrent(auth: Authorities, c: Candidate) {
    var f := FindPath(auth, c.path);
    f.Some? && f.value.generation == c.generation
  }

  predicate ReferenceCurrent(auth: Authorities, r: ReservationRef) {
    auth.reservations.Some? &&
    var o := Lookup(auth.reservations.value.obligations, ReservationOf, r.reservation);
    o.Some? && o.value.reservationGeneration == r.generation
  }

  predicate SnapshotsCurrent(auth: Authorities, req: Request) {
    var now := GenerationOf(auth);
    auth.capacity.Some? && auth.reservations.Some? &&
    Observed(req.expected.capacitySnapshot, now.capacitySnapshot) &&
    Observed(req.expected.capacityGeneration, now.capacityGeneration) &&
    Observed(req.expected.reservationSnapshot, now.reservationSnapshot) &&
    Observed(req.expected.reservationGeneration, now.reservationGeneration) &&
    Observed(req.expected.policyGeneration, now.policyGeneration) &&
    Observed(req.expected.qosGeneration, now.qosGeneration) &&
    Observed(req.expected.priorityGeneration, now.priorityGeneration) &&
    (PathRequired(auth) || req.candidates != [] ==>
      auth.paths.Some? && Observed(req.expected.pathGeneration, now.pathGeneration))
  }

  predicate ClassesCurrent(auth: Authorities, req: Request) {
    var q, p := FindQos(auth, req.qos), FindPriority(auth, req.priority);
    q.Some? && q.value.generation == req.qosGeneration && p.Some? && p.value.generation == req.priorityGeneration
  }

  /** Every revision the claimant relied on is the current one. */
  predicate ExpectationsMet(auth: Authorities, req: Request) {
    SnapshotsCurrent(auth, req) &&
    (forall i :: 0 <= i < |req.bindings| ==> BindingCurrent(auth, req.bindings[i])) &&
    (forall i :: 0 <= i < |req.candidates| ==> CandidateCurrent(auth, req.candidates[i])) &&
    ClassesCurrent(auth, req) &&
    (forall i :: 0 <= i < |req.reservationRefs| ==> ReferenceCurrent(auth, req.reservationRefs[i]))
  }

  method CheckReference(obligations: seq<Obligation>, ref: ReservationRef) returns (ok: bool)
    ensures ok <==>
      var o := Lookup(obligations, ReservationOf, ref.reservation);
      o.Some? && o.value.reservationGeneration == ref.generation
  {
    for i := 0 to |obligations|
      invariant Lookup(obligations, ReservationOf, ref.reservation) == Lookup(obligations[i..], ReservationOf, ref.reservation)
    {
      assert obligations[i..][1..] == obligations[i + 1..];
      if obligations[i].reservation == ref.reservation {
        return obligations[i].reservationGeneration == ref.generation;
      }
    }
    return false;
  }

  /** The binding step refuses exactly when some stated revision is missing,
      unknown or superseded. */
  method CheckExpectations(auth: Authorities, req: Request) returns (ok: bool)
    requires ValidAuthorities(auth)
    ensures ok <==> ExpectationsMet(auth, req)
  {
    if !SnapshotsCurrent(auth, req) { return false; }
    for i := 0 to |req.bindings|
      invariant forall j :: 0 <= j < i ==> BindingCurrent(auth, req.bindings[j])
    {
      var entry := LookupCapacity(auth, req.bindings[i].resource);
      if entry.None? || entry.value.evidence != EvidenceKnown || entry.value.generation != req.bindings[i].generation {
        assert !BindingCurrent(auth, req.bindings[i]);
        return false;
      }
    }
    for i := 0 to |req.candidates|
      invariant forall j :: 0 <= j < i ==> CandidateCurrent(auth, req.candidates[j])
    {
      var fact := FindBy(auth.paths.value.paths, PathOf, req.candidates[i].path);
      if fact.None? || fact.value.generation != req.candidates[i].generation {
        assert !CandidateCurrent(auth, req.candidates[i]);
        return false;
      }
    }
    if !ClassesCurrent(auth, req) { return false; }
    for i := 0 to |req.reservationRefs|
      invariant forall j :: 0 <= j < i ==> ReferenceCurrent(auth, req.reservationRefs[j])
    {
      var current := CheckReference(auth.reservations.value.obligations, req.reservationRefs[i]);
      if !current {
        assert !ReferenceCurrent(auth, req.reservationRefs[i]);
        return false;
      }
    }
    return true;
  }

  // ------------------------------------------------------------------
  // Targets
  // ------------------------------------------------------------------

  function BoundResources(req: Request): set<nat> {
    set i | 0 <= i < |req.bindings| :: req.bindings[i].resource
  }

  /** Declared bindings plus the traversal, sorted and without repetition. */
  function Targets(req: Request, traversal: seq<u64>): (t: seq<u64>)
    ensures forall i, j :: 0 <= i < j < |t| ==> t[i] < t[j]
    ensures forall r :: r in t <==> r in BoundResources(req) || r in traversal
  {
    var wanted := BoundResources(req) + set r | r in traversal;
    var keys := SortedKeys(wanted);
    assert forall i :: 0 <= i < |keys| ==> keys[i] in wanted;
    keys
  }
}
