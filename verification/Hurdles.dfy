/** What a request must clear before any path is considered, in order, and what
    it is told where it fails (EngineCore::check_readiness,
    check_expectations and check_policy, src/engine/admission.cpp), stated over
    the authorities and the request. */
module Hurdles {
  import opened Base
  import opened Model
  import opened Snapshots
  import opened Ledger
  import opened Evaluate
  import opened Selection
  import opened Checks
  import opened Engine

  /** The conditions a request meets one after the other. */
  datatype Hurdle =
    | PolicyPublished
    | FactsPublished
    | PathsPublished
    | LoadReconciled
    | RevisionsCurrent
    | QosAllowed
    | PriorityAllowed
    | ReservationCited
    | PreemptionAllowed
    | ObligationsSafe
    | QosPublished
    | MinimumHighEnough
    | MaximumLowEnough
    | LatencyGuaranteed

  const HURDLES := [
    PolicyPublished, FactsPublished, PathsPublished, LoadReconciled, RevisionsCurrent, QosAllowed, PriorityAllowed,
    ReservationCited, PreemptionAllowed, ObligationsSafe, QosPublished, MinimumHighEnough, MaximumLowEnough, LatencyGuaranteed]

  /** What a request that fails there is told. */
  function ToldAt(h: Hurdle): Outcome {
    match h
    case PolicyPublished | PriorityAllowed | ReservationCited | PreemptionAllowed => RejectPolicy
    case FactsPublished | LoadReconciled | RevisionsCurrent => StaleInput
    case PathsPublished => RejectPath
    case ObligationsSafe => RejectObligation
    case QosAllowed | QosPublished | MinimumHighEnough | MaximumLowEnough | LatencyGuaranteed => RejectQoS
  }

  /** The request states a revision, and it is the one in force. */
  predicate Cites(stated: u64, inForce: u64) {
    stated == inForce && inForce != 0
  }

  /** Every revision the request relies on is the one in force: snapshots, policy
      and catalogs, and each resource, path, class and reservation it names. */
  ghost predicate Informed(auth: Authorities, req: Request) {
    auth.capacity.Some? && auth.reservations.Some? && auth.policy.Some? && auth.qos.Some? && auth.priorities.Some? &&
    Cites(req.expected.capacitySnapshot, auth.capacity.value.snapshot) &&
    Cites(req.expected.capacityGeneration, auth.capacity.value.generation) &&
    Cites(req.expected.reservationSnapshot, auth.reservations.value.snapshot) &&
    Cites(req.expected.reservationGeneration, auth.reservations.value.generation) &&
    Cites(req.expected.policyGeneration, auth.policy.value.generation) &&
    Cites(req.expected.qosGeneration, auth.qos.value.generation) &&
    Cites(req.expected.priorityGeneration, auth.priorities.value.generation) &&
    (auth.policy.value.requirePathBinding || req.candidates != [] ==>
      auth.paths.Some? && Cites(req.expected.pathGeneration, auth.paths.value.generation)) &&
    (forall i :: 0 <= i < |req.bindings| ==>
      var c := Lookup(auth.capacity.value.resources, ResourceOf, req.bindings[i].resource);
      c.Some? && c.value.evidence == EvidenceKnown && c.value.generation == req.bindings[i].generation) &&
    (forall i :: 0 <= i < |req.candidates| ==>
      var f := Lookup(auth.paths.value.paths, PathOf, req.candidates[i].path);
      f.Some? && f.value.generation == req.candidates[i].generation) &&
    (var q := Lookup(auth.qos.value.classes, QosOf, req.qos);
     q.Some? && q.value.generation == req.qosGeneration) &&
    (var p := Lookup(auth.priorities.value.classes, PriorityOf, req.priority);
     p.Some? && p.value.generation == req.priorityGeneration) &&
    (forall i :: 0 <= i < |req.reservationRefs| ==>
      var o := Lookup(auth.reservations.value.obligations, ReservationOf, req.reservationRefs[i].reservation);
      o.Some? && o.value.reservationGeneration == req.reservationRefs[i].generation)
  }

  /** The class of service asked for, where it is published. */
  function ClassOf(auth: Authorities, req: Request): Option<QosFact> {
    match auth.qos
    case None => None
    case Some(catalog) => Lookup(catalog.classes, QosOf, req.qos)
  }

  ghost predicate Clears(h: Hurdle, auth: Authorities, pending: bool, req: Request) {
    match h
    case PolicyPublished => auth.policy.Some?
    case FactsPublished => auth.capacity.Some? && auth.reservations.Some? && auth.qos.Some? && auth.priorities.Some?
    case PathsPublished => auth.policy.Some? && auth.policy.value.requirePathBinding ==> auth.paths.Some?
    case LoadReconciled => !pending
    case RevisionsCurrent => Informed(auth, req)
    case QosAllowed => auth.policy.Some? && auth.policy.value.allowedQos != [] ==> req.qos in auth.policy.value.allowedQos
    case PriorityAllowed =>
      auth.policy.Some? && auth.policy.value.allowedPriorities != [] ==> req.priority in auth.policy.value.allowedPriorities
    case ReservationCited => auth.policy.Some? && auth.policy.value.requireReservationReference ==> req.reservationRefs != []
    case PreemptionAllowed => req.preemptible ==> auth.policy.Some? && auth.policy.value.allowPreemptible
    case ObligationsSafe => !req.requestsObligationPreemption
    case QosPublished => ClassOf(auth, req).Some?
    case MinimumHighEnough => ClassOf(auth, req).Some? ==> req.rate.minimum >= ClassOf(auth, req).value.minimumRate
    case MaximumLowEnough => ClassOf(auth, req).Some? ==> req.rate.maximum <= ClassOf(auth, req).value.maximumRate
    case LatencyGuaranteed => ClassOf(auth, req).Some? ==> req.maximumLatency <= ClassOf(auth, req).value.maximumLatency
  }

  ghost predicate ClearsAll(auth: Authorities, pending: bool, req: Request) {
    forall i :: 0 <= i < |HURDLES| ==> Clears(HURDLES[i], auth, pending, req)
  }

  /** Of the hurdles from k on, i is the first the request fails. */
  ghost predicate FailsFrom(auth: Authorities, pending: bool, req: Request, k: nat, i: nat) {
    k <= i < |HURDLES| && !Clears(HURDLES[i], auth, pending, req) && forall j :: k <= j < i ==> Clears(HURDLES[j], auth, pending, req)
  }

  lemma InformedIff(auth: Authorities, req: Request)
    requires auth.capacity.Some? && auth.reservations.Some? && auth.policy.Some? && auth.qos.Some? && auth.priorities.Some?
    ensures Informed(auth, req) <==> ExpectationsMet(auth, req)
  {
    forall i | 0 <= i < |req.bindings|
      ensures BindingCurrent(auth, req.bindings[i]) <==>
        var c := Lookup(auth.capacity.value.resources, ResourceOf, req.bindings[i].resource);
        c.Some? && c.value.evidence == EvidenceKnown && c.value.generation == req.bindings[i].generation
    {}
    if auth.paths.Some? {
      forall i | 0 <= i < |req.candidates|
        ensures CandidateCurrent(auth, req.candidates[i]) <==>
          var f := Lookup(auth.paths.value.paths, PathOf, req.candidates[i].path);
          f.Some? && f.value.generation == req.candidates[i].generation
      {}
    }
    forall i | 0 <= i < |req.reservationRefs|
      ensures ReferenceCurrent(auth, req.reservationRefs[i]) <==>
        var o := Lookup(auth.reservations.value.obligations, ReservationOf, req.reservationRefs[i].reservation);
        o.Some? && o.value.reservationGeneration == req.reservationRefs[i].generation
    {}
  }

  /** The stages before the selection of a path. */
  ghost function Preliminary(auth: Authorities, pending: bool, req: Request): Outcome {
    if ReadinessVerdict(auth, pending) != Admit then ReadinessVerdict(auth, pending)
    else if !ExpectationsMet(auth, req) then StaleInput
    else PolicyVerdict(auth, req)
  }

  lemma ReadyHurdles(auth: Authorities, pending: bool, req: Request)
    ensures ReadinessVerdict(auth, pending) == Admit <==> forall i :: 0 <= i < 4 ==> Clears(HURDLES[i], auth, pending, req)
    ensures forall i: nat :: i < 4 && FailsFrom(auth, pending, req, 0, i) ==> ReadinessVerdict(auth, pending) == ToldAt(HURDLES[i])
  {
    assert HURDLES[0] == PolicyPublished && HURDLES[1] == FactsPublished && HURDLES[2] == PathsPublished && HURDLES[3] == LoadReconciled;
  }

  lemma PolicyHurdleNames()
    ensures HURDLES[5] == QosAllowed && HURDLES[6] == PriorityAllowed && HURDLES[7] == ReservationCited
    ensures HURDLES[8] == PreemptionAllowed && HURDLES[9] == ObligationsSafe && HURDLES[10] == QosPublished
    ensures HURDLES[11] == MinimumHighEnough && HURDLES[12] == MaximumLowEnough && HURDLES[13] == LatencyGuaranteed
  {}

  lemma PolicyPasses(auth: Authorities, pending: bool, req: Request)
    requires auth.policy.Some?
    ensures PolicyVerdict(auth, req) == Admit <==> forall i :: 5 <= i < 14 ==> Clears(HURDLES[i], auth, pending, req)
  {
    PolicyHurdleNames();
    assert FindQos(auth, req.qos) == ClassOf(auth, req);
  }

  lemma PolicyRefuses(auth: Authorities, pending: bool, req: Request, i: nat)
    requires auth.policy.Some? && i < 14 && FailsFrom(auth, pending, req, 5, i)
    ensures PolicyVerdict(auth, req) == ToldAt(HURDLES[i])
  {
    PolicyHurdleNames();
    assert FindQos(auth, req.qos) == ClassOf(auth, req);
  }

  lemma PreliminaryExact(auth: Authorities, pending: bool, req: Request)
    ensures Preliminary(auth, pending, req) == Admit <==> ClearsAll(auth, pending, req)
    ensures forall i: nat :: FailsFrom(auth, pending, req, 0, i) ==> Preliminary(auth, pending, req) == ToldAt(HURDLES[i])
  {
    ReadyHurdles(auth, pending, req);
    assert HURDLES[4] == RevisionsCurrent && |HURDLES| == 14;
    if ReadinessVerdict(auth, pending) == Admit {
      InformedIff(auth, req);
      PolicyPasses(auth, pending, req);
      forall i: nat | i >= 5 && FailsFrom(auth, pending, req, 0, i) ensures PolicyVerdict(auth, req) == ToldAt(HURDLES[i]) {
        PolicyRefuses(auth, pending, req, i);
      }
    }
  }

  lemma PreliminaryDecides(auth: Authorities, l: LedgerState, tick: u64, pending: bool, req: Request)
    ensures
      var e := EvaluateRequest(auth, l, tick, pending, req);
      if Preliminary(auth, pending, req) != Admit then e == Refusal(Preliminary(auth, pending, req))
      else
        var choice := SelectPath(auth, l, req);
        e == (if choice.Refused? then Refusal(choice.outcome) else EvaluateGrant(auth, l, tick, req, choice))
  {}

  /** The first hurdle a request fails decides what it is told. */
  lemma FirstHurdleDecides(auth: Authorities, l: LedgerState, tick: u64, pending: bool, req: Request, i: nat)
    requires FailsFrom(auth, pending, req, 0, i)
    ensures EvaluateRequest(auth, l, tick, pending, req) == Refusal(ToldAt(HURDLES[i]))
  {
    PreliminaryExact(auth, pending, req);
    PreliminaryDecides(auth, l, tick, pending, req);
  }
}
