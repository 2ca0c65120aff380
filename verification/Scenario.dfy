/** A small network on which departures are exhibited: one resource, one path
    over it, one class of each kind, and one kind of request. */
module Scenario {
  import opened Base
  import opened Model
  import opened Snapshots
  import opened Ledger
  import opened Evaluate
  import opened Selection
  import opened Checks
  import opened Engine

  function PolicyAt(epoch: u64, pathRequired: bool): Policy {
    Policy(1, 1, epoch, 0, 0, 0, false, false, pathRequired, false, false, RejectOnContention, [], [], 1, 128, 1, 0)
  }

  /** Resource 1 with the given capacity. */
  function CapacityAt(epoch: u64, generation: u64, usable: u64): CapacitySnapshot {
    CapacitySnapshot(1, generation, epoch, 0, [ResourceCapacity(1, 1, EvidenceKnown, usable, 0)])
  }

  const RESERVATIONS := ReservationSnapshot(1, 1, 1, 0, [])
  const QOS := QosCatalog(1, 1, 0, [QosFact(1, 1, 0, MAX64, MAX64, false)])
  const PRIORITIES := PriorityCatalog(1, 1, 0, [PriorityFact(1, 1, 1, false)])

  /** Path 1 crosses resource 1. */
  function PathsWith(usable: u64): PathCatalog {
    PathCatalog(1, 1, 0, [PathFact(1, 1, PathUp, usable, 0, [1])])
  }

  function World(policy: Policy, capacity: CapacitySnapshot, pathUsable: u64): Authorities {
    Authorities(Some(policy), Some(capacity), Some(RESERVATIONS), Some(PathsWith(pathUsable)), Some(QOS), Some(PRIORITIES))
  }

  /** A request for exactly rate 5 on resource 1, over the given candidates,
      bound to the given capacity generation. */
  function Demand(request: u64, candidates: seq<Candidate>, generation: u64): Request {
    Request(request, 1, 1, request, RateBounds(5, 5, 5), 1, 1, 1, 1, 0, [Binding(1, 1)], candidates, 0, [], 0, 0,
            false, false, false, InheritContention, InheritDegrade, 0, 0, 0,
            Expectation(1, generation, 1, 1, 1, 1, 1, 1), 0, 0)
  }

  const LOCAL := Claim(InProcess, 0, 0, 0, 0, 0)

  lemma WorldValid(policy: Policy, capacity: CapacitySnapshot, pathUsable: u64)
    requires ValidPolicy(policy) && ValidCapacity(capacity)
    ensures ValidAuthorities(World(policy, capacity, pathUsable))
  {
    assert ValidReservations(RESERVATIONS);
  }

  lemma PartsValid(epoch: u64, pathRequired: bool, generation: u64, usable: u64, request: u64)
    requires epoch != 0 && WellFormedGeneration(generation) && request != 0
    ensures ValidPolicy(PolicyAt(epoch, pathRequired)) && ValidCapacity(CapacityAt(epoch, generation, usable))
    ensures ValidRequest(Demand(request, [], generation)) && ValidRequest(Demand(request, [Candidate(1, 1)], generation))
  {}

  lemma Room(policy: Policy, epoch: u64, generation: u64, usable: u64, pathUsable: u64)
    requires policy.headroomPermille == 0 && policy.headroomFloor == 0
    ensures
      var auth := World(policy, CapacityAt(epoch, generation, usable), pathUsable);
      Known(auth, 1) && Allowance(auth, 1) == usable
  {}

  lemma OneTarget(request: u64, candidates: seq<Candidate>, generation: u64, traversal: seq<u64>)
    requires traversal == [] || traversal == [1]
    ensures Targets(Demand(request, candidates, generation), traversal) == [1]
  {
    var req := Demand(request, candidates, generation);
    assert req.bindings[0].resource == 1;
    assert BoundResources(req) + (set r | r in traversal) == {1};
    SortedKeysCount({1});
    assert 1 in SortedKeys({1});
  }

  lemma ServesFive(auth: Authorities, l: LedgerState, tick: u64, req: Request)
    requires req.rate == RateBounds(5, 5, 5) && Known(auth, 1) && Admitted(l, 1) + 5 <= Allowance(auth, 1)
    ensures CapacityVerdict(auth, l, tick, req, [1], None) == CapacityResult(Admit, 5)
  {
    CapacityVerdictExact(auth, l, tick, req, [1], None);
    assert WithinLimits(auth, l, req, [1], None, 5);
  }

  lemma StageOf(auth: Authorities, l: LedgerState, tick: u64, req: Request, choice: Choice)
    requires !choice.Refused? && !choice.ViaPath? && req.rate == RateBounds(5, 5, 5)
    requires Targets(req, if choice.NoPath? then [] else choice.traversal) == [1]
    requires CapacityVerdict(auth, l, tick, req, [1], None) == CapacityResult(Admit, 5)
    ensures EvaluateGrant(auth, l, tick, req, choice) == Granted(Admit, 5, [1], 0, 0)
  {}

  /** The capacity stage grants the request when resource 1 has the room. */
  lemma StageGrants(auth: Authorities, l: LedgerState, tick: u64, request: u64, candidates: seq<Candidate>, generation: u64, choice: Choice)
    requires choice == NoPath || choice == CapacityBlocked([1])
    requires Known(auth, 1) && Admitted(l, 1) + 5 <= Allowance(auth, 1)
    ensures EvaluateGrant(auth, l, tick, Demand(request, candidates, generation), choice) == Granted(Admit, 5, [1], 0, 0)
  {
    var req := Demand(request, candidates, generation);
    OneTarget(request, candidates, generation, if choice.NoPath? then [] else choice.traversal);
    ServesFive(auth, l, tick, req);
    StageOf(auth, l, tick, req, choice);
  }

  lemma Welcome(pathRequired: bool, epoch: u64, generation: u64, usable: u64, pathUsable: u64, request: u64, candidates: seq<Candidate>)
    requires epoch != 0 && WellFormedGeneration(generation) && request != 0
    requires candidates == [] || candidates == [Candidate(1, 1)]
    ensures
      var auth := World(PolicyAt(epoch, pathRequired), CapacityAt(epoch, generation, usable), pathUsable);
      var req := Demand(request, candidates, generation);
      ReadinessVerdict(auth, false) == Admit && ExpectationsMet(auth, req) && PolicyVerdict(auth, req) == Admit
  {
    var auth := World(PolicyAt(epoch, pathRequired), CapacityAt(epoch, generation, usable), pathUsable);
    Room(PolicyAt(epoch, pathRequired), epoch, generation, usable, pathUsable);
    assert BindingCurrent(auth, Binding(1, 1));
    assert CandidateCurrent(auth, Candidate(1, 1));
  }

  lemma PathSpent(l: LedgerState, epoch: u64, generation: u64, usable: u64, request: u64)
    requires epoch != 0 && usable >= 5
    ensures
      var auth := World(PolicyAt(epoch, true), CapacityAt(epoch, generation, usable), 0);
      SelectPath(auth, l, Demand(request, [Candidate(1, 1)], generation)) == CapacityBlocked([1])
  {
    var auth := World(PolicyAt(epoch, true), CapacityAt(epoch, generation, usable), 0);
    var req := Demand(request, [Candidate(1, 1)], generation);
    Room(PolicyAt(epoch, true), epoch, generation, usable, 0);
    assert TryOrder(auth, req) == [Candidate(1, 1)];
    var vs := Judged(auth, l, req, [Candidate(1, 1)]);
    assert vs[0] == PathExhausted([1]);
    assert vs == [PathExhausted([1])];
  }

  /** Departure: policy requires a path, the only candidate has no room left, and
      the request is granted over the path's own resources without any path. */
  lemma ExhaustedPathGranted()
    ensures
      var auth := World(PolicyAt(1, true), CapacityAt(1, 1, 10), 0);
      var req := Demand(1, [Candidate(1, 1)], 1);
      ValidAuthorities(auth) && PathRequired(auth) && ValidRequest(req) &&
      EvaluateRequest(auth, EMPTY_LEDGER, 0, false, req) == Granted(Admit, 5, [1], 0, 0)
  {
    PartsValid(1, true, 1, 10, 1);
    WorldValid(PolicyAt(1, true), CapacityAt(1, 1, 10), 0);
    Welcome(true, 1, 1, 10, 0, 1, [Candidate(1, 1)]);
    Room(PolicyAt(1, true), 1, 1, 10, 0);
    PathSpent(EMPTY_LEDGER, 1, 1, 10, 1);
    StageGrants(World(PolicyAt(1, true), CapacityAt(1, 1, 10), 0), EMPTY_LEDGER, 0, 1, [Candidate(1, 1)], 1, CapacityBlocked([1]));
  }
}
