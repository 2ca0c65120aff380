/** Exactly when an evaluated request is granted, what it is granted, and what it
    is told otherwise (src/engine/admission.cpp), stated over the authorities, the
    ledger and the request. */
module Eligibility {
  import opened Base
  import opened Model
  import opened Checked
  import opened Snapshots
  import opened Ledger
  import opened Evaluate
  import opened Selection
  import opened Checks
  import opened Engine
  import opened Hurdles
  import opened Routes

  /** The resources the route crosses. */
  function Crossed(route: Route): seq<u64> {
    match route
    case Direct => []
    case Over(f, _) => f.resources
    case Around(rs) => rs
  }

  function PathOn(route: Route): Option<PathFact> {
    match route
    case Over(f, _) => Some(f)
    case _ => None
  }

  /** What the grant would be charged to. */
  ghost predicate Wanted(req: Request, route: Route, r: u64) {
    (exists i :: 0 <= i < |req.bindings| && req.bindings[i].resource == r) || r in Crossed(route)
  }

  /** c respects the request, every resource it would be charged to, and the path. */
  ghost predicate Bounded(auth: Authorities, l: LedgerState, req: Request, route: Route, c: nat) {
    c <= req.rate.maximum && (forall r: u64 :: Wanted(req, route, r) ==> c <= Available(auth, l, r)) &&
    (PathOn(route).Some? ==> c <= PathFree(l, PathOn(route).value))
  }

  predicate Degradable(auth: Authorities, req: Request) {
    auth.policy.Some? && auth.policy.value.allowDegraded && req.degradation != NeverDegrade &&
    (ClassOf(auth, req).Some? ==> ClassOf(auth, req).value.degradationAllowed)
  }

  /** g is the most the request can be given, and it is enough. */
  ghost predicate Deserves(auth: Authorities, l: LedgerState, req: Request, route: Route, g: nat) {
    (exists r: u64 :: Wanted(req, route, r)) && (forall r: u64 :: Wanted(req, route, r) ==> Known(auth, r)) &&
    Bounded(auth, l, req, route, g) && (forall c: nat :: Bounded(auth, l, req, route, c) ==> c <= g) &&
    g >= req.rate.minimum && (g >= req.rate.desired || Degradable(auth, req))
  }

  /** The grant says what was found. */
  ghost predicate Grants(e: Evaluation, req: Request, route: Route)
    requires e.Granted?
  {
    e.outcome == (if e.grant >= req.rate.desired then Admit else AdmitDegraded) &&
    (forall i, j :: 0 <= i < j < |e.targets| ==> e.targets[i] < e.targets[j]) &&
    (forall r: u64 :: r in e.targets <==> Wanted(req, route, r)) &&
    e.path == (if route.Over? then route.fact.path else 0) && e.pathGeneration == (if route.Over? then route.generation else 0)
  }

  lemma TargetsWanted(req: Request, route: Route, targets: seq<u64>)
    requires targets == Targets(req, Crossed(route))
    ensures forall r: u64 :: r in targets <==> Wanted(req, route, r)
  {
    forall r: u64 ensures r in BoundResources(req) <==> exists i :: 0 <= i < |req.bindings| && req.bindings[i].resource == r {}
  }

  lemma BoundedIff(auth: Authorities, l: LedgerState, req: Request, route: Route, targets: seq<u64>, c: nat)
    requires forall r: u64 :: r in targets <==> Wanted(req, route, r)
    ensures Bounded(auth, l, req, route, c) <==> WithinLimits(auth, l, req, targets, PathOn(route), c)
  {
    if WithinLimits(auth, l, req, targets, PathOn(route), c) {
      forall r: u64 | Wanted(req, route, r) ensures c <= Available(auth, l, r) {
        assert r in targets;
      }
    } else if Bounded(auth, l, req, route, c) {
      forall i | 0 <= i < |targets| ensures c <= Available(auth, l, targets[i]) {
        assert targets[i] in targets;
      }
    }
  }

  /** The capacity stage admits this much, and it is enough. */
  ghost predicate StageGrants(auth: Authorities, l: LedgerState, tick: u64, req: Request, targets: seq<u64>, path: Option<PathFact>, g: nat) {
    var v := CapacityVerdict(auth, l, tick, req, targets, path);
    targets != [] && v.outcome == Admit && g == Min(v.ceiling, req.rate.maximum) &&
    g >= req.rate.minimum && (g >= req.rate.desired || DegradeAllowed(auth, req))
  }

  /** The grant over settled targets, given what the capacity stage says. */
  ghost function GrantOf(auth: Authorities, req: Request, targets: seq<u64>, v: CapacityResult, route: Route): Evaluation {
    if targets == [] then Refusal(RejectPolicy)
    else
      GrantWithin(auth, req, targets, v,
                  if route.Over? then route.fact.path else 0, if route.Over? then route.generation else 0)
  }

  ghost function GrantOn(auth: Authorities, l: LedgerState, tick: u64, req: Request, targets: seq<u64>, route: Route): Evaluation {
    GrantOf(auth, req, targets, CapacityVerdict(auth, l, tick, req, targets, PathOn(route)), route)
  }

  lemma GrantsDirect(auth: Authorities, l: LedgerState, tick: u64, req: Request, targets: seq<u64>, v: CapacityResult)
    requires targets == Targets(req, []) && v == CapacityVerdict(auth, l, tick, req, targets, None)
    ensures EvaluateGrant(auth, l, tick, req, NoPath) == GrantOf(auth, req, targets, v, Direct)
  {}

  lemma GrantsOver(auth: Authorities, l: LedgerState, tick: u64, req: Request, targets: seq<u64>, v: CapacityResult, f: PathFact, g: u64)
    requires targets == Targets(req, f.resources) && v == CapacityVerdict(auth, l, tick, req, targets, Some(f))
    ensures EvaluateGrant(auth, l, tick, req, ViaPath(f, g)) == GrantOf(auth, req, targets, v, Over(f, g))
  {}

  lemma GrantsAround(auth: Authorities, l: LedgerState, tick: u64, req: Request, targets: seq<u64>, v: CapacityResult, rs: seq<u64>)
    requires targets == Targets(req, rs) && v == CapacityVerdict(auth, l, tick, req, targets, None)
    ensures EvaluateGrant(auth, l, tick, req, CapacityBlocked(rs)) == GrantOf(auth, req, targets, v, Around(rs))
  {}

  lemma GrantsOn(auth: Authorities, l: LedgerState, tick: u64, req: Request, route: Route, targets: seq<u64>)
    requires targets == Targets(req, Crossed(route))
    ensures EvaluateGrant(auth, l, tick, req, ChoiceFor(route)) == GrantOn(auth, l, tick, req, targets, route)
  {
    var v := CapacityVerdict(auth, l, tick, req, targets, PathOn(route));
    match route
    case Direct => GrantsDirect(auth, l, tick, req, targets, v);
    case Over(f, g) => GrantsOver(auth, l, tick, req, targets, v, f, g);
    case Around(rs) => GrantsAround(auth, l, tick, req, targets, v, rs);
  }

  lemma GrantOnMeans(auth: Authorities, l: LedgerState, tick: u64, req: Request, route: Route, targets: seq<u64>, e: Evaluation)
    requires e == GrantOn(auth, l, tick, req, targets, route)
    ensures e.Granted? <==> exists g: nat :: StageGrants(auth, l, tick, req, targets, PathOn(route), g)
    ensures e.Granted? ==> StageGrants(auth, l, tick, req, targets, PathOn(route), e.grant) && e.targets == targets
    ensures e.Granted? ==>
      e.outcome == (if e.grant >= req.rate.desired then Admit else AdmitDegraded) &&
      e.path == (if route.Over? then route.fact.path else 0) && e.pathGeneration == (if route.Over? then route.generation else 0)
  {
    if e.Granted? {
      assert StageGrants(auth, l, tick, req, targets, PathOn(route), e.grant);
    }
  }

  lemma DeservesIff(auth: Authorities, l: LedgerState, tick: u64, req: Request, route: Route, targets: seq<u64>, g: nat)
    requires targets == Targets(req, Crossed(route))
    ensures Deserves(auth, l, req, route, g) <==> StageGrants(auth, l, tick, req, targets, PathOn(route), g)
  {
    TargetsWanted(req, route, targets);
    forall c: nat ensures Bounded(auth, l, req, route, c) <==> WithinLimits(auth, l, req, targets, PathOn(route), c) {
      BoundedIff(auth, l, req, route, targets, c);
    }
    CapacityVerdictExact(auth, l, tick, req, targets, PathOn(route));
    assert targets != [] ==> targets[0] in targets;
    SufficesIff(auth, l, tick, req, route, targets, g);
  }

  lemma SufficesIff(auth: Authorities, l: LedgerState, tick: u64, req: Request, route: Route, targets: seq<u64>, g: nat)
    requires forall r: u64 :: r in targets <==> Wanted(req, route, r)
    requires forall c: nat :: Bounded(auth, l, req, route, c) <==> WithinLimits(auth, l, req, targets, PathOn(route), c)
    requires targets != [] <==> exists r: u64 :: Wanted(req, route, r)
    ensures Deserves(auth, l, req, route, g) <==> StageGrants(auth, l, tick, req, targets, PathOn(route), g)
  {
    CapacityVerdictExact(auth, l, tick, req, targets, PathOn(route));
    if Deserves(auth, l, req, route, g) {
      forall i | 0 <= i < |targets| ensures Serves(auth, l, req, targets[i]) {
        assert targets[i] in targets;
      }
    }
    if StageGrants(auth, l, tick, req, targets, PathOn(route), g) {
      forall r: u64 | Wanted(req, route, r) ensures Known(auth, r) {
        var i :| 0 <= i < |targets| && targets[i] == r;
        assert Serves(auth, l, req, targets[i]);
      }
    }
    assert DegradeAllowed(auth, req) <==> Degradable(auth, req) by {
      assert FindQos(auth, req.qos) == ClassOf(auth, req);
    }
  }

  // ------------------------------------------------------------------
  // The whole evaluation
  // ------------------------------------------------------------------

  lemma OnRoute(auth: Authorities, l: LedgerState, tick: u64, pending: bool, req: Request, route: Route, targets: seq<u64>)
    requires ClearsAll(auth, pending, req) && Takes(auth, l, req, route) && targets == Targets(req, Crossed(route))
    ensures EvaluateRequest(auth, l, tick, pending, req) == GrantOn(auth, l, tick, req, targets, route)
  {
    PreliminaryExact(auth, pending, req);
    PreliminaryDecides(auth, l, tick, pending, req);
    RouteExact(auth, l, req);
    GrantsOn(auth, l, tick, req, route, targets);
  }

  lemma OnRouteExact(auth: Authorities, l: LedgerState, tick: u64, pending: bool, req: Request, route: Route, e: Evaluation)
    requires ClearsAll(auth, pending, req) && Takes(auth, l, req, route) && e == EvaluateRequest(auth, l, tick, pending, req)
    ensures e.Granted? <==> exists g: nat :: Deserves(auth, l, req, route, g)
    ensures e.Granted? ==> Deserves(auth, l, req, route, e.grant) && Grants(e, req, route)
  {
    var targets := Targets(req, Crossed(route));
    OnRoute(auth, l, tick, pending, req, route, targets);
    GrantOnMeans(auth, l, tick, req, route, targets, e);
    forall g: nat ensures Deserves(auth, l, req, route, g) <==> StageGrants(auth, l, tick, req, targets, PathOn(route), g) {
      DeservesIff(auth, l, tick, req, route, targets, g);
    }
    TargetsWanted(req, route, targets);
  }

  /** Told at once where no route takes the request. */
  lemma RefusedWithoutRoute(auth: Authorities, l: LedgerState, tick: u64, pending: bool, req: Request)
    requires ClearsAll(auth, pending, req) && forall route :: !Takes(auth, l, req, route)
    ensures EvaluateRequest(auth, l, tick, pending, req) == Refusal(ToldWithoutRoute(auth, req))
  {
    PreliminaryExact(auth, pending, req);
    PreliminaryDecides(auth, l, tick, pending, req);
    RouteExact(auth, l, req);
  }

  lemma {:induction false} SomeHurdleFails(auth: Authorities, pending: bool, req: Request, k: nat) returns (i: nat)
    requires k <= |HURDLES| && exists j :: 0 <= j < k && !Clears(HURDLES[j], auth, pending, req)
    ensures FailsFrom(auth, pending, req, 0, i)
    decreases k
  {
    if exists j :: 0 <= j < k - 1 && !Clears(HURDLES[j], auth, pending, req) {
      i := SomeHurdleFails(auth, pending, req, k - 1);
    } else {
      i := k - 1;
    }
  }

  /** A request is granted exactly when it clears every hurdle, a route takes it,
      and the most that route leaves it is enough; and then it is granted that
      much, on what the route crosses and what it binds. */
  lemma GrantedIff(auth: Authorities, l: LedgerState, tick: u64, pending: bool, req: Request)
    ensures
      var e := EvaluateRequest(auth, l, tick, pending, req);
      (e.Granted? <==>
        ClearsAll(auth, pending, req) &&
        exists route, g: nat :: Takes(auth, l, req, route) && Deserves(auth, l, req, route, g)) &&
      (e.Granted? ==>
        exists route :: Takes(auth, l, req, route) && Deserves(auth, l, req, route, e.grant) && Grants(e, req, route))
  {
    var e := EvaluateRequest(auth, l, tick, pending, req);
    if !ClearsAll(auth, pending, req) {
      var i := SomeHurdleFails(auth, pending, req, |HURDLES|);
      FirstHurdleDecides(auth, l, tick, pending, req, i);
    } else if route :| Takes(auth, l, req, route) {
      OnRouteExact(auth, l, tick, pending, req, route, e);
      forall other | Takes(auth, l, req, other) ensures e.Granted? <==> exists g: nat :: Deserves(auth, l, req, other, g) {
        OnRouteExact(auth, l, tick, pending, req, other, e);
      }
    } else {
      RefusedWithoutRoute(auth, l, tick, pending, req);
    }
  }

  // ------------------------------------------------------------------
  // Refusals for want of capacity
  // ------------------------------------------------------------------

  /** The claimant would rather wait. */
  predicate WouldWait(auth: Authorities, req: Request) {
    match req.contention
    case PreferDefer => true
    case PreferReject => false
    case InheritContention => auth.policy.Some? && auth.policy.value.onContention == DeferOnContention
  }

  /** For how long it can wait. */
  function Patience(auth: Authorities, req: Request): u64 {
    if auth.policy.None? then 0 else Min(req.deadlineTicks, auth.policy.value.deferHorizonTicks)
  }

  /** Some obligation on the resource may end within that time. */
  ghost predicate ReliefInTime(auth: Authorities, tick: u64, req: Request, r: u64) {
    auth.reservations.Some? &&
    exists o :: o in auth.reservations.value.obligations && o.resource == r && !o.inviolable &&
      tick < o.releaseTick <= Min(tick + Patience(auth, req), MAX64)
  }

  /** The resource cannot carry the minimum. */
  ghost predicate Lacks(auth: Authorities, l: LedgerState, req: Request, r: u64) {
    !Known(auth, r) ||
    (req.rate.minimum > 0 &&
     FindCapacity(auth, r).value.usable <
       HeadroomFor(auth.policy, FindCapacity(auth, r).value) + ObligationsFor(auth, r) + Admitted(l, r) + req.rate.minimum)
  }

  /** What a request is told about a resource that cannot carry its minimum. */
  ghost function ToldAbout(auth: Authorities, tick: u64, req: Request, r: u64): Outcome {
    if !Known(auth, r) then StaleInput
    else
      var c := FindCapacity(auth, r).value;
      var spare := c.usable - HeadroomFor(auth.policy, c) - req.rate.minimum;
      if spare < 0 then RejectCapacity
      else if spare < ObligationsFor(auth, r) then
        if WouldWait(auth, req) && ReliefInTime(auth, tick, req, r) then Defer else RejectObligation
      else if WouldWait(auth, req) && Patience(auth, req) > 0 then Defer
      else RejectCapacity
  }

  lemma LacksIff(auth: Authorities, l: LedgerState, req: Request, r: u64)
    ensures Lacks(auth, l, req, r) <==> !Serves(auth, l, req, r)
  {}

  lemma ReliefIff(auth: Authorities, tick: u64, req: Request, r: u64)
    ensures ReliefInTime(auth, tick, req, r) <==> ObligationReleases(auth, r, tick, SatAdd(tick, Willing(auth, req)))
  {
    if ReliefInTime(auth, tick, req, r) {
      var obligations := auth.reservations.value.obligations;
      var o :| o in obligations && o.resource == r && !o.inviolable && tick < o.releaseTick <= Min(tick + Patience(auth, req), MAX64);
      var i :| 0 <= i < |obligations| && obligations[i] == o;
      assert ReleasesWithin(obligations[i], r, tick, SatAdd(tick, Willing(auth, req)));
    }
  }

  lemma ToldAboutIt(auth: Authorities, l: LedgerState, tick: u64, req: Request, r: u64)
    requires Lacks(auth, l, req, r)
    ensures TargetVerdict(auth, l, tick, req, r) == ToldAbout(auth, tick, req, r)
  {
    ReliefIff(auth, tick, req, r);
  }

  lemma FirstLacking(auth: Authorities, l: LedgerState, tick: u64, req: Request, targets: seq<u64>, i: nat)
    requires i < |targets| && Lacks(auth, l, req, targets[i]) && forall j :: 0 <= j < i ==> !Lacks(auth, l, req, targets[j])
    ensures TargetsVerdict(auth, l, tick, req, targets) == ToldAbout(auth, tick, req, targets[i]) != Admit
  {
    forall j | 0 <= j <= i ensures Lacks(auth, l, req, targets[j]) <==> !Serves(auth, l, req, targets[j]) {
      LacksIff(auth, l, req, targets[j]);
    }
    FirstTargetDecides(auth, l, tick, req, targets, i);
    ToldAboutIt(auth, l, tick, req, targets[i]);
  }

  /** r is the lowest resource the request wants that cannot carry its minimum. */
  ghost predicate LowestLacking(auth: Authorities, l: LedgerState, req: Request, route: Route, r: u64) {
    Wanted(req, route, r) && Lacks(auth, l, req, r) && forall x: u64 :: Wanted(req, route, x) && x < r ==> !Lacks(auth, l, req, x)
  }

  /** A request that clears every hurdle and that a route takes is refused for its
      lowest resource that cannot carry the minimum; if none is short, for want
      of the desired rate; and as a matter of policy if it asks for no resource. */
  lemma RefusedOnRoute(auth: Authorities, l: LedgerState, tick: u64, pending: bool, req: Request, route: Route)
    requires ClearsAll(auth, pending, req) && Takes(auth, l, req, route) && !EvaluateRequest(auth, l, tick, pending, req).Granted?
    ensures
      var e := EvaluateRequest(auth, l, tick, pending, req);
      ((forall r: u64 :: !Wanted(req, route, r)) ==> e == Refusal(RejectPolicy)) &&
      (forall r: u64 :: LowestLacking(auth, l, req, route, r) ==> e == Refusal(ToldAbout(auth, tick, req, r))) &&
      ((exists r: u64 :: Wanted(req, route, r)) && (forall r: u64 :: Wanted(req, route, r) ==> !Lacks(auth, l, req, r)) ==>
        e == Refusal(RejectCapacity))
  {
    var targets := Targets(req, Crossed(route));
    OnRoute(auth, l, tick, pending, req, route, targets);
    TargetsWanted(req, route, targets);
    forall r: u64 | LowestLacking(auth, l, req, route, r) ensures EvaluateRequest(auth, l, tick, pending, req) == Refusal(ToldAbout(auth, tick, req, r)) {
      LowestDecides(auth, l, tick, req, route, targets, r);
    }
    if forall r: u64 :: Wanted(req, route, r) ==> !Lacks(auth, l, req, r) {
      NoneLacking(auth, l, tick, req, route, targets);
    }
    assert targets != [] ==> targets[0] in targets;
  }

  lemma LowestDecides(auth: Authorities, l: LedgerState, tick: u64, req: Request, route: Route, targets: seq<u64>, r: u64)
    requires LowestLacking(auth, l, req, route, r) && targets == Targets(req, Crossed(route))
    requires forall x: u64 :: x in targets <==> Wanted(req, route, x)
    ensures GrantOn(auth, l, tick, req, targets, route) == Refusal(ToldAbout(auth, tick, req, r))
  {
    var i :| 0 <= i < |targets| && targets[i] == r;
    forall j | 0 <= j < i ensures !Lacks(auth, l, req, targets[j]) {
      assert targets[j] in targets;
    }
    FirstLacking(auth, l, tick, req, targets, i);
  }

  lemma NoneLacking(auth: Authorities, l: LedgerState, tick: u64, req: Request, route: Route, targets: seq<u64>)
    requires Takes(auth, l, req, route) && forall x: u64 :: x in targets <==> Wanted(req, route, x)
    requires forall r: u64 :: Wanted(req, route, r) ==> !Lacks(auth, l, req, r)
    ensures CapacityVerdict(auth, l, tick, req, targets, PathOn(route)).outcome == Admit
  {
    forall i | 0 <= i < |targets| ensures Serves(auth, l, req, targets[i]) {
      assert targets[i] in targets;
      LacksIff(auth, l, req, targets[i]);
    }
    CapacityVerdictExact(auth, l, tick, req, targets, PathOn(route));
  }
}
