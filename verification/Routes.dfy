/** Which way a request gets through (EngineCore::select_path,
    src/engine/admission.cpp), stated over the candidates and the published paths. */
module Routes {
  import opened Base
  import opened Model
  import opened Snapshots
  import opened Ledger
  import opened Evaluate
  import opened Selection

  predicate SubstitutionAllowed(auth: Authorities, req: Request) {
    req.allowPathSubstitution && (auth.policy.Some? ==> auth.policy.value.allowPathSubstitution)
  }

  /** Candidate i is considered: the first to name the required path, else the
      first of all unless another may be substituted for it. */
  predicate Tried(auth: Authorities, req: Request, i: nat)
    requires i < |req.candidates|
  {
    if req.requiredPath != 0
    then req.candidates[i].path == req.requiredPath && forall j :: 0 <= j < i ==> req.candidates[j].path != req.requiredPath
    else i == 0 || SubstitutionAllowed(auth, req)
  }

  function FactAt(auth: Authorities, req: Request, i: nat): Option<PathFact>
    requires i < |req.candidates|
  {
    match auth.paths
    case None => None
    case Some(catalog) => Lookup(catalog.paths, PathOf, req.candidates[i].path)
  }

  ghost predicate CarriesAt(auth: Authorities, l: LedgerState, req: Request, i: nat)
    requires i < |req.candidates|
  {
    Tried(auth, req, i) && FactAt(auth, req, i).Some? && CanCarry(auth, l, req, FactAt(auth, req, i).value)
  }

  /** The state of the path, or the capacity of a resource it crosses, is unknown. */
  ghost predicate UnprovenAt(auth: Authorities, req: Request, i: nat)
    requires i < |req.candidates|
  {
    Tried(auth, req, i) && FactAt(auth, req, i).Some? &&
    var f := FactAt(auth, req, i).value;
    f.state == PathUnknown || (f.state == PathUp && exists r :: r in f.resources && !Known(auth, r))
  }

  /** Nothing is wrong with the path but that it, or a resource it crosses, lacks
      room for the minimum. */
  ghost predicate ShortAt(auth: Authorities, l: LedgerState, req: Request, i: nat)
    requires i < |req.candidates|
  {
    Tried(auth, req, i) && FactAt(auth, req, i).Some? &&
    var f := FactAt(auth, req, i).value;
    f.state == PathUp && f.latency <= req.maximumLatency && (forall r :: r in f.resources ==> Known(auth, r)) &&
    (PathFree(l, f) < req.rate.minimum || exists r :: r in f.resources && Allowance(auth, r) < req.rate.minimum)
  }

  ghost predicate AnyCarries(auth: Authorities, l: LedgerState, req: Request) {
    exists i :: 0 <= i < |req.candidates| && CarriesAt(auth, l, req, i)
  }

  ghost predicate AnyUnproven(auth: Authorities, req: Request) {
    exists i :: 0 <= i < |req.candidates| && UnprovenAt(auth, req, i)
  }

  ghost predicate AnyShort(auth: Authorities, l: LedgerState, req: Request) {
    exists i :: 0 <= i < |req.candidates| && ShortAt(auth, l, req, i)
  }

  /** How a request gets through: without a path, over one, or without one
      although it names some, all of them short. */
  datatype Route = Direct | Over(fact: PathFact, generation: u64) | Around(resources: seq<u64>)

  ghost predicate FirstCarrier(auth: Authorities, l: LedgerState, req: Request, i: nat) {
    i < |req.candidates| && CarriesAt(auth, l, req, i) && forall j :: 0 <= j < i ==> !CarriesAt(auth, l, req, j)
  }

  ghost predicate FirstShortAt(auth: Authorities, l: LedgerState, req: Request, i: nat) {
    i < |req.candidates| && ShortAt(auth, l, req, i) && forall j :: 0 <= j < i ==> !ShortAt(auth, l, req, j)
  }

  ghost predicate Takes(auth: Authorities, l: LedgerState, req: Request, route: Route) {
    match route
    case Direct => req.candidates == [] && !(auth.policy.Some? && auth.policy.value.requirePathBinding)
    case Over(f, g) =>
      exists i: nat :: FirstCarrier(auth, l, req, i) && FactAt(auth, req, i) == Some(f) && req.candidates[i].generation == g
    case Around(rs) =>
      !AnyCarries(auth, l, req) && !AnyUnproven(auth, req) &&
      exists i: nat :: FirstShortAt(auth, l, req, i) && FactAt(auth, req, i).value.resources == rs
  }

  /** What a request that no route takes is told. */
  ghost function ToldWithoutRoute(auth: Authorities, req: Request): Outcome {
    if req.candidates == [] then RejectPolicy else if AnyUnproven(auth, req) then StaleInput else RejectPath
  }

  lemma JudgedAs(auth: Authorities, l: LedgerState, req: Request, i: nat, v: CandidateVerdict)
    requires i < |req.candidates| && v == Judge(auth, l, req, req.candidates[i]) && Tried(auth, req, i)
    ensures v.Usable? <==> CarriesAt(auth, l, req, i)
    ensures v.EvidenceMissing? <==> UnprovenAt(auth, req, i)
    ensures CapacityFailure(v) <==> ShortAt(auth, l, req, i)
    ensures v.Usable? ==> FactAt(auth, req, i) == Some(v.fact)
    ensures CapacityFailure(v) ==> FactAt(auth, req, i).Some? && FactAt(auth, req, i).value.resources == v.resources
  {
    assert FindPath(auth, req.candidates[i].path) == FactAt(auth, req, i);
    JudgeUsable(auth, l, req, req.candidates[i]);
  }

  lemma {:induction false} NamingFirst(candidates: seq<Candidate>, path: u64, i: nat)
    requires i < |candidates| && candidates[i].path == path && forall j :: 0 <= j < i ==> candidates[j].path != path
    ensures Naming(candidates, path) == [candidates[i]]
  {
    if i > 0 {
      NamingFirst(candidates[1..], path, i - 1);
    }
  }

  lemma {:induction false} NamingNone(candidates: seq<Candidate>, path: u64)
    requires forall j :: 0 <= j < |candidates| ==> candidates[j].path != path
    ensures Naming(candidates, path) == []
  {
    if candidates != [] {
      NamingNone(candidates[1..], path);
    }
  }

  lemma FirstNamed(candidates: seq<Candidate>, path: u64) returns (i: nat)
    ensures i <= |candidates| && forall j :: 0 <= j < i ==> candidates[j].path != path
    ensures i < |candidates| ==> candidates[i].path == path
  {
    i := 0;
    while i < |candidates| && candidates[i].path != path
      invariant i <= |candidates| && forall j :: 0 <= j < i ==> candidates[j].path != path
    {
      i := i + 1;
    }
  }

  /** The order of trial holds the candidates tried: all of them, one, or none. */
  datatype Trial = EveryOne | OnlyOne(only: nat) | NoOne

  ghost predicate TriesAs(auth: Authorities, req: Request, trial: Trial) {
    match trial
    case EveryOne => TryOrder(auth, req) == req.candidates && forall i :: 0 <= i < |req.candidates| ==> Tried(auth, req, i)
    case OnlyOne(only) =>
      only < |req.candidates| && TryOrder(auth, req) == [req.candidates[only]] &&
      forall i :: 0 <= i < |req.candidates| ==> (Tried(auth, req, i) <==> i == only)
    case NoOne => TryOrder(auth, req) == [] && forall i :: 0 <= i < |req.candidates| ==> !Tried(auth, req, i)
  }

  lemma OrderTried(auth: Authorities, req: Request) returns (trial: Trial)
    requires req.candidates != []
    ensures TriesAs(auth, req, trial)
  {
    if req.requiredPath != 0 {
      var i := FirstNamed(req.candidates, req.requiredPath);
      if i < |req.candidates| {
        NamingFirst(req.candidates, req.requiredPath, i);
        trial := OnlyOne(i);
      } else {
        NamingNone(req.candidates, req.requiredPath);
        trial := NoOne;
      }
    } else {
      trial := if SubstitutionAllowed(auth, req) then EveryOne else OnlyOne(0);
    }
  }

  /** What the selection makes of a route. */
  function ChoiceFor(route: Route): Choice {
    match route
    case Direct => NoPath
    case Over(f, g) => ViaPath(f, g)
    case Around(rs) => CapacityBlocked(rs)
  }

  lemma SomeFirstCarrier(auth: Authorities, l: LedgerState, req: Request) returns (i: nat)
    requires AnyCarries(auth, l, req)
    ensures FirstCarrier(auth, l, req, i)
  {
    i := 0;
    while !CarriesAt(auth, l, req, i)
      invariant i < |req.candidates| && forall j :: 0 <= j < i ==> !CarriesAt(auth, l, req, j)
      decreases |req.candidates| - i
    {
      i := i + 1;
    }
  }

  lemma SomeFirstShort(auth: Authorities, l: LedgerState, req: Request) returns (i: nat)
    requires AnyShort(auth, l, req)
    ensures FirstShortAt(auth, l, req, i)
  {
    i := 0;
    while !ShortAt(auth, l, req, i)
      invariant i < |req.candidates| && forall j :: 0 <= j < i ==> !ShortAt(auth, l, req, j)
      decreases |req.candidates| - i
    {
      i := i + 1;
    }
  }

  /** The verdicts on the order of trial, by position. */
  lemma VerdictAt(auth: Authorities, l: LedgerState, req: Request, i: nat) returns (k: nat)
    requires i < |req.candidates| && Tried(auth, req, i)
    ensures
      var order := TryOrder(auth, req);
      k < |order| && order[k] == req.candidates[i] &&
      forall m :: 0 <= m < k ==> m < i && Tried(auth, req, m) && order[m] == req.candidates[m]
  {
    var trial := OrderTried(auth, req);
    k := if trial.EveryOne? then i else 0;
  }

  lemma PositionTried(auth: Authorities, req: Request, k: nat) returns (i: nat)
    requires req.candidates != [] && k < |TryOrder(auth, req)|
    ensures i < |req.candidates| && Tried(auth, req, i) && TryOrder(auth, req)[k] == req.candidates[i]
  {
    var trial := OrderTried(auth, req);
    i := if trial.EveryOne? then k else trial.only;
  }

  /** The verdict says of candidate i what is the case. */
  ghost predicate SaysOf(auth: Authorities, l: LedgerState, req: Request, v: CandidateVerdict, i: nat) {
    i < |req.candidates| && (v.Usable? <==> CarriesAt(auth, l, req, i)) &&
    (v.EvidenceMissing? <==> UnprovenAt(auth, req, i)) && (CapacityFailure(v) <==> ShortAt(auth, l, req, i))
  }

  lemma PositionJudged(auth: Authorities, l: LedgerState, req: Request, k: nat, v: CandidateVerdict) returns (i: nat)
    requires req.candidates != [] && k < |TryOrder(auth, req)| && v == Judge(auth, l, req, TryOrder(auth, req)[k])
    ensures SaysOf(auth, l, req, v, i)
  {
    i := PositionTried(auth, req, k);
    JudgedAs(auth, l, req, i, v);
  }

  lemma CandidateJudged(auth: Authorities, l: LedgerState, req: Request, i: nat, vs: seq<CandidateVerdict>) returns (k: nat)
    requires i < |req.candidates| && Tried(auth, req, i) && vs == Judged(auth, l, req, TryOrder(auth, req))
    ensures k < |vs| && SaysOf(auth, l, req, vs[k], i)
  {
    k := VerdictAt(auth, l, req, i);
    JudgedAs(auth, l, req, i, vs[k]);
  }

  lemma UsableIff(auth: Authorities, l: LedgerState, req: Request, vs: seq<CandidateVerdict>)
    requires req.candidates != [] && vs == Judged(auth, l, req, TryOrder(auth, req))
    ensures FirstUsable(vs) < |vs| <==> AnyCarries(auth, l, req)
  {
    var u := FirstUsable(vs);
    if u < |vs| {
      var i := PositionJudged(auth, l, req, u, vs[u]);
      assert CarriesAt(auth, l, req, i);
    } else if i :| 0 <= i < |req.candidates| && CarriesAt(auth, l, req, i) {
      var k := CandidateJudged(auth, l, req, i, vs);
    }
  }

  lemma UnprovenIff(auth: Authorities, l: LedgerState, req: Request, vs: seq<CandidateVerdict>)
    requires req.candidates != [] && vs == Judged(auth, l, req, TryOrder(auth, req))
    ensures EvidenceMissing in vs <==> AnyUnproven(auth, req)
  {
    if u :| 0 <= u < |vs| && vs[u].EvidenceMissing? {
      var i := PositionJudged(auth, l, req, u, vs[u]);
      assert UnprovenAt(auth, req, i);
    } else if i :| 0 <= i < |req.candidates| && UnprovenAt(auth, req, i) {
      var k := CandidateJudged(auth, l, req, i, vs);
    }
  }

  lemma ShortIff(auth: Authorities, l: LedgerState, req: Request, vs: seq<CandidateVerdict>)
    requires req.candidates != [] && vs == Judged(auth, l, req, TryOrder(auth, req))
    ensures FirstCapacityFailure(vs) < |vs| <==> AnyShort(auth, l, req)
  {
    var u := FirstCapacityFailure(vs);
    if u < |vs| {
      var i := PositionJudged(auth, l, req, u, vs[u]);
      assert ShortAt(auth, l, req, i);
    } else if i :| 0 <= i < |req.candidates| && ShortAt(auth, l, req, i) {
      var k := CandidateJudged(auth, l, req, i, vs);
    }
  }

  lemma OrderCarries(auth: Authorities, l: LedgerState, req: Request, vs: seq<CandidateVerdict>)
    requires req.candidates != [] && vs == Judged(auth, l, req, TryOrder(auth, req))
    ensures FirstUsable(vs) < |vs| <==> AnyCarries(auth, l, req)
    ensures EvidenceMissing in vs <==> AnyUnproven(auth, req)
    ensures FirstCapacityFailure(vs) < |vs| <==> AnyShort(auth, l, req)
  {
    UsableIff(auth, l, req, vs);
    UnprovenIff(auth, l, req, vs);
    ShortIff(auth, l, req, vs);
  }

  lemma OverChosen(auth: Authorities, l: LedgerState, req: Request, i: nat, f: PathFact)
    requires FirstCarrier(auth, l, req, i) && FactAt(auth, req, i) == Some(f)
    ensures SelectPath(auth, l, req) == ViaPath(f, req.candidates[i].generation)
  {
    var order := TryOrder(auth, req);
    var vs := Judged(auth, l, req, order);
    var k := VerdictAt(auth, l, req, i);
    JudgedAs(auth, l, req, i, vs[k]);
    forall m | 0 <= m < k ensures !vs[m].Usable? {
      JudgedAs(auth, l, req, m, vs[m]);
    }
    WinnerFound(order, vs, k);
  }

  lemma AroundChosen(auth: Authorities, l: LedgerState, req: Request, i: nat)
    requires !AnyCarries(auth, l, req) && !AnyUnproven(auth, req) && FirstShortAt(auth, l, req, i)
    ensures SelectPath(auth, l, req) == CapacityBlocked(FactAt(auth, req, i).value.resources)
  {
    var order := TryOrder(auth, req);
    var vs := Judged(auth, l, req, order);
    OrderCarries(auth, l, req, vs);
    var k := VerdictAt(auth, l, req, i);
    JudgedAs(auth, l, req, i, vs[k]);
    forall m | 0 <= m < k ensures !CapacityFailure(vs[m]) {
      JudgedAs(auth, l, req, m, vs[m]);
    }
    assert FirstCapacityFailure(vs) == k;
  }

  /** A request takes at most one route, the one the selection chooses; without
      one it is refused at once. */
  lemma RouteExact(auth: Authorities, l: LedgerState, req: Request)
    ensures forall route :: Takes(auth, l, req, route) ==> SelectPath(auth, l, req) == ChoiceFor(route)
    ensures SelectPath(auth, l, req) == Refused(ToldWithoutRoute(auth, req)) || exists route :: Takes(auth, l, req, route)
    ensures SelectPath(auth, l, req).Refused? ==> forall route :: !Takes(auth, l, req, route)
  {
    forall route | Takes(auth, l, req, route) ensures SelectPath(auth, l, req) == ChoiceFor(route) {
      match route
      case Direct =>
      case Over(f, g) =>
        var i: nat :| FirstCarrier(auth, l, req, i) && FactAt(auth, req, i) == Some(f) && req.candidates[i].generation == g;
        OverChosen(auth, l, req, i, f);
      case Around(rs) =>
        var i: nat :| FirstShortAt(auth, l, req, i) && FactAt(auth, req, i).value.resources == rs;
        AroundChosen(auth, l, req, i);
    }
    SomeRoute(auth, l, req);
  }

  lemma SomeRoute(auth: Authorities, l: LedgerState, req: Request)
    ensures SelectPath(auth, l, req) == Refused(ToldWithoutRoute(auth, req)) || exists route :: Takes(auth, l, req, route)
  {
    if req.candidates == [] {
      assert !(auth.policy.Some? && auth.policy.value.requirePathBinding) ==> Takes(auth, l, req, Direct);
    } else if AnyCarries(auth, l, req) {
      var i := SomeFirstCarrier(auth, l, req);
      assert Takes(auth, l, req, Over(FactAt(auth, req, i).value, req.candidates[i].generation));
    } else if !AnyUnproven(auth, req) && AnyShort(auth, l, req) {
      var i := SomeFirstShort(auth, l, req);
      assert Takes(auth, l, req, Around(FactAt(auth, req, i).value.resources));
    } else {
      OrderCarries(auth, l, req, Judged(auth, l, req, TryOrder(auth, req)));
    }
  }
}
