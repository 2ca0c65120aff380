/** Grants that carry no path although the request names candidates
    (EngineCore::select_path and evaluate, src/engine/admission.cpp). */
module Pathless {
  import opened Base
  import opened Model
  import opened Ledger
  import opened Evaluate
  import opened Selection
  import opened Checks
  import opened Engine
  import opened Hurdles

  lemma ChosenPathNamed(auth: Authorities, l: LedgerState, req: Request)
    requires DistinctCandidates(req.candidates) && req.candidates != [] && SelectPath(auth, l, req).ViaPath?
    ensures SelectPath(auth, l, req).fact.path != 0
  {
    SelectionIsFirstUsable(auth, l, req);
    var order := TryOrder(auth, req);
    var i :| 0 <= i < |order| && FirstToCarry(auth, l, req, order, i, SelectPath(auth, l, req));
    OrderDeclared(auth, req, i);
  }

  lemma OrderDeclared(auth: Authorities, req: Request, i: nat)
    requires i < |TryOrder(auth, req)|
    ensures TryOrder(auth, req)[i] in req.candidates
  {
    if req.requiredPath != 0 {
      NamingDeclared(req.candidates, req.requiredPath);
    }
  }

  lemma {:induction false} NamingDeclared(candidates: seq<Candidate>, path: u64)
    ensures forall i :: 0 <= i < |Naming(candidates, path)| ==> Naming(candidates, path)[i] in candidates
  {
    if candidates != [] && candidates[0].path != path {
      NamingDeclared(candidates[1..], path);
    }
  }

  lemma GrantPath(auth: Authorities, l: LedgerState, tick: u64, pending: bool, req: Request, choice: Choice)
    requires choice == SelectPath(auth, l, req) && EvaluateRequest(auth, l, tick, pending, req).Granted?
    ensures !choice.Refused? && EvaluateRequest(auth, l, tick, pending, req).path == (if choice.ViaPath? then choice.fact.path else 0)
  {}

  lemma CandidatesDecide(auth: Authorities, l: LedgerState, req: Request)
    requires req.candidates != []
    ensures !SelectPath(auth, l, req).NoPath?
  {}

  /** A request with candidates is granted without a path exactly when the
      selection was blocked for want of capacity. */
  lemma PathlessIffBlocked(auth: Authorities, l: LedgerState, tick: u64, pending: bool, req: Request)
    requires ValidRequest(req) && req.candidates != [] && EvaluateRequest(auth, l, tick, pending, req).Granted?
    ensures EvaluateRequest(auth, l, tick, pending, req).path == 0 <==> SelectPath(auth, l, req).CapacityBlocked?
  {
    var choice := SelectPath(auth, l, req);
    GrantPath(auth, l, tick, pending, req, choice);
    CandidatesDecide(auth, l, req);
    if choice.ViaPath? {
      ChosenPathNamed(auth, l, req);
    }
  }

  /** What blocked the selection is an exhausted path. */
  ghost predicate PathWasExhausted(auth: Authorities, l: LedgerState, req: Request) {
    var order := TryOrder(auth, req);
    exists i :: 0 <= i < |order| && FirstShort(auth, l, req, order, i) && Judge(auth, l, req, order[i]).PathExhausted?
  }

  /** Every target has the minimum to spare, and the desired rate too unless the
      request may be degraded. */
  ghost predicate TargetsSuffice(auth: Authorities, l: LedgerState, req: Request, targets: seq<u64>) {
    targets != [] && (forall i :: 0 <= i < |targets| ==> Serves(auth, l, req, targets[i])) &&
    (DegradeAllowed(auth, req) || forall i :: 0 <= i < |targets| ==> Available(auth, l, targets[i]) >= req.rate.desired)
  }

  lemma DesiredReached(auth: Authorities, l: LedgerState, tick: u64, req: Request, targets: seq<u64>)
    requires Coherent(req.rate) && CapacityVerdict(auth, l, tick, req, targets, None).outcome == Admit
    ensures
      var v := CapacityVerdict(auth, l, tick, req, targets, None);
      req.rate.minimum <= v.ceiling <= req.rate.maximum &&
      (v.ceiling >= req.rate.desired <==> forall i :: 0 <= i < |targets| ==> Available(auth, l, targets[i]) >= req.rate.desired)
  {
    var v := CapacityVerdict(auth, l, tick, req, targets, None);
    CapacityVerdictExact(auth, l, tick, req, targets, None);
    if forall i :: 0 <= i < |targets| ==> Available(auth, l, targets[i]) >= req.rate.desired {
      assert WithinLimits(auth, l, req, targets, None, req.rate.desired);
    }
  }

  ghost predicate GrantsWhole(auth: Authorities, req: Request, targets: seq<u64>, v: CapacityResult) {
    targets != [] && v.outcome == Admit && Min(v.ceiling, req.rate.maximum) >= req.rate.minimum &&
    (Min(v.ceiling, req.rate.maximum) < req.rate.desired ==> DegradeAllowed(auth, req))
  }

  lemma GrantedMeans(auth: Authorities, l: LedgerState, tick: u64, req: Request, traversal: seq<u64>, targets: seq<u64>)
    requires targets == Targets(req, traversal)
    ensures EvaluateGrant(auth, l, tick, req, CapacityBlocked(traversal)).Granted? <==>
      GrantsWhole(auth, req, targets, CapacityVerdict(auth, l, tick, req, targets, None))
  {}

  lemma CapacityStage(auth: Authorities, l: LedgerState, tick: u64, req: Request, traversal: seq<u64>, targets: seq<u64>)
    requires Coherent(req.rate) && targets == Targets(req, traversal)
    ensures EvaluateGrant(auth, l, tick, req, CapacityBlocked(traversal)).Granted? <==> TargetsSuffice(auth, l, req, targets)
  {
    GrantedMeans(auth, l, tick, req, traversal, targets);
    var v := CapacityVerdict(auth, l, tick, req, targets, None);
    SufficeIff(auth, l, tick, req, targets, v);
  }

  lemma SufficeIff(auth: Authorities, l: LedgerState, tick: u64, req: Request, targets: seq<u64>, v: CapacityResult)
    requires Coherent(req.rate) && v == CapacityVerdict(auth, l, tick, req, targets, None)
    ensures GrantsWhole(auth, req, targets, v) <==> TargetsSuffice(auth, l, req, targets)
  {
    CapacityVerdictExact(auth, l, tick, req, targets, None);
    if v.outcome == Admit {
      DesiredReached(auth, l, tick, req, targets);
    }
  }

  lemma ExhaustedOrShort(auth: Authorities, l: LedgerState, req: Request)
    requires req.candidates != [] && SelectPath(auth, l, req).CapacityBlocked?
    ensures
      var vs := Judged(auth, l, req, TryOrder(auth, req));
      var k := FirstCapacityFailure(vs);
      k < |vs| && (PathWasExhausted(auth, l, req) <==> vs[k].PathExhausted?)
  {
    var order := TryOrder(auth, req);
    var vs := Judged(auth, l, req, order);
    var k := FirstCapacityFailure(vs);
    assert FirstShort(auth, l, req, order, k);
    forall i | 0 <= i < |order| && FirstShort(auth, l, req, order, i) ensures i == k {
      assert CapacityFailure(vs[i]);
    }
  }

  lemma BlockedEvaluates(auth: Authorities, l: LedgerState, tick: u64, pending: bool, req: Request, choice: Choice)
    requires choice == SelectPath(auth, l, req) && choice.CapacityBlocked?
    ensures EvaluateRequest(auth, l, tick, pending, req).Granted? <==>
      ClearsAll(auth, pending, req) && EvaluateGrant(auth, l, tick, req, choice).Granted?
  {
    PreliminaryExact(auth, pending, req);
    PreliminaryDecides(auth, l, tick, pending, req);
  }

  lemma ShortRefused(auth: Authorities, l: LedgerState, tick: u64, req: Request, targets: seq<u64>)
    requires req.candidates != [] && SelectPath(auth, l, req).CapacityBlocked? && !PathWasExhausted(auth, l, req)
    requires targets == Targets(req, SelectPath(auth, l, req).traversal)
    ensures !TargetsSuffice(auth, l, req, targets)
  {
    ExhaustedOrShort(auth, l, req);
    ShortResourceNeverAdmits(auth, l, tick, req, targets, None);
    CapacityVerdictExact(auth, l, tick, req, targets, None);
  }

  /** A request whose selection was blocked is granted, without a path, exactly
      when what blocked it is an exhausted path and its targets alone suffice. */
  lemma BlockedGrantedIff(auth: Authorities, l: LedgerState, tick: u64, pending: bool, req: Request)
    requires ValidRequest(req) && req.candidates != [] && SelectPath(auth, l, req).CapacityBlocked?
    ensures EvaluateRequest(auth, l, tick, pending, req).Granted? <==>
      ClearsAll(auth, pending, req) && PathWasExhausted(auth, l, req) &&
      TargetsSuffice(auth, l, req, Targets(req, SelectPath(auth, l, req).traversal))
  {
    var choice := SelectPath(auth, l, req);
    var targets := Targets(req, choice.traversal);
    BlockedEvaluates(auth, l, tick, pending, req, choice);
    CapacityStage(auth, l, tick, req, choice.traversal, targets);
    if !PathWasExhausted(auth, l, req) {
      ShortRefused(auth, l, tick, req, targets);
    }
  }
}
