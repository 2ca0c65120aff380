/** How large a grant can get: its targets are the declared bindings and the
    traversal of the chosen path (EngineCore::admit_locked, src/engine/admission.cpp). */
module Sizes {
  import opened Base
  import opened Model
  import opened Snapshots
  import opened Ledger
  import opened Evaluate
  import opened Selection
  import opened Checks
  import opened Engine

  lemma {:induction false} ElementsCount(s: seq<u64>)
    ensures |set r: nat | r in s| <= |s|
  {
    if s != [] {
      var n := |s| - 1;
      ElementsCount(s[..n]);
      var front := set r: nat | r in s[..n];
      assert s == s[..n] + [s[n]];
      assert (set r: nat | r in s) == front + {s[n]};
      UnionCount(front, {s[n]});
    }
  }

  lemma UnionCount(a: set<nat>, b: set<nat>)
    ensures |a + b| <= |a| + |b|
  {}

  function ResourcesOf(bs: seq<Binding>): seq<u64> {
    seq(|bs|, i requires 0 <= i < |bs| => bs[i].resource)
  }

  lemma TargetsCount(req: Request, traversal: seq<u64>)
    ensures |Targets(req, traversal)| <= |req.bindings| + |traversal|
  {
    var bound := ResourcesOf(req.bindings);
    ElementsCount(bound);
    ElementsCount(traversal);
    var a, b := set r: nat | r in bound, set r: nat | r in traversal;
    assert BoundResources(req) == a by {
      forall i | 0 <= i < |bound| ensures bound[i] == req.bindings[i].resource {}
    }
    assert (set r | r in traversal) == b;
    UnionCount(a, b);
    SortedKeysCount(a + b);
  }

  lemma FactBound(auth: Authorities, path: u64)
    requires ValidAuthorities(auth) && FindPath(auth, path).Some?
    ensures |FindPath(auth, path).value.resources| <= MAX_PATH_RESOURCES
  {
    var f := FindPath(auth, path).value;
    var i :| 0 <= i < |auth.paths.value.paths| && auth.paths.value.paths[i] == f;
    assert PathFactOk(auth.paths.value.paths[i]);
  }

  lemma JudgeBound(auth: Authorities, l: LedgerState, req: Request, c: Candidate)
    requires ValidAuthorities(auth)
    ensures
      var v := Judge(auth, l, req, c);
      (v.Usable? ==> |v.fact.resources| <= MAX_PATH_RESOURCES) && (CapacityFailure(v) ==> |v.resources| <= MAX_PATH_RESOURCES)
  {
    if FindPath(auth, c.path).Some? {
      FactBound(auth, c.path);
    }
  }

  lemma TraversalBound(auth: Authorities, l: LedgerState, req: Request)
    requires ValidAuthorities(auth)
    ensures
      var c := SelectPath(auth, l, req);
      (c.ViaPath? ==> |c.fact.resources| <= MAX_PATH_RESOURCES) && (c.CapacityBlocked? ==> |c.traversal| <= MAX_PATH_RESOURCES)
  {
    var order := TryOrder(auth, req);
    var vs := Judged(auth, l, req, order);
    forall i | 0 <= i < |order|
      ensures (vs[i].Usable? ==> |vs[i].fact.resources| <= MAX_PATH_RESOURCES) && (CapacityFailure(vs[i]) ==> |vs[i].resources| <= MAX_PATH_RESOURCES)
    {
      JudgeBound(auth, l, req, order[i]);
    }
  }

  function Crossed(choice: Choice): seq<u64>
    requires !choice.Refused?
  {
    match choice
    case NoPath => []
    case ViaPath(fact, _) => fact.resources
    case CapacityBlocked(resources) => resources
  }

  lemma GrantTargets(auth: Authorities, l: LedgerState, tick: u64, req: Request, choice: Choice)
    requires !choice.Refused?
    ensures
      var e := EvaluateGrant(auth, l, tick, req, choice);
      e.Granted? ==> e.targets == Targets(req, Crossed(choice))
  {}

  /** A grant covers at most 512 resources more than the request declares, so a
      request declaring at most 512 yields an intent recovery can read back. */
  lemma GrantBound(auth: Authorities, l: LedgerState, tick: u64, pendingReconciliation: bool, req: Request)
    requires ValidAuthorities(auth)
    ensures
      var e := EvaluateRequest(auth, l, tick, pendingReconciliation, req);
      e.Granted? ==> |e.targets| <= |req.bindings| + MAX_PATH_RESOURCES
  {
    var choice := SelectPath(auth, l, req);
    if !choice.Refused? {
      TraversalBound(auth, l, req);
      GrantTargets(auth, l, tick, req, choice);
      TargetsCount(req, Crossed(choice));
    }
  }
}
