/** Authorized path selection (EngineCore::select_path, src/engine/admission.cpp). */
module Selection {
  import opened Base
  import opened Model
  import opened Checked
  import opened Snapshots
  import opened Ledger
  import opened Evaluate

  datatype CandidateVerdict =
    | Usable(fact: PathFact)
    | EvidenceMissing
    | PathFailure
    | PathExhausted(resources: seq<u64>)
    | ResourceShort(resources: seq<u64>)

  predicate CapacityFailure(v: CandidateVerdict) {
    v.PathExhausted? || v.ResourceShort?
  }

  function Judge(auth: Authorities, l: LedgerState, req: Request, c: Candidate): CandidateVerdict {
    var f := FindPath(auth, c.path);
    if f.None? then PathFailure
    else if f.value.state == PathUnknown then EvidenceMissing
    else if f.value.state != PathUp then PathFailure
    else if exists r :: r in f.value.resources && !Known(auth, r) then EvidenceMissing
    else if f.value.latency > req.maximumLatency then PathFailure
    else if PathFree(l, f.value) < req.rate.minimum then PathExhausted(f.value.resources)
    else if exists r :: r in f.value.resources && Allowance(auth, r) < req.rate.minimum then ResourceShort(f.value.resources)
    else Usable(f.value)
  }

  /** Up, all evidence present, fast enough, and with room on the path and on
      every resource it crosses. */
  ghost predicate CanCarry(auth: Authorities, l: LedgerState, req: Request, f: PathFact) {
    f.state == PathUp && f.latency <= req.maximumLatency && PathFree(l, f) >= req.rate.minimum &&
    forall r :: r in f.resources ==> Known(auth, r) && Allowance(auth, r) >= req.rate.minimum
  }

  lemma JudgeUsable(auth: Authorities, l: LedgerState, req: Request, c: Candidate)
    ensures Judge(auth, l, req, c).Usable? <==>
      FindPath(auth, c.path).Some? && CanCarry(auth, l, req, FindPath(auth, c.path).value)
    ensures Judge(auth, l, req, c).Usable? ==> Judge(auth, l, req, c).fact == FindPath(auth, c.path).value
  {}

  datatype Choice =
    | NoPath
    | ViaPath(fact: PathFact, generation: u64)
    | CapacityBlocked(traversal: seq<u64>)
    | Refused(outcome: Outcome)

  predicate PathRequired(auth: Authorities) {
    auth.policy.Some? && auth.policy.value.requirePathBinding
  }

  /** The first candidate naming the path, if any. */
  function Naming(candidates: seq<Candidate>, path: u64): seq<Candidate> {
    if candidates == [] then []
    else if candidates[0].path == path then [candidates[0]]
    else Naming(candidates[1..], path)
  }

  function TryOrder(auth: Authorities, req: Request): seq<Candidate> {
    if req.requiredPath != 0 then Naming(req.candidates, req.requiredPath)
    else if !(req.allowPathSubstitution && (auth.policy.None? || auth.policy.value.allowPathSubstitution)) then
      if req.candidates == [] then [] else [req.candidates[0]]
    else req.candidates
  }

  function Judged(auth: Authorities, l: LedgerState, req: Request, order: seq<Candidate>): (vs: seq<CandidateVerdict>)
    ensures |vs| == |order| && forall i :: 0 <= i < |vs| ==> vs[i] == Judge(auth, l, req, order[i])
  {
    seq(|order|, i requires 0 <= i < |order| => Judge(auth, l, req, order[i]))
  }

  function FirstUsable(vs: seq<CandidateVerdict>): (n: nat)
    ensures n <= |vs| && (forall i :: 0 <= i < n ==> !vs[i].Usable?) && (n < |vs| ==> vs[n].Usable?)
  {
    if vs == [] || vs[0].Usable? then 0 else 1 + FirstUsable(vs[1..])
  }

  function FirstCapacityFailure(vs: seq<CandidateVerdict>): (n: nat)
    ensures n <= |vs| && (forall i :: 0 <= i < n ==> !CapacityFailure(vs[i])) && (n < |vs| ==> CapacityFailure(vs[n]))
  {
    if vs == [] || CapacityFailure(vs[0]) then 0 else 1 + FirstCapacityFailure(vs[1..])
  }

  /** The first usable candidate wins; failing that, missing evidence outranks
      exhausted capacity, which outranks a path failure. */
  function Rank(order: seq<Candidate>, vs: seq<CandidateVerdict>): Choice
    requires |order| == |vs|
  {
    var u, k := FirstUsable(vs), FirstCapacityFailure(vs);
    if u < |vs| then ViaPath(vs[u].fact, order[u].generation)
    else if EvidenceMissing in vs then Refused(StaleInput)
    else if k < |vs| then CapacityBlocked(vs[k].resources)
    else Refused(RejectPath)
  }

  function SelectPath(auth: Authorities, l: LedgerState, req: Request): Choice {
    if req.candidates == [] then
      if PathRequired(auth) then Refused(RejectPolicy) else NoPath
    else
      var order := TryOrder(auth, req);
      Rank(order, Judged(auth, l, req, order))
  }

  // ------------------------------------------------------------------
  // The loops
  // ------------------------------------------------------------------

  method JudgeCandidate(auth: Authorities, index: ObligationIndex, l: LedgerState, req: Request, c: Candidate) returns (v: CandidateVerdict)
    requires ValidAuthorities(auth) && Describes(auth, index)
    ensures v == Judge(auth, l, req, c)
  {
    if auth.paths.None? { return PathFailure; }
    var fact := FindBy(auth.paths.value.paths, PathOf, c.path);
    if fact.None? { return PathFailure; }
    var f := fact.value;
    if f.state == PathUnknown { return EvidenceMissing; }
    if f.state != PathUp { return PathFailure; }
    var known := AllKnown(auth, f.resources);
    if !known { return EvidenceMissing; }
    if f.latency > req.maximumLatency { return PathFailure; }
    if SatSub(f.usable, AdmittedOnPath(l, f.path)) < req.rate.minimum { return PathExhausted(f.resources); }
    var room := AllRoomy(auth, index, f.resources, req.rate.minimum);
    if !room { return ResourceShort(f.resources); }
    return Usable(f);
  }

  method AllKnown(auth: Authorities, resources: seq<u64>) returns (all: bool)
    requires ValidAuthorities(auth)
    ensures all <==> forall r :: r in resources ==> Known(auth, r)
  {
    for i := 0 to |resources|
      invariant forall j :: 0 <= j < i ==> Known(auth, resources[j])
    {
      var c := LookupCapacity(auth, resources[i]);
      if c.None? || c.value.evidence != EvidenceKnown {
        assert !Known(auth, resources[i]);
        return false;
      }
    }
    return true;
  }

  method AllRoomy(auth: Authorities, index: ObligationIndex, resources: seq<u64>, minimum: u64) returns (all: bool)
    requires ValidAuthorities(auth) && Describes(auth, index)
    requires forall r :: r in resources ==> Known(auth, r)
    ensures all <==> forall r :: r in resources ==> Allowance(auth, r) >= minimum
  {
    for i := 0 to |resources|
      invariant forall j :: 0 <= j < i ==> Allowance(auth, resources[j]) >= minimum
    {
      assert resources[i] in resources;
      var known, usable, afterHeadroom, allowance := ComputeAllowance(auth, index, resources[i]);
      if allowance < minimum {
        assert Allowance(auth, resources[i]) < minimum;
        return false;
      }
    }
    return true;
  }

  /** What the pass over the candidates has seen: the first usable one, whether
      evidence was missing, and the traversal of the first capacity failure. */
  datatype Scan = Scan(winner: Option<nat>, haveUnknown: bool, blocked: Option<seq<u64>>)

  /** The scan of the first i verdicts. */
  ghost predicate Scanned(vs: seq<CandidateVerdict>, i: nat, scan: Scan) {
    i <= |vs| &&
    (match scan.winner
     case None => forall j :: 0 <= j < i ==> !vs[j].Usable?
     case Some(w) => w < |vs| && vs[w].Usable? && forall j :: 0 <= j < w ==> !vs[j].Usable?) &&
    (scan.haveUnknown <==> exists j :: 0 <= j < i && vs[j].EvidenceMissing?) &&
    (match scan.blocked
     case None => forall j :: 0 <= j < i ==> !CapacityFailure(vs[j])
     case Some(resources) =>
       exists k :: 0 <= k < i && CapacityFailure(vs[k]) && vs[k].resources == resources &&
         forall j :: 0 <= j < k ==> !CapacityFailure(vs[j]))
  }

  function ScanNext(scan: Scan, v: CandidateVerdict): Scan
    requires !v.Usable?
  {
    if v.EvidenceMissing? then scan.(haveUnknown := true)
    else if CapacityFailure(v) && scan.blocked.None? then scan.(blocked := Some(v.resources))
    else scan
  }

  lemma ScanStep(vs: seq<CandidateVerdict>, i: nat, scan: Scan)
    requires i < |vs| && scan.winner.None? && Scanned(vs, i, scan) && !vs[i].Usable?
    ensures Scanned(vs, i + 1, ScanNext(scan, vs[i]))
  {
    if scan.blocked.Some? {
      var k :| 0 <= k < i && CapacityFailure(vs[k]) && vs[k].resources == scan.blocked.value &&
         forall j :: 0 <= j < k ==> !CapacityFailure(vs[j]);
    }
  }

  lemma ScanDone(order: seq<Candidate>, vs: seq<CandidateVerdict>, scan: Scan)
    requires |order| == |vs| && Scanned(vs, |vs|, scan)
    ensures Rank(order, vs) ==
      (match scan.winner
       case Some(w) => ViaPath(vs[w].fact, order[w].generation)
       case None =>
         if scan.haveUnknown then Refused(StaleInput)
         else if scan.blocked.Some? then CapacityBlocked(scan.blocked.value)
         else Refused(RejectPath))
  {
    if scan.winner.None? && scan.blocked.Some? {
      var k :| 0 <= k < |vs| && CapacityFailure(vs[k]) && vs[k].resources == scan.blocked.value &&
         forall j :: 0 <= j < k ==> !CapacityFailure(vs[j]);
      assert FirstCapacityFailure(vs) == k;
    }
  }

  lemma WinnerFound(order: seq<Candidate>, vs: seq<CandidateVerdict>, w: nat)
    requires |order| == |vs| && w < |vs| && vs[w].Usable? && forall j :: 0 <= j < w ==> !vs[j].Usable?
    ensures Rank(order, vs) == ViaPath(vs[w].fact, order[w].generation)
  {}

  /** One pass over the candidates in order, remembering the first failure of
      each kind, makes the ranked choice. */
  method ChoosePath(auth: Authorities, index: ObligationIndex, l: LedgerState, req: Request) returns (choice: Choice)
    requires ValidAuthorities(auth) && Describes(auth, index)
    ensures choice == SelectPath(auth, l, req)
  {
    if req.candidates == [] {
      return if PathRequired(auth) then Refused(RejectPolicy) else NoPath;
    }
    var order := TryOrder(auth, req);
    ghost var vs := Judged(auth, l, req, order);
    var scan := Scan(None, false, None);
    for i := 0 to |order|
      invariant scan.winner.None? && Scanned(vs, i, scan)
    {
      var v := JudgeCandidate(auth, index, l, req, order[i]);
      assert v == vs[i];
      if v.Usable? {
        WinnerFound(order, vs, i);
        return ViaPath(v.fact, order[i].generation);
      }
      ScanStep(vs, i, scan);
      scan := ScanNext(scan, v);
    }
    ScanDone(order, vs, scan);
    if scan.haveUnknown { return Refused(StaleInput); }
    if scan.blocked.Some? { return CapacityBlocked(scan.blocked.value); }
    return Refused(RejectPath);
  }

  // ------------------------------------------------------------------
  // What the choice means
  // ------------------------------------------------------------------

  ghost predicate FirstToCarry(auth: Authorities, l: LedgerState, req: Request, order: seq<Candidate>, i: nat, choice: Choice)
    requires i < |order| && choice.ViaPath?
  {
    FindPath(auth, order[i].path) == Some(choice.fact) && CanCarry(auth, l, req, choice.fact) &&
    choice.generation == order[i].generation &&
    forall j :: 0 <= j < i ==> !Judge(auth, l, req, order[j]).Usable?
  }

  /** Candidate i failed for want of capacity and nothing before it did. */
  ghost predicate FirstShort(auth: Authorities, l: LedgerState, req: Request, order: seq<Candidate>, i: nat)
    requires i < |order|
  {
    CapacityFailure(Judge(auth, l, req, order[i])) &&
    forall j :: 0 <= j < i ==> !CapacityFailure(Judge(auth, l, req, order[j]))
  }

  /** A path is chosen exactly when some ordered candidate can carry the demand,
      and it is then the first such candidate. Failing that, missing evidence on
      any candidate outranks a want of capacity on any, and that a path failure
      on all; a want of capacity is reported for the first candidate showing it. */
  lemma SelectionIsFirstUsable(auth: Authorities, l: LedgerState, req: Request)
    requires req.candidates != []
    ensures
      var order := TryOrder(auth, req);
      var choice := SelectPath(auth, l, req);
      var usable := exists i :: 0 <= i < |order| && Judge(auth, l, req, order[i]).Usable?;
      var unknown := exists i :: 0 <= i < |order| && Judge(auth, l, req, order[i]).EvidenceMissing?;
      (choice.ViaPath? <==> usable) &&
      (choice.ViaPath? ==> exists i :: 0 <= i < |order| && FirstToCarry(auth, l, req, order, i, choice)) &&
      (choice == Refused(StaleInput) <==> !usable && unknown) &&
      (choice.CapacityBlocked? <==>
        !usable && !unknown && exists i :: 0 <= i < |order| && CapacityFailure(Judge(auth, l, req, order[i]))) &&
      (choice.CapacityBlocked? ==>
        exists i :: 0 <= i < |order| && FirstShort(auth, l, req, order, i) && choice.traversal == Judge(auth, l, req, order[i]).resources) &&
      (choice == Refused(RejectPath) <==> forall i :: 0 <= i < |order| ==> Judge(auth, l, req, order[i]).PathFailure?)
  {
    var order := TryOrder(auth, req);
    var vs := Judged(auth, l, req, order);
    var u, k := FirstUsable(vs), FirstCapacityFailure(vs);
    if u < |vs| {
      JudgeUsable(auth, l, req, order[u]);
      assert FirstToCarry(auth, l, req, order, u, SelectPath(auth, l, req));
    }
    if k < |vs| {
      assert FirstShort(auth, l, req, order, k);
    }
  }

  /** When what blocked the selection is a short resource, the capacity stage
      over any targets that include the blocking traversal refuses as well. */
  lemma ShortResourceNeverAdmits(auth: Authorities, l: LedgerState, tick: u64, req: Request, targets: seq<u64>, path: Option<PathFact>)
    requires req.candidates != [] && SelectPath(auth, l, req).CapacityBlocked?
    requires
      var vs := Judged(auth, l, req, TryOrder(auth, req));
      vs[FirstCapacityFailure(vs)].ResourceShort?
    requires forall r :: r in SelectPath(auth, l, req).traversal ==> r in targets
    ensures CapacityVerdict(auth, l, tick, req, targets, path).outcome != Admit
  {
    var order := TryOrder(auth, req);
    var vs := Judged(auth, l, req, order);
    var k := FirstCapacityFailure(vs);
    var v := Judge(auth, l, req, order[k]);
    var r :| r in v.resources && Allowance(auth, r) < req.rate.minimum;
    CapacityVerdictExact(auth, l, tick, req, targets, path);
    var i :| 0 <= i < |targets| && targets[i] == r;
    assert !Serves(auth, l, req, targets[i]);
  }
}
