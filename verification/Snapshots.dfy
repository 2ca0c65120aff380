/** Validation and lookup of published snapshots (src/model/state.cpp, the
    lookups of src/engine/engine.cpp). */
module Snapshots {
  import opened Base
  import opened Model
  import Checked

  // ------------------------------------------------------------------
  // Keyed lookup in an ordered list
  // ------------------------------------------------------------------

  ghost predicate OrderedBy<T>(items: seq<T>, key: T -> u64) {
    forall i, j :: 0 <= i < j < |items| ==> key(items[i]) < key(items[j])
  }

  /** The first item carrying the key, by linear scan. */
  function Lookup<T>(items: seq<T>, key: T -> u64, k: u64): (r: Option<T>)
    ensures r.Some? ==> r.value in items && key(r.value) == k
    ensures r.None? ==> forall x :: x in items ==> key(x) != k
  {
    if items == [] then None
    else if key(items[0]) == k then Some(items[0])
    else Lookup(items[1..], key, k)
  }

  lemma LookupUnique<T>(items: seq<T>, key: T -> u64, k: u64, i: nat)
    requires OrderedBy(items, key) && i < |items| && key(items[i]) == k
    ensures Lookup(items, key, k) == Some(items[i])
  {
    var r := Lookup(items, key, k);
    assert items[i] in items;
    var j :| 0 <= j < |items| && items[j] == r.value;
  }

  /** Binary search agrees with the linear scan on every ordered list. */
  method FindBy<T>(items: seq<T>, key: T -> u64, k: u64) returns (r: Option<T>)
    requires OrderedBy(items, key)
    ensures r == Lookup(items, key, k)
  {
    var first, count := 0, |items|;
    while count > 0
      invariant 0 <= first <= first + count <= |items|
      invariant forall i :: 0 <= i < first ==> key(items[i]) < k
      invariant forall i :: first + count <= i < |items| ==> k <= key(items[i])
    {
      var step := count / 2;
      if key(items[first + step]) < k {
        first, count := first + step + 1, count - step - 1;
      } else {
        count := step;
      }
    }
    if first == |items| || key(items[first]) != k {
      return None;
    }
    LookupUnique(items, key, k, first);
    return Some(items[first]);
  }

  function ResourceOf(c: ResourceCapacity): u64 { c.resource }
  function PathOf(p: PathFact): u64 { p.path }
  function QosOf(q: QosFact): u64 { q.qos }
  function PriorityOf(p: PriorityFact): u64 { p.priority }

  // ------------------------------------------------------------------
  // Capacity snapshots
  // ------------------------------------------------------------------

  predicate CapacityEntryOk(c: ResourceCapacity) {
    c.resource != 0 && WellFormedGeneration(c.generation) &&
    (c.evidence == EvidenceUnknown ==> c.usable == 0 && c.mandatoryHeadroom == 0) &&
    c.mandatoryHeadroom <= c.usable
  }

  ghost predicate ValidCapacity(s: CapacitySnapshot) {
    s.snapshot != 0 && WellFormedGeneration(s.generation) && s.epoch != 0 &&
    |s.resources| <= MAX_RESOURCES &&
    OrderedBy(s.resources, ResourceOf) &&
    forall i :: 0 <= i < |s.resources| ==> CapacityEntryOk(s.resources[i])
  }

  /** A capacity snapshot becomes authority exactly when it is well formed,
      strictly ordered, and carries numbers only where it has evidence. */
  method ValidateCapacity(s: CapacitySnapshot) returns (st: Status)
    ensures st == Ok <==> ValidCapacity(s)
  {
    if s.snapshot == 0 { return MalformedInput; }
    if !WellFormedGeneration(s.generation) { return MalformedInput; }
    if s.epoch == 0 { return MalformedInput; }
    if |s.resources| > MAX_RESOURCES { return OversizedInput; }
    var previous, first := 0, true;
    for i := 0 to |s.resources|
      invariant first <==> i == 0
      invariant i > 0 ==> previous == s.resources[i - 1].resource
      invariant OrderedBy(s.resources[..i], ResourceOf)
      invariant forall j :: 0 <= j < i ==> CapacityEntryOk(s.resources[j])
    {
      var entry := s.resources[i];
      if entry.resource == 0 { return MalformedInput; }
      if !first && entry.resource <= previous {
        assert ResourceOf(s.resources[i - 1]) >= ResourceOf(s.resources[i]);
        return MalformedInput;
      }
      previous, first := entry.resource, false;
      if !WellFormedGeneration(entry.generation) { return MalformedInput; }
      if entry.evidence == EvidenceUnknown {
        if entry.usable != 0 || entry.mandatoryHeadroom != 0 { return MalformedInput; }
      } else if entry.mandatoryHeadroom > entry.usable {
        return CapacityViolation;
      }
    }
    assert s.resources[..|s.resources|] == s.resources;
    return Ok;
  }

  // ------------------------------------------------------------------
  // Reservation snapshots
  // ------------------------------------------------------------------

  /** Everything reserved on a resource, without saturation. */
  function ObligationSum(obligations: seq<Obligation>, resource: u64): nat {
    if obligations == [] then 0
    else
      var last := obligations[|obligations| - 1];
      ObligationSum(obligations[..|obligations| - 1], resource)
        + (if last.resource == resource then last.reserved else 0)
  }

  predicate ObligationOk(o: Obligation) {
    o.reservation != 0 && o.resource != 0 && WellFormedGeneration(o.reservationGeneration)
  }

  predicate ObligationBefore(a: Obligation, b: Obligation) {
    a.resource < b.resource || (a.resource == b.resource && a.reservation < b.reservation)
  }

  ghost predicate ObligationsOrdered(s: seq<Obligation>) {
    forall i, j :: 0 <= i < j < |s| ==> ObligationBefore(s[i], s[j])
  }

  ghost predicate ObligationsFit(s: seq<Obligation>) {
    forall resource: u64 :: ObligationSum(s, resource) <= MAX64
  }

  ghost predicate ValidReservations(s: ReservationSnapshot) {
    s.snapshot != 0 && WellFormedGeneration(s.generation) && s.epoch != 0 &&
    |s.obligations| <= MAX_OBLIGATIONS &&
    (forall i :: 0 <= i < |s.obligations| ==> ObligationOk(s.obligations[i])) &&
    ObligationsOrdered(s.obligations) &&
    ObligationsFit(s.obligations)
  }

  lemma {:induction false} ObligationSumPrefix(s: seq<Obligation>, n: nat, resource: u64)
    requires n <= |s|
    ensures ObligationSum(s[..n], resource) <= ObligationSum(s, resource)
  {
    if n < |s| {
      ObligationSumPrefix(s[..|s| - 1], n, resource);
      assert s[..|s| - 1][..n] == s[..n];
    } else {
      assert s[..n] == s;
    }
  }

  lemma ObligationSumSnoc(s: seq<Obligation>, n: nat, resource: u64)
    requires n < |s|
    ensures ObligationSum(s[..n + 1], resource)
         == ObligationSum(s[..n], resource) + (if s[n].resource == resource then s[n].reserved else 0)
  {
    assert s[..n + 1][..n] == s[..n];
  }

  /** A reservation snapshot becomes authority exactly when it is strictly
      ordered by (resource, reservation) and no resource's obligations overflow. */
  method ValidateReservations(s: ReservationSnapshot) returns (st: Status)
    ensures st == Ok <==> ValidReservations(s)
  {
    if s.snapshot == 0 { return MalformedInput; }
    if !WellFormedGeneration(s.generation) { return MalformedInput; }
    if s.epoch == 0 { return MalformedInput; }
    if |s.obligations| > MAX_OBLIGATIONS { return OversizedInput; }
    var obs := s.obligations;
    var previousResource, previousReservation, first := 0, 0, true;
    var latches: map<u64, u64> := map[];
    for i := 0 to |obs|
      invariant first <==> i == 0
      invariant i > 0 ==> previousResource == obs[i - 1].resource && previousReservation == obs[i - 1].reservation
      invariant forall j :: 0 <= j < i ==> ObligationOk(obs[j])
      invariant ObligationsOrdered(obs[..i])
      invariant forall r: u64 :: ObligationSum(obs[..i], r) == if r in latches then latches[r] else 0
    {
      var o := obs[i];
      if o.reservation == 0 { return MalformedInput; }
      if o.resource == 0 { return MalformedInput; }
      if !WellFormedGeneration(o.reservationGeneration) { return MalformedInput; }
      if !first {
        if o.resource < previousResource {
          assert !ObligationBefore(obs[i - 1], obs[i]);
          return MalformedInput;
        }
        if o.resource == previousResource && o.reservation <= previousReservation {
          assert !ObligationBefore(obs[i - 1], obs[i]);
          return MalformedInput;
        }
      }
      previousResource, previousReservation, first := o.resource, o.reservation, false;
      var total := if o.resource in latches then latches[o.resource] else 0;
      forall r: u64
        ensures ObligationSum(obs[..i + 1], r)
             == ObligationSum(obs[..i], r) + (if obs[i].resource == r then obs[i].reserved else 0)
      {
        ObligationSumSnoc(obs, i, r);
      }
      if total > MAX64 - o.reserved {
        ObligationSumPrefix(obs, i + 1, o.resource);
        return ArithmeticOverflow;
      }
      latches := latches[o.resource := total + o.reserved];
      OrderedSnoc(obs, i);
    }
    assert obs[..|obs|] == obs;
    return Ok;
  }

  lemma OrderedSnoc(s: seq<Obligation>, n: nat)
    requires n < |s| && ObligationsOrdered(s[..n])
    requires n > 0 ==> ObligationBefore(s[n - 1], s[n])
    ensures ObligationsOrdered(s[..n + 1])
  {
    var t := s[..n + 1];
    forall i, j | 0 <= i < j < |t|
      ensures ObligationBefore(t[i], t[j])
    {
      if j < n {
        assert ObligationBefore(s[..n][i], s[..n][j]);
      } else if i < n - 1 {
        assert ObligationBefore(s[..n][i], s[..n][n - 1]);
      }
    }
  }

  // ------------------------------------------------------------------
  // Path catalogs
  // ------------------------------------------------------------------

  predicate ResourceKey(r: u64) {
    r != 0
  }

  function Same(r: u64): u64 { r }

  ghost predicate TraversalOk(resources: seq<u64>) {
    |resources| <= MAX_PATH_RESOURCES && OrderedBy(resources, Same) &&
    forall i :: 0 <= i < |resources| ==> ResourceKey(resources[i])
  }

  ghost predicate PathFactOk(f: PathFact) {
    f.path != 0 && WellFormedGeneration(f.generation) && TraversalOk(f.resources)
  }

  ghost predicate ValidPaths(c: PathCatalog) {
    WellFormedGeneration(c.generation) && c.epoch != 0 && |c.paths| <= MAX_PATHS &&
    OrderedBy(c.paths, PathOf) &&
    forall i :: 0 <= i < |c.paths| ==> PathFactOk(c.paths[i])
  }

  method ValidateTraversal(resources: seq<u64>) returns (st: Status)
    ensures st == Ok <==> TraversalOk(resources)
  {
    if |resources| > MAX_PATH_RESOURCES { return OversizedInput; }
    var previous, first := 0, true;
    for i := 0 to |resources|
      invariant first <==> i == 0
      invariant i > 0 ==> previous == resources[i - 1]
      invariant OrderedBy(resources[..i], Same)
      invariant forall j :: 0 <= j < i ==> ResourceKey(resources[j])
    {
      if !ResourceKey(resources[i]) { return MalformedInput; }
      if !first && resources[i] <= previous {
        assert Same(resources[i - 1]) >= Same(resources[i]);
        return MalformedInput;
      }
      previous, first := resources[i], false;
    }
    assert resources[..|resources|] == resources;
    return Ok;
  }

  /** A path catalog becomes authority exactly when its paths and every
      traversal set are strictly ordered. */
  method ValidatePaths(c: PathCatalog) returns (st: Status)
    ensures st == Ok <==> ValidPaths(c)
  {
    if !WellFormedGeneration(c.generation) { return MalformedInput; }
    if c.epoch == 0 { return MalformedInput; }
    if |c.paths| > MAX_PATHS { return OversizedInput; }
    var previous, first := 0, true;
    for i := 0 to |c.paths|
      invariant first <==> i == 0
      invariant i > 0 ==> previous == c.paths[i - 1].path
      invariant OrderedBy(c.paths[..i], PathOf)
      invariant forall j :: 0 <= j < i ==> PathFactOk(c.paths[j])
    {
      var fact := c.paths[i];
      if fact.path == 0 { return MalformedInput; }
      if !first && fact.path <= previous {
        assert PathOf(c.paths[i - 1]) >= PathOf(c.paths[i]);
        return MalformedInput;
      }
      previous, first := fact.path, false;
      if !WellFormedGeneration(fact.generation) { return MalformedInput; }
      var traversal := ValidateTraversal(fact.resources);
      if traversal != Ok { return traversal; }
    }
    assert c.paths[..|c.paths|] == c.paths;
    return Ok;
  }

  // ------------------------------------------------------------------
  // Obligation index
  // ------------------------------------------------------------------

  /** Positions in the obligation list that name the resource, in order. */
  function Positions(obligations: seq<Obligation>, resource: u64): seq<nat> {
    if obligations == [] then []
    else
      var n := |obligations| - 1;
      Positions(obligations[..n], resource) + (if obligations[n].resource == resource then [n] else [])
  }

  /** Derived from the current obligations so that an admission does not rescan
      them. */
  datatype ObligationIndex = ObligationIndex(totals: map<u64, u64>, indices: map<u64, seq<nat>>)

  const EMPTY_INDEX := ObligationIndex(map[], map[])

  function Bucket(indices: map<u64, seq<nat>>, r: u64): seq<nat> {
    if r in indices then indices[r] else []
  }

  ghost predicate IndexesObligations(obligations: seq<Obligation>, index: ObligationIndex) {
    (forall r: u64 :: AtKey(index.totals, r) == Min(ObligationSum(obligations, r), MAX64)) &&
    (forall r: u64 :: Bucket(index.indices, r) == Positions(obligations, r))
  }

  /** The saturating per-resource totals and the position buckets describe the
      obligation list they were built from. */
  method RebuildObligationIndex(obligations: seq<Obligation>) returns (index: ObligationIndex)
    ensures IndexesObligations(obligations, index)
  {
    index := EMPTY_INDEX;
    for i := 0 to |obligations|
      invariant IndexesObligations(obligations[..i], index)
    {
      IndexStep(obligations, i, index);
      index := IndexNext(index, obligations[i], i);
    }
    assert obligations[..|obligations|] == obligations;
  }

  function IndexNext(index: ObligationIndex, o: Obligation, i: nat): ObligationIndex {
    ObligationIndex(index.totals[o.resource := Checked.SatAdd(AtKey(index.totals, o.resource), o.reserved)],
                    index.indices[o.resource := Bucket(index.indices, o.resource) + [i]])
  }

  lemma IndexStep(obligations: seq<Obligation>, i: nat, index: ObligationIndex)
    requires i < |obligations| && IndexesObligations(obligations[..i], index)
    ensures IndexesObligations(obligations[..i + 1], IndexNext(index, obligations[i], i))
  {
    var next := IndexNext(index, obligations[i], i);
    assert obligations[..i + 1][..i] == obligations[..i];
    forall r: u64
      ensures AtKey(next.totals, r) == Min(ObligationSum(obligations[..i + 1], r), MAX64)
      ensures Bucket(next.indices, r) == Positions(obligations[..i + 1], r)
    {
      ObligationSumSnoc(obligations, i, r);
      assert AtKey(index.totals, r) == Min(ObligationSum(obligations[..i], r), MAX64);
      assert Bucket(index.indices, r) == Positions(obligations[..i], r);
    }
  }

  predicate ReleasesWithin(o: Obligation, resource: u64, tick: u64, horizon: u64) {
    o.resource == resource && !o.inviolable && tick < o.releaseTick <= horizon
  }

  lemma {:induction false} PositionsExact(obligations: seq<Obligation>, resource: u64)
    ensures forall p :: p in Positions(obligations, resource)
              <==> 0 <= p < |obligations| && obligations[p].resource == resource
  {
    if obligations != [] {
      PositionsExact(obligations[..|obligations| - 1], resource);
    }
  }

  /** Walking one bucket answers the question for the whole list. */
  method ObligationReleasesWithin(obligations: seq<Obligation>, index: ObligationIndex, resource: u64, tick: u64, horizon: u64)
    returns (found: bool)
    requires IndexesObligations(obligations, index)
    ensures found <==> exists i :: 0 <= i < |obligations| && ReleasesWithin(obligations[i], resource, tick, horizon)
  {
    PositionsExact(obligations, resource);
    assert Bucket(index.indices, resource) == Positions(obligations, resource);
    if resource !in index.indices {
      return false;
    }
    var bucket := index.indices[resource];
    for n := 0 to |bucket|
      invariant forall k :: 0 <= k < n ==> bucket[k] < |obligations| && !ReleasesWithin(obligations[bucket[k]], resource, tick, horizon)
    {
      assert bucket[n] in bucket;
      var o := obligations[bucket[n]];
      if !o.inviolable && o.releaseTick > tick && o.releaseTick <= horizon {
        return true;
      }
    }
    return false;
  }

  /** For a validated snapshot the indexed total is the exact sum. */
  lemma IndexedTotalExact(s: ReservationSnapshot, index: ObligationIndex, resource: u64)
    requires ValidReservations(s) && IndexesObligations(s.obligations, index)
    ensures AtKey(index.totals, resource) == ObligationSum(s.obligations, resource)
  {
    assert AtKey(index.totals, resource) == Min(ObligationSum(s.obligations, resource), MAX64);
  }
}
