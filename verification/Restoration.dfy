/** The ledger recovery rebuilds from live grants. */
module Restoration {
  import opened Base
  import opened Model
  import opened Ledger
  import opened Enforcement
  import opened Recovery

  /** What the grants hold, as ledger entries. */
  function TableOf(grants: map<nat, PrepareRecord>): Table {
    map d | d in grants :: EntriesFor(HoldFrom(grants[d]))
  }

  ghost predicate OwnIds(grants: map<nat, PrepareRecord>) {
    forall d :: d in grants ==> grants[d].decision == d
  }

  /** A table some ledger could hold: well-formed entries whose sums fit. */
  ghost predicate Holdable(m: Table) {
    (forall d :: d in m ==> EntriesOk(d, m[d])) &&
    SumOver(m, Size()) <= MAX_LEDGER_ENTRIES &&
    forall r: u64 :: LoadOn(m, r) <= MAX64
  }

  ghost predicate PathsFit(m: Table) {
    forall p: u64 :: p != 0 ==> LoadOnPath(m, p) <= MAX64
  }

  ghost predicate PathsExact(l: LedgerState) {
    forall p: u64 :: p != 0 ==> AtKey(l.pathTotals, p) == LoadOnPath(l.byDecision, p)
  }

  /** The grants listed by keys, in increasing order. */
  ghost predicate Lists(keys: seq<nat>, grants: map<nat, PrepareRecord>) {
    Increasing(keys) && forall i :: 0 <= i < |keys| ==> keys[i] in grants
  }

  /** The ledger after the first n grants. */
  ghost predicate RestoredUpTo(l: LedgerState, whole: Table, keys: seq<nat>, n: nat) {
    n <= |keys| && Increasing(keys) && Conserved(l) && PathsExact(l) && l.byDecision.Keys <= whole.Keys &&
    l.byDecision == Only(whole, l.byDecision.Keys) &&
    forall i :: 0 <= i < |keys| ==> (keys[i] in l.byDecision <==> i < n)
  }

  lemma GrowsWithin(m: Table, part: Table, d: nat, f: seq<LedgerEntry> -> nat)
    requires d in m && d !in part && part.Keys <= m.Keys && part == Only(m, part.Keys)
    ensures SumOver(part, f) + f(m[d]) <= SumOver(m, f)
  {
    SumInsert(part, f, d, m[d]);
    assert part[d := m[d]] == Only(m, part.Keys + {d});
    SumSubset(m, part.Keys + {d}, f);
  }

  lemma AmountsFit(l: LedgerState, whole: Table, p: PrepareRecord)
    requires Holdable(whole) && Conserved(l) && l.byDecision.Keys <= whole.Keys && l.byDecision == Only(whole, l.byDecision.Keys)
    requires p.decision in whole && p.decision !in l.byDecision && whole[p.decision] == EntriesFor(HoldFrom(p))
    ensures DistinctAmounts(p.amounts) && ReserveCheck(l, HoldFrom(p)) == Ok
  {
    var h := HoldFrom(p);
    var entries := EntriesFor(h);
    assert EntriesOk(p.decision, entries);
    forall i, j | 0 <= i < j < |p.amounts| ensures p.amounts[i].resource != p.amounts[j].resource {
      assert entries[i].resource != entries[j].resource;
    }
    GrowsWithin(whole, l.byDecision, p.decision, Size());
    forall i | 0 <= i < |p.amounts| ensures p.amounts[i].resource != 0 && !Overflows(l.totals, p.amounts[i]) {
      var r := p.amounts[i].resource;
      assert entries[i].resource == r;
      SumOnPresent(entries, i);
      GrowsWithin(whole, l.byDecision, p.decision, OnResource(r));
      assert LoadOn(whole, r) <= MAX64;
      assert Admitted(l, r) == LoadOn(l.byDecision, r);
    }
  }

  lemma PathFits(l: LedgerState, whole: Table, p: PrepareRecord)
    requires PathsFit(whole) && PathsExact(l) && l.byDecision.Keys <= whole.Keys && l.byDecision == Only(whole, l.byDecision.Keys)
    requires p.decision in whole && p.decision !in l.byDecision && whole[p.decision] == EntriesFor(HoldFrom(p)) && p.amounts != []
    ensures !PathOverflows(l, HoldFrom(p))
  {
    if p.path != 0 {
      GrowsWithin(whole, l.byDecision, p.decision, OnPath(p.path));
      assert LoadOnPath(whole, p.path) <= MAX64;
      assert whole[p.decision][0] == EntryFor(HoldFrom(p), p.amounts[0]);
    }
  }

  lemma ReservedPathsExact(l: LedgerState, h: Hold)
    requires PathsExact(l) && Reserved(l, h).0 == Ok
    ensures PathsExact(Reserved(l, h).1)
  {
    var l' := Reserved(l, h).1;
    var entries := EntriesFor(h);
    forall p: u64 | p != 0 ensures AtKey(l'.pathTotals, p) == LoadOnPath(l'.byDecision, p) {
      SumInsert(l.byDecision, OnPath(p), h.decision, entries);
      assert AtKey(l.pathTotals, p) == LoadOnPath(l.byDecision, p);
      assert OnPath(p)(entries) == if h.path == p then h.amounts[0].rate else 0;
    }
  }

  ghost predicate Restorable(grants: map<nat, PrepareRecord>, whole: Table, keys: seq<nat>) {
    whole == TableOf(grants) && OwnIds(grants) && Holdable(whole) && Lists(keys, grants)
  }

  lemma RestoredGrows(l: LedgerState, whole: Table, keys: seq<nat>, n: nat, p: PrepareRecord)
    requires 0 < n <= |keys| && RestoredUpTo(l, whole, keys, n - 1) && p.decision == keys[n - 1] && DistinctAmounts(p.amounts)
    requires p.decision in whole && whole[p.decision] == EntriesFor(HoldFrom(p)) && Reserved(l, HoldFrom(p)).0 == Ok
    ensures RestoredUpTo(Reserved(l, HoldFrom(p)).1, whole, keys, n)
  {
    var h := HoldFrom(p);
    var l' := Reserved(l, h).1;
    ReserveConserves(l, h);
    ReservedPathsExact(l, h);
    assert l'.byDecision == Only(whole, l'.byDecision.Keys);
  }

  lemma RestoreStep(l: LedgerState, grants: map<nat, PrepareRecord>, whole: Table, keys: seq<nat>, n: nat)
    requires 0 < n <= |keys| && Restorable(grants, whole, keys) && RestoredUpTo(l, whole, keys, n - 1)
    ensures
      var (st, l') := Reserved(l, HoldFrom(grants[keys[n - 1]]));
      (PathsFit(whole) ==> st == Ok) && (st == Ok ==> RestoredUpTo(l', whole, keys, n))
  {
    var p := grants[keys[n - 1]];
    AmountsFit(l, whole, p);
    if PathsFit(whole) {
      PathFits(l, whole, p);
    }
    if Reserved(l, HoldFrom(p)).0 == Ok {
      RestoredGrows(l, whole, keys, n, p);
    }
  }

  ghost predicate Progress(whole: Table, keys: seq<nat>, n: nat, st: Status, l: LedgerState) {
    (PathsFit(whole) ==> st == Ok) && (st == Ok ==> RestoredUpTo(l, whole, keys, n))
  }

  lemma RestoreNext(st: Status, l: LedgerState, grants: map<nat, PrepareRecord>, whole: Table, keys: seq<nat>, n: nat, st': Status, l': LedgerState)
    requires Restorable(grants, whole, keys) && 0 < n <= |keys| && Progress(whole, keys, n - 1, st, l)
    requires (st', l') == RestoreOne(st, l, grants[keys[n - 1]])
    ensures Progress(whole, keys, n, st', l')
  {
    if st == Ok {
      RestoreStep(l, grants, whole, keys, n);
    }
  }

  lemma {:induction false} RestoreFirstExact(grants: map<nat, PrepareRecord>, whole: Table, keys: seq<nat>, n: nat, st: Status, l: LedgerState)
    requires Restorable(grants, whole, keys) && n <= |keys| && (st, l) == RestoreFirst(grants, keys, n)
    ensures Progress(whole, keys, n, st, l)
  {
    if n == 0 {
      EmptyRestores(whole, keys);
    } else {
      var (st0, l0) := RestoreFirst(grants, keys, n - 1);
      RestoreFirstExact(grants, whole, keys, n - 1, st0, l0);
      RestoreNext(st0, l0, grants, whole, keys, n, st, l);
    }
  }

  /** The ledger holds exactly the given grants, all awaiting revalidation. */
  ghost predicate HoldsAnew(l: LedgerState, whole: Table) {
    Conserved(l) && SameGrants(whole, l.byDecision) &&
    (forall r: u64 :: Admitted(l, r) == LoadOn(whole, r)) &&
    (forall d, i :: d in l.byDecision && 0 <= i < |l.byDecision[d]| ==> l.byDecision[d][i].requiresRevalidation)
  }

  /** Rebuilding the ledger succeeds exactly when every path's sum fits 64 bits,
      and then holds exactly the grants. */
  lemma RestoreExact(grants: map<nat, PrepareRecord>)
    requires OwnIds(grants) && Holdable(TableOf(grants))
    ensures
      var (st, l) := RestoredLedger(grants);
      (st == Ok <==> PathsFit(TableOf(grants))) && (st == Ok ==> HoldsAnew(l, TableOf(grants)))
  {
    var whole := TableOf(grants);
    var keys := SortedKeys(grants.Keys);
    assert forall i :: 0 <= i < |keys| ==> keys[i] in keys;
    var (st, l) := RestoreFirst(grants, keys, |keys|);
    RestoreFirstExact(grants, whole, keys, |keys|, st, l);
    if st == Ok {
      RestoredWhole(l, whole, keys);
      FlaggedAnew(l);
    }
  }

  lemma FlaggedAnew(l: LedgerState)
    requires Conserved(l)
    ensures HoldsAnew(Flagged(l, true), l.byDecision)
  {
    FlagsConserve(l, true);
    FlagsSameGrants(l, true);
    forall r: u64 ensures Admitted(Flagged(l, true), r) == LoadOn(l.byDecision, r) {
      assert Admitted(l, r) == LoadOn(l.byDecision, r);
    }
  }

  lemma EmptyRestores(whole: Table, keys: seq<nat>)
    requires Increasing(keys)
    ensures RestoredUpTo(EMPTY_LEDGER, whole, keys, 0)
  {
    assert EMPTY_LEDGER.byDecision == Only(whole, {});
  }

  lemma RestoredWhole(l: LedgerState, whole: Table, keys: seq<nat>)
    requires RestoredUpTo(l, whole, keys, |keys|) && forall d :: d in whole ==> d in keys
    ensures l.byDecision == whole && PathsFit(whole)
  {
    assert l.byDecision == whole;
  }

  // ------------------------------------------------------------------
  // Grants that differ only in flags weigh the same
  // ------------------------------------------------------------------

  lemma SumOnSame(a: seq<LedgerEntry>, b: seq<LedgerEntry>, r: u64)
    requires WithFlags(a, false) == WithFlags(b, false)
    ensures SumOn(a, r) == SumOn(b, r)
  {
    SumOnFlags(a, false, r);
    SumOnFlags(b, false, r);
  }

  lemma SameEntry(a: seq<LedgerEntry>, b: seq<LedgerEntry>, i: nat)
    requires WithFlags(a, false) == WithFlags(b, false) && i < |a|
    ensures i < |b| && b[i] == a[i].(requiresRevalidation := b[i].requiresRevalidation)
  {
    assert i < |WithFlags(b, false)|;
    assert WithFlags(a, false)[i] == WithFlags(b, false)[i];
  }

  lemma SameGrantsLoad(a: Table, b: Table, r: u64)
    requires SameGrants(a, b)
    ensures LoadOn(a, r) == LoadOn(b, r)
  {
    forall d | d in a ensures OnResource(r)(a[d]) == OnResource(r)(b[d]) {
      SumOnSame(a[d], b[d], r);
    }
    SumOverSame(a, b, OnResource(r));
  }

  lemma SameGrantsPath(a: Table, b: Table, p: u64)
    requires SameGrants(a, b)
    ensures LoadOnPath(a, p) == LoadOnPath(b, p)
  {
    forall d | d in a ensures OnPath(p)(a[d]) == OnPath(p)(b[d]) {
      assert |WithFlags(a[d], false)| == |WithFlags(b[d], false)|;
      if a[d] != [] {
        SameEntry(a[d], b[d], 0);
      }
    }
    SumOverSame(a, b, OnPath(p));
  }

  lemma SameGrantsOk(d: nat, a: seq<LedgerEntry>, b: seq<LedgerEntry>)
    requires WithFlags(a, false) == WithFlags(b, false) && EntriesOk(d, b)
    ensures EntriesOk(d, a)
  {
    assert |WithFlags(a, false)| == |WithFlags(b, false)|;
    forall i | 0 <= i < |a| ensures a[i] == b[i].(requiresRevalidation := a[i].requiresRevalidation) {
      SameEntry(b, a, i);
    }
  }

  lemma SameGrantsSize(a: Table, b: Table)
    requires SameGrants(a, b)
    ensures SumOver(a, Size()) == SumOver(b, Size())
  {
    forall d | d in a ensures Size()(a[d]) == Size()(b[d]) {
      assert |WithFlags(a[d], false)| == |WithFlags(b[d], false)|;
    }
    SumOverSame(a, b, Size());
  }

  lemma SameHoldable(a: Table, h: Table)
    requires SameGrants(a, h) && Holdable(h)
    ensures Holdable(a)
    ensures forall r: u64 :: LoadOn(a, r) == LoadOn(h, r)
    ensures PathsFit(a) <==> PathsFit(h)
  {
    forall r: u64 ensures LoadOn(a, r) == LoadOn(h, r) {
      SameGrantsLoad(a, h, r);
    }
    forall p: u64 ensures LoadOnPath(a, p) == LoadOnPath(h, p) {
      SameGrantsPath(a, h, p);
    }
    SameGrantsSize(a, h);
    forall d | d in a ensures EntriesOk(d, a[d]) {
      assert EntriesOk(d, h[d]);
      SameGrantsOk(d, a[d], h[d]);
    }
  }

  /** Whatever a balanced ledger holds can be held again. */
  lemma ConservedHoldable(l: LedgerState)
    requires Conserved(l)
    ensures Holdable(l.byDecision)
  {
    forall r: u64 ensures LoadOn(l.byDecision, r) <= MAX64 {
      assert Admitted(l, r) == LoadOn(l.byDecision, r);
    }
  }

  /** So can any part of it. */
  lemma PartHoldable(m: Table, keep: set<nat>)
    requires Holdable(m) && keep <= m.Keys
    ensures Holdable(Only(m, keep))
  {
    SumSubset(m, keep, Size());
    forall r: u64 ensures LoadOn(Only(m, keep), r) <= MAX64 {
      SumSubset(m, keep, OnResource(r));
      assert LoadOn(m, r) <= MAX64;
    }
  }

  ghost predicate AllPositive(m: Table) {
    forall d, i :: d in m && 0 <= i < |m[d]| ==> m[d][i].amount > 0
  }

  lemma SamePositive(a: Table, h: Table)
    requires SameGrants(a, h) && AllPositive(h)
    ensures AllPositive(a)
  {
    forall d, i | d in a && 0 <= i < |a[d]| ensures a[d][i].amount > 0 {
      SameEntry(a[d], h[d], i);
    }
  }

  lemma AmountsPositive(whole: Table, p: PrepareRecord)
    requires AllPositive(whole) && p.decision in whole && whole[p.decision] == EntriesFor(HoldFrom(p))
    ensures forall i :: 0 <= i < |p.amounts| ==> p.amounts[i].rate > 0
  {
    forall i | 0 <= i < |p.amounts| ensures p.amounts[i].rate > 0 {
      assert whole[p.decision][i].amount > 0;
    }
  }

  lemma RestorePositiveStep(l: LedgerState, whole: Table, keys: seq<nat>, n: nat, p: PrepareRecord)
    requires Holdable(whole) && RestoredUpTo(l, whole, keys, n) && Positive(l) && AllPositive(whole)
    requires p.decision in whole && p.decision !in l.byDecision && whole[p.decision] == EntriesFor(HoldFrom(p))
    ensures Positive(Reserved(l, HoldFrom(p)).1)
  {
    AmountsFit(l, whole, p);
    AmountsPositive(whole, p);
    ReservePositive(l, HoldFrom(p));
  }

  lemma {:induction false} RestoreFirstPositive(grants: map<nat, PrepareRecord>, whole: Table, keys: seq<nat>, n: nat)
    requires Restorable(grants, whole, keys) && n <= |keys| && AllPositive(whole)
    ensures RestoreFirst(grants, keys, n).0 == Ok ==> Positive(RestoreFirst(grants, keys, n).1)
  {
    if n > 0 {
      RestoreFirstPositive(grants, whole, keys, n - 1);
      var (st, l) := RestoreFirst(grants, keys, n - 1);
      RestoreFirstExact(grants, whole, keys, n - 1, st, l);
      if st == Ok {
        RestorePositiveStep(l, whole, keys, n - 1, grants[keys[n - 1]]);
      }
    }
  }

  lemma RestoredPositive(grants: map<nat, PrepareRecord>)
    requires OwnIds(grants) && Holdable(TableOf(grants)) && AllPositive(TableOf(grants)) && RestoredLedger(grants).0 == Ok
    ensures Positive(RestoredLedger(grants).1)
  {
    var keys := SortedKeys(grants.Keys);
    assert forall i :: 0 <= i < |keys| ==> keys[i] in keys;
    RestoreFirstPositive(grants, TableOf(grants), keys, |keys|);
  }
}
