/** Admitted load accounting (src/engine/ledger.cpp). */
module Ledger {
  import opened Base
  import opened Model
  import opened Checked

  datatype LedgerState = LedgerState(
    totals: map<u64, u64>,
    pathTotals: map<u64, u64>,
    byDecision: map<nat, seq<LedgerEntry>>,
    entryCount: nat)

  const EMPTY_LEDGER := LedgerState(map[], map[], map[], 0)

  function Admitted(l: LedgerState, resource: u64): u64 {
    AtKey(l.totals, resource)
  }

  function AdmittedOnPath(l: LedgerState, path: u64): u64 {
    if path == 0 then 0 else AtKey(l.pathTotals, path)
  }

  predicate Holds(l: LedgerState, d: nat) {
    d in l.byDecision
  }

  // ------------------------------------------------------------------
  // The two mutations, as functions
  // ------------------------------------------------------------------

  /** What one admission asks the ledger to hold. */
  datatype Hold = Hold(decision: nat, demand: u64, epoch: u64, boundCapacity: u64, path: u64, amounts: seq<Amount>)

  function EntryFor(h: Hold, a: Amount): LedgerEntry {
    LedgerEntry(h.decision, h.demand, a.resource, a.rate, h.path, h.epoch, h.boundCapacity, false)
  }

  function EntriesFor(h: Hold): (r: seq<LedgerEntry>)
    ensures |r| == |h.amounts|
    ensures forall i :: 0 <= i < |r| ==> r[i] == EntryFor(h, h.amounts[i])
  {
    seq(|h.amounts|, i requires 0 <= i < |h.amounts| => EntryFor(h, h.amounts[i]))
  }

  /** Each addition reads the total left by the previous one. */
  function AddAll(totals: map<u64, u64>, amounts: seq<Amount>): map<u64, u64> {
    if amounts == [] then totals
    else
      var t := AddAll(totals, amounts[..|amounts| - 1]);
      var a := amounts[|amounts| - 1];
      t[a.resource := Wrap(AtKey(t, a.resource) + a.rate)]
  }

  /** Subtract from a total; a total that reaches zero disappears. */
  function Lower(totals: map<u64, u64>, k: u64, amount: u64): map<u64, u64> {
    if k !in totals then totals
    else
      var updated := Wrap(totals[k] - amount);
      if updated == 0 then totals - {k} else totals[k := updated]
  }

  function LowerAll(totals: map<u64, u64>, entries: seq<LedgerEntry>): map<u64, u64> {
    if entries == [] then totals
    else
      var e := entries[|entries| - 1];
      Lower(LowerAll(totals, entries[..|entries| - 1]), e.resource, e.amount)
  }

  function EntrySum(entries: seq<LedgerEntry>): nat {
    if entries == [] then 0
    else EntrySum(entries[..|entries| - 1]) + entries[|entries| - 1].amount
  }

  predicate Overflows(totals: map<u64, u64>, a: Amount) {
    AtKey(totals, a.resource) > MAX64 - a.rate
  }

  function ReserveCheck(l: LedgerState, h: Hold): Status {
    if h.decision == 0 then InvalidArgument
    else if h.decision in l.byDecision then AlreadyExists
    else if h.amounts == [] then InvalidArgument
    else if l.entryCount + |h.amounts| > MAX_LEDGER_ENTRIES then OversizedInput
    else AmountsCheck(l.totals, h.amounts)
  }

  /** The first amount that names no resource or does not fit decides. */
  function AmountsCheck(totals: map<u64, u64>, amounts: seq<Amount>): (r: Status)
    ensures r == Ok <==> forall i :: 0 <= i < |amounts| ==> amounts[i].resource != 0 && !Overflows(totals, amounts[i])
  {
    if amounts == [] then Ok
    else
      var front := AmountsCheck(totals, amounts[..|amounts| - 1]);
      var a := amounts[|amounts| - 1];
      if front != Ok then front
      else if a.resource == 0 then InvalidArgument
      else if Overflows(totals, a) then ArithmeticOverflow
      else Ok
  }

  predicate PathOverflows(l: LedgerState, h: Hold)
    requires h.amounts != []
  {
    h.path != 0 && AtKey(l.pathTotals, h.path) > MAX64 - h.amounts[0].rate
  }

  function Reserved(l: LedgerState, h: Hold): (Status, LedgerState) {
    var check := ReserveCheck(l, h);
    if check != Ok then (check, l)
    else
      var totals := AddAll(l.totals, h.amounts);
      if PathOverflows(l, h) then
        (ArithmeticOverflow, l.(totals := LowerAll(totals, EntriesFor(h))))
      else
        var pathTotals :=
          if h.path != 0 then l.pathTotals[h.path := AtKey(l.pathTotals, h.path) + h.amounts[0].rate]
          else l.pathTotals;
        (Ok, LedgerState(totals, pathTotals, l.byDecision[h.decision := EntriesFor(h)], l.entryCount + |h.amounts|))
  }

  predicate Underflows(totals: map<u64, u64>, e: LedgerEntry) {
    e.resource !in totals || totals[e.resource] < e.amount
  }

  function ReleasedLoad(l: LedgerState, d: nat): (Status, LedgerState) {
    if d == 0 then (InvalidArgument, l)
    else if d !in l.byDecision then (NotFound, l)
    else
      var entries := l.byDecision[d];
      if exists i :: 0 <= i < |entries| && Underflows(l.totals, entries[i]) then (ArithmeticUnderflow, l)
      else
        var pathTotals :=
          if entries != [] && entries[0].path != 0
          then Lower(l.pathTotals, entries[0].path, Min(EntrySum(entries), MAX64))
          else l.pathTotals;
        (Ok, LedgerState(LowerAll(l.totals, entries), pathTotals, l.byDecision - {d},
                         Checked.Wrap(l.entryCount - |entries|)))
  }

  function WithFlags(entries: seq<LedgerEntry>, flag: bool): (r: seq<LedgerEntry>)
    ensures |r| == |entries|
    ensures forall i :: 0 <= i < |r| ==> r[i] == entries[i].(requiresRevalidation := flag)
  {
    seq(|entries|, i requires 0 <= i < |entries| => entries[i].(requiresRevalidation := flag))
  }

  function Flagged(l: LedgerState, flag: bool): LedgerState {
    l.(byDecision := map d | d in l.byDecision :: WithFlags(l.byDecision[d], flag))
  }

  // ------------------------------------------------------------------
  // Conservation: every total is the sum of what live decisions hold
  // ------------------------------------------------------------------

  type Table = map<nat, seq<LedgerEntry>>

  ghost function SumOver(m: Table, f: seq<LedgerEntry> -> nat): nat
    decreases m.Keys
  {
    if m.Keys == {} then 0
    else
      var d := Largest(m.Keys);
      f(m[d]) + SumOver(m - {d}, f)
  }

  lemma {:induction false} SumRemove(m: Table, f: seq<LedgerEntry> -> nat, d: nat)
    requires d in m
    ensures SumOver(m, f) == f(m[d]) + SumOver(m - {d}, f)
    decreases m.Keys
  {
    var top := Largest(m.Keys);
    if top != d {
      SumRemove(m - {top}, f, d);
      assert (m - {d}).Keys == m.Keys - {d};
      LargestUnique((m - {d}).Keys, top);
      assert m - {top} - {d} == m - {d} - {top};
    }
  }

  lemma SumInsert(m: Table, f: seq<LedgerEntry> -> nat, d: nat, entries: seq<LedgerEntry>)
    requires d !in m
    ensures SumOver(m[d := entries], f) == f(entries) + SumOver(m, f)
  {
    SumRemove(m[d := entries], f, d);
    assert m[d := entries] - {d} == m;
  }

  /** Keeping fewer decisions keeps no more load. */
  lemma {:induction false} SumSubset(m: Table, keep: set<nat>, f: seq<LedgerEntry> -> nat)
    requires keep <= m.Keys
    ensures SumOver(Only(m, keep), f) <= SumOver(m, f)
    decreases m.Keys
  {
    if m.Keys <= keep {
      assert Only(m, keep) == m;
    } else {
      var d :| d in m.Keys && d !in keep;
      SumSubset(m - {d}, keep, f);
      assert Only(m - {d}, keep) == Only(m, keep);
      SumRemove(m, f, d);
    }
  }

  ghost function Only(m: Table, keep: set<nat>): (r: Table)
    requires keep <= m.Keys
    ensures r.Keys == keep
  {
    map d | d in keep :: m[d]
  }

  ghost function SumOn(entries: seq<LedgerEntry>, resource: u64): nat {
    if entries == [] then 0
    else
      var e := entries[|entries| - 1];
      SumOn(entries[..|entries| - 1], resource) + (if e.resource == resource then e.amount else 0)
  }

  ghost function OnResource(resource: u64): seq<LedgerEntry> -> nat {
    entries => SumOn(entries, resource)
  }

  ghost function OnPath(path: u64): seq<LedgerEntry> -> nat {
    (entries: seq<LedgerEntry>) => if entries != [] && entries[0].path == path then entries[0].amount else 0
  }

  ghost function Size(): seq<LedgerEntry> -> nat {
    entries => |entries|
  }

  ghost function LoadOn(m: Table, resource: u64): nat {
    SumOver(m, OnResource(resource))
  }

  ghost function LoadOnPath(m: Table, path: u64): nat {
    SumOver(m, OnPath(path))
  }

  ghost predicate DistinctResources(entries: seq<LedgerEntry>) {
    forall i, j :: 0 <= i < j < |entries| ==> entries[i].resource != entries[j].resource
  }

  /** One decision's entries: its own, on distinct resources, under one path. */
  ghost predicate EntriesOk(d: nat, entries: seq<LedgerEntry>) {
    d != 0 && entries != [] && DistinctResources(entries) &&
    forall i :: 0 <= i < |entries| ==>
      entries[i].decision == d && entries[i].resource != 0 && entries[i].path == entries[0].path
  }

  ghost predicate Conserved(l: LedgerState) {
    (forall r: u64 :: Admitted(l, r) == LoadOn(l.byDecision, r)) &&
    l.entryCount == SumOver(l.byDecision, Size()) &&
    l.entryCount <= MAX_LEDGER_ENTRIES &&
    (forall d :: d in l.byDecision ==> EntriesOk(d, l.byDecision[d]))
  }

  /** No zero-rate entry and no zero total. */
  ghost predicate Positive(l: LedgerState) {
    (forall d, i :: d in l.byDecision && 0 <= i < |l.byDecision[d]| ==> l.byDecision[d][i].amount > 0) &&
    (forall r :: r in l.totals ==> l.totals[r] > 0)
  }

  ghost predicate DistinctAmounts(amounts: seq<Amount>) {
    forall i, j :: 0 <= i < j < |amounts| ==> amounts[i].resource != amounts[j].resource
  }

  lemma {:induction false} SumOnAbsent(entries: seq<LedgerEntry>, resource: u64)
    requires forall i :: 0 <= i < |entries| ==> entries[i].resource != resource
    ensures SumOn(entries, resource) == 0
  {
    if entries != [] {
      SumOnAbsent(entries[..|entries| - 1], resource);
    }
  }

  lemma {:induction false} SumOnPresent(entries: seq<LedgerEntry>, i: nat)
    requires DistinctResources(entries) && i < |entries|
    ensures SumOn(entries, entries[i].resource) == entries[i].amount
  {
    var n := |entries| - 1;
    if i == n {
      SumOnAbsent(entries[..n], entries[i].resource);
    } else {
      SumOnPresent(entries[..n], i);
    }
  }

  ghost function AmountOn(amounts: seq<Amount>, resource: u64): nat {
    if amounts == [] then 0
    else
      var a := amounts[|amounts| - 1];
      AmountOn(amounts[..|amounts| - 1], resource) + (if a.resource == resource then a.rate else 0)
  }

  lemma {:induction false} AmountOnAbsent(amounts: seq<Amount>, resource: u64)
    requires forall i :: 0 <= i < |amounts| ==> amounts[i].resource != resource
    ensures AmountOn(amounts, resource) == 0
  {
    if amounts != [] {
      AmountOnAbsent(amounts[..|amounts| - 1], resource);
    }
  }

  lemma {:induction false} SumOnEntriesFor(h: Hold, resource: u64)
    ensures SumOn(EntriesFor(h), resource) == AmountOn(h.amounts, resource)
    decreases |h.amounts|
  {
    if h.amounts != [] {
      var n := |h.amounts| - 1;
      var front := h.(amounts := h.amounts[..n]);
      SumOnEntriesFor(front, resource);
      assert EntriesFor(h)[..n] == EntriesFor(front);
    }
  }

  /** Reserving distinct resources that each fit adds exactly, without wrapping. */
  lemma {:induction false} AddAllExact(totals: map<u64, u64>, amounts: seq<Amount>, r: u64)
    requires DistinctAmounts(amounts)
    requires forall i :: 0 <= i < |amounts| ==> !Overflows(totals, amounts[i])
    ensures AtKey(AddAll(totals, amounts), r) == AtKey(totals, r) + AmountOn(amounts, r)
  {
    if amounts != [] {
      var n := |amounts| - 1;
      var front, a := amounts[..n], amounts[n];
      AddAllExact(totals, front, r);
      AddAllExact(totals, front, a.resource);
      AmountOnAbsent(front, a.resource);
      WrapFits(AtKey(totals, a.resource) + a.rate);
    }
  }

  lemma {:induction false} AddAllKeys(totals: map<u64, u64>, amounts: seq<Amount>, r: u64)
    ensures r in AddAll(totals, amounts) <==> r in totals || exists i :: 0 <= i < |amounts| && amounts[i].resource == r
  {
    if amounts != [] {
      var n := |amounts| - 1;
      AddAllKeys(totals, amounts[..n], r);
      assert amounts[n].resource == r || (forall i :: 0 <= i < |amounts| && amounts[i].resource == r ==> i < n && amounts[..n][i].resource == r);
    }
  }

  /** Lowering by one decision's entries subtracts exactly, without wrapping, and
      a total disappears exactly when nothing is left of it. */
  lemma {:induction false} LowerAllExact(totals: map<u64, u64>, entries: seq<LedgerEntry>, r: u64)
    requires DistinctResources(entries)
    requires forall i :: 0 <= i < |entries| ==> !Underflows(totals, entries[i])
    ensures AtKey(LowerAll(totals, entries), r) == AtKey(totals, r) - SumOn(entries, r)
    ensures r in LowerAll(totals, entries) <==>
      r in totals && (AtKey(totals, r) > SumOn(entries, r) || forall i :: 0 <= i < |entries| ==> entries[i].resource != r)
  {
    if entries != [] {
      var n := |entries| - 1;
      var front, e := entries[..n], entries[n];
      LowerAllExact(totals, front, r);
      LowerAllExact(totals, front, e.resource);
      SumOnAbsent(front, e.resource);
      var t := LowerAll(totals, front);
      assert !Underflows(totals, entries[n]);
      assert e.resource in t && t[e.resource] == totals[e.resource];
      WrapFits(t[e.resource] - e.amount);
      assert SumOn(entries, r) == SumOn(front, r) + (if e.resource == r then e.amount else 0);
      if e.resource != r {
        assert (forall i :: 0 <= i < |entries| ==> entries[i].resource != r) <==> (forall i :: 0 <= i < |front| ==> front[i].resource != r);
      }
    }
  }

  lemma EntriesForOk(h: Hold)
    requires h.decision != 0 && h.amounts != [] && DistinctAmounts(h.amounts)
    requires forall i :: 0 <= i < |h.amounts| ==> h.amounts[i].resource != 0
    ensures EntriesOk(h.decision, EntriesFor(h))
  {}

  /** Undoing the additions leaves every total as it was; the stored table is the
      same exactly when no touched resource had a stored zero. */
  lemma RollbackExact(totals: map<u64, u64>, h: Hold)
    requires DistinctAmounts(h.amounts)
    requires forall i :: 0 <= i < |h.amounts| ==> !Overflows(totals, h.amounts[i])
    ensures
      var back := LowerAll(AddAll(totals, h.amounts), EntriesFor(h));
      (forall r: u64 :: AtKey(back, r) == AtKey(totals, r)) &&
      (back == totals <==> forall i :: 0 <= i < |h.amounts| && h.amounts[i].resource in totals ==> totals[h.amounts[i].resource] > 0)
  {
    var up := AddAll(totals, h.amounts);
    var entries := EntriesFor(h);
    var back := LowerAll(up, entries);
    forall i | 0 <= i < |entries| ensures !Underflows(up, entries[i]) {
      AddAllExact(totals, h.amounts, h.amounts[i].resource);
      SumOnEntriesFor(h, h.amounts[i].resource);
      SumOnPresent(entries, i);
      AddAllKeys(totals, h.amounts, h.amounts[i].resource);
    }
    forall r: u64
      ensures AtKey(back, r) == AtKey(totals, r)
      ensures r in back <==> (AtKey(totals, r) > 0 || (r in totals && forall i :: 0 <= i < |h.amounts| ==> h.amounts[i].resource != r))
    {
      AddAllExact(totals, h.amounts, r);
      AddAllKeys(totals, h.amounts, r);
      SumOnEntriesFor(h, r);
      LowerAllExact(up, entries, r);
      assert (forall i :: 0 <= i < |entries| ==> entries[i].resource != r) <==> (forall i :: 0 <= i < |h.amounts| ==> h.amounts[i].resource != r);
    }
    if forall i :: 0 <= i < |h.amounts| && h.amounts[i].resource in totals ==> totals[h.amounts[i].resource] > 0 {
      forall r ensures r in back <==> r in totals {}
      assert back == totals;
    }
  }

  /** Reserving keeps the books balanced whether it succeeds, is refused, or is
      rolled back, and raises each resource by exactly what was asked of it. */
  lemma ReserveConserves(l: LedgerState, h: Hold)
    requires Conserved(l) && DistinctAmounts(h.amounts)
    ensures
      var (st, l') := Reserved(l, h);
      Conserved(l') &&
      (forall r: u64 :: Admitted(l', r) == Admitted(l, r) + (if st == Ok then AmountOn(h.amounts, r) else 0)) &&
      (st != Ok ==> l'.byDecision == l.byDecision) &&
      (st == Ok ==> h.decision !in l.byDecision && h.decision != 0 && l'.byDecision == l.byDecision[h.decision := EntriesFor(h)])
  {
    var (st, l') := Reserved(l, h);
    if ReserveCheck(l, h) == Ok {
      var entries := EntriesFor(h);
      if st == Ok {
        EntriesForOk(h);
        SumInsert(l.byDecision, Size(), h.decision, entries);
        forall r: u64
          ensures Admitted(l', r) == Admitted(l, r) + AmountOn(h.amounts, r)
          ensures Admitted(l', r) == LoadOn(l'.byDecision, r)
        {
          AddAllExact(l.totals, h.amounts, r);
          SumOnEntriesFor(h, r);
          SumInsert(l.byDecision, OnResource(r), h.decision, entries);
        }
      } else {
        RollbackExact(l.totals, h);
        forall r: u64 ensures Admitted(l', r) == LoadOn(l'.byDecision, r) {
          assert Admitted(l, r) == LoadOn(l.byDecision, r);
        }
      }
    }
  }

  /** Without the assumption of distinct resources the additions wrap. */
  lemma {:induction false} AddAllWraps(totals: map<u64, u64>, amounts: seq<Amount>, r: u64)
    ensures AtKey(AddAll(totals, amounts), r) == Wrap(AtKey(totals, r) + AmountOn(amounts, r))
  {
    if amounts != [] {
      var n := |amounts| - 1;
      AddAllWraps(totals, amounts[..n], r);
      WrapAdds(AtKey(totals, r) + AmountOn(amounts[..n], r), amounts[n].rate);
    }
  }

  lemma WrapAdds(x: int, y: int)
    ensures Wrap(Wrap(x) + y) == Wrap(x + y)
  {}

  lemma WrapExactIff(x: nat)
    ensures Wrap(x) == x <==> x <= MAX64
  {}

  lemma ReserveSums(l: LedgerState, h: Hold, r: u64)
    requires Conserved(l) && Reserved(l, h).0 == Ok
    ensures LoadOn(Reserved(l, h).1.byDecision, r) == Admitted(l, r) + AmountOn(h.amounts, r)
  {
    SumOnEntriesFor(h, r);
    SumInsert(l.byDecision, OnResource(r), h.decision, EntriesFor(h));
    assert Admitted(l, r) == LoadOn(l.byDecision, r);
  }

  lemma ReserveExactOn(l: LedgerState, h: Hold, r: u64)
    requires Conserved(l) && Reserved(l, h).0 == Ok
    ensures
      var l' := Reserved(l, h).1;
      Admitted(l', r) == LoadOn(l'.byDecision, r) <==> Admitted(l, r) + AmountOn(h.amounts, r) <= MAX64
  {
    ReserveSums(l, h, r);
    AddAllWraps(l.totals, h.amounts, r);
    WrapExactIff(AtKey(l.totals, r) + AmountOn(h.amounts, r));
  }

  /** An accepted reservation leaves every total the sum of the live entries
      exactly when, for each resource, the old total and all the amounts naming
      it together fit 64 bits. */
  lemma ReserveExactIff(l: LedgerState, h: Hold)
    requires Conserved(l) && Reserved(l, h).0 == Ok
    ensures
      var l' := Reserved(l, h).1;
      (forall r: u64 :: Admitted(l', r) == LoadOn(l'.byDecision, r)) <==>
      (forall r: u64 :: Admitted(l, r) + AmountOn(h.amounts, r) <= MAX64)
  {
    var l' := Reserved(l, h).1;
    forall r: u64 ensures Admitted(l', r) == LoadOn(l'.byDecision, r) <==> Admitted(l, r) + AmountOn(h.amounts, r) <= MAX64 {
      ReserveExactOn(l, h, r);
    }
  }

  lemma ReservePositive(l: LedgerState, h: Hold)
    requires Conserved(l) && Positive(l) && DistinctAmounts(h.amounts)
    requires forall i :: 0 <= i < |h.amounts| ==> h.amounts[i].rate > 0
    ensures Positive(Reserved(l, h).1)
  {
    var (st, l') := Reserved(l, h);
    if ReserveCheck(l, h) == Ok {
      if st == Ok {
        forall r | r in l'.totals ensures l'.totals[r] > 0 {
          AddAllExact(l.totals, h.amounts, r);
          AddAllKeys(l.totals, h.amounts, r);
          if r !in l.totals {
            var i :| 0 <= i < |h.amounts| && h.amounts[i].resource == r;
            AmountOnPresent(h.amounts, i);
          }
        }
      } else {
        RollbackExact(l.totals, h);
      }
    }
  }

  lemma {:induction false} AmountOnPresent(amounts: seq<Amount>, i: nat)
    requires DistinctAmounts(amounts) && i < |amounts|
    ensures AmountOn(amounts, amounts[i].resource) == amounts[i].rate
  {
    var n := |amounts| - 1;
    if i == n {
      AmountOnAbsent(amounts[..n], amounts[i].resource);
    } else {
      AmountOnPresent(amounts[..n], i);
    }
  }

  lemma EntryWithinTotal(l: LedgerState, d: nat, i: nat)
    requires Conserved(l) && d in l.byDecision && i < |l.byDecision[d]|
    ensures l.byDecision[d][i].amount <= Admitted(l, l.byDecision[d][i].resource)
  {
    var e := l.byDecision[d][i];
    assert EntriesOk(d, l.byDecision[d]);
    SumOnPresent(l.byDecision[d], i);
    SumRemove(l.byDecision, OnResource(e.resource), d);
    assert Admitted(l, e.resource) == LoadOn(l.byDecision, e.resource);
  }

  /** With balanced books a release fails exactly when the decision holds a
      zero-rate entry on a resource whose total has already disappeared. */
  lemma ReleaseFailsIff(l: LedgerState, d: nat)
    requires Conserved(l) && d in l.byDecision
    ensures ReleasedLoad(l, d).0 != Ok <==>
      exists i :: 0 <= i < |l.byDecision[d]| && l.byDecision[d][i].amount == 0 && l.byDecision[d][i].resource !in l.totals
  {
    var entries := l.byDecision[d];
    assert EntriesOk(d, entries);
    forall i | 0 <= i < |entries|
      ensures Underflows(l.totals, entries[i]) <==> entries[i].amount == 0 && entries[i].resource !in l.totals
    {
      EntryWithinTotal(l, d, i);
    }
  }

  lemma EntryCountRemove(l: LedgerState, d: nat)
    requires Conserved(l) && d in l.byDecision
    ensures |l.byDecision[d]| <= l.entryCount
    ensures l.entryCount - |l.byDecision[d]| == SumOver(l.byDecision - {d}, Size())
  {
    SumRemove(l.byDecision, Size(), d);
  }

  /** A successful release keeps the books balanced, lowers each resource by
      exactly what the decision held, and can never be repeated. */
  lemma ReleaseConserves(l: LedgerState, d: nat)
    requires Conserved(l)
    ensures
      var (st, l') := ReleasedLoad(l, d);
      Conserved(l') &&
      (st != Ok ==> l' == l) &&
      (st == Ok ==>
        d in l.byDecision && l'.byDecision == l.byDecision - {d} && ReleasedLoad(l', d).0 == NotFound &&
        forall r: u64 :: Admitted(l', r) == Admitted(l, r) - SumOn(l.byDecision[d], r))
  {
    var (st, l') := ReleasedLoad(l, d);
    if st == Ok {
      var entries := l.byDecision[d];
      assert EntriesOk(d, entries);
      forall r: u64
        ensures Admitted(l', r) == Admitted(l, r) - SumOn(entries, r)
        ensures Admitted(l', r) == LoadOn(l'.byDecision, r)
      {
        LowerAllExact(l.totals, entries, r);
        assert Admitted(l, r) == LoadOn(l.byDecision, r);
        SumRemove(l.byDecision, OnResource(r), d);
      }
      EntryCountRemove(l, d);
      WrapFits(l.entryCount - |entries|);
    }
  }

  lemma ReleasePositive(l: LedgerState, d: nat)
    requires Conserved(l) && Positive(l)
    ensures Positive(ReleasedLoad(l, d).1)
    ensures d in l.byDecision ==> ReleasedLoad(l, d).0 == Ok
  {
    if d in l.byDecision {
      ReleaseFailsIff(l, d);
      var entries := l.byDecision[d];
      assert EntriesOk(d, entries);
      var (st, l') := ReleasedLoad(l, d);
      forall r | r in l'.totals ensures l'.totals[r] > 0 {
        LowerAllExact(l.totals, entries, r);
        if forall i :: 0 <= i < |entries| ==> entries[i].resource != r {
          SumOnAbsent(entries, r);
        }
      }
    }
  }

  // ------------------------------------------------------------------
  // Path totals
  // ------------------------------------------------------------------

  ghost predicate PathsBalanced(l: LedgerState) {
    (forall p: u64 :: p != 0 ==> AtKey(l.pathTotals, p) == LoadOnPath(l.byDecision, p)) &&
    (forall p :: p in l.pathTotals ==> l.pathTotals[p] > 0)
  }

  lemma ReservePaths(l: LedgerState, h: Hold)
    requires Conserved(l) && PathsBalanced(l)
    requires forall i :: 0 <= i < |h.amounts| ==> h.amounts[i].rate > 0
    ensures PathsBalanced(Reserved(l, h).1)
  {
    var (st, l') := Reserved(l, h);
    if st == Ok {
      var entries := EntriesFor(h);
      forall p: u64 | p != 0 ensures AtKey(l'.pathTotals, p) == LoadOnPath(l'.byDecision, p) {
        SumInsert(l.byDecision, OnPath(p), h.decision, entries);
        assert AtKey(l.pathTotals, p) == LoadOnPath(l.byDecision, p);
        assert OnPath(p)(entries) == if h.path == p then h.amounts[0].rate else 0;
      }
    }
  }

  lemma {:induction false} EntrySumPositive(entries: seq<LedgerEntry>)
    requires forall i :: 0 <= i < |entries| ==> entries[i].amount > 0
    requires entries != []
    ensures EntrySum(entries) >= entries[0].amount
    ensures EntrySum(entries) == entries[0].amount <==> |entries| == 1
  {
    if |entries| > 1 {
      EntrySumPositive(entries[..|entries| - 1]);
    }
  }

  /** The refund saturates. It is what the path was charged exactly for a single
      entry, or when the charge alone is already the greatest amount. */
  lemma RefundExactIff(entries: seq<LedgerEntry>)
    requires entries != [] && forall i :: 0 <= i < |entries| ==> entries[i].amount > 0
    ensures
      var refund := Min(EntrySum(entries), MAX64);
      refund >= entries[0].amount && (refund == entries[0].amount <==> |entries| == 1 || entries[0].amount == MAX64)
  {
    EntrySumPositive(entries);
  }

  lemma RefundBalances(totals: map<u64, u64>, path: u64, left: nat, charge: u64, refund: u64)
    requires path in totals && totals[path] == left + charge && refund >= charge > 0
    ensures AtKey(Lower(totals, path, refund), path) == left <==> refund == charge
  {}

  lemma LoadWithout(m: Table, d: nat, p: u64)
    requires d in m && m[d] != []
    ensures LoadOnPath(m, p) == LoadOnPath(m - {d}, p) + (if p == m[d][0].path then m[d][0].amount else 0)
  {
    SumRemove(m, OnPath(p), d);
  }

  /** `reserve` charges a path once per decision but `release` refunds it once per
      resource, so path totals stay balanced exactly for decisions that hold a
      single resource or no path, or whose charge saturates the refund. */
  lemma ReleasePathsIff(l: LedgerState, d: nat)
    requires Conserved(l) && Positive(l) && PathsBalanced(l) && d in l.byDecision
    ensures PathsBalanced(ReleasedLoad(l, d).1) <==>
      l.byDecision[d][0].path == 0 || |l.byDecision[d]| == 1 || l.byDecision[d][0].amount == MAX64
  {
    ReleasePositive(l, d);
    var entries := l.byDecision[d];
    assert EntriesOk(d, entries);
    var l' := ReleasedLoad(l, d).1;
    var path := entries[0].path;
    RefundExactIff(entries);
    forall p: u64 ensures LoadOnPath(l.byDecision, p) == LoadOnPath(l'.byDecision, p) + (if p == path then entries[0].amount else 0) {
      LoadWithout(l.byDecision, d, p);
    }
    if path != 0 {
      assert AtKey(l.pathTotals, path) == LoadOnPath(l'.byDecision, path) + entries[0].amount;
      RefundBalances(l.pathTotals, path, LoadOnPath(l'.byDecision, path), entries[0].amount, Min(EntrySum(entries), MAX64));
    }
  }

  lemma ReserveThenReleaseLoad(l: LedgerState, h: Hold)
    requires Conserved(l) && Positive(l) && DistinctAmounts(h.amounts)
    requires forall i :: 0 <= i < |h.amounts| ==> h.amounts[i].rate > 0
    requires Reserved(l, h).0 == Ok
    ensures
      var l' := Reserved(l, h).1;
      var (st, l'') := ReleasedLoad(l', h.decision);
      Conserved(l') && Positive(l') && l'.byDecision[h.decision] == EntriesFor(h) &&
      st == Ok && l''.totals == l.totals && l''.byDecision == l.byDecision && l''.entryCount == l.entryCount
  {
    var l' := Reserved(l, h).1;
    ReserveConserves(l, h);
    ReservePositive(l, h);
    ReleasePositive(l', h.decision);
    RollbackExact(l.totals, h);
    WrapFits(l.entryCount);
    assert l'.byDecision - {h.decision} == l.byDecision;
  }

  /** Reserve followed by release is the identity on what is held, on every
      resource total and on the entry count; on path totals too exactly when the
      decision holds one resource or no path, or its charge saturates the refund. */
  lemma ReserveThenRelease(l: LedgerState, h: Hold)
    requires Conserved(l) && Positive(l) && PathsBalanced(l) && DistinctAmounts(h.amounts)
    requires forall i :: 0 <= i < |h.amounts| ==> h.amounts[i].rate > 0
    requires Reserved(l, h).0 == Ok
    ensures
      var (st, l'') := ReleasedLoad(Reserved(l, h).1, h.decision);
      st == Ok && l''.totals == l.totals && l''.byDecision == l.byDecision && l''.entryCount == l.entryCount &&
      (l''.pathTotals == l.pathTotals <==> h.path == 0 || |h.amounts| == 1 || h.amounts[0].rate == MAX64)
  {
    var l' := Reserved(l, h).1;
    ReserveThenReleaseLoad(l, h);
    ReservePaths(l, h);
    NoPathUntouched(l, h);
    RoundTripPaths(l, l', h.decision);
  }

  lemma NoPathUntouched(l: LedgerState, h: Hold)
    requires Reserved(l, h).0 == Ok
    ensures
      var l'' := ReleasedLoad(Reserved(l, h).1, h.decision).1;
      (0 in l.pathTotals <==> 0 in l''.pathTotals) && AtKey(l.pathTotals, 0) == AtKey(l''.pathTotals, 0)
  {}

  lemma RoundTripPaths(l: LedgerState, l': LedgerState, d: nat)
    requires PathsBalanced(l) && Conserved(l') && Positive(l') && PathsBalanced(l') && d in l'.byDecision
    requires
      var l'' := ReleasedLoad(l', d).1;
      l''.byDecision == l.byDecision && (0 in l.pathTotals <==> 0 in l''.pathTotals) && AtKey(l.pathTotals, 0) == AtKey(l''.pathTotals, 0)
    ensures ReleasedLoad(l', d).1.pathTotals == l.pathTotals <==>
      l'.byDecision[d][0].path == 0 || |l'.byDecision[d]| == 1 || l'.byDecision[d][0].amount == MAX64
  {
    var l'' := ReleasedLoad(l', d).1;
    ReleasePathsIff(l', d);
    if PathsBalanced(l'') {
      SamePaths(l, l'');
    } else {
      BalanceByPaths(l, l'');
    }
  }

  lemma BalanceByPaths(a: LedgerState, b: LedgerState)
    requires a.byDecision == b.byDecision
    ensures a.pathTotals == b.pathTotals ==> (PathsBalanced(a) <==> PathsBalanced(b))
  {}

  lemma SamePaths(a: LedgerState, b: LedgerState)
    requires PathsBalanced(a) && PathsBalanced(b) && a.byDecision == b.byDecision
    requires 0 in a.pathTotals <==> 0 in b.pathTotals
    requires AtKey(a.pathTotals, 0) == AtKey(b.pathTotals, 0)
    ensures a.pathTotals == b.pathTotals
  {
    forall p: u64 ensures AtKey(a.pathTotals, p) == AtKey(b.pathTotals, p) && (p in a.pathTotals <==> p in b.pathTotals) {}
  }

  // ------------------------------------------------------------------
  // What the two mutations answer
  // ------------------------------------------------------------------

  /** Amount i names no resource or does not fit, and none before it. */
  ghost predicate FirstBad(totals: map<u64, u64>, amounts: seq<Amount>, i: nat) {
    i < |amounts| && (amounts[i].resource == 0 || AtKey(totals, amounts[i].resource) + amounts[i].rate > MAX64) &&
    forall j :: 0 <= j < i ==> amounts[j].resource != 0 && AtKey(totals, amounts[j].resource) + amounts[j].rate <= MAX64
  }

  lemma {:induction false} FirstBadDecides(totals: map<u64, u64>, amounts: seq<Amount>, i: nat)
    requires FirstBad(totals, amounts, i)
    ensures AmountsCheck(totals, amounts) == if amounts[i].resource == 0 then InvalidArgument else ArithmeticOverflow
  {
    var n := |amounts| - 1;
    if i < n {
      FirstBadDecides(totals, amounts[..n], i);
    }
  }

  /** A reservation is refused for the first of these that applies, and only one
      that finds the path full has moved anything. */
  lemma ReserveAnswers(l: LedgerState, h: Hold)
    ensures
      var (st, l') := Reserved(l, h);
      if h.decision == 0 then st == InvalidArgument && l' == l
      else if h.decision in l.byDecision then st == AlreadyExists && l' == l
      else if h.amounts == [] then st == InvalidArgument && l' == l
      else if l.entryCount + |h.amounts| > MAX_LEDGER_ENTRIES then st == OversizedInput && l' == l
      else
        (forall i: nat :: FirstBad(l.totals, h.amounts, i) ==>
          st == (if h.amounts[i].resource == 0 then InvalidArgument else ArithmeticOverflow) && l' == l) &&
        ((forall i: nat :: !FirstBad(l.totals, h.amounts, i)) ==>
          st == if h.path != 0 && AtKey(l.pathTotals, h.path) + h.amounts[0].rate > MAX64 then ArithmeticOverflow else Ok)
  {
    forall i: nat | FirstBad(l.totals, h.amounts, i) ensures AmountsCheck(l.totals, h.amounts) == if h.amounts[i].resource == 0 then InvalidArgument else ArithmeticOverflow {
      FirstBadDecides(l.totals, h.amounts, i);
    }
    if forall i: nat :: !FirstBad(l.totals, h.amounts, i) {
      NoneBad(l.totals, h.amounts, |h.amounts|);
    }
  }

  lemma {:induction false} NoneBad(totals: map<u64, u64>, amounts: seq<Amount>, n: nat)
    requires n <= |amounts| && forall i: nat :: !FirstBad(totals, amounts, i)
    ensures forall i :: 0 <= i < n ==> amounts[i].resource != 0 && !Overflows(totals, amounts[i])
  {
    if n > 0 {
      NoneBad(totals, amounts, n - 1);
      assert !FirstBad(totals, amounts, n - 1);
    }
  }

  /** A release is refused without effect for want of a name, of an entry, or of a
      total that covers one. */
  lemma ReleaseAnswers(l: LedgerState, d: nat)
    ensures
      var (st, l') := ReleasedLoad(l, d);
      (st == InvalidArgument <==> d == 0) && (st == NotFound <==> d != 0 && d !in l.byDecision) &&
      (st == ArithmeticUnderflow <==>
        d != 0 && d in l.byDecision && exists e :: e in l.byDecision[d] && (e.resource !in l.totals || l.totals[e.resource] < e.amount)) &&
      (st != Ok ==> l' == l) && (st == Ok || st == InvalidArgument || st == NotFound || st == ArithmeticUnderflow)
  {
    if d in l.byDecision {
      var entries := l.byDecision[d];
      if i :| 0 <= i < |entries| && Underflows(l.totals, entries[i]) {
        assert entries[i] in entries;
      }
    }
  }
}
