/** The ledger object of src/engine/ledger.cpp, refining the functions of
    module Ledger. */
module LedgerStore {
  import opened Base
  import opened Model
  import opened Checked
  import opened Ledger

  class AdmittedLoadLedger {
    var totals: map<u64, u64>
    var pathTotals: map<u64, u64>
    var byDecision: map<nat, seq<LedgerEntry>>
    var entryCount: nat

    function View(): LedgerState
      reads this
    {
      LedgerState(totals, pathTotals, byDecision, entryCount)
    }

    constructor ()
      ensures View() == EMPTY_LEDGER
    {
      totals, pathTotals, byDecision, entryCount := map[], map[], map[], 0;
    }

    /** Validates every addition before changing anything; a path that would
        overflow rolls the resource totals back. */
    method Reserve(decision: nat, demand: u64, epoch: u64, boundCapacity: u64, path: u64, amounts: seq<Amount>) returns (st: Status)
      modifies this
      ensures (st, View()) == Reserved(old(View()), Hold(decision, demand, epoch, boundCapacity, path, amounts))
    {
      var h := Hold(decision, demand, epoch, boundCapacity, path, amounts);
      if decision == 0 { return InvalidArgument; }
      if decision in byDecision { return AlreadyExists; }
      if amounts == [] { return InvalidArgument; }
      if entryCount + |amounts| > MAX_LEDGER_ENTRIES { return OversizedInput; }
      st := ValidateAmounts(amounts);
      if st != Ok { return st; }
      var entries := AddAmounts(h);
      if path != 0 {
        if AtKey(pathTotals, path) > MAX64 - amounts[0].rate {
          RollBack(entries);
          return ArithmeticOverflow;
        }
        pathTotals := pathTotals[path := AtKey(pathTotals, path) + amounts[0].rate];
      }
      entryCount := entryCount + |entries|;
      byDecision := byDecision[decision := entries];
      return Ok;
    }

    method AddAmounts(h: Hold) returns (entries: seq<LedgerEntry>)
      modifies this`totals
      ensures totals == AddAll(old(totals), h.amounts)
      ensures entries == EntriesFor(h)
    {
      entries := [];
      for i := 0 to |h.amounts|
        invariant totals == AddAll(old(totals), h.amounts[..i])
        invariant entries == EntriesFor(h)[..i]
      {
        var a := h.amounts[i];
        totals := totals[a.resource := Wrap(AtKey(totals, a.resource) + a.rate)];
        entries := entries + [EntryFor(h, a)];
        assert h.amounts[..i + 1][..i] == h.amounts[..i];
      }
      assert h.amounts[..|h.amounts|] == h.amounts;
    }

    method RollBack(entries: seq<LedgerEntry>)
      modifies this`totals
      ensures totals == LowerAll(old(totals), entries)
    {
      for i := 0 to |entries|
        invariant totals == LowerAll(old(totals), entries[..i])
      {
        totals := Lower(totals, entries[i].resource, entries[i].amount);
        assert entries[..i + 1][..i] == entries[..i];
      }
      assert entries[..|entries|] == entries;
    }

    method ValidateAmounts(amounts: seq<Amount>) returns (st: Status)
      ensures st == AmountsCheck(totals, amounts)
    {
      for i := 0 to |amounts|
        invariant AmountsCheck(totals, amounts[..i]) == Ok
      {
        assert amounts[..i + 1][..i] == amounts[..i];
        st := if amounts[i].resource == 0 then InvalidArgument
              else if Overflows(totals, amounts[i]) then ArithmeticOverflow
              else Ok;
        if st != Ok {
          FirstRefusalDecides(totals, amounts, i);
          return st;
        }
      }
      assert amounts[..|amounts|] == amounts;
      return Ok;
    }

    /** Removes everything a decision holds, or nothing. */
    method Release(decision: nat) returns (st: Status, released: seq<LedgerEntry>)
      modifies this
      ensures (st, View()) == ReleasedLoad(old(View()), decision)
      ensures st == Ok ==> decision in old(byDecision) && released == old(byDecision)[decision]
    {
      released := [];
      if decision == 0 { return InvalidArgument, []; }
      if decision !in byDecision { return NotFound, []; }
      var entries := byDecision[decision];
      for i := 0 to |entries|
        invariant forall j :: 0 <= j < i ==> !Underflows(totals, entries[j])
      {
        if Underflows(totals, entries[i]) { return ArithmeticUnderflow, []; }
      }
      RollBack(entries);
      if entries != [] && entries[0].path != 0 {
        var latch := new SumLatch();
        for i := 0 to |entries|
          invariant latch.Valid() && fresh(latch)
          invariant Sum(latch.added) == EntrySum(entries[..i])
          invariant totals == LowerAll(old(totals), entries)
          invariant pathTotals == old(pathTotals) && byDecision == old(byDecision) && entryCount == old(entryCount)
        {
          SumSnoc(latch.added, entries[i].amount);
          latch.Add(entries[i].amount);
          assert entries[..i + 1][..i] == entries[..i];
        }
        assert entries[..|entries|] == entries;
        pathTotals := Lower(pathTotals, entries[0].path, latch.SaturatedTotal());
      }
      entryCount := Wrap(entryCount - |entries|);
      byDecision := byDecision - {decision};
      return Ok, entries;
    }

    /** Sets the revalidation requirement of every entry. */
    method SetRevalidationFlags(flag: bool)
      modifies this
      ensures View() == Flagged(old(View()), flag)
    {
      ghost var before := byDecision;
      var todo := byDecision.Keys;
      while todo != {}
        invariant totals == old(totals) && pathTotals == old(pathTotals) && entryCount == old(entryCount)
        invariant byDecision.Keys == before.Keys && todo <= before.Keys
        invariant forall d :: d in before ==> byDecision[d] == if d in todo then before[d] else WithFlags(before[d], flag)
        decreases todo
      {
        var d :| d in todo;
        byDecision := byDecision[d := WithFlags(byDecision[d], flag)];
        todo := todo - {d};
      }
      assert byDecision == Flagged(old(View()), flag).byDecision;
    }
  }

  lemma {:induction false} FirstRefusalDecides(totals: map<u64, u64>, amounts: seq<Amount>, i: nat)
    requires i < |amounts| && AmountsCheck(totals, amounts[..i]) == Ok
    requires amounts[i].resource == 0 || Overflows(totals, amounts[i])
    ensures AmountsCheck(totals, amounts) == if amounts[i].resource == 0 then InvalidArgument else ArithmeticOverflow
  {
    var n := |amounts| - 1;
    if i < n {
      assert amounts[..n][..i] == amounts[..i];
      FirstRefusalDecides(totals, amounts[..n], i);
    }
  }
}
