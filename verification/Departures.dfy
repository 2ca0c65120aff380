/** Where the code departs from what it sets out to do: concrete witnesses, and
    what follows from each. */
module Departures {
  import opened Base
  import opened Model
  import opened Checked
  import opened Ledger
  import opened History
  import opened Engine
  import opened Recovery
  import opened Restart

  // ------------------------------------------------------------------
  // Audit collisions after recovery
  // ------------------------------------------------------------------

  /** A journal whose newest audit number belongs to a grant, as it does whenever
      the engine dies right after admitting, always collides. */
  lemma GrantLastCollides(st: Recovering, r: DecisionRecord)
    requires r.decision in st.pending && r.decision != 0 && r.decision !in st.released && st.audit <= r.audit
    requires Admitting(r.outcome) && !Released(r.state)
    ensures Absorb(st, AdmissionCommit(r)).Replaying? && Collides(Absorb(st, AdmissionCommit(r)).state)
  {
    assert IsLive(Absorb(st, AdmissionCommit(r)).state, r.decision);
  }

  lemma {:induction false} CollectedOnce(h: HistoryState, keys: seq<nat>, d: nat)
    requires forall e :: e in h.records ==> h.records[e].decision == e
    requires forall i :: 0 <= i < |keys| ==> keys[i] in h.auditIndex && h.auditIndex[keys[i]] != d
    ensures forall i :: 0 <= i < |Collect(h, keys)| ==> Collect(h, keys)[i].decision != d
  {
    if keys != [] {
      CollectedOnce(h, keys[..|keys| - 1], d);
    }
  }

  ghost predicate Unlisted(s: State, d: nat) {
    forall i :: 0 <= i < |InAuditOrder(s.history)| ==> InAuditOrder(s.history)[i].decision != d
  }

  lemma ReleaseKeepsOthers(s: State, e: nat, reason: RevocationReason, d: nat)
    requires d in s.ledger.byDecision && e != d
    ensures
      var s' := ReleaseDecision(s, e, reason, Revoked).1;
      d in s'.ledger.byDecision && s'.ledger.byDecision[d] == s.ledger.byDecision[d]
  {}

  lemma {:induction false} NeverVisited(s: State, reason: RevocationReason, ordered: seq<DecisionRecord>, n: nat, d: nat)
    requires n <= |ordered| && d in s.ledger.byDecision && forall i :: 0 <= i < |ordered| ==> ordered[i].decision != d
    ensures
      var s' := EnforceFrom(s, reason, ordered, n).1;
      d in s'.ledger.byDecision && s'.ledger.byDecision[d] == s.ledger.byDecision[d]
    decreases n
  {
    if n > 0 {
      var (st, s1, k) := EnforceOne(s, reason, ordered[n - 1]);
      ReleaseKeepsOthers(s, ordered[n - 1].decision, reason, d);
      if st == Ok {
        NeverVisited(s1, reason, ordered, n - 1, d);
      }
    }
  }

  /** A grant whose record is not listed keeps its entries, apart from their
      flags, through every enforcement, whatever the capacity. */
  lemma UnlistedEscapesEnforcement(s: State, reason: RevocationReason, d: nat)
    requires d in s.ledger.byDecision && Unlisted(s, d)
    ensures
      var s' := Enforce(s, reason).1;
      d in s'.ledger.byDecision && WithFlags(s'.ledger.byDecision[d], false) == WithFlags(s.ledger.byDecision[d], false)
  {
    if s.auth.capacity.Some? {
      var ordered := InAuditOrder(s.history);
      NeverVisited(s, reason, ordered, |ordered|, d);
      var (st, s1, k) := EnforceFrom(s, reason, ordered, |ordered|);
      FinishKeepsEntries(st, s1, k, d);
    }
  }

  lemma FinishKeepsEntries(st: Status, s: State, revoked: nat, d: nat)
    requires d in s.ledger.byDecision
    ensures
      var s' := FinishEnforcement(st, s, revoked).1;
      d in s'.ledger.byDecision && WithFlags(s'.ledger.byDecision[d], false) == WithFlags(s.ledger.byDecision[d], false)
  {
    assert WithFlags(WithFlags(s.ledger.byDecision[d], false), false) == WithFlags(s.ledger.byDecision[d], false);
  }

  ghost predicate Unmentioned(log: seq<Record>, d: nat) {
    forall i :: 0 <= i < |log| && IsDecision(log[i]) ==> DecisionIn(log[i]).decision != d
  }

  lemma {:induction false} UnmentionedUnknown(b: Recovering, log: seq<Record>, d: nat)
    requires d !in b.history.records && Unmentioned(log, d) && ReplayLog(b, log).Replaying?
    ensures d !in ReplayLog(b, log).state.history.records
  {
    if log != [] {
      var n := |log| - 1;
      UnmentionedUnknown(b, log[..n], d);
      assert IsDecision(log[n]) ==> DecisionIn(log[n]).decision != d;
    }
  }

  lemma {:induction false} UnlistedUnmentioned(l: LedgerState, ordered: seq<DecisionRecord>, d: nat)
    requires forall i :: 0 <= i < |ordered| ==> ordered[i].decision != d
    ensures Unmentioned(CompactedRecords(l, ordered), d)
  {
    if ordered != [] {
      UnlistedUnmentioned(l, ordered[..|ordered| - 1], d);
    }
  }

  /** Compaction loses it: the rewritten journal no longer accounts for its load. */
  lemma UnlistedIsForgotten(b: Recovering, s: State, d: nat)
    requires d in s.ledger.byDecision && Unlisted(s, d) && d !in b.history.records && ReplayLog(b, CompactedLog(s)).Replaying?
    ensures d !in LiveGrants(ReplayLog(b, CompactedLog(s)).state)
  {
    CompactedUnmentioned(s, d);
    UnmentionedUnknown(b, CompactedLog(s), d);
  }

  lemma UnmentionedConcat(a: seq<Record>, b: seq<Record>, d: nat)
    requires Unmentioned(a, d) && Unmentioned(b, d)
    ensures Unmentioned(a + b, d)
  {}

  lemma CompactedUnmentioned(s: State, d: nat)
    requires Unlisted(s, d)
    ensures Unmentioned(CompactedLog(s), d)
  {
    var boot, policy := [BootOf(s)], if s.auth.policy.Some? then [PolicyConfig(s.auth.policy.value)] else [];
    var body := CompactedRecords(s.ledger, InAuditOrder(s.history));
    UnlistedUnmentioned(s.ledger, InAuditOrder(s.history), d);
    UnmentionedConcat(boot, policy, d);
    UnmentionedConcat(boot + policy, body, d);
    UnmentionedConcat(boot + policy + body, [AuditMark(AuditMarkRecord(s.audit, s.epoch, |boot + policy + body|))], d);
  }

  // ------------------------------------------------------------------
  // Zero rates and repeated resources
  // ------------------------------------------------------------------

  function Single(d: nat, rate: u64): Hold {
    Hold(d, 1, 1, 1, 0, [Amount(1, rate)])
  }

  lemma ReserveSingle(l: LedgerState, d: nat, rate: u64)
    requires d != 0 && d !in l.byDecision && l.entryCount < MAX_LEDGER_ENTRIES && AtKey(l.totals, 1) <= MAX64 - rate
    ensures
      var (st, l') := Reserved(l, Single(d, rate));
      st == Ok && l'.totals == l.totals[1 := AtKey(l.totals, 1) + rate] && l'.byDecision == l.byDecision[d := EntriesFor(Single(d, rate))] &&
      l'.entryCount == l.entryCount + 1
  {
    var amounts := [Amount(1, rate)];
    assert amounts[..0] == [];
    WrapFits(AtKey(l.totals, 1) + rate);
    assert AddAll(l.totals, amounts) == l.totals[1 := AtKey(l.totals, 1) + rate];
  }

  /** Releasing the grant that carried all the load erases the total, after which
      the zero-rate grant can no longer be released. */
  lemma ZeroRateStuck()
    ensures
      var l1 := Reserved(EMPTY_LEDGER, Single(1, 0)).1;
      var l2 := Reserved(l1, Single(2, 5)).1;
      var (st, l3) := ReleasedLoad(l2, 2);
      st == Ok && Holds(l3, 1) && ReleasedLoad(l3, 1).0 == ArithmeticUnderflow
  {
    ReserveSingle(EMPTY_LEDGER, 1, 0);
    var l1 := Reserved(EMPTY_LEDGER, Single(1, 0)).1;
    ReserveSingle(l1, 2, 5);
    var l2 := Reserved(l1, Single(2, 5)).1;
    var entries := l2.byDecision[2];
    assert entries == [EntryFor(Single(2, 5), Amount(1, 5))];
    assert entries[..0] == [];
    WrapFits(0);
    assert LowerAll(l2.totals, entries) == Lower(l2.totals, 1, 5) == map[];
    var l3 := ReleasedLoad(l2, 2).1;
    assert l3.byDecision[1][0].resource == 1;
  }

  /** Naming a resource twice passes the overflow check, which looks at each
      amount alone, and wraps the total. */
  lemma RepeatedResourceWraps()
    ensures
      var (st, l) := Reserved(EMPTY_LEDGER, Hold(1, 1, 1, 1, 0, [Amount(1, MAX64), Amount(1, 1)]));
      st == Ok && Admitted(l, 1) == 0
  {
    var amounts := [Amount(1, MAX64), Amount(1, 1)];
    assert amounts[..1] == [Amount(1, MAX64)];
    assert [Amount(1, MAX64)][..0] == [];
    assert AddAll(map[], [Amount(1, MAX64)]) == map[1 := MAX64];
  }

  const TWO := [Amount(1, 5), Amount(2, 5)]

  /** Departure: a grant of 5 on two resources over path 9 charges the path 5 and
      refunds it 10. Nothing is held afterwards, and the path's total has wrapped. */
  lemma TwoResourcesRefundTwice()
    ensures
      var l := Reserved(EMPTY_LEDGER, Hold(1, 1, 1, 1, 9, TWO)).1;
      var (st, l') := ReleasedLoad(l, 1);
      AdmittedOnPath(l, 9) == 5 && st == Ok && l'.byDecision == map[] && l'.totals == map[] && AdmittedOnPath(l', 9) == MAX64 - 4
  {
    var h := Hold(1, 1, 1, 1, 9, TWO);
    assert TWO[..1] == [Amount(1, 5)] && TWO[..1][..0] == [];
    assert AddAll(map[], TWO[..1]) == map[1 := 5];
    assert AddAll(map[], TWO) == map[1 := 5, 2 := 5];
    var l := Reserved(EMPTY_LEDGER, h).1;
    TwoReleased(l, EntriesFor(h));
  }

  lemma TwoReleased(l: LedgerState, entries: seq<LedgerEntry>)
    requires l == LedgerState(map[1 := 5, 2 := 5], map[9 := 5], map[1 := entries], 2)
    requires |entries| == 2 && entries[0].resource == 1 && entries[1].resource == 2 && entries[0].path == 9
    requires entries[0].amount == 5 && entries[1].amount == 5
    ensures
      var (st, l') := ReleasedLoad(l, 1);
      st == Ok && l'.byDecision == map[] && l'.totals == map[] && AdmittedOnPath(l', 9) == MAX64 - 4
  {
    assert entries[..1][..0] == [];
    assert EntrySum(entries[..1]) == 5 && EntrySum(entries) == 10;
    assert LowerAll(l.totals, entries[..1]) == map[2 := 5];
    assert LowerAll(l.totals, entries) == map[];
    assert Wrap(5 - 10) == MAX64 - 4;
  }
}
