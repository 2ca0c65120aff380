/** The newest-first enforcement pass (EngineCore::enforce_accounting_locked,
    src/engine/admission.cpp) and its closed form. */
module Enforcement {
  import opened Base
  import opened Model
  import opened Ledger
  import opened History
  import opened Evaluate
  import opened Engine
  import opened Invariants

  // ------------------------------------------------------------------
  // One release
  // ------------------------------------------------------------------

  /** Nothing but the lifecycle fields of records differs. */
  ghost predicate SameHistory(h: HistoryState, g: HistoryState) {
    g.records.Keys == h.records.Keys && g.auditIndex == h.auditIndex && g.capacity == h.capacity &&
    forall d :: d in h.records ==>
      g.records[d] == h.records[d].(state := g.records[d].state, reason := g.records[d].reason, ledgerLive := g.records[d].ledgerLive)
  }

  lemma SameHistoryTransitive(a: HistoryState, b: HistoryState, c: HistoryState)
    requires SameHistory(a, b) && SameHistory(b, c)
    ensures SameHistory(a, c)
  {}

  /** What a pass of releases leaves alone. */
  ghost predicate SameFrame(s: State, s': State) {
    s'.auth == s.auth && s'.epoch == s.epoch && s'.incarnation == s.incarnation && s'.tick == s.tick &&
    s'.audit == s.audit && s'.nextDecision == s.nextDecision && s'.sessions == s.sessions && s'.nextNonce == s.nextNonce &&
    s'.attempts == s.attempts && SameHistory(s.history, s'.history)
  }

  /** Some decisions gone, the others untouched, no total raised. */
  ghost predicate LedgerShrinks(l: LedgerState, l': LedgerState) {
    Conserved(l') &&
    (forall d :: d in l'.byDecision ==> d in l.byDecision && l'.byDecision[d] == l.byDecision[d]) &&
    (forall r: u64 :: Admitted(l', r) <= Admitted(l, r))
  }

  lemma ShrinksTransitive(a: LedgerState, b: LedgerState, c: LedgerState)
    requires LedgerShrinks(a, b) && LedgerShrinks(b, c)
    ensures LedgerShrinks(a, c)
  {
    forall r: u64 ensures Admitted(c, r) <= Admitted(a, r) {
      assert Admitted(c, r) <= Admitted(b, r);
    }
  }

  lemma MarkKeeps(h: HistoryState, d: nat, state: RevalidationState, reason: RevocationReason, live: bool, audit: nat)
    requires Indexed(h, audit)
    ensures Indexed(Marked(h, d, state, reason, live), audit) && SameHistory(h, Marked(h, d, state, reason, live))
    ensures forall held: set<nat> :: Anchored(h, held, audit) ==> Anchored(Marked(h, d, state, reason, live), held, audit)
  {
    if d in h.records {
      UpdateIndexed(h, d, h.records[d].(state := state, reason := reason, ledgerLive := live), audit);
    }
  }

  lemma MarkBacked(h: HistoryState, d: nat, state: RevalidationState, reason: RevocationReason, live: bool, table: Table)
    requires AllBacked(h.records, table) && (d in table ==> !Released(state))
    ensures AllBacked(Marked(h, d, state, reason, live).records, table)
  {
    var g := Marked(h, d, state, reason, live);
    forall e | e in table ensures Backed(g.records, e, table[e]) {
      assert Backed(h.records, e, table[e]);
    }
  }

  /** One decision may be gone; everything else is as it was. */
  ghost predicate OneGone(l: LedgerState, l': LedgerState, d: nat) {
    LedgerShrinks(l, l') && forall e :: e in l.byDecision && e != d ==> e in l'.byDecision
  }

  lemma ReleaseShrinks(l: LedgerState, d: nat, records: map<nat, DecisionRecord>)
    requires Conserved(l) && d in l.byDecision && AllBacked(records, l.byDecision) && ReleasedLoad(l, d).0 == Ok
    ensures
      var l' := ReleasedLoad(l, d).1;
      OneGone(l, l', d) && d !in l'.byDecision && AllBacked(records, l'.byDecision)
  {
    ReleaseConserves(l, d);
    var l' := ReleasedLoad(l, d).1;
    forall e | e in l'.byDecision ensures Backed(records, e, l'.byDecision[e]) {
      assert Backed(records, e, l.byDecision[e]);
    }
  }

  lemma MarkConsistent(s: State, d: nat, state: RevalidationState, reason: RevocationReason, live: bool)
    requires Consistent(s) && (d in s.ledger.byDecision ==> !Released(state))
    ensures
      var s' := s.(history := Marked(s.history, d, state, reason, live));
      Consistent(s') && SameFrame(s, s')
  {
    MarkKeeps(s.history, d, state, reason, live, s.audit);
    MarkBacked(s.history, d, state, reason, live, s.ledger.byDecision);
  }

  lemma ForgetConsistent(s: State, cache: map<nat, Decision>)
    requires Consistent(s)
    ensures
      var s' := s.(history := NoteRelease(s.history), cache := cache);
      Consistent(s') && SameFrame(s, s')
  {}

  /** A release either goes through, removing exactly the decision's load, or
      fails; either way the books balance and every remaining grant is backed. */
  lemma ReleaseKeeps(s: State, d: nat, reason: RevocationReason, state: RevalidationState)
    requires Consistent(s) && Released(state)
    ensures
      var (st, s') := ReleaseDecision(s, d, reason, state);
      Consistent(s') && SameFrame(s, s') && OneGone(s.ledger, s'.ledger, d) &&
      (st == Ok ==> d in s.ledger.byDecision && d !in s'.ledger.byDecision)
  {
    if Holds(s.ledger, d) {
      var (written, s1) := Write(s, LedgerRelease(ReleaseRecord(d, s.epoch, reason, s.ledger.byDecision[d])));
      var (removed, l) := ReleasedLoad(s1.ledger, d);
      if written && removed == Ok {
        ReleaseShrinks(s.ledger, d, s.history.records);
        var (journaled, s2) := Write(s1.(ledger := l), Revocation(RevocationRecord(d, s.epoch, s.audit, reason, state)));
        assert Consistent(s2);
        if journaled {
          MarkConsistent(s2, d, state, reason, false);
          ForgetConsistent(s2.(history := Marked(s2.history, d, state, reason, false)), s2.cache - {d});
        }
      }
    }
  }

  // ------------------------------------------------------------------
  // The closed form
  // ------------------------------------------------------------------

  ghost function AuditOf(s: State, d: nat): nat
    requires Consistent(s) && d in s.ledger.byDecision
  {
    assert Backed(s.history.records, d, s.ledger.byDecision[d]);
    s.history.records[d].audit
  }

  /** Decisions holding load that were admitted no later than d. */
  ghost function UpTo(s: State, d: nat): set<nat>
    requires Consistent(s) && d in s.ledger.byDecision
  {
    set e | e in s.ledger.byDecision && AuditOf(s, e) <= AuditOf(s, d)
  }

  /** The load on a resource of d and everything admitted before it. */
  ghost function PrefixLoad(s: State, d: nat, resource: u64): nat
    requires Consistent(s) && d in s.ledger.byDecision
  {
    LoadOn(Only(s.ledger.byDecision, UpTo(s, d)), resource)
  }

  /** Every resource d holds is known, and d together with everything admitted
      before it fits there. */
  ghost predicate Survives(s: State, d: nat)
    requires Consistent(s) && d in s.ledger.byDecision
  {
    forall i :: 0 <= i < |s.ledger.byDecision[d]| ==>
      var r := s.ledger.byDecision[d][i].resource;
      Known(s.auth, r) && PrefixLoad(s, d, r) <= Allowance(s.auth, r)
  }

  lemma {:induction false} SumKeepsHolders(m: Table, keep: set<nat>, f: seq<LedgerEntry> -> nat)
    requires keep <= m.Keys
    requires forall d :: d in m && d !in keep ==> f(m[d]) == 0
    ensures SumOver(Only(m, keep), f) == SumOver(m, f)
    decreases m.Keys
  {
    if m.Keys <= keep {
      assert Only(m, keep) == m;
    } else {
      var d :| d in m.Keys && d !in keep;
      SumKeepsHolders(m - {d}, keep, f);
      assert Only(m - {d}, keep) == Only(m, keep);
      SumRemove(m, f, d);
    }
  }

  /** Elders are charged no more than the decision they precede. */
  lemma PrefixMonotone(s: State, e: nat, d: nat, r: u64)
    requires Consistent(s) && d in s.ledger.byDecision && e in s.ledger.byDecision && AuditOf(s, e) <= AuditOf(s, d)
    ensures PrefixLoad(s, e, r) <= PrefixLoad(s, d, r)
  {
    var table := s.ledger.byDecision;
    assert UpTo(s, e) <= UpTo(s, d);
    assert Only(Only(table, UpTo(s, d)), UpTo(s, e)) == Only(table, UpTo(s, e));
    SumSubset(Only(table, UpTo(s, d)), UpTo(s, e), OnResource(r));
  }

  /** When every grant holds the one resource r, the survivors are the longest
      prefix in audit order that fits: a decision survives exactly when it fits
      together with its elders, and then all of its elders survive too. */
  lemma SurvivorsArePrefix(s: State, r: u64, d: nat)
    requires Consistent(s) && d in s.ledger.byDecision
    requires forall x, i :: x in s.ledger.byDecision && 0 <= i < |s.ledger.byDecision[x]| ==> s.ledger.byDecision[x][i].resource == r
    ensures Survives(s, d) <==> Known(s.auth, r) && PrefixLoad(s, d, r) <= Allowance(s.auth, r)
    ensures Survives(s, d) ==> forall e :: e in s.ledger.byDecision && AuditOf(s, e) <= AuditOf(s, d) ==> Survives(s, e)
  {
    assert EntriesOk(d, s.ledger.byDecision[d]);
    assert s.ledger.byDecision[d][0].resource == r;
    forall e | e in s.ledger.byDecision && AuditOf(s, e) <= AuditOf(s, d) ensures Survives(s, d) ==> Survives(s, e) {
      PrefixMonotone(s, e, d, r);
    }
  }

  /** The pass has settled every decision with audit number at or above t. */
  ghost predicate Settled(s0: State, s: State, t: nat)
    requires Consistent(s0)
  {
    s.auth == s0.auth && LedgerShrinks(s0.ledger, s.ledger) &&
    (forall d :: d in s0.ledger.byDecision && AuditOf(s0, d) < t ==> d in s.ledger.byDecision) &&
    (forall d :: d in s0.ledger.byDecision && AuditOf(s0, d) >= t ==> (d in s.ledger.byDecision <==> Survives(s0, d))) &&
    (forall d :: d in s.ledger.byDecision && AuditOf(s0, d) >= t ==> Fits(s.auth, s.ledger, d))
  }

  ghost predicate NoneBetween(s0: State, d: nat, t: nat)
    requires Consistent(s0) && d in s0.ledger.byDecision
  {
    AuditOf(s0, d) < t && forall e :: e in s0.ledger.byDecision && AuditOf(s0, d) < AuditOf(s0, e) ==> AuditOf(s0, e) >= t
  }

  /** Load still held on a resource covers d and everything before it. */
  lemma PrefixStillHeld(s0: State, s: State, d: nat, t: nat, r: u64)
    requires Consistent(s0) && d in s0.ledger.byDecision && Settled(s0, s, t) && NoneBetween(s0, d, t)
    ensures PrefixLoad(s0, d, r) <= Admitted(s.ledger, r)
    ensures (forall e :: e in s.ledger.byDecision && AuditOf(s0, e) >= t ==> SumOn(s.ledger.byDecision[e], r) == 0) ==>
      PrefixLoad(s0, d, r) == Admitted(s.ledger, r)
  {
    var now := s.ledger.byDecision;
    var older := UpTo(s0, d);
    assert older <= now.Keys;
    assert Only(now, older) == Only(s0.ledger.byDecision, older);
    SumSubset(now, older, OnResource(r));
    assert Admitted(s.ledger, r) == LoadOn(now, r);
    if forall e :: e in now && AuditOf(s0, e) >= t ==> SumOn(now[e], r) == 0 {
      SumKeepsHolders(now, older, OnResource(r));
    }
  }

  lemma HolderOf(entries: seq<LedgerEntry>, r: u64) returns (i: nat)
    requires SumOn(entries, r) != 0
    ensures i < |entries| && entries[i].resource == r
  {
    if forall j :: 0 <= j < |entries| ==> entries[j].resource != r {
      SumOnAbsent(entries, r);
    }
    i :| 0 <= i < |entries| && entries[i].resource == r;
  }

  /** At its turn a decision fits the ledger as it stands exactly when it fits
      together with its elders: younger survivors have already been charged. */
  lemma FitsIffSurvives(s0: State, s: State, d: nat, t: nat)
    requires Consistent(s0) && d in s0.ledger.byDecision && Settled(s0, s, t) && NoneBetween(s0, d, t)
    ensures d in s.ledger.byDecision
    ensures Fits(s.auth, s.ledger, d) <==> Survives(s0, d)
  {
    var entries := s.ledger.byDecision[d];
    forall i | 0 <= i < |entries|
      ensures Known(s.auth, entries[i].resource) ==>
        (EntryFits(s.auth, s.ledger, entries[i]) <==> PrefixLoad(s0, d, entries[i].resource) <= Allowance(s.auth, entries[i].resource))
    {
      var r := entries[i].resource;
      PrefixStillHeld(s0, s, d, t, r);
      if e :| e in s.ledger.byDecision && AuditOf(s0, e) >= t && SumOn(s.ledger.byDecision[e], r) != 0 {
        var k := HolderOf(s.ledger.byDecision[e], r);
        assert EntryFits(s.auth, s.ledger, s.ledger.byDecision[e][k]);
      }
    }
  }

  lemma StillFits(auth: Authorities, l: LedgerState, l': LedgerState, d: nat)
    requires LedgerShrinks(l, l') && d in l'.byDecision && Fits(auth, l, d)
    ensures Fits(auth, l', d)
  {
    forall i | 0 <= i < |l'.byDecision[d]| ensures EntryFits(auth, l', l'.byDecision[d][i]) {
      assert EntryFits(auth, l, l.byDecision[d][i]);
    }
  }

  lemma PassOver(s0: State, s: State, d: nat, t: nat)
    requires Consistent(s0) && d in s0.ledger.byDecision && Settled(s0, s, t) && NoneBetween(s0, d, t)
    requires d in s.ledger.byDecision && Fits(s.auth, s.ledger, d)
    ensures Settled(s0, s, AuditOf(s0, d))
  {
    FitsIffSurvives(s0, s, d, t);
    SameAuditSame(s0, d);
  }

  lemma SameAuditSame(s: State, d: nat)
    requires Consistent(s) && d in s.ledger.byDecision
    ensures forall e :: e in s.ledger.byDecision && AuditOf(s, e) == AuditOf(s, d) ==> e == d
  {
    forall e | e in s.ledger.byDecision && AuditOf(s, e) == AuditOf(s, d) ensures e == d {
      assert Listed(s.history, e) && Listed(s.history, d);
    }
  }

  lemma TakeOut(s0: State, s: State, s': State, d: nat, t: nat)
    requires Consistent(s0) && d in s0.ledger.byDecision && Settled(s0, s, t) && NoneBetween(s0, d, t)
    requires d in s.ledger.byDecision && !Fits(s.auth, s.ledger, d)
    requires s'.auth == s.auth && OneGone(s.ledger, s'.ledger, d) && d !in s'.ledger.byDecision
    ensures Settled(s0, s', AuditOf(s0, d))
  {
    FitsIffSurvives(s0, s, d, t);
    SameAuditSame(s0, d);
    ShrinksTransitive(s0.ledger, s.ledger, s'.ledger);
    forall e | e in s'.ledger.byDecision && AuditOf(s0, e) >= AuditOf(s0, d) ensures Fits(s'.auth, s'.ledger, e) {
      StillFits(s.auth, s.ledger, s'.ledger, e);
    }
  }

  // ------------------------------------------------------------------
  // The loop
  // ------------------------------------------------------------------

  /** `ordered` lists the history by increasing audit number. */
  ghost predicate Orders(s0: State, ordered: seq<DecisionRecord>) {
    (forall i, j :: 0 <= i < j < |ordered| ==> ordered[i].audit < ordered[j].audit) &&
    (forall i :: 0 <= i < |ordered| ==> Listed(s0.history, ordered[i].decision) && ordered[i] == s0.history.records[ordered[i].decision]) &&
    (forall d :: Listed(s0.history, d) ==> Position(ordered, d) < |ordered|)
  }

  ghost function Position(ordered: seq<DecisionRecord>, d: nat): (i: nat)
    ensures i < |ordered| ==> ordered[i].decision == d
    ensures i <= |ordered| && forall j :: 0 <= j < i ==> ordered[j].decision != d
  {
    if ordered == [] || ordered[0].decision == d then 0 else 1 + Position(ordered[1..], d)
  }

  lemma AuditOrderOrders(s0: State)
    requires Consistent(s0)
    ensures Orders(s0, InAuditOrder(s0.history))
  {
    var ordered := InAuditOrder(s0.history);
    AuditOrderSound(s0.history, s0.audit);
    forall d | Listed(s0.history, d) ensures Position(ordered, d) < |ordered| {
      var i := AuditOrderComplete(s0.history, s0.audit, d);
      assert s0.history.records[d].decision == d;
    }
  }

  /** Position n splits the ordered history at audit number t. */
  ghost predicate SplitAt(ordered: seq<DecisionRecord>, n: nat, t: nat) {
    n <= |ordered| &&
    (forall i :: 0 <= i < n ==> ordered[i].audit < t) &&
    (forall i :: n <= i < |ordered| ==> ordered[i].audit >= t)
  }

  lemma SplitStep(s0: State, ordered: seq<DecisionRecord>, n: nat, t: nat)
    requires Orders(s0, ordered) && n > 0 && SplitAt(ordered, n, t)
    ensures SplitAt(ordered, n - 1, ordered[n - 1].audit)
  {}

  lemma OrderedNone(s0: State, ordered: seq<DecisionRecord>, n: nat, t: nat, e: nat)
    requires Consistent(s0) && Orders(s0, ordered) && n > 0 && SplitAt(ordered, n, t)
    requires e in s0.ledger.byDecision && ordered[n - 1].audit <= AuditOf(s0, e) < t
    ensures e == ordered[n - 1].decision
  {
    assert Listed(s0.history, e);
    var i := Position(ordered, e);
    assert ordered[i].audit == AuditOf(s0, e);
  }

  /** A position whose record holds nothing settles nothing. */
  lemma SkipUnheld(s0: State, s: State, ordered: seq<DecisionRecord>, n: nat, t: nat)
    requires Consistent(s0) && Orders(s0, ordered) && n > 0 && SplitAt(ordered, n, t) && Settled(s0, s, t)
    requires ordered[n - 1].decision !in s0.ledger.byDecision
    ensures Settled(s0, s, ordered[n - 1].audit)
  {
    var t' := ordered[n - 1].audit;
    forall e | e in s0.ledger.byDecision && AuditOf(s0, e) >= t' ensures AuditOf(s0, e) >= t {
      if AuditOf(s0, e) < t {
        OrderedNone(s0, ordered, n, t, e);
      }
    }
  }

  lemma HeldPosition(s0: State, ordered: seq<DecisionRecord>, n: nat, t: nat)
    requires Consistent(s0) && Orders(s0, ordered) && n > 0 && SplitAt(ordered, n, t)
    requires ordered[n - 1].decision in s0.ledger.byDecision
    ensures
      var r := ordered[n - 1];
      Admitting(r.outcome) && r.audit == AuditOf(s0, r.decision) && NoneBetween(s0, r.decision, t)
  {
    var r := ordered[n - 1];
    assert Backed(s0.history.records, r.decision, s0.ledger.byDecision[r.decision]);
    forall e | e in s0.ledger.byDecision && AuditOf(s0, r.decision) < AuditOf(s0, e) ensures AuditOf(s0, e) >= t {
      if AuditOf(s0, e) < t {
        OrderedNone(s0, ordered, n, t, e);
      }
    }
  }

  lemma FrameTransitive(a: State, b: State, c: State)
    requires SameFrame(a, b) && SameFrame(b, c)
    ensures SameFrame(a, c)
  {
    SameHistoryTransitive(a.history, b.history, c.history);
  }

  /** What any number of releases keeps. */
  ghost predicate Kept(s: State, s': State) {
    Consistent(s') && SameFrame(s, s') && LedgerShrinks(s.ledger, s'.ledger)
  }

  lemma KeptTransitive(a: State, b: State, c: State)
    requires Kept(a, b) && Kept(b, c)
    ensures Kept(a, c)
  {
    FrameTransitive(a, b, c);
    ShrinksTransitive(a.ledger, b.ledger, c.ledger);
  }

  lemma EnforceOneKeeps(s: State, reason: RevocationReason, r: DecisionRecord)
    requires Consistent(s)
    ensures Kept(s, EnforceOne(s, reason, r).1)
  {
    ReleaseKeeps(s, r.decision, reason, Revoked);
  }

  lemma {:induction false} EnforceFromKeeps(s: State, reason: RevocationReason, ordered: seq<DecisionRecord>, n: nat)
    requires Consistent(s) && n <= |ordered|
    ensures Kept(s, EnforceFrom(s, reason, ordered, n).1)
    decreases n
  {
    if n > 0 {
      var (st, s1, k) := EnforceOne(s, reason, ordered[n - 1]);
      EnforceOneKeeps(s, reason, ordered[n - 1]);
      if st == Ok {
        EnforceFromKeeps(s1, reason, ordered, n - 1);
        KeptTransitive(s, s1, EnforceFrom(s1, reason, ordered, n - 1).1);
      }
    }
  }

  /** The release of one misfit, successful or not, leaves the pass settled. */
  lemma ReleaseSettles(s0: State, s: State, reason: RevocationReason, d: nat, t: nat) returns (u: nat)
    requires Consistent(s0) && d in s0.ledger.byDecision && Consistent(s) && Settled(s0, s, t) && NoneBetween(s0, d, t)
    requires d in s.ledger.byDecision && !Fits(s.auth, s.ledger, d)
    ensures
      var (st, s1) := ReleaseDecision(s, d, reason, Revoked);
      Settled(s0, s1, u) && (st == Ok ==> u == AuditOf(s0, d))
  {
    var (st, s1) := ReleaseDecision(s, d, reason, Revoked);
    ReleaseKeeps(s, d, reason, Revoked);
    if d !in s1.ledger.byDecision {
      TakeOut(s0, s, s1, d, t);
      u := AuditOf(s0, d);
    } else {
      UntouchedStaysSettled(s0, s, s1, d, t);
      u := t;
    }
  }

  lemma StillThere(s0: State, s: State, d: nat, t: nat)
    requires Consistent(s0) && d in s0.ledger.byDecision && Settled(s0, s, t) && NoneBetween(s0, d, t)
    ensures d in s.ledger.byDecision
  {}

  /** One position of the pass. */
  lemma EnforceOneSettles(s0: State, s: State, reason: RevocationReason, ordered: seq<DecisionRecord>, n: nat, t: nat)
    returns (u: nat)
    requires Consistent(s0) && Consistent(s) && Settled(s0, s, t) && Orders(s0, ordered) && n > 0 && SplitAt(ordered, n, t)
    ensures
      var (st, s1, k) := EnforceOne(s, reason, ordered[n - 1]);
      Settled(s0, s1, u) && (st == Ok ==> u == ordered[n - 1].audit)
  {
    var d := ordered[n - 1].decision;
    if d !in s0.ledger.byDecision {
      SkipUnheld(s0, s, ordered, n, t);
      u := ordered[n - 1].audit;
      NotRevived(s0, s, d, t);
    } else {
      HeldPosition(s0, ordered, n, t);
      StillThere(s0, s, d, t);
      if Fits(s.auth, s.ledger, d) {
        PassOver(s0, s, d, t);
        u := ordered[n - 1].audit;
      } else {
        u := ReleaseSettles(s0, s, reason, d, t);
      }
    }
  }

  lemma NotRevived(s0: State, s: State, d: nat, t: nat)
    requires Consistent(s0) && Settled(s0, s, t) && d !in s0.ledger.byDecision
    ensures d !in s.ledger.byDecision
  {}

  /** However far the pass gets, what it leaves is the closed form above some
      audit number and the original ledger below it; a pass that completes has
      gone below every record. */
  lemma {:induction false} EnforceFromSettles(s0: State, s: State, reason: RevocationReason, ordered: seq<DecisionRecord>, n: nat, t: nat, st: Status, s': State)
    returns (u: nat)
    requires Consistent(s0) && Consistent(s) && Settled(s0, s, t) && Orders(s0, ordered) && SplitAt(ordered, n, t)
    requires EnforceFrom(s, reason, ordered, n).0 == st && EnforceFrom(s, reason, ordered, n).1 == s'
    ensures Settled(s0, s', u) && (st == Ok ==> SplitAt(ordered, 0, u))
    decreases n
  {
    if n == 0 {
      u := t;
    } else {
      SplitStep(s0, ordered, n, t);
      u := EnforceOneSettles(s0, s, reason, ordered, n, t);
      EnforceOneKeeps(s, reason, ordered[n - 1]);
      var (one, s1, k) := EnforceOne(s, reason, ordered[n - 1]);
      if one == Ok {
        u := EnforceFromSettles(s0, s1, reason, ordered, n - 1, u, st, s');
      }
    }
  }

  lemma UntouchedStaysSettled(s0: State, s: State, s': State, d: nat, t: nat)
    requires Consistent(s0) && Settled(s0, s, t) && s'.auth == s.auth
    requires OneGone(s.ledger, s'.ledger, d) && d in s'.ledger.byDecision
    ensures Settled(s0, s', t)
  {
    ShrinksTransitive(s0.ledger, s.ledger, s'.ledger);
    assert s'.ledger.byDecision.Keys == s.ledger.byDecision.Keys;
    SettledFit(s0, s, s', t);
  }

  /** Survivors still fit a ledger that has only shrunk. */
  lemma SettledFit(s0: State, s: State, s': State, t: nat)
    requires Consistent(s0) && Settled(s0, s, t) && s'.auth == s.auth && LedgerShrinks(s.ledger, s'.ledger)
    ensures forall e :: e in s'.ledger.byDecision && AuditOf(s0, e) >= t ==> Fits(s'.auth, s'.ledger, e)
  {
    forall e | e in s'.ledger.byDecision && AuditOf(s0, e) >= t ensures Fits(s'.auth, s'.ledger, e) {
      StillFits(s.auth, s.ledger, s'.ledger, e);
    }
  }

  lemma StartsSettled(s: State, ordered: seq<DecisionRecord>)
    requires Consistent(s) && Orders(s, ordered)
    ensures Settled(s, s, s.audit + 1) && SplitAt(ordered, |ordered|, s.audit + 1)
  {
    forall d | d in s.ledger.byDecision ensures AuditOf(s, d) < s.audit {
      assert Listed(s.history, d);
    }
  }

  lemma EndsSettled(s0: State, s: State, ordered: seq<DecisionRecord>, u: nat)
    requires Consistent(s0) && Orders(s0, ordered) && Settled(s0, s, u) && SplitAt(ordered, 0, u)
    ensures Settled(s0, s, 0)
  {
    forall d | d in s0.ledger.byDecision ensures AuditOf(s0, d) >= u {
      assert Listed(s0.history, d);
      assert ordered[Position(ordered, d)].audit >= u;
    }
  }

  // ------------------------------------------------------------------
  // Clearing the revalidation flags
  // ------------------------------------------------------------------

  lemma {:induction false} SumOverSame(m: Table, m': Table, f: seq<LedgerEntry> -> nat)
    requires m.Keys == m'.Keys && forall d :: d in m ==> f(m[d]) == f(m'[d])
    ensures SumOver(m, f) == SumOver(m', f)
    decreases m.Keys
  {
    if m.Keys != {} {
      var d := Largest(m.Keys);
      SumOverSame(m - {d}, m' - {d}, f);
    }
  }

  lemma {:induction false} SumOnFlags(entries: seq<LedgerEntry>, flag: bool, r: u64)
    ensures SumOn(WithFlags(entries, flag), r) == SumOn(entries, r)
  {
    if entries != [] {
      var n := |entries| - 1;
      SumOnFlags(entries[..n], flag, r);
      assert WithFlags(entries, flag)[..n] == WithFlags(entries[..n], flag);
    }
  }

  lemma FlagsConserve(l: LedgerState, flag: bool)
    requires Conserved(l)
    ensures Conserved(Flagged(l, flag))
  {
    var l' := Flagged(l, flag);
    forall r: u64 ensures Admitted(l', r) == LoadOn(l'.byDecision, r) {
      forall d | d in l.byDecision ensures OnResource(r)(l.byDecision[d]) == OnResource(r)(l'.byDecision[d]) {
        SumOnFlags(l.byDecision[d], flag, r);
      }
      SumOverSame(l.byDecision, l'.byDecision, OnResource(r));
      assert Admitted(l, r) == LoadOn(l.byDecision, r);
    }
    SumOverSame(l.byDecision, l'.byDecision, Size());
    forall d | d in l'.byDecision ensures EntriesOk(d, l'.byDecision[d]) {
      assert EntriesOk(d, l.byDecision[d]);
    }
  }

  lemma FlagsConsistent(s: State, flag: bool, pending: bool)
    requires Consistent(s)
    ensures
      var s' := s.(ledger := Flagged(s.ledger, flag), pendingReconciliation := pending);
      Consistent(s') && SameFrame(s, s')
  {
    FlagsConserve(s.ledger, flag);
    var t := Flagged(s.ledger, flag).byDecision;
    forall d | d in t ensures Backed(s.history.records, d, t[d]) {
      assert Backed(s.history.records, d, s.ledger.byDecision[d]);
    }
  }

  // ------------------------------------------------------------------
  // The result
  // ------------------------------------------------------------------

  /** Admitted load plus obligations plus headroom fits on every resource that
      carries admitted load, wherever capacity is known at all. */
  ghost predicate Closed(s: State) {
    s.auth.capacity.Some? ==> forall d :: d in s.ledger.byDecision ==> Fits(s.auth, s.ledger, d)
  }

  /** The same grants, apart from their revalidation flags. */
  ghost predicate SameGrants(a: Table, b: Table) {
    a.Keys == b.Keys && forall d :: d in a ==> WithFlags(a[d], false) == WithFlags(b[d], false)
  }

  lemma FlagsSameGrants(l: LedgerState, flag: bool)
    ensures SameGrants(l.byDecision, Flagged(l, flag).byDecision)
  {}

  lemma SettledClosed(s0: State, s: State)
    requires Consistent(s0) && Settled(s0, s, 0)
    ensures ClosedForm(s0, Cleared(s))
  {
    var l' := Flagged(s.ledger, false);
    forall d | d in l'.byDecision ensures Fits(s.auth, l', d) {
      assert Fits(s.auth, s.ledger, d);
      forall i | 0 <= i < |l'.byDecision[d]| ensures EntryFits(s.auth, l', l'.byDecision[d][i]) {
        assert EntryFits(s.auth, s.ledger, s.ledger.byDecision[d][i]);
      }
    }
  }

  /** Every grant of the second table is one of the first, apart from flags. */
  ghost predicate SubGrants(a: Table, b: Table) {
    forall d :: d in b ==> d in a && WithFlags(b[d], false) == WithFlags(a[d], false)
  }

  lemma EnforceLoopExact(s: State, reason: RevocationReason)
    requires Consistent(s)
    ensures
      var ordered := InAuditOrder(s.history);
      var (st, s', k) := EnforceFrom(s, reason, ordered, |ordered|);
      Kept(s, s') && (st == Ok ==> Settled(s, s', 0))
  {
    var ordered := InAuditOrder(s.history);
    AuditOrderOrders(s);
    StartsSettled(s, ordered);
    EnforceFromKeeps(s, reason, ordered, |ordered|);
    var (st, s', k) := EnforceFrom(s, reason, ordered, |ordered|);
    var u := EnforceFromSettles(s, s, reason, ordered, |ordered|, s.audit + 1, st, s');
    if st == Ok {
      EndsSettled(s, s', ordered, u);
    }
  }

  /** What a pass leaves, whether or not it completes. */
  ghost predicate Enforced(s: State, s': State) {
    Consistent(s') && SameFrame(s, s') && SubGrants(s.ledger.byDecision, s'.ledger.byDecision)
  }

  /** What a completed pass leaves: exactly the decisions that fit together with
      their elders, and closed accounts. */
  ghost predicate ClosedForm(s: State, s': State)
    requires Consistent(s)
  {
    Closed(s') && s'.ledger.byDecision.Keys == set d | d in s.ledger.byDecision && Survives(s, d)
  }

  ghost function Cleared(s: State): State {
    s.(ledger := Flagged(s.ledger, false), pendingReconciliation := false)
  }

  lemma ClearedExact(s: State, s1: State)
    requires Consistent(s) && Kept(s, s1)
    ensures Enforced(s, Cleared(s1))
  {
    FlagsConsistent(s1, false, false);
    FrameTransitive(s, s1, Cleared(s1));
  }

  lemma KeptEnforced(s: State, s1: State)
    requires Kept(s, s1)
    ensures Enforced(s, s1)
  {}

  lemma JournalOnly(s: State, s2: State, j: JournalState)
    requires Consistent(s)
    ensures Enforced(s, s2) ==> Enforced(s, s2.(journal := j))
    ensures ClosedForm(s, s2) ==> ClosedForm(s, s2.(journal := j))
  {}

  lemma FinishExact(s: State, st: Status, s1: State, revoked: nat)
    requires Consistent(s) && Kept(s, s1) && (st == Ok ==> Settled(s, s1, 0))
    ensures
      var (st', s') := FinishEnforcement(st, s1, revoked);
      Enforced(s, s') && (st' == Ok ==> ClosedForm(s, s'))
  {
    if st == Ok {
      ClearedExact(s, s1);
      SettledClosed(s, s1);
      var r := AuditMark(AuditMarkRecord(s1.audit, s1.epoch, |s1.journal.log|));
      JournalOnly(s, Cleared(s1), Write(Cleared(s1), r).1.journal);
    } else {
      KeptEnforced(s, s1);
    }
  }

  /** A pass that returns Ok keeps exactly the decisions that fit together with
      their elders, with their load unchanged, and closes the accounts. A pass
      that fails has removed some decisions and altered nothing else. */
  lemma EnforceExact(s: State, reason: RevocationReason)
    requires Consistent(s) && s.auth.capacity.Some?
    ensures
      var (st, s') := Enforce(s, reason);
      Enforced(s, s') && (st == Ok ==> ClosedForm(s, s'))
  {
    EnforceLoopExact(s, reason);
    var ordered := InAuditOrder(s.history);
    var (st, s1, k) := EnforceFrom(s, reason, ordered, |ordered|);
    FinishExact(s, st, s1, k);
  }
}
