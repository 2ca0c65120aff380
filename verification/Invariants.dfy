/** What every operation of the engine keeps, whatever the journal does. */
module Invariants {
  import opened Base
  import opened Model
  import opened Ledger
  import opened History
  import opened Evaluate
  import opened Engine

  predicate EntryMatches(r: DecisionRecord, e: LedgerEntry) {
    e.decision == r.decision && e.demand == r.demand && e.path == r.path && e.epoch == r.epoch && e.boundCapacity == r.boundCapacity
  }

  ghost predicate Ascending(entries: seq<LedgerEntry>) {
    forall i, j :: 0 <= i < j < |entries| ==> entries[i].resource < entries[j].resource
  }

  /** A live grant is justified by an admitting, unreleased record that says the
      same about it. */
  ghost predicate Backed(records: map<nat, DecisionRecord>, d: nat, entries: seq<LedgerEntry>) {
    d in records && Admitting(records[d].outcome) && !Released(records[d].state) && Ascending(entries) &&
    forall i :: 0 <= i < |entries| ==> EntryMatches(records[d], entries[i])
  }

  ghost predicate AllBacked(records: map<nat, DecisionRecord>, table: Table) {
    forall d :: d in table ==> Backed(records, d, table[d])
  }

  ghost predicate IdsBelow(records: map<nat, DecisionRecord>, next: nat) {
    forall d :: d in records ==> d < next
  }

  ghost predicate Consistent(s: State) {
    ValidAuthorities(s.auth) && Conserved(s.ledger) && Indexed(s.history, s.audit) &&
    Anchored(s.history, s.ledger.byDecision.Keys, s.audit) && s.nextDecision >= 1 &&
    IdsBelow(s.history.records, s.nextDecision) && AllBacked(s.history.records, s.ledger.byDecision)
  }

  lemma InitialConsistent(epoch: u64, incarnation: u64, tick: u64, historyCapacity: nat, attemptCapacity: nat)
    ensures Consistent(Initial(epoch, incarnation, tick, historyCapacity, attemptCapacity))
  {}

  // ------------------------------------------------------------------
  // Filing a finished decision
  // ------------------------------------------------------------------

  lemma InsertTrim(h: HistoryState, r: DecisionRecord, table: Table, audit: nat, next: nat)
    requires Indexed(h, r.audit) && r.audit < audit && r.decision != 0 && r.decision !in h.records
    requires IdsBelow(h.records, next) && r.decision < next
    requires AllBacked(h.records[r.decision := r], table) && Anchored(h, table.Keys - {r.decision}, r.audit)
    ensures
      var t := TrimIfNeeded(Inserted(h, r), table.Keys);
      Indexed(t, audit) && Anchored(t, table.Keys, audit) && IdsBelow(t.records, next) && AllBacked(t.records, table)
  {
    var g := Inserted(h, r);
    InsertIndexed(h, r, r.audit);
    InsertAnchored(h, r, table.Keys - {r.decision}, r.audit);
    assert g.records == h.records[r.decision := r];
    TrimKeeps(g, table.Keys, audit);
    var t := TrimIfNeeded(g, table.Keys);
    RetainsAnchored(g, t, table.Keys, audit);
    forall d | d in table ensures Backed(t.records, d, table[d]) {
      assert Backed(g.records, d, table[d]);
    }
  }

  /** The state after an identity has been consumed for d, before it is filed. */
  ghost predicate Opened(s: State, d: Decision) {
    ValidAuthorities(s.auth) && Conserved(s.ledger) && Indexed(s.history, d.audit) &&
    Anchored(s.history, s.ledger.byDecision.Keys, d.audit) && s.audit == d.audit + 1 &&
    d.decision >= 1 && s.nextDecision == d.decision + 1 &&
    IdsBelow(s.history.records, d.decision) && AllBacked(s.history.records, s.ledger.byDecision)
  }

  lemma OpenedConsistent(s: State, d: Decision)
    requires Opened(s, d)
    ensures Consistent(s)
  {}

  lemma BackedMore(records: map<nat, DecisionRecord>, r: DecisionRecord, table: Table)
    requires AllBacked(records, table) && r.decision !in records
    ensures AllBacked(records[r.decision := r], table)
  {
    forall d | d in table ensures Backed(records[r.decision := r], d, table[d]) {
      assert Backed(records, d, table[d]);
    }
  }

  lemma RefusalKeeps(s: State, d: Decision, recordAttempt: bool)
    requires Opened(s, d)
    ensures
      var s' := FinishRefusal(s, d, recordAttempt).1;
      Consistent(s') && s'.ledger == s.ledger && s'.auth == s.auth
  {
    var r := ToRecord(s.auth, d);
    OpenedConsistent(s, d);
    if Write(s, AdmissionRefused(r)).0 {
      BackedMore(s.history.records, r, s.ledger.byDecision);
      InsertTrim(s.history, r, s.ledger.byDecision, s.audit, s.nextDecision);
    }
  }

  lemma RefuseKeeps(cfg: Config, s: State, req: Request, outcome: Outcome, recordAttempt: bool)
    requires Consistent(s)
    ensures
      var s' := Refuse(cfg, s, req, outcome, recordAttempt).1;
      Consistent(s') && s'.ledger == s.ledger && s'.auth == s.auth
  {
    var (d, s1) := BeginDecision(cfg, s, req, outcome);
    RefusalKeeps(s1, d, recordAttempt);
  }

  // ------------------------------------------------------------------
  // Admission
  // ------------------------------------------------------------------

  ghost predicate AscendingAmounts(amounts: seq<Amount>) {
    forall i, j :: 0 <= i < j < |amounts| ==> amounts[i].resource < amounts[j].resource
  }

  lemma NewlyBacked(records: map<nat, DecisionRecord>, r: DecisionRecord, d: Decision, amounts: seq<Amount>)
    requires Admitting(r.outcome) && !Released(r.state) && AscendingAmounts(amounts)
    requires r.decision == d.decision && r.demand == d.demand && r.path == d.path && r.epoch == d.epoch && r.boundCapacity == d.boundCapacity
    ensures Backed(records[r.decision := r], d.decision, EntriesFor(HoldOf(d, amounts)))
  {}

  /** The ledger after an attempt to hold: unchanged in content, or with exactly
      the new decision's entries added. */
  ghost predicate LedgerGrows(before: LedgerState, after: LedgerState, d: Decision, amounts: seq<Amount>, taken: bool) {
    Conserved(after) &&
    after.byDecision == (if taken then before.byDecision[d.decision := EntriesFor(HoldOf(d, amounts))] else before.byDecision) &&
    forall r: u64 :: Admitted(after, r) == Admitted(before, r) + (if taken then AmountOn(amounts, r) else 0)
  }

  lemma CompactKeeps(cfg: Config, s: State)
    requires Consistent(s)
    ensures
      var s' := CompactIfNeeded(cfg, s).1;
      Consistent(s') && s'.ledger == s.ledger && s'.auth == s.auth
  {
    CompactJournalOnly(cfg, s);
    JournalConsistent(s, CompactIfNeeded(cfg, s).1.journal);
  }

  lemma CompactJournalOnly(cfg: Config, s: State)
    ensures CompactIfNeeded(cfg, s).1 == s.(journal := CompactIfNeeded(cfg, s).1.journal)
  {}

  lemma JournalConsistent(s: State, j: JournalState)
    requires Consistent(s)
    ensures Consistent(s.(journal := j))
  {}

  lemma UndoneReservation(l: LedgerState, h: Hold)
    requires Conserved(l) && DistinctAmounts(h.amounts) && Reserved(l, h).0 == Ok
    ensures
      var l' := Reserved(l, h).1;
      ReleasedLoad(l', h.decision).0 == Ok &&
      LedgerSame(l, ReleasedLoad(l', h.decision).1)
  {
    var l' := Reserved(l, h).1;
    ReserveConserves(l, h);
    ReleaseFailsIff(l', h.decision);
    var entries := EntriesFor(h);
    forall i | 0 <= i < |entries| ensures entries[i].resource in l'.totals {
      AddAllKeys(l.totals, h.amounts, h.amounts[i].resource);
    }
    ReleaseConserves(l', h.decision);
    assert l'.byDecision - {h.decision} == l.byDecision;
    forall r: u64 ensures Admitted(ReleasedLoad(l', h.decision).1, r) == Admitted(l, r) {
      SumOnEntriesFor(h, r);
    }
  }

  ghost predicate LedgerSame(a: LedgerState, b: LedgerState) {
    Conserved(b) && b.byDecision == a.byDecision && forall r: u64 :: Admitted(b, r) == Admitted(a, r)
  }

  lemma AdmissionKeeps(cfg: Config, s: State, d: Decision, amounts: seq<Amount>)
    requires Opened(s, d) && Admitting(d.outcome) && AscendingAmounts(amounts)
    ensures
      var s' := FinishAdmission(cfg, s, d, amounts).1;
      Consistent(s') && s'.auth == s.auth &&
      exists taken: bool :: LedgerGrows(s.ledger, s'.ledger, d, amounts, taken)
  {
    var h := HoldOf(d, amounts);
    var (prepared, s1) := Write(s, AdmissionPrepare(IntentOf(d, amounts)));
    OpenedConsistent(s, d);
    assert LedgerGrows(s.ledger, s.ledger, d, amounts, false);
    if prepared {
      ReserveConserves(s.ledger, h);
      var (reserved, l) := Reserved(s1.ledger, h);
      var s2 := s1.(ledger := l);
      if reserved != Ok {
        assert LedgerGrows(s.ledger, l, d, amounts, false);
      } else {
        assert LedgerGrows(s.ledger, l, d, amounts, true);
        var r := ToRecord(s2.auth, d).(ledgerLive := true);
        var (committed, s3) := Write(s2, AdmissionCommit(r));
        if !committed {
          UndoneReservation(s.ledger, h);
          assert LedgerGrows(s.ledger, ReleasedLoad(l, d.decision).1, d, amounts, false);
        } else {
          CommittedKeeps(s, s3, d, amounts, r);
          CompactKeeps(cfg, Filed(s3, d, r, true));
        }
      }
    }
  }

  /** Filing an admission whose load is in the ledger. */
  lemma CommittedKeeps(s: State, s3: State, d: Decision, amounts: seq<Amount>, r: DecisionRecord)
    requires Opened(s, d) && Admitting(d.outcome) && AscendingAmounts(amounts) && Reserved(s.ledger, HoldOf(d, amounts)).0 == Ok
    requires s3 == s.(ledger := Reserved(s.ledger, HoldOf(d, amounts)).1, journal := s3.journal)
    requires r == ToRecord(s.auth, d).(ledgerLive := true)
    ensures Consistent(Filed(s3, d, r, true))
  {
    ReserveConserves(s.ledger, HoldOf(d, amounts));
    BackedMore(s.history.records, r, s.ledger.byDecision);
    NewlyBacked(s.history.records, r, d, amounts);
    assert AllBacked(s.history.records[r.decision := r], s3.ledger.byDecision);
    InsertTrim(s.history, r, s3.ledger.byDecision, s.audit, s.nextDecision);
  }
}
