/** Compaction (EngineCore::compact_locked, src/engine/engine.cpp) rewrites the
    journal; recovery cannot tell. */
module Compaction {
  import opened Base
  import opened Model
  import opened Ledger
  import opened History
  import opened Evaluate
  import opened Engine
  import opened Invariants
  import opened Enforcement
  import opened Recovery
  import opened Restoration
  import opened Meaning

  predicate LiveRecord(l: LedgerState, r: DecisionRecord) {
    Admitting(r.outcome) && Holds(l, r.decision)
  }

  /** The record as recovery brings it back. */
  function Restamped(l: LedgerState, r: DecisionRecord): DecisionRecord {
    r.(restoredFromDisk := true, ledgerLive := LiveRecord(l, r) && r.state != Revoked)
  }

  function RecordsOf(l: LedgerState, ordered: seq<DecisionRecord>): map<nat, DecisionRecord> {
    if ordered == [] then map[]
    else
      var r := ordered[|ordered| - 1];
      RecordsOf(l, ordered[..|ordered| - 1])[r.decision := Restamped(l, r)]
  }

  function IndexOf(ordered: seq<DecisionRecord>): map<nat, nat> {
    if ordered == [] then map[]
    else
      var r := ordered[|ordered| - 1];
      IndexOf(ordered[..|ordered| - 1])[r.audit := r.decision]
  }

  function IntentsOf(l: LedgerState, ordered: seq<DecisionRecord>): map<nat, PrepareRecord> {
    if ordered == [] then map[]
    else
      var r := ordered[|ordered| - 1];
      var front := IntentsOf(l, ordered[..|ordered| - 1]);
      if LiveRecord(l, r) then front[r.decision := PrepareOf(r, l.byDecision[r.decision])] else front
  }

  function TopDecision(ordered: seq<DecisionRecord>): nat {
    if ordered == [] then 0 else Max(TopDecision(ordered[..|ordered| - 1]), ordered[|ordered| - 1].decision)
  }

  function TopAudit(ordered: seq<DecisionRecord>): nat {
    if ordered == [] then 0 else Max(TopAudit(ordered[..|ordered| - 1]), ordered[|ordered| - 1].audit)
  }

  ghost predicate Rewritable(l: LedgerState, ordered: seq<DecisionRecord>) {
    (forall i, j :: 0 <= i < j < |ordered| ==> ordered[i].decision != ordered[j].decision) &&
    (forall i :: 0 <= i < |ordered| ==> ordered[i].decision != 0) &&
    forall d :: d in l.byDecision ==> |l.byDecision[d]| <= MAX_RESOURCE_BINDINGS
  }

  /** What replaying the rewritten records rebuilds. */
  ghost predicate Rebuilt(b: Recovering, st: Recovering, l: LedgerState, ordered: seq<DecisionRecord>) {
    st.policy == b.policy && st.epoch == b.epoch && st.pending == map[] && st.released == {} &&
    st.committed == IntentsOf(l, ordered) &&
    st.history == b.history.(records := RecordsOf(l, ordered), auditIndex := IndexOf(ordered)) &&
    st.maxDecision == TopDecision(ordered) && st.audit == TopAudit(ordered)
  }

  ghost predicate Bare(b: Recovering) {
    b.pending == map[] && b.released == {} && b.committed == map[] && b.history.records == map[] && b.history.auditIndex == map[] &&
    b.maxDecision == 0 && b.audit == 0
  }

  lemma {:induction false} RecordsOfKeys(l: LedgerState, ordered: seq<DecisionRecord>, d: nat)
    ensures d in RecordsOf(l, ordered) <==> exists i :: 0 <= i < |ordered| && ordered[i].decision == d
  {
    if ordered != [] {
      var n := |ordered| - 1;
      RecordsOfKeys(l, ordered[..n], d);
      assert ordered[n].decision == d || (forall i :: 0 <= i < |ordered| && ordered[i].decision == d ==> i < n && ordered[..n][i].decision == d);
    }
  }

  lemma RewriteRefused(b: Recovering, st: Recovering, l: LedgerState, front: seq<DecisionRecord>, r: DecisionRecord)
    requires Rebuilt(b, st, l, front) && r.decision != 0 && r.decision !in RecordsOf(l, front) && !LiveRecord(l, r)
    ensures
      var a := Absorb(st, AdmissionRefused(r));
      a.Replaying? && Rebuilt(b, a.state, l, front + [r])
  {
    assert (front + [r])[..|front|] == front;
  }

  lemma RewriteLive(b: Recovering, st: Recovering, l: LedgerState, front: seq<DecisionRecord>, r: DecisionRecord)
    requires Rebuilt(b, st, l, front) && r.decision != 0 && r.decision !in RecordsOf(l, front) && LiveRecord(l, r)
    requires |l.byDecision[r.decision]| <= MAX_RESOURCE_BINDINGS
    ensures
      var a := Absorb(st, AdmissionPrepare(PrepareOf(r, l.byDecision[r.decision])));
      a.Replaying? &&
      var c := Absorb(a.state, AdmissionCommit(r));
      c.Replaying? && Rebuilt(b, c.state, l, front + [r])
  {
    assert (front + [r])[..|front|] == front;
    var p := PrepareOf(r, l.byDecision[r.decision]);
    var st1 := Absorb(st, AdmissionPrepare(p)).state;
    assert st1.pending == map[r.decision := p];
    assert st1.pending - {r.decision} == map[];
  }

  lemma ReplayOne(st: Recovering, x: Record)
    ensures ReplayLog(st, [x]) == Absorb(st, x)
  {
    assert [x][..0] == [];
  }

  lemma ReplayTwo(st: Recovering, x: Record, y: Record)
    requires Absorb(st, x).Replaying?
    ensures ReplayLog(st, [x, y]) == Absorb(Absorb(st, x).state, y)
  {
    ReplayOne(st, x);
    ReplaySnoc(st, [x], y);
    assert [x] + [y] == [x, y];
  }

  lemma RewriteStep(b: Recovering, st: Recovering, l: LedgerState, front: seq<DecisionRecord>, r: DecisionRecord)
    requires Rebuilt(b, st, l, front) && r.decision != 0 && r.decision !in RecordsOf(l, front)
    requires Holds(l, r.decision) ==> |l.byDecision[r.decision]| <= MAX_RESOURCE_BINDINGS
    ensures
      var a := ReplayLog(st, CompactedRecord(l, r));
      a.Replaying? && Rebuilt(b, a.state, l, front + [r])
  {
    if LiveRecord(l, r) {
      RewriteLive(b, st, l, front, r);
      ReplayTwo(st, AdmissionPrepare(PrepareOf(r, l.byDecision[r.decision])), AdmissionCommit(r));
    } else {
      RewriteRefused(b, st, l, front, r);
      ReplayOne(st, AdmissionRefused(r));
    }
  }

  ghost predicate Rewrites(b: Recovering, l: LedgerState, ordered: seq<DecisionRecord>) {
    var a := ReplayLog(b, CompactedRecords(l, ordered));
    a.Replaying? && Rebuilt(b, a.state, l, ordered)
  }

  lemma RewriteNext(b: Recovering, l: LedgerState, front: seq<DecisionRecord>, r: DecisionRecord)
    requires Rewrites(b, l, front) && r.decision != 0 && r.decision !in RecordsOf(l, front)
    requires Holds(l, r.decision) ==> |l.byDecision[r.decision]| <= MAX_RESOURCE_BINDINGS
    ensures Rewrites(b, l, front + [r])
  {
    ReplayConcat(b, CompactedRecords(l, front), CompactedRecord(l, r));
    RewriteStep(b, ReplayLog(b, CompactedRecords(l, front)).state, l, front, r);
    assert (front + [r])[..|front|] == front;
    assert CompactedRecords(l, front + [r]) == CompactedRecords(l, front) + CompactedRecord(l, r);
  }

  lemma {:induction false} ReplayCompacted(b: Recovering, l: LedgerState, ordered: seq<DecisionRecord>)
    requires Bare(b) && Rewritable(l, ordered)
    ensures Rewrites(b, l, ordered)
    decreases |ordered|
  {
    if ordered != [] {
      var n := |ordered| - 1;
      var front, r := ordered[..n], ordered[n];
      ReplayCompacted(b, l, front);
      RecordsOfKeys(l, front, r.decision);
      RewriteNext(b, l, front, r);
      assert front + [r] == ordered;
    }
  }

  // ------------------------------------------------------------------
  // The whole log
  // ------------------------------------------------------------------

  ghost function Header(s: State): seq<Record> {
    [BootOf(s)] + (if s.auth.policy.Some? then [PolicyConfig(s.auth.policy.value)] else [])
  }

  lemma ReplayHeader(b: Recovering, s: State)
    requires b == Blank(b.history.capacity, b.attempts.capacity) && (s.auth.policy.Some? ==> ValidPolicy(s.auth.policy.value))
    ensures ReplayLog(b, Header(s)) == Replaying(b.(epoch := s.epoch, policy := s.auth.policy))
  {
    ReplayOne(b, BootOf(s));
    if s.auth.policy.Some? {
      ReplayTwo(b, BootOf(s), PolicyConfig(s.auth.policy.value));
      assert Header(s) == [BootOf(s), PolicyConfig(s.auth.policy.value)];
    } else {
      assert Header(s) == [BootOf(s)];
    }
  }

  /** What recovery makes of a compacted journal. */
  ghost predicate Recompacted(b: Recovering, st: Recovering, s: State, ordered: seq<DecisionRecord>) {
    st.policy == s.auth.policy && st.epoch == s.epoch && st.pending == map[] && st.released == {} &&
    st.committed == IntentsOf(s.ledger, ordered) &&
    st.history == b.history.(records := RecordsOf(s.ledger, ordered), auditIndex := IndexOf(ordered)) &&
    st.maxDecision == TopDecision(ordered) && st.audit == Max(TopAudit(ordered), s.audit)
  }

  lemma ReplayBody(b: Recovering, s: State, ordered: seq<DecisionRecord>)
    requires b == Blank(b.history.capacity, b.attempts.capacity) && (s.auth.policy.Some? ==> ValidPolicy(s.auth.policy.value))
    requires Rewritable(s.ledger, ordered)
    ensures
      var a := ReplayLog(b, Header(s) + CompactedRecords(s.ledger, ordered));
      a.Replaying? && Rebuilt(b.(epoch := s.epoch, policy := s.auth.policy), a.state, s.ledger, ordered)
  {
    ReplayHeader(b, s);
    ReplayConcat(b, Header(s), CompactedRecords(s.ledger, ordered));
    ReplayCompacted(b.(epoch := s.epoch, policy := s.auth.policy), s.ledger, ordered);
  }

  lemma MarkBody(b: Recovering, st: Recovering, s: State, ordered: seq<DecisionRecord>, frames: nat)
    requires Rebuilt(b.(epoch := s.epoch, policy := s.auth.policy), st, s.ledger, ordered)
    ensures
      var a := Absorb(st, AuditMark(AuditMarkRecord(s.audit, s.epoch, frames)));
      a.Replaying? && Recompacted(b, a.state, s, ordered)
  {}

  lemma CompactedShape(s: State) returns (frames: nat)
    ensures CompactedLog(s) ==
      Header(s) + CompactedRecords(s.ledger, InAuditOrder(s.history)) + [AuditMark(AuditMarkRecord(s.audit, s.epoch, frames))]
  {
    frames := |Header(s) + CompactedRecords(s.ledger, InAuditOrder(s.history))|;
  }

  lemma ReplayCompactedLog(b: Recovering, s: State)
    requires b == Blank(b.history.capacity, b.attempts.capacity) && (s.auth.policy.Some? ==> ValidPolicy(s.auth.policy.value))
    requires Rewritable(s.ledger, InAuditOrder(s.history))
    ensures
      var a := ReplayLog(b, CompactedLog(s));
      a.Replaying? && Recompacted(b, a.state, s, InAuditOrder(s.history))
  {
    var ordered := InAuditOrder(s.history);
    var frames := CompactedShape(s);
    var body := Header(s) + CompactedRecords(s.ledger, ordered);
    ReplayBody(b, s, ordered);
    MarkBody(b, ReplayLog(b, body).state, s, ordered, frames);
    ReplaySnoc(b, body, AuditMark(AuditMarkRecord(s.audit, s.epoch, frames)));
  }

  // ------------------------------------------------------------------
  // What that is in terms of the engine that wrote it
  // ------------------------------------------------------------------

  lemma {:induction false} RecordsOfAt(l: LedgerState, ordered: seq<DecisionRecord>, i: nat)
    requires i < |ordered| && forall j, k :: 0 <= j < k < |ordered| ==> ordered[j].decision != ordered[k].decision
    ensures ordered[i].decision in RecordsOf(l, ordered) && RecordsOf(l, ordered)[ordered[i].decision] == Restamped(l, ordered[i])
  {
    var n := |ordered| - 1;
    if i < n {
      RecordsOfAt(l, ordered[..n], i);
    }
  }

  lemma {:induction false} IntentsOfAt(l: LedgerState, ordered: seq<DecisionRecord>, i: nat)
    requires i < |ordered| && forall j, k :: 0 <= j < k < |ordered| ==> ordered[j].decision != ordered[k].decision
    requires LiveRecord(l, ordered[i])
    ensures ordered[i].decision in IntentsOf(l, ordered)
    ensures IntentsOf(l, ordered)[ordered[i].decision] == PrepareOf(ordered[i], l.byDecision[ordered[i].decision])
  {
    var n := |ordered| - 1;
    if i < n {
      IntentsOfAt(l, ordered[..n], i);
    }
  }

  lemma {:induction false} IntentsAreHeld(l: LedgerState, ordered: seq<DecisionRecord>, d: nat)
    requires d in IntentsOf(l, ordered)
    ensures d in l.byDecision && d in RecordsOf(l, ordered)
  {
    var n := |ordered| - 1;
    if d in IntentsOf(l, ordered[..n]) {
      IntentsAreHeld(l, ordered[..n], d);
    }
  }

  lemma {:induction false} IndexOfAt(ordered: seq<DecisionRecord>, i: nat)
    requires i < |ordered| && forall j, k :: 0 <= j < k < |ordered| ==> ordered[j].audit < ordered[k].audit
    ensures ordered[i].audit in IndexOf(ordered) && IndexOf(ordered)[ordered[i].audit] == ordered[i].decision
  {
    var n := |ordered| - 1;
    if i < n {
      IndexOfAt(ordered[..n], i);
    }
  }

  lemma {:induction false} IndexOfKeys(ordered: seq<DecisionRecord>, a: nat) returns (i: nat)
    requires a in IndexOf(ordered)
    ensures i < |ordered| && ordered[i].audit == a
  {
    var n := |ordered| - 1;
    if ordered[n].audit == a {
      i := n;
    } else {
      i := IndexOfKeys(ordered[..n], a);
    }
  }

  lemma {:induction false} TopBounds(ordered: seq<DecisionRecord>, next: nat, audit: nat)
    requires forall i :: 0 <= i < |ordered| ==> ordered[i].decision < next && ordered[i].audit <= audit
    ensures next >= 1 ==> TopDecision(ordered) < next
    ensures TopAudit(ordered) <= audit
    ensures forall i :: 0 <= i < |ordered| ==> ordered[i].decision <= TopDecision(ordered)
  {
    if ordered != [] {
      TopBounds(ordered[..|ordered| - 1], next, audit);
    }
  }

  lemma OrdersDistinct(s: State, ordered: seq<DecisionRecord>)
    requires Consistent(s) && Orders(s, ordered)
    ensures forall i, j :: 0 <= i < j < |ordered| ==> ordered[i].decision != ordered[j].decision
    ensures forall i :: 0 <= i < |ordered| ==> ordered[i].decision != 0 && ordered[i].decision < s.nextDecision && ordered[i].audit <= s.audit
  {
    forall i, j | 0 <= i < j < |ordered| ensures ordered[i].decision != ordered[j].decision {
      assert ordered[i].audit < ordered[j].audit;
    }
    forall i | 0 <= i < |ordered| ensures ordered[i].audit <= s.audit {
      assert ordered[i].decision in s.history.records;
    }
  }

  /** The history recovery brings back: the listed records, under the same index.
      Every record is listed until a reopened engine has reused its number. */
  ghost predicate SameRecords(s: State, h: HistoryState) {
    h.auditIndex == s.history.auditIndex && (forall d :: d in h.records <==> Listed(s.history, d)) &&
    forall d :: d in h.records ==> h.records[d] == Restamped(s.ledger, s.history.records[d])
  }

  lemma RebuiltRecords(s: State, ordered: seq<DecisionRecord>)
    requires Consistent(s) && Orders(s, ordered)
    ensures forall d :: Listed(s.history, d) ==>
      d in RecordsOf(s.ledger, ordered) && RecordsOf(s.ledger, ordered)[d] == Restamped(s.ledger, s.history.records[d])
    ensures forall d :: d in RecordsOf(s.ledger, ordered) ==> Listed(s.history, d)
  {
    OrdersDistinct(s, ordered);
    forall d | Listed(s.history, d)
      ensures d in RecordsOf(s.ledger, ordered) && RecordsOf(s.ledger, ordered)[d] == Restamped(s.ledger, s.history.records[d])
    {
      RecordsOfAt(s.ledger, ordered, Position(ordered, d));
    }
    forall d | d in RecordsOf(s.ledger, ordered) ensures Listed(s.history, d) {
      RecordsOfKeys(s.ledger, ordered, d);
    }
  }

  lemma RebuiltIndex(s: State, ordered: seq<DecisionRecord>)
    requires Consistent(s) && Orders(s, ordered)
    ensures IndexOf(ordered) == s.history.auditIndex
  {
    forall a | a in s.history.auditIndex ensures a in IndexOf(ordered) && IndexOf(ordered)[a] == s.history.auditIndex[a] {
      var d := s.history.auditIndex[a];
      assert Listed(s.history, d);
      IndexOfAt(ordered, Position(ordered, d));
    }
    forall a | a in IndexOf(ordered) ensures a in s.history.auditIndex {
      var i := IndexOfKeys(ordered, a);
      assert Listed(s.history, ordered[i].decision);
    }
  }

  lemma EntriesRestored(r: DecisionRecord, entries: seq<LedgerEntry>)
    requires forall i :: 0 <= i < |entries| ==> EntryMatches(r, entries[i])
    ensures WithFlags(EntriesFor(HoldFrom(PrepareOf(r, entries))), false) == WithFlags(entries, false)
  {
    var h := HoldFrom(PrepareOf(r, entries));
    forall i | 0 <= i < |entries| ensures EntriesFor(h)[i] == entries[i].(requiresRevalidation := false) {
      assert h.amounts[i] == AmountOf(entries[i]);
    }
  }

  lemma RebuiltIntent(s: State, ordered: seq<DecisionRecord>, d: nat)
    requires Consistent(s) && Orders(s, ordered) && d in s.ledger.byDecision
    ensures d in IntentsOf(s.ledger, ordered) && IntentsOf(s.ledger, ordered)[d] == PrepareOf(s.history.records[d], s.ledger.byDecision[d])
    ensures WithFlags(EntriesFor(HoldFrom(IntentsOf(s.ledger, ordered)[d])), false) == WithFlags(s.ledger.byDecision[d], false)
  {
    OrdersDistinct(s, ordered);
    assert Backed(s.history.records, d, s.ledger.byDecision[d]) && Listed(s.history, d);
    IntentsOfAt(s.ledger, ordered, Position(ordered, d));
    EntriesRestored(s.history.records[d], s.ledger.byDecision[d]);
  }

  lemma HeldIsLive(b: Recovering, st: Recovering, s: State, ordered: seq<DecisionRecord>, d: nat)
    requires Consistent(s) && Orders(s, ordered) && Recompacted(b, st, s, ordered) && d in s.ledger.byDecision
    ensures IsLive(st, d) && WithFlags(EntriesFor(HoldFrom(st.committed[d])), false) == WithFlags(s.ledger.byDecision[d], false)
  {
    RebuiltRecords(s, ordered);
    assert Backed(s.history.records, d, s.ledger.byDecision[d]) && Listed(s.history, d);
    RebuiltIntent(s, ordered, d);
  }

  ghost predicate Revives(st: Recovering, held: Table, d: nat)
    requires d in held
  {
    IsLive(st, d) && WithFlags(EntriesFor(HoldFrom(st.committed[d])), false) == WithFlags(held[d], false)
  }

  lemma LiveIsHeld(st: Recovering, held: Table)
    requires forall d :: d in held ==> Revives(st, held, d)
    requires forall d :: d in st.committed ==> d in held
    ensures SameGrants(TableOf(LiveGrants(st)), held)
  {
    var t := TableOf(LiveGrants(st));
    forall d ensures d in t <==> d in held {
      assert d in held ==> Revives(st, held, d);
    }
    assert t.Keys == held.Keys;
    forall d | d in t ensures WithFlags(t[d], false) == WithFlags(held[d], false) {
      assert Revives(st, held, d);
    }
  }

  lemma RecompactedLive(b: Recovering, st: Recovering, s: State, ordered: seq<DecisionRecord>)
    requires Consistent(s) && Orders(s, ordered) && Recompacted(b, st, s, ordered)
    ensures SameGrants(TableOf(LiveGrants(st)), s.ledger.byDecision)
  {
    forall d | d in s.ledger.byDecision ensures Revives(st, s.ledger.byDecision, d) {
      HeldIsLive(b, st, s, ordered, d);
    }
    forall d | d in st.committed ensures d in s.ledger.byDecision {
      IntentsAreHeld(s.ledger, ordered, d);
    }
    LiveIsHeld(st, s.ledger.byDecision);
  }

  function Next(s: State): Counters {
    Counters(s.nextDecision, s.audit)
  }

  ghost predicate HeldDecodable(l: LedgerState) {
    forall d :: d in l.byDecision ==> |l.byDecision[d]| <= MAX_RESOURCE_BINDINGS
  }

  lemma {:induction false} AmountsAscend(entries: seq<LedgerEntry>)
    requires Ascending(entries)
    ensures AscendingAmounts(AmountsOf(entries))
  {
    var a := AmountsOf(entries);
    forall i, j | 0 <= i < j < |a| ensures a[i].resource < a[j].resource {
      assert entries[i].resource < entries[j].resource;
    }
  }

  lemma IntentSane(s: State, ordered: seq<DecisionRecord>, d: nat)
    requires Consistent(s) && Orders(s, ordered) && HeldDecodable(s.ledger) && d in IntentsOf(s.ledger, ordered)
    ensures d in RecordsOf(s.ledger, ordered) && GoodIntent(d, IntentsOf(s.ledger, ordered)[d])
    ensures Matches(RecordsOf(s.ledger, ordered)[d], IntentsOf(s.ledger, ordered)[d])
  {
    IntentsAreHeld(s.ledger, ordered, d);
    assert Backed(s.history.records, d, s.ledger.byDecision[d]) && Listed(s.history, d);
    RebuiltIntent(s, ordered, d);
    RebuiltRecords(s, ordered);
    AmountsAscend(s.ledger.byDecision[d]);
  }

  lemma RecordBelow(s: State, ordered: seq<DecisionRecord>, d: nat)
    requires Consistent(s) && Orders(s, ordered) && d in RecordsOf(s.ledger, ordered)
    ensures 0 < d <= TopDecision(ordered)
  {
    OrdersDistinct(s, ordered);
    RecordsOfKeys(s.ledger, ordered, d);
    TopBounds(ordered, s.nextDecision, s.audit);
  }

  lemma RecompactedSame(b: Recovering, st: Recovering, s: State, ordered: seq<DecisionRecord>)
    requires Consistent(s) && Orders(s, ordered) && Recompacted(b, st, s, ordered)
    ensures st.audit == s.audit && SameRecords(s, st.history)
  {
    OrdersDistinct(s, ordered);
    TopBounds(ordered, s.nextDecision, s.audit);
    RebuiltRecords(s, ordered);
    RebuiltIndex(s, ordered);
  }

  lemma SameAudited(st: Recovering, s: State)
    requires Indexed(s.history, s.audit) && st.audit == s.audit && SameRecords(s, st.history)
    ensures Audited(st, s.audit)
  {
    forall d | d in st.history.records
      ensures d != 0 && st.history.records[d].decision == d && st.history.records[d].audit <= s.audit
    {
      assert Listed(s.history, d);
    }
    forall a | a in st.history.auditIndex
      ensures st.history.auditIndex[a] in st.history.records && st.history.records[st.history.auditIndex[a]].audit == a
    {
      assert Listed(s.history, s.history.auditIndex[a]);
    }
  }

  lemma RecompactedAudited(b: Recovering, st: Recovering, s: State, ordered: seq<DecisionRecord>)
    requires Consistent(s) && Orders(s, ordered) && Recompacted(b, st, s, ordered)
    ensures Audited(st, s.audit) && st.audit == s.audit && SameRecords(s, st.history)
  {
    RecompactedSame(b, st, s, ordered);
    SameAudited(st, s);
  }

  lemma RecompactedAnchored(b: Recovering, st: Recovering, s: State, ordered: seq<DecisionRecord>)
    requires Consistent(s) && Orders(s, ordered) && Recompacted(b, st, s, ordered)
    ensures Anchored(st.history, LiveGrants(st).Keys, s.audit)
  {
    RecompactedAudited(b, st, s, ordered);
    forall d | d in LiveGrants(st) ensures Listed(st.history, d) && st.history.records[d].audit < s.audit {
      IntentsAreHeld(s.ledger, ordered, d);
      assert Listed(s.history, d);
    }
  }

  lemma RecompactedSane(b: Recovering, st: Recovering, s: State, ordered: seq<DecisionRecord>)
    requires Consistent(s) && Orders(s, ordered) && Recompacted(b, st, s, ordered) && HeldDecodable(s.ledger)
    ensures Sane(st, Next(s))
  {
    OrdersDistinct(s, ordered);
    TopBounds(ordered, s.nextDecision, s.audit);
    RecompactedAudited(b, st, s, ordered);
    RecompactedAnchored(b, st, s, ordered);
    forall d | d in st.committed
      ensures d in st.history.records && GoodIntent(d, st.committed[d]) && Matches(st.history.records[d], st.committed[d])
    {
      IntentSane(s, ordered, d);
    }
    forall d | d in st.history.records ensures 0 < d <= st.maxDecision {
      RecordBelow(s, ordered, d);
    }
  }

  ghost function MeaningOf(s: State): Meaning {
    Meaning(s.ledger.byDecision, s.auth.policy)
  }

  /** What a compacted journal must bring back. */
  ghost predicate Faithful(st: Recovering, s: State) {
    Says(st, Next(s), MeaningOf(s)) && st.epoch == s.epoch && st.audit == s.audit && st.pending == map[] &&
    SameRecords(s, st.history)
  }

  lemma RecompactedFaithful(b: Recovering, st: Recovering, s: State, ordered: seq<DecisionRecord>)
    requires Consistent(s) && Orders(s, ordered) && Recompacted(b, st, s, ordered) && HeldDecodable(s.ledger)
    ensures Faithful(st, s)
  {
    RecompactedLive(b, st, s, ordered);
    RecompactedSane(b, st, s, ordered);
    RecompactedAudited(b, st, s, ordered);
  }

  lemma HistoryRewritable(s: State)
    requires Consistent(s) && HeldDecodable(s.ledger)
    ensures Orders(s, InAuditOrder(s.history)) && Rewritable(s.ledger, InAuditOrder(s.history))
  {
    AuditOrderOrders(s);
    OrdersDistinct(s, InAuditOrder(s.history));
  }

  /** Recovering from the compacted journal gives the same grants, the same
      policy, the same boot epoch and audit position, and the same listed history
      under the same index, apart from the fields recovery itself stamps. */
  lemma CompactionPreservesMeaning(b: Recovering, s: State)
    requires b == Blank(b.history.capacity, b.attempts.capacity)
    requires Consistent(s) && HeldDecodable(s.ledger)
    ensures ReplayLog(b, CompactedLog(s)).Replaying? && Faithful(ReplayLog(b, CompactedLog(s)).state, s)
  {
    HistoryRewritable(s);
    ReplayCompactedLog(b, s);
    RecompactedFaithful(b, ReplayLog(b, CompactedLog(s)).state, s, InAuditOrder(s.history));
  }

  /** A live grant is rewritten as an intent that says what its record and its
      entries say, followed by the record. */
  ghost predicate RewrittenAt(log: seq<Record>, j: nat, r: DecisionRecord, entries: seq<LedgerEntry>) {
    j + 1 < |log| && log[j].AdmissionPrepare? && log[j + 1] == AdmissionCommit(r) &&
    var p := log[j].prepare;
    p.decision == r.decision && p.demand == r.demand && p.attempt == r.attempt && p.fingerprint == r.fingerprint && p.epoch == r.epoch &&
    p.boundCapacity == r.boundCapacity && p.path == r.path && |p.amounts| == |entries| &&
    forall i :: 0 <= i < |entries| ==> p.amounts[i] == Amount(entries[i].resource, entries[i].amount)
  }

  lemma {:induction false} LiveRewritten(l: LedgerState, ordered: seq<DecisionRecord>, k: nat) returns (j: nat)
    requires k < |ordered| && LiveRecord(l, ordered[k])
    ensures RewrittenAt(CompactedRecords(l, ordered), j, ordered[k], l.byDecision[ordered[k].decision])
    decreases |ordered|
  {
    var n := |ordered| - 1;
    var front := CompactedRecords(l, ordered[..n]);
    if k < n {
      j := LiveRewritten(l, ordered[..n], k);
      assert CompactedRecords(l, ordered)[j] == front[j] && CompactedRecords(l, ordered)[j + 1] == front[j + 1];
    } else {
      j := |front|;
      assert CompactedRecords(l, ordered)[j] == AdmissionPrepare(PrepareOf(ordered[n], l.byDecision[ordered[n].decision]));
    }
  }
}
