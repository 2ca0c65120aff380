/** What a journal means to recovery, and what each record adds to it. */
module Meaning {
  import opened Base
  import opened Model
  import opened Ledger
  import opened History
  import opened Evaluate
  import opened Invariants
  import opened Enforcement
  import opened Recovery
  import opened Restoration

  /** The grants recovery will hold and the policy it will install. */
  datatype Meaning = Meaning(held: Table, policy: Option<Policy>)

  ghost predicate Decodable(p: PrepareRecord) {
    |p.amounts| <= MAX_RESOURCE_BINDINGS
  }

  /** The next decision id and audit number to be issued. */
  datatype Counters = Counters(decision: nat, audit: nat)

  predicate NoLater(k: Counters, k': Counters) {
    k.decision <= k'.decision && k.audit <= k'.audit
  }

  ghost predicate GoodIntent(d: nat, p: PrepareRecord) {
    p.decision == d && Decodable(p) && AscendingAmounts(p.amounts)
  }

  /** Intent and commit say the same about the grant. */
  predicate Matches(r: DecisionRecord, p: PrepareRecord) {
    p.demand == r.demand && p.path == r.path && p.epoch == r.epoch && p.boundCapacity == r.boundCapacity
  }

  ghost predicate IntentsGood(st: Recovering) {
    (forall d :: d in st.pending ==> GoodIntent(d, st.pending[d])) &&
    (forall d :: d in st.committed ==>
      d in st.history.records && GoodIntent(d, st.committed[d]) && Matches(st.history.records[d], st.committed[d]))
  }

  /** Every committed intent belongs to a known record; no known id or audit
      number exceeds the next one to be issued, and every live grant owns its
      audit slot below that. */
  ghost predicate Sane(st: Recovering, k: Counters) {
    IntentsGood(st) &&
    (forall d :: d in st.released ==> d in st.history.records) &&
    (forall d :: d in st.history.records ==> 0 < d <= st.maxDecision) &&
    st.maxDecision < k.decision && Audited(st, k.audit) && Anchored(st.history, LiveGrants(st).Keys, k.audit)
  }

  ghost predicate Audited(st: Recovering, audit: nat) {
    Indexed(st.history, audit) && st.audit <= audit &&
    forall d :: d in st.history.records ==> st.history.records[d].audit <= st.audit
  }

  ghost predicate Says(st: Recovering, k: Counters, m: Meaning) {
    Sane(st, k) && SameGrants(TableOf(LiveGrants(st)), m.held) && st.policy == m.policy
  }

  ghost predicate Means(b: Recovering, log: seq<Record>, k: Counters, m: Meaning) {
    ReplayLog(b, log).Replaying? && Says(ReplayLog(b, log).state, k, m)
  }

  // ------------------------------------------------------------------
  // One record
  // ------------------------------------------------------------------

  lemma SameLive(st: Recovering, st': Recovering)
    requires st'.history.records == st.history.records && st'.committed == st.committed && st'.released == st.released
    ensures LiveGrants(st') == LiveGrants(st)
  {
    assert forall d :: IsLive(st', d) <==> IsLive(st, d);
  }

  /** An intent alone adds no load. */
  lemma SaysPrepare(st: Recovering, p: PrepareRecord, k: Counters, m: Meaning)
    requires Says(st, k, m) && GoodIntent(p.decision, p)
    ensures
      var a := Absorb(st, AdmissionPrepare(p));
      a.Replaying? && Says(a.state, k, m) && p.decision in a.state.pending && a.state.pending[p.decision] == p
  {
    var st' := st.(pending := st.pending[p.decision := p]);
    SameLive(st, st');
  }

  lemma LiveAdds(st: Recovering, st': Recovering, d: nat, p: PrepareRecord)
    requires forall e :: e != d ==> (IsLive(st', e) <==> IsLive(st, e)) && (e in st.committed && e in st'.committed ==> st'.committed[e] == st.committed[e])
    requires IsLive(st', d) && st'.committed[d] == p
    ensures LiveGrants(st') == LiveGrants(st)[d := p]
  {
    forall e ensures e in LiveGrants(st') <==> e in LiveGrants(st)[d := p] {}
  }

  lemma TableAdds(grants: map<nat, PrepareRecord>, d: nat, p: PrepareRecord)
    ensures TableOf(grants[d := p]) == TableOf(grants)[d := EntriesFor(HoldFrom(p))]
  {}

  /** A record with a new id and a new audit number joins the history. */
  lemma RestoredAudited(st: Recovering, r: DecisionRecord, audit: nat)
    requires Audited(st, audit) && audit <= r.audit && r.decision != 0 && r.decision !in st.history.records
    ensures Audited(Restored(st, r), r.audit + 1)
  {
    InsertIndexed(st.history, r, audit);
  }

  /** At most d joins the live grants. */
  lemma LiveWithin(st: Recovering, st': Recovering, d: nat)
    requires forall e :: IsLive(st', e) && e != d ==> IsLive(st, e)
    ensures LiveGrants(st').Keys <= LiveGrants(st).Keys + {d}
  {}

  lemma RestoredAnchored(st: Recovering, r: DecisionRecord, audit: nat, live: set<nat>)
    requires Anchored(st.history, LiveGrants(st).Keys, audit) && audit <= r.audit && r.decision != 0 && r.decision !in st.history.records
    requires live <= LiveGrants(st).Keys + {r.decision}
    ensures Anchored(Restored(st, r).history, live, r.audit + 1)
  {
    InsertAnchored(st.history, r, LiveGrants(st).Keys, audit);
  }

  lemma CommitGood(st: Recovering, r: DecisionRecord)
    requires IntentsGood(st) && r.decision in st.pending && r.decision != 0 && Matches(r, st.pending[r.decision])
    ensures AbsorbCommit(st, r).Replaying? && IntentsGood(AbsorbCommit(st, r).state)
  {}

  lemma CommitSane(st: Recovering, r: DecisionRecord, k: Counters)
    requires Sane(st, k) && r.decision in st.pending && k.decision <= r.decision && k.audit <= r.audit && r.decision != 0
    requires Matches(r, st.pending[r.decision])
    ensures
      var a := AbsorbCommit(st, r);
      a.Replaying? && Sane(a.state, Counters(r.decision + 1, r.audit + 1))
  {
    CommitGood(st, r);
    var known := r.(restoredFromDisk := true, ledgerLive := Admitting(r.outcome) && r.state != Revoked);
    var st1 := st.(committed := st.committed[r.decision := st.pending[r.decision]], pending := st.pending - {r.decision});
    assert Audited(st1, k.audit);
    RestoredAudited(st1, known, k.audit);
    var st' := AbsorbCommit(st, r).state;
    LiveWithin(st, st', r.decision);
    RestoredAnchored(st, known, k.audit, LiveGrants(st').Keys);
  }

  lemma RefusedSane(st: Recovering, r: DecisionRecord, k: Counters)
    requires Sane(st, k) && k.decision <= r.decision && k.audit <= r.audit && r.decision != 0
    ensures Sane(Restored(st, r), Counters(r.decision + 1, r.audit + 1))
  {
    RestoredAudited(st, r, k.audit);
    LiveWithin(st, Restored(st, r), r.decision);
    RestoredAnchored(st, r, k.audit, LiveGrants(Restored(st, r)).Keys);
  }

  lemma RevocationSane(st: Recovering, v: RevocationRecord, k: Counters)
    requires Sane(st, k) && v.audit <= k.audit && (IsLive(st, v.decision) <==> !Released(v.state))
    ensures Sane(AbsorbRevocation(st, v), k)
  {
    RevocationLive(st, v);
    MarkKeeps(st.history, v.decision, v.state, v.reason, false, k.audit);
  }

  lemma CommitLive(st: Recovering, r: DecisionRecord, k: Counters)
    requires Sane(st, k) && r.decision in st.pending && k.decision <= r.decision && k.audit <= r.audit && r.decision != 0
    requires Admitting(r.outcome) && !Released(r.state)
    ensures LiveGrants(AbsorbCommit(st, r).state) == LiveGrants(st)[r.decision := st.pending[r.decision]]
  {
    LiveAdds(st, AbsorbCommit(st, r).state, r.decision, st.pending[r.decision]);
  }

  lemma SameGrantsAdd(a: Table, b: Table, d: nat, entries: seq<LedgerEntry>)
    requires SameGrants(a, b)
    ensures SameGrants(a[d := entries], b[d := entries])
  {}

  /** A commit whose intent is on record adds exactly that grant. */
  lemma SaysCommit(st: Recovering, r: DecisionRecord, k: Counters, m: Meaning)
    requires Says(st, k, m) && r.decision in st.pending && k.decision <= r.decision && k.audit <= r.audit && r.decision != 0
    requires Admitting(r.outcome) && !Released(r.state) && Matches(r, st.pending[r.decision])
    ensures
      var a := Absorb(st, AdmissionCommit(r));
      a.Replaying? && Says(a.state, Counters(r.decision + 1, r.audit + 1), m.(held := m.held[r.decision := EntriesFor(HoldFrom(st.pending[r.decision]))]))
  {
    var p := st.pending[r.decision];
    CommitSane(st, r, k);
    CommitLive(st, r, k);
    TableAdds(LiveGrants(st), r.decision, p);
    SameGrantsAdd(TableOf(LiveGrants(st)), m.held, r.decision, EntriesFor(HoldFrom(p)));
  }

  lemma RestoredLive(st: Recovering, r: DecisionRecord)
    requires r.decision !in st.history.records && r.decision !in st.committed
    ensures LiveGrants(Restored(st, r)) == LiveGrants(st)
  {
    assert forall d :: IsLive(Restored(st, r), d) <==> IsLive(st, d);
  }

  /** A refusal adds a record and nothing else. */
  lemma SaysRefused(st: Recovering, r: DecisionRecord, k: Counters, m: Meaning)
    requires Says(st, k, m) && k.decision <= r.decision && k.audit <= r.audit && r.decision != 0
    ensures
      var a := Absorb(st, AdmissionRefused(r));
      a.Replaying? && Says(a.state, Counters(r.decision + 1, r.audit + 1), m)
  {
    var known := r.(restoredFromDisk := true, ledgerLive := false);
    RefusedSane(st, known, k);
    RestoredLive(st, known);
  }

  lemma LiveDrops(st: Recovering, st': Recovering, d: nat)
    requires forall e :: IsLive(st', e) <==> IsLive(st, e) && e != d
    requires st'.committed == st.committed
    ensures LiveGrants(st') == LiveGrants(st) - {d}
  {
    forall e ensures e in LiveGrants(st') <==> e in LiveGrants(st) - {d} {
      assert IsLive(st', e) <==> IsLive(st, e) && e != d;
    }
  }

  lemma TableDrops(grants: map<nat, PrepareRecord>, d: nat)
    ensures TableOf(grants - {d}) == TableOf(grants) - {d}
  {}

  lemma LiveIffHeld(st: Recovering, held: Table, d: nat)
    requires SameGrants(TableOf(LiveGrants(st)), held)
    ensures d in held <==> IsLive(st, d)
  {
    assert d in held <==> d in TableOf(LiveGrants(st));
  }

  lemma ReleasedSane(st: Recovering, st': Recovering, d: nat, k: Counters)
    requires Sane(st, k) && d in st.history.records && st' == st.(released := st.released + {d})
    ensures Sane(st', k)
  {
    assert LiveGrants(st').Keys <= LiveGrants(st).Keys;
  }

  /** A release takes exactly that grant away. */
  lemma SaysRelease(st: Recovering, l: ReleaseRecord, k: Counters, m: Meaning)
    requires Says(st, k, m) && l.decision in m.held && |l.released| <= MAX_RESOURCE_BINDINGS
    ensures
      var a := Absorb(st, LedgerRelease(l));
      a.Replaying? && Says(a.state, k, m.(held := m.held - {l.decision}))
  {
    var st' := st.(released := st.released + {l.decision});
    LiveIffHeld(st, m.held, l.decision);
    ReleasedSane(st, st', l.decision, k);
    LiveDrops(st, st', l.decision);
    TableDrops(LiveGrants(st), l.decision);
    SameGrantsDrop(TableOf(LiveGrants(st)), m.held, l.decision);
  }

  lemma SameGrantsDrop(a: Table, b: Table, d: nat)
    requires SameGrants(a, b)
    ensures SameGrants(a - {d}, b - {d})
  {}

  lemma RevocationLive(st: Recovering, v: RevocationRecord)
    requires IsLive(st, v.decision) <==> !Released(v.state)
    ensures LiveGrants(AbsorbRevocation(st, v)) == LiveGrants(st)
  {
    assert forall d :: IsLive(AbsorbRevocation(st, v), d) <==> IsLive(st, d);
  }

  /** Revoking what is no longer held, or marking a held grant as outdated,
      changes no load. */
  lemma SaysRevocation(st: Recovering, v: RevocationRecord, k: Counters, m: Meaning)
    requires Says(st, k, m) && (v.decision in m.held <==> !Released(v.state)) && v.audit <= k.audit
    ensures
      var a := Absorb(st, Model.Revocation(v));
      a.Replaying? && Says(a.state, k, m)
  {
    LiveIffHeld(st, m.held, v.decision);
    RevocationLive(st, v);
    RevocationSane(st, v, k);
  }

  lemma SaysPolicy(st: Recovering, p: Policy, k: Counters, m: Meaning)
    requires Says(st, k, m) && ValidPolicy(p)
    ensures
      var a := Absorb(st, PolicyConfig(p));
      a.Replaying? && Says(a.state, k, m.(policy := Some(p)))
  {
    SameLive(st, st.(policy := Some(p)));
  }

  predicate OwnBoot(r: BootRecord) {
    r.formatRevision == FORMAT_REVISION && r.product == PRODUCT_NAME
  }

  lemma SaysBoot(st: Recovering, r: BootRecord, k: Counters, m: Meaning)
    requires Says(st, k, m) && OwnBoot(r)
    ensures
      var a := Absorb(st, BootEpoch(r));
      a.Replaying? && Says(a.state, k, m)
  {
    SameLive(st, st.(epoch := Max(st.epoch, r.epoch)));
  }

  lemma SaysMark(st: Recovering, r: AuditMarkRecord, k: Counters, m: Meaning)
    requires Says(st, k, m) && r.sequence <= k.audit
    ensures
      var a := Absorb(st, AuditMark(r));
      a.Replaying? && Says(a.state, k, m)
  {
    SameLive(st, st.(audit := Max(st.audit, r.sequence)));
  }

  // ------------------------------------------------------------------
  // One record appended to a log
  // ------------------------------------------------------------------

  lemma MeansLater(b: Recovering, log: seq<Record>, k: Counters, k': Counters, m: Meaning)
    requires Means(b, log, k, m) && NoLater(k, k')
    ensures Means(b, log, k', m)
  {}

  lemma BlankMeans(b: Recovering, k: Counters)
    requires b == Blank(b.history.capacity, b.attempts.capacity) && k.decision >= 1
    ensures Means(b, [], k, Meaning(map[], None))
  {
    assert LiveGrants(b) == map[];
    assert TableOf(LiveGrants(b)) == map[];
  }
}
