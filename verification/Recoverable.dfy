/** Which journals recovery accepts, and what opening one reports
    (AdmissionEngine::open_durable, src/engine/engine.cpp), read off the journal. */
module Recoverable {
  import opened Base
  import opened Model
  import opened Evaluate
  import opened Engine
  import opened Recovery
  import opened Restart
  import opened Reissue
  import opened Registry

  predicate Intends(r: Record, d: nat) {
    r.AdmissionPrepare? && r.prepare.decision == d
  }

  predicate Commits(r: Record, d: nat) {
    r.AdmissionCommit? && r.commit.decision == d
  }

  /** The journal has an intent of d that no later commit resolves. */
  ghost predicate Unresolved(log: seq<Record>, d: nat) {
    exists j :: 0 <= j < |log| && Intends(log[j], d) && forall k :: j < k < |log| ==> !Commits(log[k], d)
  }

  /** Recovery can take the entry: it is of this program, valid and within bounds,
      and an admission is committed only where its intent is on record. */
  ghost predicate Acceptable(log: seq<Record>, i: nat)
    requires i < |log|
  {
    match log[i]
    case BootEpoch(b) => b.formatRevision == FORMAT_REVISION && b.product == PRODUCT_NAME
    case PolicyConfig(p) => ValidPolicy(p)
    case AdmissionPrepare(p) => |p.amounts| <= MAX_RESOURCE_BINDINGS
    case AdmissionCommit(d) => Admitting(d.outcome) ==> Unresolved(log[..i], d.decision)
    case LedgerRelease(l) => |l.released| <= MAX_RESOURCE_BINDINGS
    case _ => true
  }

  /** What recovery says of an entry it cannot take. */
  function ToldOf(r: Record): Status {
    match r
    case BootEpoch(_) => Unsupported
    case PolicyConfig(_) => MalformedInput
    case AdmissionCommit(_) => CorruptJournal
    case _ => OversizedInput
  }

  ghost predicate AllAcceptable(log: seq<Record>) {
    forall i :: 0 <= i < |log| ==> Acceptable(log, i)
  }

  /** Entry i is the first recovery cannot take. */
  ghost predicate FirstUnacceptable(log: seq<Record>, i: nat) {
    i < |log| && !Acceptable(log, i) && forall j :: 0 <= j < i ==> Acceptable(log, j)
  }

  lemma AcceptablePrefix(log: seq<Record>, n: nat, i: nat)
    requires i < n <= |log|
    ensures Acceptable(log[..n], i) <==> Acceptable(log, i)
  {
    assert log[..n][..i] == log[..i] && log[..n][i] == log[i];
  }

  lemma UnresolvedSnoc(log: seq<Record>, r: Record, d: nat)
    ensures Unresolved(log + [r], d) <==> Intends(r, d) || (Unresolved(log, d) && !Commits(r, d))
  {
    var more := log + [r];
    assert more[|log|] == r && forall j :: 0 <= j < |log| ==> more[j] == log[j];
    if Intends(r, d) {
      assert Intends(more[|log|], d);
    }
    if j :| 0 <= j < |log| && Intends(log[j], d) && forall k :: j < k < |log| ==> !Commits(log[k], d) {
      assert Intends(more[j], d);
    }
    if j :| 0 <= j < |more| && Intends(more[j], d) && forall k :: j < k < |more| ==> !Commits(more[k], d) {
      assert j < |log| ==> !Commits(more[|log|], d);
    }
  }

  ghost predicate PendingExact(st: Recovering, log: seq<Record>) {
    forall d :: d in st.pending <==> Unresolved(log, d)
  }

  lemma AbsorbAccepts(st: Recovering, log: seq<Record>, n: nat)
    requires n < |log| && PendingExact(st, log[..n])
    ensures if Acceptable(log, n) then Absorb(st, log[n]).Replaying? else Absorb(st, log[n]) == Unrecoverable(ToldOf(log[n]))
  {}

  lemma AbsorbPending(st: Recovering, r: Record, d: nat)
    requires Absorb(st, r).Replaying?
    ensures d in Absorb(st, r).state.pending <==> Intends(r, d) || (d in st.pending && !Commits(r, d))
  {}

  /** Recovery accepts exactly the journals every entry of which is acceptable,
      fails with the first that is not, and leaves unresolved exactly the intents
      no later commit resolves. */
  ghost predicate ReplaysAs(log: seq<Record>, x: Replayed) {
    (x.Replaying? <==> AllAcceptable(log)) && (forall i: nat :: FirstUnacceptable(log, i) ==> x == Unrecoverable(ToldOf(log[i]))) &&
    (x.Replaying? ==> PendingExact(x.state, log))
  }

  lemma {:induction false} ReplayIff(b: Recovering, log: seq<Record>)
    requires b.pending == map[]
    ensures ReplaysAs(log, ReplayLog(b, log))
  {
    if log != [] {
      var n := |log| - 1;
      ReplayIff(b, log[..n]);
      ReplayNext(b, log, n);
    }
  }

  lemma ReplayNext(b: Recovering, log: seq<Record>, n: nat)
    requires |log| == n + 1 && ReplaysAs(log[..n], ReplayLog(b, log[..n]))
    ensures ReplaysAs(log, ReplayLog(b, log))
  {
    if ReplayLog(b, log[..n]).Replaying? {
      ReplayLast(b, log, n);
    } else {
      ReplayStops(b, log, n);
    }
    ReplayJoins(log, n, ReplayLog(b, log[..n]), ReplayLog(b, log));
  }

  lemma ReplayJoins(log: seq<Record>, n: nat, y: Replayed, x: Replayed)
    requires |log| == n + 1 && ReplaysAs(log[..n], y)
    requires if y.Unrecoverable? then x == y else if Acceptable(log, n) then x.Replaying? && PendingExact(x.state, log) else x == Unrecoverable(ToldOf(log[n]))
    ensures ReplaysAs(log, x)
  {
    PrefixAcceptable(log, n);
    forall i: nat | FirstUnacceptable(log, i) ensures x == Unrecoverable(ToldOf(log[i])) {
      FirstJoins(log, n, i, y, x);
    }
  }

  lemma FirstJoins(log: seq<Record>, n: nat, i: nat, y: Replayed, x: Replayed)
    requires |log| == n + 1 && ReplaysAs(log[..n], y) && FirstUnacceptable(log, i)
    requires if y.Unrecoverable? then x == y else if Acceptable(log, n) then x.Replaying? else x == Unrecoverable(ToldOf(log[n]))
    ensures x == Unrecoverable(ToldOf(log[i]))
  {
    if i < n {
      FirstPrefix(log, n, i);
    } else {
      FirstIsLast(log, n);
    }
  }

  lemma FirstIsLast(log: seq<Record>, n: nat)
    requires |log| == n + 1 && FirstUnacceptable(log, n)
    ensures AllAcceptable(log[..n])
  {
    forall j: nat | j < n ensures Acceptable(log[..n], j) {
      AcceptablePrefix(log, n, j);
    }
  }

  lemma FirstPrefix(log: seq<Record>, n: nat, i: nat)
    requires i < n <= |log| && FirstUnacceptable(log, i)
    ensures FirstUnacceptable(log[..n], i) && log[..n][i] == log[i]
  {
    forall j: nat | j <= i ensures Acceptable(log[..n], j) <==> Acceptable(log, j) {
      AcceptablePrefix(log, n, j);
    }
  }

  lemma ReplayStops(b: Recovering, log: seq<Record>, n: nat)
    requires |log| == n + 1 && !ReplayLog(b, log[..n]).Replaying?
    ensures ReplayLog(b, log) == ReplayLog(b, log[..n])
  {}

  lemma PrefixAcceptable(log: seq<Record>, n: nat)
    requires |log| == n + 1
    ensures AllAcceptable(log) <==> AllAcceptable(log[..n]) && Acceptable(log, n)
  {
    forall i: nat | i < n ensures Acceptable(log[..n], i) <==> Acceptable(log, i) {
      AcceptablePrefix(log, n, i);
    }
  }

  lemma ReplayLast(b: Recovering, log: seq<Record>, n: nat)
    requires |log| == n + 1 && ReplayLog(b, log[..n]).Replaying? && PendingExact(ReplayLog(b, log[..n]).state, log[..n])
    ensures if Acceptable(log, n) then ReplayLog(b, log).Replaying? else ReplayLog(b, log) == Unrecoverable(ToldOf(log[n]))
    ensures ReplayLog(b, log).Replaying? ==> PendingExact(ReplayLog(b, log).state, log)
  {
    var st := ReplayLog(b, log[..n]).state;
    AbsorbAccepts(st, log, n);
    if Acceptable(log, n) {
      forall d ensures d in Absorb(st, log[n]).state.pending <==> Unresolved(log, d) {
        AbsorbPending(st, log[n], d);
        UnresolvedSnoc(log[..n], log[n], d);
        assert log[..n] + [log[n]] == log;
      }
    }
  }

  // ------------------------------------------------------------------
  // Where audit numbers resume
  // ------------------------------------------------------------------

  /** The audit number an entry carries. */
  function AuditIn(r: Record): nat {
    match r
    case AdmissionCommit(d) => d.audit
    case AdmissionRefused(d) => d.audit
    case Revocation(v) => v.audit
    case AuditMark(m) => m.sequence
    case _ => 0
  }

  ghost predicate AuditReaches(log: seq<Record>, a: nat) {
    exists i :: 0 <= i < |log| && AuditIn(log[i]) >= a
  }

  lemma AuditReachesSnoc(log: seq<Record>, r: Record, a: nat)
    ensures AuditReaches(log + [r], a) <==> AuditReaches(log, a) || AuditIn(r) >= a
  {
    var more := log + [r];
    assert more[|log|] == r && forall i :: 0 <= i < |log| ==> more[i] == log[i];
    if i :| 0 <= i < |log| && AuditIn(log[i]) >= a {
      assert AuditIn(more[i]) >= a;
    }
  }

  lemma AbsorbAudit(st: Recovering, r: Record)
    requires Absorb(st, r).Replaying?
    ensures Absorb(st, r).state.audit == Max(st.audit, AuditIn(r))
  {}

  /** Recovery resumes at the highest audit number any entry carries. */
  lemma {:induction false} AuditExact(b: Recovering, log: seq<Record>, a: nat)
    requires b.audit == 0 && a > 0 && ReplayLog(b, log).Replaying?
    ensures ReplayLog(b, log).state.audit >= a <==> AuditReaches(log, a)
  {
    if log != [] {
      var n := |log| - 1;
      AuditExact(b, log[..n], a);
      AbsorbAudit(ReplayLog(b, log[..n]).state, log[n]);
      AuditReachesSnoc(log[..n], log[n], a);
      assert log[..n] + [log[n]] == log;
    }
  }

  // ------------------------------------------------------------------
  // Which grants are live
  // ------------------------------------------------------------------

  /** Some commit of d resolves its intent. */
  ghost predicate Resolved(log: seq<Record>, d: nat) {
    exists i :: 0 <= i < |log| && Commits(log[i], d) && Unresolved(log[..i], d)
  }

  ghost predicate ReleasedIn(log: seq<Record>, d: nat) {
    exists i :: 0 <= i < |log| && log[i].LedgerRelease? && log[i].release.decision == d
  }

  lemma ResolvedSnoc(log: seq<Record>, r: Record, d: nat)
    ensures Resolved(log + [r], d) <==> Resolved(log, d) || (Commits(r, d) && Unresolved(log, d))
  {
    var more := log + [r];
    assert more[..|log|] == log;
    forall i | 0 <= i < |log| ensures more[i] == log[i] && more[..i] == log[..i] {}
    if i :| 0 <= i < |log| && Commits(log[i], d) && Unresolved(log[..i], d) {
      assert Commits(more[i], d) && Unresolved(more[..i], d);
    }
    if Commits(r, d) && Unresolved(log, d) {
      assert Commits(more[|log|], d) && Unresolved(more[..|log|], d);
    }
  }

  lemma ReleasedSnoc(log: seq<Record>, r: Record, d: nat)
    ensures ReleasedIn(log + [r], d) <==> ReleasedIn(log, d) || (r.LedgerRelease? && r.release.decision == d)
  {
    var more := log + [r];
    assert more[|log|] == r && forall i :: 0 <= i < |log| ==> more[i] == log[i];
    if i :| 0 <= i < |log| && log[i].LedgerRelease? && log[i].release.decision == d {
      assert more[i].LedgerRelease?;
    }
  }

  lemma AbsorbGrants(st: Recovering, r: Record, d: nat)
    requires Absorb(st, r).Replaying?
    ensures d in Absorb(st, r).state.committed <==> d in st.committed || (Commits(r, d) && d in st.pending)
    ensures d in Absorb(st, r).state.released <==> d in st.released || (r.LedgerRelease? && r.release.decision == d)
  {}

  lemma {:induction false} GrantsExact(b: Recovering, log: seq<Record>, d: nat)
    requires b.pending == map[] && b.committed == map[] && b.released == {} && ReplayLog(b, log).Replaying?
    ensures
      var st := ReplayLog(b, log).state;
      (d in st.committed <==> Resolved(log, d)) && (d in st.released <==> ReleasedIn(log, d))
  {
    if log != [] {
      var n := |log| - 1;
      GrantsExact(b, log[..n], d);
      ReplayIff(b, log[..n]);
      AbsorbGrants(ReplayLog(b, log[..n]).state, log[n], d);
      ResolvedSnoc(log[..n], log[n], d);
      ReleasedSnoc(log[..n], log[n], d);
      assert log[..n] + [log[n]] == log;
    }
  }

  /** Recovery takes a grant for live exactly when a commit resolved its intent,
      nothing released it, and what the journal says of it is an admission that
      was neither revoked nor expired. */
  lemma LiveIff(b: Recovering, log: seq<Record>, d: nat)
    requires b.pending == map[] && b.committed == map[] && b.released == {} && b.history.records == map[] && ReplayLog(b, log).Replaying?
    ensures
      var st := ReplayLog(b, log).state;
      d in LiveGrants(st) <==>
        Resolved(log, d) && !ReleasedIn(log, d) && d in st.history.records &&
        var r := st.history.records[d];
        Recounts(log, d, r) && Admitting(r.outcome) && r.state != Revoked && r.state != Expired
  {
    GrantsExact(b, log, d);
    HistoryExact(b, log);
  }

  // ------------------------------------------------------------------
  // Opening
  // ------------------------------------------------------------------

  /** What an opening reports: intents left unresolved come before a torn tail, and
      that before a new file. */
  ghost predicate Reports(scan: Scan, log: seq<Record>, report: RecoveryReport) {
    (forall d :: d in report.ambiguous <==> Unresolved(log, d)) &&
    report.outcome ==
      (if report.ambiguous != {} then RecoveredWithAmbiguity
       else if scan.truncated > 0 then RepairedTornTail
       else if scan.created then FreshStart
       else Recovered)
  }

  /** The epoch of the opened engine: past every boot record, else as configured,
      else the first. */
  ghost predicate Continues(log: seq<Record>, configured: u64, epoch: u64) {
    if BootReaches(log, 1) then epoch > 1 && BootReaches(log, epoch - 1) && !BootReaches(log, epoch)
    else epoch == if configured != 0 then configured else 1
  }

  lemma OpenedReports(e: State, b: Recovering, scan: Scan, log: seq<Record>, outcomes: seq<bool>)
    requires Template(e, b) && OpenDurable(e, scan, log, outcomes).OpenedWith?
    ensures
      var o := OpenDurable(e, scan, log, outcomes);
      AllAcceptable(log) && Reports(scan, log, o.report) && Continues(log, e.epoch, o.state.epoch) &&
      o.state.incarnation == e.incarnation && o.state.tick == e.tick
  {
    ReplayIff(b, log);
    var o := OpenDurable(e, scan, log, outcomes);
    var st := ReplayLog(b, log).state;
    RecoveredEpochExact(b, log, 1);
    RecoveredEpochExact(b, log, o.state.epoch);
    if o.state.epoch > 1 {
      RecoveredEpochExact(b, log, o.state.epoch - 1);
    }
    OpenedEpochIs(e, b, scan, log, outcomes, st);
  }

  lemma OpenedEpochIs(e: State, b: Recovering, scan: Scan, log: seq<Record>, outcomes: seq<bool>, st: Recovering)
    requires Template(e, b) && OpenDurable(e, scan, log, outcomes).OpenedWith? && ReplayLog(b, log) == Replaying(st)
    ensures
      var o := OpenDurable(e, scan, log, outcomes);
      o.state.epoch == (if st.epoch != 0 then st.epoch + 1 else if e.epoch != 0 then e.epoch else 1) &&
      o.state.incarnation == e.incarnation && o.state.tick == e.tick && o.report.ambiguous == st.pending.Keys &&
      o.report.outcome == OutcomeFor(scan, st.pending.Keys)
  {}

  /** The journal's epoch is past the one configured. */
  ghost predicate Ahead(log: seq<Record>, configured: u64) {
    configured != 0 && configured < MAX64 && BootReaches(log, configured + 1)
  }

  /** Why an opening is refused, first reason first: an entry that cannot be taken,
      load that cannot be rebuilt, an epoch ahead of the configured one or used up,
      a boot record that cannot be written. */
  lemma RefusedFor(e: State, b: Recovering, scan: Scan, log: seq<Record>, outcomes: seq<bool>)
    requires Template(e, b)
    ensures
      var o := OpenDurable(e, scan, log, outcomes);
      (forall i: nat :: FirstUnacceptable(log, i) ==> o == NotOpened(ToldOf(log[i]))) &&
      (AllAcceptable(log) ==>
        ReplayLog(b, log).Replaying? &&
        var rebuilt := RestoredLedger(LiveGrants(ReplayLog(b, log).state)).0;
        if rebuilt != Ok then o == NotOpened(rebuilt)
        else if Ahead(log, e.epoch) then o == NotOpened(EpochMismatch)
        else if BootReaches(log, MAX64) then o == NotOpened(ArithmeticOverflow)
        else if outcomes != [] && !outcomes[0] then o == NotOpened(DurableFailure)
        else o.OpenedWith?)
  {
    ReplayIff(b, log);
    if AllAcceptable(log) {
      RecoveredEpochExact(b, log, MAX64);
      if 0 < e.epoch < MAX64 {
        RecoveredEpochExact(b, log, e.epoch + 1);
      }
    }
  }
}
