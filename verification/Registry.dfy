/** What recovery rebuilds of decisions and attempts, read off the journal
    (AdmissionEngine::open_durable, src/engine/engine.cpp). */
module Registry {
  import opened Base
  import opened Model
  import opened Attempts
  import opened Recovery

  // ------------------------------------------------------------------
  // The attempts that stay within the bound
  // ------------------------------------------------------------------

  ghost function Higher(keys: set<AttemptKey>, k: AttemptKey): set<AttemptKey> {
    set x | x in keys && x != k && KeyLeq(k, x)
  }

  /** The highest keys, one fewer than the bound. */
  ghost function Room(keys: set<AttemptKey>, capacity: nat): set<AttemptKey> {
    set k | k in keys && |Higher(keys, k)| + 2 <= capacity
  }

  lemma FewerHigher(keys: set<AttemptKey>, k: AttemptKey)
    requires k in keys
    ensures |Higher(keys, k)| + 1 <= |keys|
  {
    assert Higher(keys, k) < keys;
    SmallerSet(Higher(keys, k), keys);
  }

  lemma AllHigher(keys: set<AttemptKey>, k: AttemptKey)
    requires k in keys && forall x :: x in keys ==> KeyLeq(k, x)
    ensures |Higher(keys, k)| + 1 == |keys|
  {
    assert Higher(keys, k) == keys - {k};
  }

  lemma RoomWithoutLowest(keys: set<AttemptKey>, low: AttemptKey, capacity: nat)
    requires low in keys && (forall x :: x in keys ==> KeyLeq(low, x)) && |keys| >= capacity
    ensures Room(keys - {low}, capacity) == Room(keys, capacity)
  {
    AllHigher(keys, low);
    forall k | k in keys && k != low ensures Higher(keys - {low}, k) == Higher(keys, k) {}
  }

  /** Making room for one more keeps exactly the highest keys. */
  lemma {:induction false} EvictExact(m: map<AttemptKey, AttemptRecord>, capacity: nat)
    ensures EvictDown(m, capacity).Keys == Room(m.Keys, capacity)
    decreases m.Keys
  {
    assert |m.Keys| == |m|;
    if |m| >= capacity && m.Keys != {} {
      var low := SmallestKey(m.Keys);
      EvictExact(m - {low}, capacity);
      assert (m - {low}).Keys == m.Keys - {low};
      RoomWithoutLowest(m.Keys, low, capacity);
    } else {
      forall k | k in m.Keys ensures |Higher(m.Keys, k)| + 2 <= capacity {
        FewerHigher(m.Keys, k);
      }
    }
  }

  // ------------------------------------------------------------------
  // The decisions in a journal
  // ------------------------------------------------------------------

  function KeyIn(r: Record): AttemptKey
    requires IsDecision(r)
  {
    AttemptKey(DecisionIn(r).demand, DecisionIn(r).attempt)
  }

  /** Recovery takes note of the attempt. */
  predicate Registers(r: Record) {
    IsDecision(r) && DecisionIn(r).attempt != 0 && DecisionIn(r).fingerprint != 0
  }

  predicate RegistersUnder(r: Record, key: AttemptKey) {
    Registers(r) && KeyIn(r) == key
  }

  function AttemptIn(r: Record): AttemptRecord
    requires IsDecision(r)
  {
    var d := DecisionIn(r);
    AttemptRecord(d.request, d.demand, d.demandGeneration, d.attempt, d.fingerprint, d.decision, d.outcome, d.decidedTick)
  }

  /** Entry i is the latest that recovery notes under the key. */
  ghost predicate LatestUnder(log: seq<Record>, key: AttemptKey, i: nat) {
    i < |log| && RegistersUnder(log[i], key) && forall j :: i < j < |log| ==> !RegistersUnder(log[j], key)
  }

  /** The keys on record after the journal has been replayed. */
  ghost function KeysAfter(capacity: nat, log: seq<Record>): set<AttemptKey> {
    if log == [] then {}
    else
      var before, last := KeysAfter(capacity, log[..|log| - 1]), log[|log| - 1];
      if !Registers(last) || KeyIn(last) in before then before else Room(before, capacity) + {KeyIn(last)}
  }

  /** Every key on record names the latest decision noted under it. */
  ghost predicate NamesLatest(a: AttemptState, log: seq<Record>) {
    forall key :: key in a.attempts ==> exists i: nat :: LatestUnder(log, key, i) && a.attempts[key] == AttemptIn(log[i])
  }

  lemma LatestSnoc(log: seq<Record>, r: Record, key: AttemptKey, i: nat)
    requires LatestUnder(log, key, i) && !RegistersUnder(r, key)
    ensures LatestUnder(log + [r], key, i) && (log + [r])[i] == log[i]
  {}

  lemma LatestLast(log: seq<Record>, r: Record)
    requires Registers(r)
    ensures LatestUnder(log + [r], KeyIn(r), |log|) && (log + [r])[|log|] == r
  {}

  lemma AbsorbAttempts(st: Recovering, r: Record)
    requires Absorb(st, r).Replaying?
    ensures Absorb(st, r).state.attempts == if Registers(r) then Recorded(st.attempts, AttemptIn(r)) else st.attempts
  {}

  lemma NamesSnoc(a: AttemptState, log: seq<Record>, r: Record)
    requires NamesLatest(a, log)
    ensures NamesLatest(if Registers(r) then Recorded(a, AttemptIn(r)) else a, log + [r])
  {
    var a' := if Registers(r) then Recorded(a, AttemptIn(r)) else a;
    forall key | key in a'.attempts ensures exists i: nat :: LatestUnder(log + [r], key, i) && a'.attempts[key] == AttemptIn((log + [r])[i]) {
      if RegistersUnder(r, key) {
        LatestLast(log, r);
      } else {
        assert key in a.attempts && a'.attempts[key] == a.attempts[key];
        var i: nat :| LatestUnder(log, key, i) && a.attempts[key] == AttemptIn(log[i]);
        LatestSnoc(log, r, key, i);
      }
    }
  }

  lemma KeysSnoc(a: AttemptState, capacity: nat, log: seq<Record>, r: Record)
    requires a.capacity == capacity && a.attempts.Keys == KeysAfter(capacity, log)
    ensures (if Registers(r) then Recorded(a, AttemptIn(r)) else a).attempts.Keys == KeysAfter(capacity, log + [r])
  {
    assert (log + [r])[..|log|] == log;
    if Registers(r) {
      EvictExact(a.attempts, capacity);
    }
  }

  /** Recovery puts on record exactly the keys that stay within the bound, each
      with the latest decision noted under it. */
  lemma {:induction false} RegistryExact(b: Recovering, log: seq<Record>)
    requires b.attempts.attempts == map[] && ReplayLog(b, log).Replaying?
    ensures
      var a := ReplayLog(b, log).state.attempts;
      a.capacity == b.attempts.capacity && a.attempts.Keys == KeysAfter(b.attempts.capacity, log) && NamesLatest(a, log)
  {
    if log != [] {
      var n := |log| - 1;
      var front, last := log[..n], log[n];
      RegistryExact(b, front);
      var st := ReplayLog(b, front).state;
      AbsorbAttempts(st, last);
      assert front + [last] == log;
      KeysSnoc(st.attempts, b.attempts.capacity, front, last);
      NamesSnoc(st.attempts, front, last);
    }
  }

  /** Entry i is the first noted for the request. */
  ghost predicate FirstFor(log: seq<Record>, request: u64, i: nat) {
    i < |log| && Registers(log[i]) && DecisionIn(log[i]).request == request &&
    forall j :: 0 <= j < i && Registers(log[j]) ==> DecisionIn(log[j]).request != request
  }

  /** Every request noted, and no other, has the content it was first noted with. */
  ghost predicate NamesFirst(fingerprints: map<u64, u64>, log: seq<Record>) {
    (forall q :: q in fingerprints ==> q != 0 && exists i: nat :: FirstFor(log, q, i) && fingerprints[q] == DecisionIn(log[i]).fingerprint) &&
    (forall i :: 0 <= i < |log| && Registers(log[i]) && DecisionIn(log[i]).request != 0 ==> DecisionIn(log[i]).request in fingerprints)
  }

  lemma FirstSnoc(a: AttemptState, log: seq<Record>, r: Record)
    requires NamesFirst(a.fingerprints, log)
    ensures NamesFirst((if Registers(r) then Recorded(a, AttemptIn(r)) else a).fingerprints, log + [r])
  {
    var more := log + [r];
    var after := (if Registers(r) then Recorded(a, AttemptIn(r)) else a).fingerprints;
    forall q | q in after ensures q != 0 && exists i: nat :: FirstFor(more, q, i) && after[q] == DecisionIn(more[i]).fingerprint {
      if q in a.fingerprints {
        var i: nat :| FirstFor(log, q, i) && a.fingerprints[q] == DecisionIn(log[i]).fingerprint;
        assert more[i] == log[i] && FirstFor(more, q, i);
      } else {
        assert more[|log|] == r && FirstFor(more, q, |log|);
      }
    }
    forall i | 0 <= i < |more| && Registers(more[i]) && DecisionIn(more[i]).request != 0 ensures DecisionIn(more[i]).request in after {
      assert i < |log| ==> more[i] == log[i];
    }
  }

  lemma {:induction false} RequestsExact(b: Recovering, log: seq<Record>)
    requires b.attempts.fingerprints == map[] && ReplayLog(b, log).Replaying?
    ensures NamesFirst(ReplayLog(b, log).state.attempts.fingerprints, log)
  {
    if log != [] {
      var n := |log| - 1;
      RequestsExact(b, log[..n]);
      AbsorbAttempts(ReplayLog(b, log[..n]).state, log[n]);
      assert log[..n] + [log[n]] == log;
      FirstSnoc(ReplayLog(b, log[..n]).state.attempts, log[..n], log[n]);
    }
  }

  // ------------------------------------------------------------------
  // The records
  // ------------------------------------------------------------------

  predicate Settles(r: Record, d: nat) {
    IsDecision(r) && DecisionIn(r).decision == d
  }

  predicate Revises(r: Record, d: nat) {
    r.Revocation? && r.revocation.decision == d
  }

  /** Entry i is the latest record of decision d. */
  ghost predicate LatestOf(log: seq<Record>, d: nat, i: nat) {
    i < |log| && Settles(log[i], d) && forall j :: i < j < |log| ==> !Settles(log[j], d)
  }

  /** Entry j is the latest revision of decision d after entry i. */
  ghost predicate LatestRevision(log: seq<Record>, d: nat, i: nat, j: nat) {
    i < j < |log| && Revises(log[j], d) && forall k :: j < k < |log| ==> !Revises(log[k], d)
  }

  ghost predicate Unrevised(log: seq<Record>, d: nat, i: nat) {
    forall j :: i < j < |log| ==> !Revises(log[j], d)
  }

  /** A decision as it was written. */
  function AsWritten(r: Record): DecisionRecord
    requires IsDecision(r)
  {
    var d := DecisionIn(r);
    d.(restoredFromDisk := true, ledgerLive := r.AdmissionCommit? && Admitting(d.outcome) && d.state != Revoked)
  }

  function AsRevised(r: Record, v: RevocationRecord): DecisionRecord
    requires IsDecision(r)
  {
    AsWritten(r).(state := v.state, reason := v.reason, ledgerLive := false)
  }

  /** What the journal says of decision d: its latest record, as its latest
      revision left it. */
  ghost predicate Recounts(log: seq<Record>, d: nat, r: DecisionRecord) {
    exists i: nat :: LatestOf(log, d, i) && RecountsFrom(log, d, r, i)
  }

  ghost predicate RecountsFrom(log: seq<Record>, d: nat, r: DecisionRecord, i: nat)
    requires i < |log| && IsDecision(log[i])
  {
    (Unrevised(log, d, i) && r == AsWritten(log[i])) ||
    exists j: nat :: LatestRevision(log, d, i, j) && r == AsRevised(log[i], log[j].revocation)
  }

  ghost predicate RecordsExact(records: map<nat, DecisionRecord>, log: seq<Record>) {
    (forall d :: d in records ==> d != 0 && Recounts(log, d, records[d])) &&
    (forall i :: 0 <= i < |log| && IsDecision(log[i]) && DecisionIn(log[i]).decision != 0 ==> DecisionIn(log[i]).decision in records)
  }

  /** A later entry that is not about d changes nothing the journal says of it. */
  lemma RecountsOn(log: seq<Record>, r: Record, d: nat, record: DecisionRecord)
    requires Recounts(log, d, record) && !Settles(r, d) && !Revises(r, d)
    ensures Recounts(log + [r], d, record)
  {
    var more := log + [r];
    var i: nat :| LatestOf(log, d, i) && RecountsFrom(log, d, record, i);
    assert more[i] == log[i] && LatestOf(more, d, i);
    if Unrevised(log, d, i) && record == AsWritten(log[i]) {
      assert Unrevised(more, d, i);
    } else {
      var j: nat :| LatestRevision(log, d, i, j) && record == AsRevised(log[i], log[j].revocation);
      assert more[j] == log[j] && LatestRevision(more, d, i, j);
    }
  }

  lemma RecountsNew(log: seq<Record>, r: Record)
    requires IsDecision(r)
    ensures Recounts(log + [r], DecisionIn(r).decision, AsWritten(r))
  {
    var more, d := log + [r], DecisionIn(r).decision;
    assert more[|log|] == r && LatestOf(more, d, |log|) && Unrevised(more, d, |log|);
  }

  lemma RecountsRevised(log: seq<Record>, v: RevocationRecord, record: DecisionRecord)
    requires Recounts(log, v.decision, record)
    ensures Recounts(log + [Revocation(v)], v.decision, record.(state := v.state, reason := v.reason, ledgerLive := false))
  {
    var more, d := log + [Revocation(v)], v.decision;
    var i: nat :| LatestOf(log, d, i) && RecountsFrom(log, d, record, i);
    assert more[i] == log[i] && LatestOf(more, d, i);
    assert more[|log|] == Revocation(v) && LatestRevision(more, d, i, |log|);
    assert record.(state := v.state, reason := v.reason, ledgerLive := false) == AsRevised(log[i], v);
  }

  lemma AbsorbRecords(st: Recovering, r: Record)
    requires Absorb(st, r).Replaying?
    ensures
      var after, before := Absorb(st, r).state.history.records, st.history.records;
      if IsDecision(r) then after == (if DecisionIn(r).decision == 0 then before else before[DecisionIn(r).decision := AsWritten(r)])
      else if r.Revocation? && r.revocation.decision in before then
        var v := r.revocation;
        after == before[v.decision := before[v.decision].(state := v.state, reason := v.reason, ledgerLive := false)]
      else after == before
  {}

  lemma RecordsSnoc(st: Recovering, log: seq<Record>, r: Record)
    requires Absorb(st, r).Replaying? && RecordsExact(st.history.records, log)
    ensures RecordsExact(Absorb(st, r).state.history.records, log + [r])
  {
    var before, after := st.history.records, Absorb(st, r).state.history.records;
    AbsorbRecords(st, r);
    forall d | d in after ensures d != 0 && Recounts(log + [r], d, after[d]) {
      if Settles(r, d) {
        RecountsNew(log, r);
      } else if Revises(r, d) {
        RecountsRevised(log, r.revocation, before[d]);
      } else {
        RecountsOn(log, r, d, before[d]);
      }
    }
    forall i | 0 <= i < |log + [r]| && IsDecision((log + [r])[i]) && DecisionIn((log + [r])[i]).decision != 0
      ensures DecisionIn((log + [r])[i]).decision in after
    {
      assert i < |log| ==> (log + [r])[i] == log[i];
    }
  }

  /** Recovery rebuilds, of every decision in the journal, exactly what the
      journal says of it. */
  lemma {:induction false} HistoryExact(b: Recovering, log: seq<Record>)
    requires b.history.records == map[] && ReplayLog(b, log).Replaying?
    ensures RecordsExact(ReplayLog(b, log).state.history.records, log)
  {
    if log != [] {
      var n := |log| - 1;
      HistoryExact(b, log[..n]);
      RecordsSnoc(ReplayLog(b, log[..n]).state, log[..n], log[n]);
      assert log[..n] + [log[n]] == log;
    }
  }
}
