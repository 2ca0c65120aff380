/** The history and attempt objects of src/engine/history.cpp, refining the
    functions of modules History and Attempts. */
module HistoryStore {
  import opened Base
  import opened Model
  import opened History
  import opened Attempts

  class DecisionHistory {
    const capacity: nat
    var records: map<nat, DecisionRecord>
    var auditIndex: map<nat, nat>
    var cursor: nat

    function View(): HistoryState
      reads this
    {
      HistoryState(capacity, records, auditIndex, cursor)
    }

    constructor (capacity: nat)
      ensures View() == EmptyHistory(capacity)
    {
      this.capacity := capacity;
      records, auditIndex, cursor := map[], map[], 0;
    }

    method Insert(r: DecisionRecord)
      modifies this
      ensures View() == Inserted(old(View()), r)
    {
      if r.decision == 0 { return; }
      if r.decision in records {
        auditIndex := auditIndex - {records[r.decision].audit};
        records := records[r.decision := r];
        auditIndex := auditIndex[r.audit := r.decision];
        return;
      }
      auditIndex := auditIndex[r.audit := r.decision];
      records := records[r.decision := r];
    }

    /** One position of the retirement scan. */
    method ScanAt(held: set<nat>, audit: nat)
      requires audit in auditIndex
      modifies this`records, this`auditIndex
      ensures View() == ScanOne(old(View()), held, audit)
    {
      var d := auditIndex[audit];
      if d !in held {
        records := records - {d};
        auditIndex := auditIndex - {audit};
      }
    }

    /** The retirement scan from position n. */
    method ScanFrom(held: set<nat>, keys: seq<nat>, start: nat) returns (n: nat)
      requires Pending(View(), keys, start)
      modifies this`records, this`auditIndex
      ensures (View(), n) == TrimFrom(old(View()), held, keys, start)
    {
      n := start;
      while |records| > capacity && n < |keys|
        invariant Pending(View(), keys, n)
        invariant TrimFrom(View(), held, keys, n) == TrimFrom(old(View()), held, keys, start)
        decreases |keys| - n
      {
        PendingStep(View(), held, keys, n);
        ScanAt(held, keys[n]);
        n := n + 1;
      }
    }

    /** Retires the oldest unprotected records, resuming at the cursor. */
    method Trim(held: set<nat>)
      modifies this
      ensures View() == Trimmed(old(View()), held)
    {
      if |records| <= capacity {
        cursor := 0;
        return;
      }
      var keys := SortedKeys(auditIndex.Keys);
      assert forall i :: 0 <= i < |keys| ==> keys[i] in keys;
      var n := ScanFrom(held, keys, LowerBound(keys, cursor));
      cursor := if n < |keys| then keys[n]
                else if auditIndex.Keys == {} then 0
                else Largest(auditIndex.Keys) + 1;
    }

    method NoteRelease()
      modifies this`cursor
      ensures View() == History.NoteRelease(old(View()))
    {
      cursor := 0;
    }

    method Update(d: nat, r: DecisionRecord) returns (found: bool)
      modifies this`records
      ensures View() == Updated(old(View()), d, r)
      ensures found <==> d in old(records)
    {
      if d !in records { return false; }
      records := records[d := r.(audit := records[d].audit)];
      return true;
    }

    method InAuditOrder() returns (ordered: seq<DecisionRecord>)
      ensures ordered == History.InAuditOrder(View())
    {
      var keys := SortedKeys(auditIndex.Keys);
      ordered := [];
      for i := 0 to |keys|
        invariant ordered == Collect(View(), keys[..i])
      {
        assert keys[i] in keys;
        CollectNext(View(), keys, i);
        var d := auditIndex[keys[i]];
        if d in records {
          ordered := ordered + [records[d]];
        }
      }
      assert keys[..|keys|] == keys;
    }
  }

  lemma CollectNext(h: HistoryState, keys: seq<nat>, i: nat)
    requires i < |keys| && keys[i] in h.auditIndex
    ensures Collect(h, keys[..i + 1]) ==
      Collect(h, keys[..i]) + (if h.auditIndex[keys[i]] in h.records then [h.records[h.auditIndex[keys[i]]]] else [])
  {
    assert keys[..i + 1][..i] == keys[..i];
  }

  class AttemptRegistry {
    const capacity: nat
    var attempts: map<AttemptKey, AttemptRecord>
    var fingerprints: map<u64, u64>

    function View(): AttemptState
      reads this
    {
      AttemptState(capacity, attempts, fingerprints)
    }

    constructor (capacity: nat)
      ensures View() == EmptyAttempts(capacity)
    {
      this.capacity := capacity;
      attempts, fingerprints := map[], map[];
    }

    method Record(r: AttemptRecord)
      modifies this
      ensures View() == Recorded(old(View()), r)
    {
      if KeyOf(r) !in attempts {
        while |attempts| >= capacity && attempts.Keys != {}
          invariant fingerprints == old(fingerprints)
          invariant EvictDown(attempts, capacity) == EvictDown(old(attempts), capacity)
          decreases attempts.Keys
        {
          attempts := attempts - {SmallestKey(attempts.Keys)};
        }
      }
      attempts := attempts[KeyOf(r) := r];
      if r.request != 0 && r.request !in fingerprints {
        fingerprints := fingerprints[r.request := r.fingerprint];
      }
    }
  }
}
