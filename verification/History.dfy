/** Bounded decision history (src/engine/history.cpp, include/naf/engine/history.hpp). */
module History {
  import opened Base
  import opened Model

  datatype HistoryState = HistoryState(
    capacity: nat,
    records: map<nat, DecisionRecord>,
    auditIndex: map<nat, nat>,
    cursor: nat)

  function EmptyHistory(capacity: nat): HistoryState {
    HistoryState(capacity, map[], map[], 0)
  }

  function Inserted(h: HistoryState, r: DecisionRecord): HistoryState {
    if r.decision == 0 then h
    else
      var index := if r.decision in h.records then h.auditIndex - {h.records[r.decision].audit} else h.auditIndex;
      h.(records := h.records[r.decision := r], auditIndex := index[r.audit := r.decision])
  }

  function Updated(h: HistoryState, d: nat, r: DecisionRecord): HistoryState {
    if d !in h.records then h
    else h.(records := h.records[d := r.(audit := h.records[d].audit)])
  }

  function NoteRelease(h: HistoryState): HistoryState {
    h.(cursor := 0)
  }

  /** Position of the first key at or above c. */
  function LowerBound(keys: seq<nat>, c: nat): (n: nat)
    ensures n <= |keys|
    ensures forall i :: 0 <= i < n ==> keys[i] < c
    ensures n < |keys| ==> keys[n] >= c
  {
    if keys == [] || keys[0] >= c then 0 else 1 + LowerBound(keys[1..], c)
  }

  ghost predicate Pending(h: HistoryState, keys: seq<nat>, i: nat) {
    i <= |keys| && Increasing(keys) && forall j :: i <= j < |keys| ==> keys[j] in h.auditIndex
  }

  /** Retire one record through its audit slot. */
  function Dropped(h: HistoryState, audit: nat): HistoryState
    requires audit in h.auditIndex
  {
    h.(records := h.records - {h.auditIndex[audit]}, auditIndex := h.auditIndex - {audit})
  }

  /** One position of the scan: a held record is passed over. */
  function ScanOne(h: HistoryState, held: set<nat>, audit: nat): HistoryState
    requires audit in h.auditIndex
  {
    if h.auditIndex[audit] in held then h else Dropped(h, audit)
  }

  lemma PendingStep(h: HistoryState, held: set<nat>, keys: seq<nat>, i: nat)
    requires Pending(h, keys, i) && i < |keys|
    ensures Pending(ScanOne(h, held, keys[i]), keys, i + 1)
  {}

  /** The retirement scan from position i, stopping at the bound or the end. */
  function TrimFrom(h: HistoryState, held: set<nat>, keys: seq<nat>, i: nat): (r: (HistoryState, nat))
    requires Pending(h, keys, i)
    ensures Pending(r.0, keys, r.1)
    decreases |keys| - i
  {
    if |h.records| <= h.capacity || i == |keys| then (h, i)
    else TrimFrom(ScanOne(h, held, keys[i]), held, keys, i + 1)
  }

  function Trimmed(h: HistoryState, held: set<nat>): HistoryState {
    if |h.records| <= h.capacity then h.(cursor := 0)
    else
      var keys := SortedKeys(h.auditIndex.Keys);
      var (t, n) := TrimFrom(h, held, keys, LowerBound(keys, h.cursor));
      t.(cursor := if n < |keys| then keys[n]
                   else if t.auditIndex.Keys == {} then 0
                   else Largest(t.auditIndex.Keys) + 1)
  }

  /** The engine trims only when the bound is exceeded. */
  function TrimIfNeeded(h: HistoryState, held: set<nat>): HistoryState {
    if |h.records| > h.capacity then Trimmed(h, held) else h
  }

  function Collect(h: HistoryState, keys: seq<nat>): seq<DecisionRecord> {
    if keys == [] then []
    else
      var k := keys[|keys| - 1];
      Collect(h, keys[..|keys| - 1])
        + (if k in h.auditIndex && h.auditIndex[k] in h.records then [h.records[h.auditIndex[k]]] else [])
  }

  function InAuditOrder(h: HistoryState): seq<DecisionRecord> {
    Collect(h, SortedKeys(h.auditIndex.Keys))
  }

  // ------------------------------------------------------------------
  // Consistency of records and index
  // ------------------------------------------------------------------

  /** The record owns its audit slot, so the ordered view lists it. */
  ghost predicate Listed(h: HistoryState, d: nat) {
    d in h.records && h.records[d].audit in h.auditIndex && h.auditIndex[h.records[d].audit] == d
  }

  /** Every record sits under its own id, every audit slot points to the record
      with that number, and no number exceeds the next one to be issued. */
  ghost predicate Indexed(h: HistoryState, audit: nat) {
    (forall d :: d in h.records ==> d != 0 && h.records[d].decision == d && h.records[d].audit <= audit) &&
    (forall a :: a in h.auditIndex ==> h.auditIndex[a] in h.records && h.records[h.auditIndex[a]].audit == a)
  }

  /** Held records own their slots, below the next number to be issued. */
  ghost predicate Anchored(h: HistoryState, held: set<nat>, audit: nat) {
    forall d :: d in held ==> Listed(h, d) && h.records[d].audit < audit
  }

  lemma InsertIndexed(h: HistoryState, r: DecisionRecord, audit: nat)
    requires Indexed(h, audit) && r.decision != 0 && r.decision !in h.records && audit <= r.audit
    ensures Indexed(Inserted(h, r), r.audit + 1)
  {}

  /** A decision filed again gives up its old slot for the new one. */
  lemma InsertAgain(h: HistoryState, r: DecisionRecord, audit: nat)
    requires Indexed(h, audit) && r.decision in h.records && r.audit <= audit
    ensures Indexed(Inserted(h, r), audit) && Listed(Inserted(h, r), r.decision)
    ensures forall a :: a in h.auditIndex && h.auditIndex[a] == r.decision && a != r.audit ==> a !in Inserted(h, r).auditIndex
  {}

  /** A record with a new number takes no slot from a held one. */
  lemma InsertAnchored(h: HistoryState, r: DecisionRecord, held: set<nat>, audit: nat)
    requires Anchored(h, held, audit) && r.decision != 0 && r.decision !in h.records && audit <= r.audit
    ensures Anchored(Inserted(h, r), held + {r.decision}, r.audit + 1)
  {}

  lemma UpdateIndexed(h: HistoryState, d: nat, r: DecisionRecord, audit: nat)
    requires Indexed(h, audit) && r.decision == d
    ensures Indexed(Updated(h, d, r), audit) && forall e :: Listed(Updated(h, d, r), e) <==> Listed(h, e)
  {}

  lemma {:induction false} CollectExact(h: HistoryState, keys: seq<nat>, audit: nat)
    requires Indexed(h, audit)
    requires forall i :: 0 <= i < |keys| ==> keys[i] in h.auditIndex
    ensures |Collect(h, keys)| == |keys|
    ensures forall i :: 0 <= i < |keys| ==> Collect(h, keys)[i] == h.records[h.auditIndex[keys[i]]]
  {
    if keys != [] {
      CollectExact(h, keys[..|keys| - 1], audit);
    }
  }

  /** The ordered view lists records by increasing audit number. */
  lemma AuditOrderSound(h: HistoryState, audit: nat)
    requires Indexed(h, audit)
    ensures
      var ordered := InAuditOrder(h);
      (forall i, j :: 0 <= i < j < |ordered| ==> ordered[i].audit < ordered[j].audit) &&
      (forall i :: 0 <= i < |ordered| ==> Listed(h, ordered[i].decision) && ordered[i] == h.records[ordered[i].decision])
  {
    var keys := SortedKeys(h.auditIndex.Keys);
    assert forall i :: 0 <= i < |keys| ==> keys[i] in keys;
    CollectExact(h, keys, audit);
  }

  /** The ordered view lists every record that owns its slot. */
  lemma AuditOrderComplete(h: HistoryState, audit: nat, d: nat) returns (i: nat)
    requires Indexed(h, audit) && Listed(h, d)
    ensures i < |InAuditOrder(h)| && InAuditOrder(h)[i] == h.records[d]
  {
    var keys := SortedKeys(h.auditIndex.Keys);
    assert forall i :: 0 <= i < |keys| ==> keys[i] in keys;
    CollectExact(h, keys, audit);
    assert h.records[d].audit in keys;
    i :| 0 <= i < |keys| && keys[i] == h.records[d].audit;
  }

  // ------------------------------------------------------------------
  // Retirement
  // ------------------------------------------------------------------

  /** Nothing held is dropped, nothing is altered and nothing is added. */
  ghost predicate Retains(h: HistoryState, t: HistoryState, held: set<nat>) {
    t.capacity == h.capacity &&
    (forall d :: d in t.records ==> d in h.records && t.records[d] == h.records[d]) &&
    (forall d :: d in h.records && d in held ==> d in t.records) &&
    (forall d :: d in held && Listed(h, d) ==> Listed(t, d))
  }

  lemma DropKeeps(h: HistoryState, held: set<nat>, a: nat, audit: nat)
    requires Indexed(h, audit) && a in h.auditIndex && h.auditIndex[a] !in held
    ensures Indexed(Dropped(h, a), audit) && Retains(h, Dropped(h, a), held)
    ensures |Dropped(h, a).records| == |h.records| - 1
  {
    var d := h.auditIndex[a];
    assert (h.records - {d}).Keys == h.records.Keys - {d};
    MapSize(h.records, d);
  }

  lemma MapSize(m: map<nat, DecisionRecord>, d: nat)
    requires d in m
    ensures |m - {d}| == |m| - 1
  {
    assert |m.Keys - {d}| == |m.Keys| - 1;
    assert (m - {d}).Keys == m.Keys - {d};
    assert |(m - {d}).Keys| == |m - {d}|;
  }

  lemma RetainsTransitive(a: HistoryState, b: HistoryState, c: HistoryState, held: set<nat>)
    requires Retains(a, b, held) && Retains(b, c, held)
    ensures Retains(a, c, held)
  {}

  lemma ScanKeeps(h: HistoryState, held: set<nat>, a: nat, audit: nat)
    requires Indexed(h, audit) && a in h.auditIndex
    ensures Indexed(ScanOne(h, held, a), audit) && Retains(h, ScanOne(h, held, a), held)
  {
    if h.auditIndex[a] !in held {
      DropKeeps(h, held, a, audit);
    }
  }

  lemma {:induction false} TrimFromKeeps(h: HistoryState, held: set<nat>, keys: seq<nat>, i: nat, audit: nat)
    requires Pending(h, keys, i) && Indexed(h, audit)
    ensures Indexed(TrimFrom(h, held, keys, i).0, audit) && Retains(h, TrimFrom(h, held, keys, i).0, held)
    decreases |keys| - i
  {
    if |h.records| > h.capacity && i < |keys| {
      var g := ScanOne(h, held, keys[i]);
      ScanKeeps(h, held, keys[i], audit);
      PendingStep(h, held, keys, i);
      TrimFromKeeps(g, held, keys, i + 1, audit);
      RetainsTransitive(h, g, TrimFrom(g, held, keys, i + 1).0, held);
    }
  }

  lemma {:induction false} TrimFromSize(h: HistoryState, held: set<nat>, keys: seq<nat>, i: nat, audit: nat)
    requires Pending(h, keys, i) && Indexed(h, audit) && |h.records| >= h.capacity
    ensures |TrimFrom(h, held, keys, i).0.records| >= h.capacity
    decreases |keys| - i
  {
    if |h.records| > h.capacity && i < |keys| {
      if h.auditIndex[keys[i]] in held {
        TrimFromSize(h, held, keys, i + 1, audit);
      } else {
        DropKeeps(h, held, keys[i], audit);
        TrimFromSize(Dropped(h, keys[i]), held, keys, i + 1, audit);
      }
    }
  }

  lemma CursorFree(h: HistoryState, t: HistoryState, held: set<nat>, c: nat, audit: nat)
    requires Indexed(t, audit) && Retains(h, t, held)
    ensures Indexed(t.(cursor := c), audit) && Retains(h, t.(cursor := c), held)
  {}

  lemma RetainsAnchored(h: HistoryState, t: HistoryState, held: set<nat>, audit: nat)
    requires Anchored(h, held, audit) && Retains(h, t, held)
    ensures Anchored(t, held, audit)
  {}

  lemma KeysPending(h: HistoryState, i: nat)
    requires i <= |SortedKeys(h.auditIndex.Keys)|
    ensures Pending(h, SortedKeys(h.auditIndex.Keys), i)
  {
    var keys := SortedKeys(h.auditIndex.Keys);
    assert forall i :: 0 <= i < |keys| ==> keys[i] in keys;
  }

  ghost function StopAt(t: HistoryState, keys: seq<nat>, n: nat): nat {
    if n < |keys| then keys[n] else if t.auditIndex.Keys == {} then 0 else Largest(t.auditIndex.Keys) + 1
  }

  /** A trim is the scan from the cursor, and then the new cursor. */
  lemma TrimIsScan(h: HistoryState, held: set<nat>) returns (keys: seq<nat>, start: nat, t: HistoryState, n: nat)
    requires |h.records| > h.capacity
    ensures keys == SortedKeys(h.auditIndex.Keys) && start == LowerBound(keys, h.cursor) && Pending(h, keys, start)
    ensures TrimFrom(h, held, keys, start) == (t, n) && Pending(t, keys, n)
    ensures TrimIfNeeded(h, held) == Trimmed(h, held) == t.(cursor := StopAt(t, keys, n))
  {
    keys := SortedKeys(h.auditIndex.Keys);
    start := LowerBound(keys, h.cursor);
    KeysPending(h, start);
    var r := TrimFrom(h, held, keys, start);
    t, n := r.0, r.1;
  }

  /** Trimming never drops a record whose decision still holds load, and never
      drops more than the bound asks for. */
  lemma TrimKeeps(h: HistoryState, held: set<nat>, audit: nat)
    requires Indexed(h, audit)
    ensures Indexed(TrimIfNeeded(h, held), audit)
    ensures Retains(h, TrimIfNeeded(h, held), held)
    ensures |TrimIfNeeded(h, held).records| >= Min(h.capacity, |h.records|)
  {
    if |h.records| > h.capacity {
      var keys, start, t, n := TrimIsScan(h, held);
      TrimFromKeeps(h, held, keys, start, audit);
      TrimFromSize(h, held, keys, start, audit);
      CursorFree(h, t, held, StopAt(t, keys, n), audit);
    }
  }

  /** Of two records the scan could retire, the older goes first. */
  lemma {:induction false} ScanOldestFirst(h: HistoryState, held: set<nat>, keys: seq<nat>, i: nat, audit: nat, j: nat, k: nat)
    requires Pending(h, keys, i) && Indexed(h, audit) && i <= j < k < |keys| && h.auditIndex[keys[j]] !in held
    requires h.auditIndex[keys[k]] !in TrimFrom(h, held, keys, i).0.records
    ensures h.auditIndex[keys[j]] !in TrimFrom(h, held, keys, i).0.records
    decreases |keys| - i
  {
    if |h.records| > h.capacity {
      var g := ScanOne(h, held, keys[i]);
      ScanKeeps(h, held, keys[i], audit);
      PendingStep(h, held, keys, i);
      if i < j {
        ScanOldestFirst(g, held, keys, i + 1, audit, j, k);
      } else {
        TrimFromKeeps(g, held, keys, i + 1, audit);
      }
    }
  }

  /** Retirement follows age: if the record at audit number b was retired, so was
      every earlier one above the cursor that is not held. */
  lemma TrimOldestFirst(h: HistoryState, held: set<nat>, audit: nat, a: nat, b: nat)
    requires Indexed(h, audit) && h.cursor <= a < b && a in h.auditIndex && b in h.auditIndex && h.auditIndex[a] !in held
    requires h.auditIndex[b] !in TrimIfNeeded(h, held).records
    ensures h.auditIndex[a] !in TrimIfNeeded(h, held).records
  {
    var keys, start, t, n := TrimIsScan(h, held);
    var j :| 0 <= j < |keys| && keys[j] == a;
    var k :| 0 <= k < |keys| && keys[k] == b;
    ScanOldestFirst(h, held, keys, start, audit, j, k);
  }

  /** Everything below the cursor is held, so nothing there could be retired. */
  ghost predicate CursorOk(h: HistoryState, held: set<nat>) {
    forall a :: a in h.auditIndex && a < h.cursor ==> h.auditIndex[a] in held
  }

  /** Skipping held positions does not change what the scan retires. */
  lemma {:induction false} SkipHeld(h: HistoryState, held: set<nat>, keys: seq<nat>, i: nat, j: nat)
    requires Pending(h, keys, i) && i <= j <= |keys|
    requires forall k :: i <= k < j ==> h.auditIndex[keys[k]] in held
    ensures TrimFrom(h, held, keys, i).0 == TrimFrom(h, held, keys, j).0
    decreases j - i
  {
    if i < j && |h.records| > h.capacity {
      SkipHeld(h, held, keys, i + 1, j);
    }
  }

  /** The scan resumed at the cursor retires exactly what a scan of the whole
      window would. */
  lemma CursorRefinesRescan(h: HistoryState, held: set<nat>)
    requires CursorOk(h, held)
    ensures
      var keys := SortedKeys(h.auditIndex.Keys);
      Pending(h, keys, 0) &&
      (|h.records| > h.capacity ==>
        Trimmed(h, held).(cursor := h.cursor) == TrimFrom(h, held, keys, 0).0)
  {
    var keys := SortedKeys(h.auditIndex.Keys);
    assert forall i :: 0 <= i < |keys| ==> keys[i] in keys;
    var n := LowerBound(keys, h.cursor);
    forall k | 0 <= k < n ensures h.auditIndex[keys[k]] in held {
      assert keys[k] < h.cursor;
    }
    SkipHeld(h, held, keys, 0, n);
    TrimFromCursor(h, held, keys, n);
  }

  lemma {:induction false} TrimFromCursor(h: HistoryState, held: set<nat>, keys: seq<nat>, i: nat)
    requires Pending(h, keys, i)
    ensures TrimFrom(h, held, keys, i).0.cursor == h.cursor
    decreases |keys| - i
  {
    if |h.records| > h.capacity && i < |keys| {
      PendingStep(h, held, keys, i);
      TrimFromCursor(ScanOne(h, held, keys[i]), held, keys, i + 1);
    }
  }

  /** All index slots before position i are held. */
  ghost predicate HeldBefore(h: HistoryState, held: set<nat>, keys: seq<nat>, i: nat) {
    forall a :: a in h.auditIndex ==> h.auditIndex[a] in held || exists j :: i <= j < |keys| && keys[j] == a
  }

  lemma HeldStep(h: HistoryState, held: set<nat>, keys: seq<nat>, i: nat)
    requires Pending(h, keys, i) && i < |keys| && HeldBefore(h, held, keys, i)
    ensures HeldBefore(ScanOne(h, held, keys[i]), held, keys, i + 1)
  {
    var g := ScanOne(h, held, keys[i]);
    forall a | a in g.auditIndex ensures g.auditIndex[a] in held || exists j :: i + 1 <= j < |keys| && keys[j] == a {
      if h.auditIndex[a] !in held {
        var j :| i <= j < |keys| && keys[j] == a;
        assert j != i;
      }
    }
  }

  lemma {:induction false} TrimFromScans(h: HistoryState, held: set<nat>, keys: seq<nat>, i: nat)
    requires Pending(h, keys, i) && HeldBefore(h, held, keys, i)
    ensures
      var (t, n) := TrimFrom(h, held, keys, i);
      HeldBefore(t, held, keys, n) && (|t.records| <= t.capacity || n == |keys|)
    decreases |keys| - i
  {
    if |h.records| > h.capacity && i < |keys| {
      HeldStep(h, held, keys, i);
      PendingStep(h, held, keys, i);
      TrimFromScans(ScanOne(h, held, keys[i]), held, keys, i + 1);
    }
  }

  lemma StartHeld(h: HistoryState, held: set<nat>)
    requires CursorOk(h, held)
    ensures
      var keys := SortedKeys(h.auditIndex.Keys);
      var start := LowerBound(keys, h.cursor);
      Pending(h, keys, start) && HeldBefore(h, held, keys, start)
  {
    var keys := SortedKeys(h.auditIndex.Keys);
    assert forall i :: 0 <= i < |keys| ==> keys[i] in keys;
    var start := LowerBound(keys, h.cursor);
    forall a | a in h.auditIndex ensures h.auditIndex[a] in held || exists j :: start <= j < |keys| && keys[j] == a {
      assert a in keys;
      var j :| 0 <= j < |keys| && keys[j] == a;
      assert j < start ==> keys[j] < h.cursor;
    }
  }

  lemma StopCursor(t: HistoryState, held: set<nat>, keys: seq<nat>, n: nat, audit: nat)
    requires Pending(t, keys, n) && HeldBefore(t, held, keys, n) && Indexed(t, audit) && Anchored(t, held, audit)
    ensures CursorOk(t.(cursor := StopAt(t, keys, n)), held) && StopAt(t, keys, n) <= audit
    ensures n == |keys| ==> forall d :: Listed(t, d) ==> d in held
  {
    var c := StopAt(t, keys, n);
    forall a | a in t.auditIndex && a < c ensures t.auditIndex[a] in held {
      assert forall j :: n <= j < |keys| ==> keys[n] <= keys[j];
    }
    if n < |keys| {
      assert keys[n] in t.auditIndex;
    }
  }

  /** After a trim either the bound holds or every record still listed is held,
      and the cursor again has only held records below it. */
  lemma TrimComplete(h: HistoryState, held: set<nat>, audit: nat)
    requires Indexed(h, audit) && Anchored(h, held, audit) && CursorOk(h, held) && |h.records| > h.capacity
    ensures
      var t := Trimmed(h, held);
      CursorOk(t, held) && t.cursor <= audit &&
      (|t.records| <= t.capacity || forall d :: Listed(t, d) ==> d in held)
  {
    var keys, start, t, n := TrimIsScan(h, held);
    StartHeld(h, held);
    TrimFromScans(h, held, keys, start);
    TrimFromKeeps(h, held, keys, start, audit);
    RetainsAnchored(h, t, held, audit);
    StopCursor(t, held, keys, n, audit);
    CursorUnlists(t, StopAt(t, keys, n));
  }

  lemma CursorUnlists(t: HistoryState, c: nat)
    ensures forall d :: Listed(t.(cursor := c), d) <==> Listed(t, d)
  {}

  /** A record with a new audit number lands at or above the cursor. */
  lemma InsertCursor(h: HistoryState, held: set<nat>, r: DecisionRecord, audit: nat)
    requires Indexed(h, audit) && CursorOk(h, held) && h.cursor <= audit <= r.audit && r.decision !in h.records
    ensures CursorOk(Inserted(h, r), held)
  {}
}
