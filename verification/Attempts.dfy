/** Idempotency and identity-reuse registry (AttemptRegistry in src/engine/history.cpp). */
module Attempts {
  import opened Base
  import opened Model

  datatype AttemptKey = AttemptKey(demand: u64, attempt: u64)

  datatype AttemptRecord = AttemptRecord(
    request: u64, demand: u64, demandGeneration: u64, attempt: u64,
    fingerprint: u64, decision: nat, outcome: Outcome, recordedTick: u64)

  datatype AttemptState = AttemptState(
    capacity: nat,
    attempts: map<AttemptKey, AttemptRecord>,
    fingerprints: map<u64, u64>)

  datatype Classification =
    | NewAttempt
    | Replay(existing: AttemptRecord)
    | Conflict(requestIdConflict: bool)

  function EmptyAttempts(capacity: nat): AttemptState {
    AttemptState(capacity, map[], map[])
  }

  function KeyOf(r: AttemptRecord): AttemptKey {
    AttemptKey(r.demand, r.attempt)
  }

  function Classify(a: AttemptState, key: AttemptKey, request: u64, fingerprint: u64): Classification {
    if key in a.attempts then
      if a.attempts[key].fingerprint == fingerprint then Replay(a.attempts[key]) else Conflict(false)
    else if request != 0 && request in a.fingerprints && a.fingerprints[request] != fingerprint then Conflict(true)
    else NewAttempt
  }

  predicate KeyLeq(a: AttemptKey, b: AttemptKey) {
    a.demand < b.demand || (a.demand == b.demand && a.attempt <= b.attempt)
  }

  lemma SmallestExists(s: set<AttemptKey>)
    requires s != {}
    ensures exists k :: k in s && forall x :: x in s ==> KeyLeq(k, x)
  {
    var y :| y in s;
    var rest := s - {y};
    if rest == {} {
      forall x | x in s ensures KeyLeq(y, x) {
        assert x == y || x in rest;
      }
    } else {
      SmallestExists(rest);
      var k :| k in rest && forall x :: x in rest ==> KeyLeq(k, x);
      var low := if KeyLeq(y, k) then y else k;
      assert low in s;
      forall x | x in s ensures KeyLeq(low, x) {
        assert x == y || x in rest;
      }
    }
  }

  /** The first key in map order. */
  function SmallestKey(s: set<AttemptKey>): (k: AttemptKey)
    requires s != {}
    ensures k in s && forall x :: x in s ==> KeyLeq(k, x)
  {
    SmallestExists(s);
    var k :| k in s && forall x :: x in s ==> KeyLeq(k, x);
    k
  }

  function EvictDown(m: map<AttemptKey, AttemptRecord>, capacity: nat): (r: map<AttemptKey, AttemptRecord>)
    ensures forall k :: k in r ==> k in m && r[k] == m[k]
    decreases m.Keys
  {
    if |m| >= capacity && m.Keys != {} then EvictDown(m - {SmallestKey(m.Keys)}, capacity) else m
  }

  /** Recording an existing key overwrites it; a new key first evicts from the
      front of the map until there is room. */
  function Recorded(a: AttemptState, r: AttemptRecord): AttemptState {
    var room := if KeyOf(r) in a.attempts then a.attempts else EvictDown(a.attempts, a.capacity);
    a.(attempts := room[KeyOf(r) := r],
       fingerprints := if r.request != 0 && r.request !in a.fingerprints
                       then a.fingerprints[r.request := r.fingerprint] else a.fingerprints)
  }

  lemma {:induction false} EvictDownSize(m: map<AttemptKey, AttemptRecord>, capacity: nat)
    ensures |EvictDown(m, capacity)| <= |m|
    ensures capacity > 0 ==> |EvictDown(m, capacity)| < capacity
    ensures |m| < capacity ==> EvictDown(m, capacity) == m
    decreases m.Keys
  {
    if |m| >= capacity && m.Keys != {} {
      var k := SmallestKey(m.Keys);
      assert (m - {k}).Keys == m.Keys - {k};
      assert |m.Keys| == |m| && |(m - {k}).Keys| == |m - {k}|;
      EvictDownSize(m - {k}, capacity);
    } else {
      assert |m.Keys| == |m|;
    }
  }

  /** What eviction retires is the lowest key, whenever it was recorded: every
      key it keeps lies above every key it drops. */
  lemma {:induction false} EvictsFromTheFront(m: map<AttemptKey, AttemptRecord>, capacity: nat, kept: AttemptKey, dropped: AttemptKey)
    requires kept in EvictDown(m, capacity) && dropped in m && dropped !in EvictDown(m, capacity)
    ensures KeyLeq(dropped, kept) && dropped != kept
    decreases m.Keys
  {
    var k := SmallestKey(m.Keys);
    if dropped != k {
      EvictsFromTheFront(m - {k}, capacity, kept, dropped);
    }
  }

  /** Nothing kept was recorded before anything dropped. */
  ghost predicate FollowsAge(m: map<AttemptKey, AttemptRecord>, kept: map<AttemptKey, AttemptRecord>) {
    forall d, k :: d in m && d !in kept && k in m && k in kept ==> m[d].recordedTick <= m[k].recordedTick
  }

  /** Attempts were recorded in the order of their keys. */
  ghost predicate KeysInAgeOrder(m: map<AttemptKey, AttemptRecord>) {
    forall a, b :: a in m && b in m && KeyLeq(a, b) ==> m[a].recordedTick <= m[b].recordedTick
  }

  function Above(m: map<AttemptKey, AttemptRecord>, a: AttemptKey): map<AttemptKey, AttemptRecord> {
    map k | k in m && !KeyLeq(k, a) :: m[k]
  }

  lemma AboveSmaller(m: map<AttemptKey, AttemptRecord>, a: AttemptKey, k: AttemptKey)
    requires k in m && KeyLeq(k, a)
    ensures |Above(m, a)| < |m|
  {
    assert Above(m, a).Keys < m.Keys;
    SmallerSet(Above(m, a).Keys, m.Keys);
    assert |m.Keys| == |m| && |Above(m, a).Keys| == |Above(m, a)|;
  }

  lemma SmallerSet(a: set<AttemptKey>, b: set<AttemptKey>)
    requires a < b
    ensures |a| < |b|
  {
    assert b == a + (b - a);
    assert |b| == |a| + |b - a|;
  }

  /** With room for what lies above a key, eviction leaves exactly that. */
  lemma {:induction false} EvictsTo(m: map<AttemptKey, AttemptRecord>, a: AttemptKey)
    ensures EvictDown(m, |Above(m, a)| + 1) == Above(m, a)
    decreases m.Keys
  {
    if k :| k in m && KeyLeq(k, a) {
      var low := SmallestKey(m.Keys);
      AboveSmaller(m, a, k);
      assert KeyLeq(low, a);
      assert Above(m - {low}, a) == Above(m, a);
      EvictsTo(m - {low}, a);
    } else {
      assert Above(m, a) == m;
    }
  }

  lemma InOrderFollowsAge(m: map<AttemptKey, AttemptRecord>, capacity: nat)
    requires KeysInAgeOrder(m)
    ensures FollowsAge(m, EvictDown(m, capacity))
  {
    var kept := EvictDown(m, capacity);
    forall d, k | d in m && d !in kept && k in m && k in kept ensures m[d].recordedTick <= m[k].recordedTick {
      EvictsFromTheFront(m, capacity, k, d);
    }
  }

  lemma FollowsAgeInOrder(m: map<AttemptKey, AttemptRecord>, a: AttemptKey, b: AttemptKey)
    requires a in m && b in m && KeyLeq(a, b) && FollowsAge(m, EvictDown(m, |Above(m, a)| + 1))
    ensures m[a].recordedTick <= m[b].recordedTick
  {
    EvictsTo(m, a);
    assert a !in Above(m, a);
    assert a != b ==> b in Above(m, a);
  }

  /** Making room within this bound retires the oldest attempts. */
  ghost predicate RetiresOldest(m: map<AttemptKey, AttemptRecord>, capacity: nat) {
    FollowsAge(m, EvictDown(m, capacity))
  }

  /** Eviction retires the oldest attempts, whatever the bound, exactly when the
      attempts were recorded in the order of their keys. */
  lemma EvictionFollowsAgeIff(m: map<AttemptKey, AttemptRecord>)
    ensures (forall capacity: nat :: RetiresOldest(m, capacity)) <==> KeysInAgeOrder(m)
  {
    if KeysInAgeOrder(m) {
      forall capacity: nat ensures RetiresOldest(m, capacity) {
        InOrderFollowsAge(m, capacity);
      }
    } else {
      var a, b :| a in m && b in m && KeyLeq(a, b) && m[a].recordedTick > m[b].recordedTick;
      if RetiresOldest(m, |Above(m, a)| + 1) {
        FollowsAgeInOrder(m, a, b);
      }
    }
  }

  function Try(demand: u64, tick: u64): AttemptRecord {
    AttemptRecord(0, demand, 1, 1, 1, 1, Admit, tick)
  }

  /** Departure: of an attempt recorded at tick 3 and one at tick 9, the next
      recording drops the newer. */
  lemma NewerAttemptDropped()
    ensures
      var a := Recorded(Recorded(Recorded(EmptyAttempts(2), Try(2, 3)), Try(1, 9)), Try(3, 10)).attempts;
      a == map[AttemptKey(2, 1) := Try(2, 3), AttemptKey(3, 1) := Try(3, 10)]
  {
    var one := map[AttemptKey(2, 1) := Try(2, 3)];
    assert Recorded(EmptyAttempts(2), Try(2, 3)).attempts == one;
    var two := Recorded(Recorded(EmptyAttempts(2), Try(2, 3)), Try(1, 9)).attempts;
    assert two == one[AttemptKey(1, 1) := Try(1, 9)];
    assert |two| == 2;
    assert AttemptKey(1, 1) in two.Keys;
    assert SmallestKey(two.Keys) == AttemptKey(1, 1);
    assert two - {AttemptKey(1, 1)} == one;
    assert EvictDown(two, 2) == one;
  }

  /** An entry survives a recording unless it is overwritten or evicted. */
  lemma RecordedKeeps(a: AttemptState, r: AttemptRecord, key: AttemptKey)
    requires key in a.attempts && key != KeyOf(r)
    requires KeyOf(r) in a.attempts || key in EvictDown(a.attempts, a.capacity)
    ensures key in Recorded(a, r).attempts && Recorded(a, r).attempts[key] == a.attempts[key]
  {}
}
