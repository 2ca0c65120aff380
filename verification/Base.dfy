/** Shared vocabulary: 64-bit quantities, status codes, optional values and
    ordered iteration over the keys of a map. */
module Base {

  const TWO32: int := 0x1_0000_0000
  const TWO64: int := 0x1_0000_0000_0000_0000
  const MAX64: int := 0xFFFF_FFFF_FFFF_FFFF

  /** An unsigned 64-bit machine value. */
  type u64 = x: int | 0 <= x <= 0xFFFF_FFFF_FFFF_FFFF

  datatype Option<+T> = None | Some(value: T)

  datatype Status =
    | Ok
    | InvalidArgument
    | MalformedInput
    | OversizedInput
    | ConflictIdentity
    | StaleGeneration
    | EpochMismatch
    | NotFound
    | AlreadyExists
    | ArithmeticOverflow
    | ArithmeticUnderflow
    | CapacityViolation
    | DurableFailure
    | CorruptJournal
    | Unsupported
    | Busy

  function Min(a: int, b: int): int {
    if a < b then a else b
  }

  function Max(a: int, b: int): int {
    if a < b then b else a
  }

  /** A missing key reads as zero. */
  function AtKey(m: map<u64, u64>, k: u64): u64 {
    if k in m then m[k] else 0
  }

  // ------------------------------------------------------------------
  // Ordered iteration: the source keeps its tables in ordered maps, so
  // every traversal follows increasing keys.
  // ------------------------------------------------------------------

  ghost predicate Increasing(s: seq<nat>) {
    forall i, j :: 0 <= i < j < |s| ==> s[i] < s[j]
  }

  /** The largest element of a non-empty set. */
  function Largest(s: set<nat>): (m: nat)
    requires s != {}
    ensures m in s && forall x :: x in s ==> x <= m
  {
    LargestExists(s);
    var m :| m in s && forall x :: x in s ==> x <= m;
    m
  }

  lemma LargestUnique(s: set<nat>, m: nat)
    requires m in s && forall x :: x in s ==> x <= m
    ensures Largest(s) == m
  {}

  lemma LargestExists(s: set<nat>)
    requires s != {}
    ensures exists m :: m in s && forall x :: x in s ==> x <= m
  {
    var y :| y in s;
    var rest := s - {y};
    if rest == {} {
      assert forall x :: x in s ==> x == y || x in rest;
    } else {
      LargestExists(rest);
      var m :| m in rest && forall x :: x in rest ==> x <= m;
      var top := if m < y then y else m;
      assert top in s;
      forall x | x in s ensures x <= top {
        assert x == y || x in rest;
      }
    }
  }

  /** The elements of a set in increasing order. */
  function SortedKeys(s: set<nat>): (r: seq<nat>)
    ensures forall x :: x in r <==> x in s
    ensures Increasing(r)
  {
    if s == {} then []
    else
      var m := Largest(s);
      Snoc(SortedKeys(s - {m}), m)
  }

  function Snoc(s: seq<nat>, m: nat): (r: seq<nat>)
    requires Increasing(s)
    requires forall x :: x in s ==> x < m
    ensures Increasing(r)
    ensures forall x :: x in r <==> x in s || x == m
    ensures |r| == |s| + 1
  {
    assert forall i :: 0 <= i < |s| ==> s[i] in s;
    s + [m]
  }

  lemma {:induction false} SortedKeysCount(s: set<nat>)
    ensures |SortedKeys(s)| == |s|
  {
    if s != {} {
      SortedKeysCount(s - {Largest(s)});
    }
  }
}
