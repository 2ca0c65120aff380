/** The authority vector and its digest (src/authority/authority.cpp). The
    fingerprint's mixing is a parameter; nothing is assumed about it. */
module Authority {
  import opened Base

  const MAX_AUTHORITY_REFS := 320

  datatype AuthorityRef = AuthorityRef(kind: nat, subject: u64, generation: u64, epoch: u64)

  datatype Vector = Vector(refs: seq<AuthorityRef>, truncated: bool)

  const EMPTY := Vector([], false)

  predicate SameSubject(a: AuthorityRef, b: AuthorityRef) {
    a.kind == b.kind && a.subject == b.subject
  }

  /** Position of the reference to the same subject, or the length. */
  function Find(refs: seq<AuthorityRef>, r: AuthorityRef): (i: nat)
    ensures i <= |refs|
    ensures i < |refs| ==> SameSubject(refs[i], r)
    ensures forall j :: 0 <= j < i ==> !SameSubject(refs[j], r)
  {
    if refs == [] || SameSubject(refs[0], r) then 0 else 1 + Find(refs[1..], r)
  }

  /** The strongest generation and the latest epoch win. */
  function Merge(old_: AuthorityRef, r: AuthorityRef): AuthorityRef {
    old_.(generation := if r.generation > old_.generation then r.generation else old_.generation, epoch := r.epoch)
  }

  function Added(v: Vector, r: AuthorityRef): Vector {
    var i := Find(v.refs, r);
    if i < |v.refs| then v.(refs := v.refs[i := Merge(v.refs[i], r)])
    else if |v.refs| >= MAX_AUTHORITY_REFS then v.(truncated := true)
    else v.(refs := v.refs + [r])
  }

  function AddedAll(xs: seq<AuthorityRef>): Vector {
    if xs == [] then EMPTY else Added(AddedAll(xs[..|xs| - 1]), xs[|xs| - 1])
  }

  // ------------------------------------------------------------------
  // What the vector holds
  // ------------------------------------------------------------------

  ghost predicate Distinct(refs: seq<AuthorityRef>) {
    forall i, j :: 0 <= i < j < |refs| ==> !SameSubject(refs[i], refs[j])
  }

  /** g is the strongest generation given for the subject of r. */
  ghost predicate Strongest(xs: seq<AuthorityRef>, r: AuthorityRef) {
    (exists i :: 0 <= i < |xs| && SameSubject(xs[i], r) && xs[i].generation == r.generation) &&
    (forall i :: 0 <= i < |xs| && SameSubject(xs[i], r) ==> xs[i].generation <= r.generation)
  }

  ghost predicate Mentions(refs: seq<AuthorityRef>, r: AuthorityRef) {
    exists j :: 0 <= j < |refs| && SameSubject(refs[j], r)
  }

  /** No repetition, and exactly the strongest reference to each subject given. */
  ghost predicate Exact(refs: seq<AuthorityRef>, xs: seq<AuthorityRef>, epoch: u64) {
    Distinct(refs) &&
    (forall j :: 0 <= j < |refs| ==> refs[j].epoch == epoch && Strongest(xs, refs[j])) &&
    (forall i :: 0 <= i < |xs| ==> Mentions(refs, xs[i]))
  }

  ghost function Ranks(xs: seq<AuthorityRef>): set<nat> {
    set i | 0 <= i < |xs| :: Rank(xs[i])
  }

  /** The order the digest uses: kind first, then subject. */
  function Rank(r: AuthorityRef): nat {
    r.kind * TWO64 + r.subject
  }

  lemma RankInjective(a: AuthorityRef, b: AuthorityRef)
    ensures Rank(a) == Rank(b) <==> SameSubject(a, b)
    ensures Rank(a) < Rank(b) <==> a.kind < b.kind || (a.kind == b.kind && a.subject < b.subject)
  {
    if a.kind < b.kind {
      assert (a.kind + 1) * TWO64 <= b.kind * TWO64;
    } else if b.kind < a.kind {
      assert (b.kind + 1) * TWO64 <= a.kind * TWO64;
    }
  }

  /** A reference to another subject changes nothing. */
  lemma StrongestOther(xs: seq<AuthorityRef>, x: AuthorityRef, r: AuthorityRef)
    requires Strongest(xs, r) && (SameSubject(x, r) ==> x.generation <= r.generation)
    ensures Strongest(xs + [x], r)
  {
    var ys := xs + [x];
    var i :| 0 <= i < |xs| && SameSubject(xs[i], r) && xs[i].generation == r.generation;
    assert ys[i] == xs[i];
  }

  /** A reference at least as strong as all before it is the strongest. */
  lemma StrongestNew(xs: seq<AuthorityRef>, x: AuthorityRef, r: AuthorityRef)
    requires SameSubject(x, r) && r.generation == x.generation
    requires forall i :: 0 <= i < |xs| && SameSubject(xs[i], r) ==> xs[i].generation <= r.generation
    ensures Strongest(xs + [x], r)
  {
    var ys := xs + [x];
    assert ys[|xs|] == x;
  }

  lemma MergedStrongest(xs: seq<AuthorityRef>, x: AuthorityRef, r: AuthorityRef)
    requires Strongest(xs, r) && SameSubject(r, x)
    ensures Strongest(xs + [x], Merge(r, x))
  {
    if x.generation > r.generation {
      StrongestNew(xs, x, Merge(r, x));
    } else {
      StrongestOther(xs, x, r);
      SameStrength(xs + [x], r, Merge(r, x));
    }
  }

  lemma SameStrength(xs: seq<AuthorityRef>, r: AuthorityRef, r': AuthorityRef)
    requires Strongest(xs, r) && SameSubject(r, r') && r'.generation == r.generation
    ensures Strongest(xs, r')
  {
    var i :| 0 <= i < |xs| && SameSubject(xs[i], r) && xs[i].generation == r.generation;
    assert SameSubject(xs[i], r');
  }

  /** Refreshing a reference, or adding one, leaves every subject mentioned. */
  lemma StillMentioned(refs: seq<AuthorityRef>, refs': seq<AuthorityRef>, xs: seq<AuthorityRef>, x: AuthorityRef)
    requires |refs| <= |refs'| && (forall j :: 0 <= j < |refs| ==> SameSubject(refs'[j], refs[j])) && Mentions(refs', x)
    requires forall i :: 0 <= i < |xs| ==> Mentions(refs, xs[i])
    ensures
      var ys := xs + [x];
      forall i :: 0 <= i < |ys| ==> Mentions(refs', ys[i])
  {
    var ys := xs + [x];
    forall i | 0 <= i < |ys| ensures Mentions(refs', ys[i]) {
      if i < |xs| {
        assert Mentions(refs, xs[i]);
        var j :| 0 <= j < |refs| && SameSubject(refs[j], xs[i]);
        assert SameSubject(refs'[j], ys[i]);
      }
    }
  }

  lemma MergedDistinct(refs: seq<AuthorityRef>, x: AuthorityRef, i: nat)
    requires Distinct(refs) && i < |refs|
    ensures Distinct(refs[i := Merge(refs[i], x)])
  {
    var refs' := refs[i := Merge(refs[i], x)];
    assert forall j :: 0 <= j < |refs| ==> refs'[j].kind == refs[j].kind && refs'[j].subject == refs[j].subject;
  }

  lemma MergedAt(refs: seq<AuthorityRef>, xs: seq<AuthorityRef>, x: AuthorityRef, epoch: u64, i: nat, j: nat)
    requires Exact(refs, xs, epoch) && x.epoch == epoch && i < |refs| && SameSubject(refs[i], x) && j < |refs|
    ensures
      var r := refs[i := Merge(refs[i], x)][j];
      r.epoch == epoch && Strongest(xs + [x], r) && SameSubject(r, refs[j])
  {
    if j == i {
      MergedStrongest(xs, x, refs[i]);
    } else {
      assert !SameSubject(x, refs[j]);
      StrongestOther(xs, x, refs[j]);
    }
  }

  lemma MergedExact(refs: seq<AuthorityRef>, xs: seq<AuthorityRef>, x: AuthorityRef, epoch: u64, i: nat)
    requires Exact(refs, xs, epoch) && x.epoch == epoch && i < |refs| && SameSubject(refs[i], x)
    ensures Exact(refs[i := Merge(refs[i], x)], xs + [x], epoch)
  {
    var refs', ys := refs[i := Merge(refs[i], x)], xs + [x];
    MergedDistinct(refs, x, i);
    forall j | 0 <= j < |refs'| ensures refs'[j].epoch == epoch && Strongest(ys, refs'[j]) && SameSubject(refs'[j], refs[j]) {
      MergedAt(refs, xs, x, epoch, i, j);
    }
    assert SameSubject(refs'[i], x);
    StillMentioned(refs, refs', xs, x);
  }

  lemma AppendedExact(refs: seq<AuthorityRef>, xs: seq<AuthorityRef>, x: AuthorityRef, epoch: u64)
    requires Exact(refs, xs, epoch) && x.epoch == epoch && !Mentions(refs, x)
    ensures Exact(refs + [x], xs + [x], epoch)
  {
    var refs', ys := refs + [x], xs + [x];
    forall i | 0 <= i < |xs| ensures !SameSubject(xs[i], x) {
      assert Mentions(refs, xs[i]);
      var j :| 0 <= j < |refs| && SameSubject(refs[j], xs[i]);
      assert !SameSubject(refs[j], x);
    }
    forall j | 0 <= j < |refs'| ensures refs'[j].epoch == epoch && Strongest(ys, refs'[j]) {
      if j < |refs| {
        StrongestOther(xs, x, refs[j]);
      } else {
        StrongestNew(xs, x, x);
      }
    }
    assert SameSubject(refs'[|refs|], x);
    StillMentioned(refs, refs', xs, x);
  }

  // ------------------------------------------------------------------
  // Adding a whole list
  // ------------------------------------------------------------------

  ghost predicate OneEpoch(xs: seq<AuthorityRef>, epoch: u64) {
    forall i :: 0 <= i < |xs| ==> xs[i].epoch == epoch
  }

  lemma RankGiven(refs: seq<AuthorityRef>, xs: seq<AuthorityRef>, epoch: u64, i: nat)
    requires Exact(refs, xs, epoch) && i < |xs|
    ensures Rank(xs[i]) in Ranks(refs)
  {
    assert Mentions(refs, xs[i]);
    var j :| 0 <= j < |refs| && SameSubject(refs[j], xs[i]);
    RankInjective(refs[j], xs[i]);
  }

  lemma RankKept(refs: seq<AuthorityRef>, xs: seq<AuthorityRef>, epoch: u64, j: nat)
    requires Exact(refs, xs, epoch) && j < |refs|
    ensures Rank(refs[j]) in Ranks(xs)
  {
    assert Strongest(xs, refs[j]);
    var i :| 0 <= i < |xs| && SameSubject(xs[i], refs[j]) && xs[i].generation == refs[j].generation;
    RankInjective(xs[i], refs[j]);
  }

  lemma RanksOf(refs: seq<AuthorityRef>, xs: seq<AuthorityRef>, epoch: u64)
    requires Exact(refs, xs, epoch)
    ensures Ranks(refs) == Ranks(xs)
  {
    forall i | 0 <= i < |xs| ensures Rank(xs[i]) in Ranks(refs) {
      RankGiven(refs, xs, epoch, i);
    }
    forall j | 0 <= j < |refs| ensures Rank(refs[j]) in Ranks(xs) {
      RankKept(refs, xs, epoch, j);
    }
  }

  lemma {:induction false} DistinctCount(refs: seq<AuthorityRef>)
    requires Distinct(refs)
    ensures |Ranks(refs)| == |refs|
  {
    if refs != [] {
      var n := |refs| - 1;
      var front := refs[..n];
      DistinctCount(front);
      forall i | 0 <= i < n ensures Rank(front[i]) != Rank(refs[n]) {
        RankInjective(front[i], refs[n]);
      }
      assert Ranks(refs) == Ranks(front) + {Rank(refs[n])};
    } else {
      assert Ranks(refs) == {};
    }
  }

  lemma RanksGrow(xs: seq<AuthorityRef>, x: AuthorityRef)
    ensures Ranks(xs + [x]) == Ranks(xs) + {Rank(x)}
  {
    var ys := xs + [x];
    assert ys[|xs|] == x && forall i :: 0 <= i < |xs| ==> ys[i] == xs[i];
    forall k | k in Ranks(ys) ensures k in Ranks(xs) + {Rank(x)} {
      var i :| 0 <= i < |ys| && Rank(ys[i]) == k;
    }
    forall k | k in Ranks(xs) + {Rank(x)} ensures k in Ranks(ys) {
      if k in Ranks(xs) {
        var i :| 0 <= i < |xs| && Rank(xs[i]) == k;
        assert Rank(ys[i]) == k;
      } else {
        assert Rank(ys[|xs|]) == k;
      }
    }
  }

  /** There is room for a new subject as long as the list names at most the
      bound. */
  lemma RoomLeft(refs: seq<AuthorityRef>, xs: seq<AuthorityRef>, x: AuthorityRef, epoch: u64)
    requires Exact(refs, xs, epoch) && |Ranks(xs + [x])| <= MAX_AUTHORITY_REFS && !Mentions(refs, x)
    ensures |refs| < MAX_AUTHORITY_REFS
  {
    RanksOf(refs, xs, epoch);
    DistinctCount(refs);
    RanksGrow(xs, x);
    if Rank(x) in Ranks(refs) {
      var j :| 0 <= j < |refs| && Rank(refs[j]) == Rank(x);
      RankInjective(refs[j], x);
    }
    assert |Ranks(xs) + {Rank(x)}| == |refs| + 1;
  }

  lemma FewerRanks(xs: seq<AuthorityRef>, x: AuthorityRef)
    ensures |Ranks(xs)| <= |Ranks(xs + [x])|
  {
    RanksGrow(xs, x);
    SubsetCount(Ranks(xs), Ranks(xs + [x]));
  }

  lemma {:induction false} SubsetCount(a: set<nat>, b: set<nat>)
    requires a <= b
    ensures |a| <= |b|
  {
    assert b == a + (b - a);
  }

  /** Adding references of one epoch to at most 320 subjects loses nothing: the
      vector has no repetition and holds the strongest reference to each. */
  lemma {:induction false} AddsExactly(xs: seq<AuthorityRef>, epoch: u64)
    requires OneEpoch(xs, epoch) && |Ranks(xs)| <= MAX_AUTHORITY_REFS
    ensures !AddedAll(xs).truncated && Exact(AddedAll(xs).refs, xs, epoch)
  {
    if xs != [] {
      var n := |xs| - 1;
      var front, x := xs[..n], xs[n];
      assert xs == front + [x];
      FewerRanks(front, x);
      AddsExactly(front, epoch);
      var refs := AddedAll(front).refs;
      if Find(refs, x) < |refs| {
        MergedExact(refs, front, x, epoch, Find(refs, x));
      } else {
        RoomLeft(refs, front, x, epoch);
        AppendedExact(refs, front, x, epoch);
      }
    }
  }

  // ------------------------------------------------------------------
  // Sorting
  // ------------------------------------------------------------------

  ghost predicate Ordered(refs: seq<AuthorityRef>) {
    forall i, j :: 0 <= i < j < |refs| ==> Rank(refs[i]) < Rank(refs[j])
  }

  predicate Precedes(a: AuthorityRef, b: AuthorityRef) {
    if a.kind != b.kind then a.kind < b.kind else a.subject < b.subject
  }

  /** Places a reference after everything that precedes it. */
  function Placed(sorted: seq<AuthorityRef>, r: AuthorityRef): seq<AuthorityRef> {
    if sorted == [] then [r]
    else if Precedes(r, sorted[|sorted| - 1]) then Placed(sorted[..|sorted| - 1], r) + [sorted[|sorted| - 1]]
    else sorted + [r]
  }

  function Sorted(refs: seq<AuthorityRef>): seq<AuthorityRef> {
    if refs == [] then [] else Placed(Sorted(refs[..|refs| - 1]), refs[|refs| - 1])
  }

  lemma {:induction false} PlacedElements(sorted: seq<AuthorityRef>, r: AuthorityRef, x: AuthorityRef)
    ensures x in Placed(sorted, r) <==> x in sorted || x == r
  {
    if sorted != [] {
      var n := |sorted| - 1;
      assert sorted == sorted[..n] + [sorted[n]];
      PlacedElements(sorted[..n], r, x);
    }
  }

  lemma {:induction false} PlacedOrdered(sorted: seq<AuthorityRef>, r: AuthorityRef)
    requires Ordered(sorted) && forall i :: 0 <= i < |sorted| ==> !SameSubject(sorted[i], r)
    ensures Ordered(Placed(sorted, r))
  {
    if sorted != [] {
      var n := |sorted| - 1;
      var front, last := sorted[..n], sorted[n];
      RankInjective(r, last);
      RankInjective(last, r);
      if Precedes(r, last) {
        PlacedOrdered(front, r);
        forall i | 0 <= i < |Placed(front, r)| ensures Rank(Placed(front, r)[i]) < Rank(last) {
          PlacedElements(front, r, Placed(front, r)[i]);
        }
      }
    }
  }

  lemma {:induction false} SortedElements(refs: seq<AuthorityRef>, x: AuthorityRef)
    ensures x in Sorted(refs) <==> x in refs
  {
    if refs != [] {
      var n := |refs| - 1;
      assert refs == refs[..n] + [refs[n]];
      SortedElements(refs[..n], x);
      PlacedElements(Sorted(refs[..n]), refs[n], x);
    }
  }

  lemma {:induction false} SortedOrdered(refs: seq<AuthorityRef>)
    requires Distinct(refs)
    ensures Ordered(Sorted(refs))
  {
    if refs != [] {
      var n := |refs| - 1;
      var front := refs[..n];
      SortedOrdered(front);
      forall i | 0 <= i < |Sorted(front)| ensures !SameSubject(Sorted(front)[i], refs[n]) {
        SortedElements(front, Sorted(front)[i]);
        var k :| 0 <= k < |front| && front[k] == Sorted(front)[i];
      }
      PlacedOrdered(Sorted(front), refs[n]);
    }
  }

  lemma LastOfOrdered(a: seq<AuthorityRef>, x: AuthorityRef)
    requires Ordered(a) && a != [] && x in a
    ensures x == a[|a| - 1] || (x in a[..|a| - 1] && Rank(x) < Rank(a[|a| - 1]))
  {}

  lemma FrontElements(a: seq<AuthorityRef>, x: AuthorityRef)
    requires Ordered(a) && a != []
    ensures x in a[..|a| - 1] <==> x in a && x != a[|a| - 1]
  {
    var n := |a| - 1;
    assert a == a[..n] + [a[n]];
  }

  lemma EmptyTogether(a: seq<AuthorityRef>, b: seq<AuthorityRef>)
    requires forall x :: x in a <==> x in b
    ensures a == [] <==> b == []
  {
    if a != [] {
      assert a[0] in a;
    }
    if b != [] {
      assert b[0] in b;
    }
  }

  /** A list ordered by distinct keys is determined by its elements. */
  lemma {:induction false} OrderedUnique(a: seq<AuthorityRef>, b: seq<AuthorityRef>)
    requires Ordered(a) && Ordered(b) && forall x :: x in a <==> x in b
    ensures a == b
    decreases |a|
  {
    EmptyTogether(a, b);
    if a != [] {
      var n, m := |a| - 1, |b| - 1;
      assert a[n] in a && b[m] in b;
      LastOfOrdered(a, b[m]);
      LastOfOrdered(b, a[n]);
      forall x ensures x in a[..n] <==> x in b[..m] {
        FrontElements(a, x);
        FrontElements(b, x);
      }
      OrderedUnique(a[..n], b[..m]);
      assert a == a[..n] + [a[n]] && b == b[..m] + [b[m]];
    }
  }

  // ------------------------------------------------------------------
  // The digest
  // ------------------------------------------------------------------

  /** How the fingerprint takes in a reference and the truncation mark. */
  datatype Mixer = Mixer(seed: u64, mix: (u64, AuthorityRef) -> u64, close: (u64, bool) -> u64)

  function Folded(m: Mixer, refs: seq<AuthorityRef>): u64 {
    if refs == [] then m.seed else m.mix(Folded(m, refs[..|refs| - 1]), refs[|refs| - 1])
  }

  function Digest(m: Mixer, v: Vector): u64 {
    m.close(Folded(m, Sorted(v.refs)), v.truncated)
  }

  lemma SameDigest(m: Mixer, v: Vector, w: Vector)
    requires Distinct(v.refs) && Distinct(w.refs) && v.truncated == w.truncated && forall r :: r in v.refs <==> r in w.refs
    ensures Digest(m, v) == Digest(m, w)
  {
    SortedOrdered(v.refs);
    SortedOrdered(w.refs);
    forall x ensures x in Sorted(v.refs) <==> x in Sorted(w.refs) {
      SortedElements(v.refs, x);
      SortedElements(w.refs, x);
    }
    OrderedUnique(Sorted(v.refs), Sorted(w.refs));
  }

  lemma StrongestUnique(xs: seq<AuthorityRef>, a: AuthorityRef, b: AuthorityRef)
    requires Strongest(xs, a) && Strongest(xs, b) && SameSubject(a, b)
    ensures a.generation == b.generation
  {
    var i :| 0 <= i < |xs| && SameSubject(xs[i], a) && xs[i].generation == a.generation;
    var j :| 0 <= j < |xs| && SameSubject(xs[j], b) && xs[j].generation == b.generation;
    assert SameSubject(xs[i], b) && SameSubject(xs[j], a);
  }

  /** The vector holds a reference exactly when it is the strongest one given. */
  lemma HeldIffStrongest(refs: seq<AuthorityRef>, xs: seq<AuthorityRef>, epoch: u64, r: AuthorityRef)
    requires Exact(refs, xs, epoch)
    ensures r in refs <==> r.epoch == epoch && Strongest(xs, r)
  {
    if r.epoch == epoch && Strongest(xs, r) {
      var i :| 0 <= i < |xs| && SameSubject(xs[i], r) && xs[i].generation == r.generation;
      assert Mentions(refs, xs[i]);
      var j :| 0 <= j < |refs| && SameSubject(refs[j], xs[i]);
      StrongestUnique(xs, refs[j], r);
      assert refs[j] == r;
    }
  }

  ghost predicate SameGiven(xs: seq<AuthorityRef>, ys: seq<AuthorityRef>) {
    multiset(xs) == multiset(ys)
  }

  lemma GivenElsewhere(xs: seq<AuthorityRef>, ys: seq<AuthorityRef>, i: nat) returns (j: nat)
    requires SameGiven(xs, ys) && i < |xs|
    ensures j < |ys| && ys[j] == xs[i]
  {
    assert xs[i] in multiset(ys);
    j :| 0 <= j < |ys| && ys[j] == xs[i];
  }

  lemma StrongestElsewhere(xs: seq<AuthorityRef>, ys: seq<AuthorityRef>, r: AuthorityRef)
    requires SameGiven(xs, ys) && Strongest(xs, r)
    ensures Strongest(ys, r)
  {
    var i :| 0 <= i < |xs| && SameSubject(xs[i], r) && xs[i].generation == r.generation;
    var j := GivenElsewhere(xs, ys, i);
    forall k | 0 <= k < |ys| && SameSubject(ys[k], r) ensures ys[k].generation <= r.generation {
      var l := GivenElsewhere(ys, xs, k);
    }
  }

  lemma SameRanks(xs: seq<AuthorityRef>, ys: seq<AuthorityRef>)
    requires SameGiven(xs, ys)
    ensures Ranks(xs) == Ranks(ys)
  {
    forall i | 0 <= i < |xs| ensures Rank(xs[i]) in Ranks(ys) {
      var j := GivenElsewhere(xs, ys, i);
    }
    forall i | 0 <= i < |ys| ensures Rank(ys[i]) in Ranks(xs) {
      var j := GivenElsewhere(ys, xs, i);
    }
  }

  ghost predicate SameHeld(v: Vector, w: Vector) {
    forall r :: r in v.refs <==> r in w.refs
  }

  /** Any reordering of references of one epoch to at most 320 subjects is held
      as the same references. */
  lemma HeldOrderInsensitive(xs: seq<AuthorityRef>, ys: seq<AuthorityRef>, epoch: u64)
    requires SameGiven(xs, ys) && OneEpoch(xs, epoch) && |Ranks(xs)| <= MAX_AUTHORITY_REFS
    ensures Exact(AddedAll(xs).refs, xs, epoch) && Exact(AddedAll(ys).refs, ys, epoch)
    ensures !AddedAll(xs).truncated && !AddedAll(ys).truncated && SameHeld(AddedAll(xs), AddedAll(ys))
  {
    forall i | 0 <= i < |ys| ensures ys[i].epoch == epoch {
      var j := GivenElsewhere(ys, xs, i);
    }
    SameRanks(xs, ys);
    AddsExactly(xs, epoch);
    AddsExactly(ys, epoch);
    var v, w := AddedAll(xs), AddedAll(ys);
    forall r ensures r in v.refs <==> r in w.refs {
      HeldIffStrongest(v.refs, xs, epoch, r);
      HeldIffStrongest(w.refs, ys, epoch, r);
      if Strongest(xs, r) {
        StrongestElsewhere(xs, ys, r);
      }
      if Strongest(ys, r) {
        StrongestElsewhere(ys, xs, r);
      }
    }
  }

  /** The digest does not depend on the order of additions: any reordering of
      references of one epoch, to at most 320 subjects, gives a vector without
      repetition holding the strongest generation per subject, and one digest. */
  lemma DigestOrderInsensitive(m: Mixer, xs: seq<AuthorityRef>, ys: seq<AuthorityRef>, epoch: u64)
    requires SameGiven(xs, ys) && OneEpoch(xs, epoch) && |Ranks(xs)| <= MAX_AUTHORITY_REFS
    ensures Exact(AddedAll(xs).refs, xs, epoch) && Digest(m, AddedAll(xs)) == Digest(m, AddedAll(ys))
  {
    HeldOrderInsensitive(xs, ys, epoch);
    SameDigest(m, AddedAll(xs), AddedAll(ys));
  }

  // ------------------------------------------------------------------
  // Beyond the bound
  // ------------------------------------------------------------------

  /** Whatever is added, the vector repeats no subject and respects the bound. */
  lemma {:induction false} AddedBounded(xs: seq<AuthorityRef>)
    ensures Distinct(AddedAll(xs).refs) && |AddedAll(xs).refs| <= MAX_AUTHORITY_REFS
  {
    if xs != [] {
      var n := |xs| - 1;
      AddedBounded(xs[..n]);
      var refs := AddedAll(xs[..n]).refs;
      if Find(refs, xs[n]) < |refs| {
        MergedDistinct(refs, xs[n], Find(refs, xs[n]));
      }
    }
  }

  /** What was added first is never lost. */
  lemma {:induction false} FirstKept(x: AuthorityRef, xs: seq<AuthorityRef>)
    ensures AddedAll([x] + xs).refs != [] && SameSubject(AddedAll([x] + xs).refs[0], x)
  {
    if xs == [] {
      assert [x] + xs == [x] && [x][..0] == [];
    } else {
      var n := |xs| - 1;
      FirstKept(x, xs[..n]);
      assert ([x] + xs)[..|xs|] == [x] + xs[..n];
    }
  }

  /** A list with more subjects than the bound has one that is not held. */
  lemma SomeoneDropped(xs: seq<AuthorityRef>) returns (i: nat)
    requires |Ranks(xs)| > MAX_AUTHORITY_REFS
    ensures i < |xs| && !Mentions(AddedAll(xs).refs, xs[i])
  {
    var refs := AddedAll(xs).refs;
    AddedBounded(xs);
    DistinctCount(refs);
    if Ranks(xs) <= Ranks(refs) {
      SubsetCount(Ranks(xs), Ranks(refs));
    }
    var k :| k in Ranks(xs) && k !in Ranks(refs);
    i :| 0 <= i < |xs| && Rank(xs[i]) == k;
    forall j | 0 <= j < |refs| ensures !SameSubject(refs[j], xs[i]) {
      RankInjective(refs[j], xs[i]);
    }
  }

  lemma MovedToFront(xs: seq<AuthorityRef>, i: nat)
    requires i < |xs|
    ensures SameGiven(xs, [xs[i]] + (xs[..i] + xs[i + 1..]))
  {
    assert xs == xs[..i] + ([xs[i]] + xs[i + 1..]);
  }

  /** With references of one epoch, every order of the list is held as the same
      references exactly when it names at most 320 subjects. */
  lemma OrderInsensitiveIff(xs: seq<AuthorityRef>, epoch: u64)
    requires OneEpoch(xs, epoch)
    ensures (forall ys :: SameGiven(xs, ys) ==> SameHeld(AddedAll(xs), AddedAll(ys))) <==> |Ranks(xs)| <= MAX_AUTHORITY_REFS
  {
    if |Ranks(xs)| <= MAX_AUTHORITY_REFS {
      forall ys | SameGiven(xs, ys) ensures SameHeld(AddedAll(xs), AddedAll(ys)) {
        HeldOrderInsensitive(xs, ys, epoch);
      }
    } else {
      var ys := OtherOrder(xs);
    }
  }

  /** Beyond the bound some order is held differently. */
  lemma OtherOrder(xs: seq<AuthorityRef>) returns (ys: seq<AuthorityRef>)
    requires |Ranks(xs)| > MAX_AUTHORITY_REFS
    ensures SameGiven(xs, ys) && !SameHeld(AddedAll(xs), AddedAll(ys))
  {
    var i := SomeoneDropped(xs);
    var rest := xs[..i] + xs[i + 1..];
    ys := [xs[i]] + rest;
    MovedToFront(xs, i);
    FirstKept(xs[i], rest);
    NotSameHeld(AddedAll(xs), AddedAll(ys), xs[i]);
  }

  lemma NotSameHeld(v: Vector, w: Vector, x: AuthorityRef)
    requires !Mentions(v.refs, x) && w.refs != [] && SameSubject(w.refs[0], x)
    ensures !SameHeld(v, w)
  {
    assert w.refs[0] in w.refs;
    forall j | 0 <= j < |v.refs| ensures v.refs[j] != w.refs[0] {
      assert !SameSubject(v.refs[j], x);
    }
  }

  /** 321 subjects of one kind, one reference each. */
  function Crowd(): (xs: seq<AuthorityRef>)
    ensures |xs| == 321 && forall i :: 0 <= i < |xs| ==> xs[i] == AuthorityRef(1, i + 1, 1, 1)
  {
    seq(321, i requires 0 <= i < 321 => AuthorityRef(1, i + 1, 1, 1))
  }

  /** A full vector drops a new subject. */
  lemma FullDrops(first: seq<AuthorityRef>, last: AuthorityRef, epoch: u64)
    requires OneEpoch(first, epoch) && |Ranks(first)| == MAX_AUTHORITY_REFS && !Mentions(first, last)
    ensures AddedAll(first + [last]).truncated && !Mentions(AddedAll(first + [last]).refs, last)
  {
    var v := AddedAll(first);
    AddsExactly(first, epoch);
    RanksOf(v.refs, first, epoch);
    DistinctCount(v.refs);
    AddSnoc(first, last);
    NotHeld(v.refs, first, last, epoch);
    DropsNew(v, last);
  }

  lemma AddSnoc(xs: seq<AuthorityRef>, x: AuthorityRef)
    ensures AddedAll(xs + [x]) == Added(AddedAll(xs), x)
  {
    assert (xs + [x])[..|xs|] == xs;
  }

  lemma NotHeld(refs: seq<AuthorityRef>, xs: seq<AuthorityRef>, x: AuthorityRef, epoch: u64)
    requires Exact(refs, xs, epoch) && !Mentions(xs, x)
    ensures !Mentions(refs, x)
  {
    forall j | 0 <= j < |refs| ensures !SameSubject(refs[j], x) {
      assert Strongest(xs, refs[j]);
    }
  }

  lemma DropsNew(v: Vector, x: AuthorityRef)
    requires |v.refs| >= MAX_AUTHORITY_REFS && !Mentions(v.refs, x)
    ensures Added(v, x) == v.(truncated := true)
  {}

  lemma CrowdFills() returns (first: seq<AuthorityRef>, last: AuthorityRef)
    ensures first == Crowd()[..320] && last == Crowd()[320]
    ensures OneEpoch(first, 1) && |Ranks(first)| == MAX_AUTHORITY_REFS && !Mentions(first, last)
  {
    first, last := Crowd()[..320], Crowd()[320];
    assert Distinct(first);
    DistinctCount(first);
  }

  /** Departure: of 321 subjects the last one added is dropped, and is held when
      the same list is added in another order. */
  lemma TruncationDependsOnOrder()
    ensures
      var first, last := Crowd()[..320], Crowd()[320];
      SameGiven(first + [last], [last] + first) && AddedAll(first + [last]).truncated &&
      !Mentions(AddedAll(first + [last]).refs, last) && Mentions(AddedAll([last] + first).refs, last)
  {
    var first, last := CrowdFills();
    FullDrops(first, last, 1);
    FirstKept(last, first);
  }

  // ------------------------------------------------------------------
  // The mutable vector
  // ------------------------------------------------------------------

  class AuthorityVector {
    var refs: seq<AuthorityRef>
    var truncated: bool

    function View(): Vector
      reads this
    {
      Vector(refs, truncated)
    }

    constructor ()
      ensures View() == EMPTY
    {
      refs, truncated := [], false;
    }

    /** Adds a reference, looking first at the most recent one. */
    method Add(r: AuthorityRef) returns (kept: bool)
      requires Distinct(refs)
      modifies this
      ensures View() == Added(old(View()), r) && Distinct(refs)
      ensures kept <==> Mentions(refs, r)
    {
      var n := |refs|;
      if n > 0 && SameSubject(refs[n - 1], r) {
        assert Find(refs, r) == n - 1;
        MergedDistinct(refs, r, n - 1);
        refs := refs[n - 1 := Merge(refs[n - 1], r)];
        assert SameSubject(refs[n - 1], r);
        return true;
      }
      for i := 0 to n
        invariant refs == old(refs) && truncated == old(truncated)
        invariant forall j :: 0 <= j < i ==> !SameSubject(refs[j], r)
      {
        if SameSubject(refs[i], r) {
          assert Find(refs, r) == i;
          MergedDistinct(refs, r, i);
          refs := refs[i := Merge(refs[i], r)];
          assert SameSubject(refs[i], r);
          return true;
        }
      }
      assert Find(refs, r) == n;
      if n >= MAX_AUTHORITY_REFS {
        truncated := true;
        return false;
      }
      refs := refs + [r];
      assert SameSubject(refs[n], r);
      return true;
    }

    /** Sorts a copy and folds it. */
    method ComputeDigest(m: Mixer) returns (d: u64)
      ensures d == Digest(m, View())
    {
      var sorted: seq<AuthorityRef> := [];
      for i := 0 to |refs|
        invariant sorted == Sorted(refs[..i])
      {
        assert refs[..i + 1][..i] == refs[..i];
        sorted := Placed(sorted, refs[i]);
      }
      assert refs[..|refs|] == refs;
      var h := m.seed;
      for i := 0 to |sorted|
        invariant h == Folded(m, sorted[..i])
      {
        assert sorted[..i + 1][..i] == sorted[..i];
        h := m.mix(h, sorted[i]);
      }
      assert sorted[..|sorted|] == sorted;
      d := m.close(h, truncated);
    }
  }
}
