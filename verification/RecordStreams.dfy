/** The record codecs as the source runs them, over a writer and a reader
    (src/durable/records.cpp). */
module RecordStreams {
  import opened Base
  import opened Model
  import opened Bytes
  import opened Records

  // ------------------------------------------------------------------
  // Writing
  // ------------------------------------------------------------------

  lemma {:induction false} FieldsSnoc(vs: seq<nat>, ws: seq<nat>, i: nat)
    requires |vs| == |ws| && i < |vs|
    ensures FieldsBytes(vs[..i + 1], ws[..i + 1]) == FieldsBytes(vs[..i], ws[..i]) + LittleEndian(vs[i], ws[i])
    decreases i
  {
    var v, w := vs[..i + 1], ws[..i + 1];
    if i == 0 {
      assert v[1..] == [] && w[1..] == [];
    } else {
      FieldsSnoc(vs[1..], ws[1..], i - 1);
      assert v[1..] == vs[1..][..i] && w[1..] == ws[1..][..i];
      assert vs[..i][1..] == vs[1..][..i - 1] && ws[..i][1..] == ws[1..][..i - 1];
    }
  }

  method PutFields(w: ByteWriter, vs: seq<nat>, ws: seq<nat>)
    requires |vs| == |ws|
    modifies w
    ensures w.buffer == old(w.buffer) + FieldsBytes(vs, ws)
  {
    for i := 0 to |vs|
      invariant w.buffer == old(w.buffer) + FieldsBytes(vs[..i], ws[..i])
    {
      FieldsSnoc(vs, ws, i);
      w.Put(vs[i], ws[i]);
    }
    assert vs[..|vs|] == vs && ws[..|ws|] == ws;
  }

  lemma {:induction false} GroupsSnoc(gs: seq<seq<nat>>, ws: seq<nat>, i: nat)
    requires i < |gs| && forall j :: 0 <= j < |gs| ==> |gs[j]| == |ws|
    ensures GroupsBytes(gs[..i + 1], ws) == GroupsBytes(gs[..i], ws) + FieldsBytes(gs[i], ws)
    decreases i
  {
    var g := gs[..i + 1];
    if i == 0 {
      assert g[1..] == [];
    } else {
      GroupsSnoc(gs[1..], ws, i - 1);
      assert g[1..] == gs[1..][..i];
      assert gs[..i][1..] == gs[1..][..i - 1];
    }
  }

  method PutGroups(w: ByteWriter, gs: seq<seq<nat>>, ws: seq<nat>)
    requires forall i :: 0 <= i < |gs| ==> |gs[i]| == |ws|
    modifies w
    ensures w.buffer == old(w.buffer) + GroupsBytes(gs, ws)
  {
    for i := 0 to |gs|
      invariant w.buffer == old(w.buffer) + GroupsBytes(gs[..i], ws)
    {
      GroupsSnoc(gs, ws, i);
      PutFields(w, gs[i], ws);
    }
    assert gs[..|gs|] == gs;
  }

  method EncodePrepare(p: PrepareRecord) returns (bs: seq<byte>)
    ensures bs == PrepareBytes(p)
  {
    var w := new ByteWriter();
    PutFields(w, PrepareFields(p), PREPARE_HEADER);
    NothingMore(FieldsBytes(PrepareFields(p), PREPARE_HEADER));
    PutGroups(w, AmountGroups(p.amounts), AMOUNT);
    bs := w.buffer;
  }

  method EncodeRelease(r: ReleaseRecord) returns (bs: seq<byte>)
    ensures bs == ReleaseBytes(r)
  {
    var w := new ByteWriter();
    PutFields(w, ReleaseFields(r), RELEASE_HEADER);
    NothingMore(FieldsBytes(ReleaseFields(r), RELEASE_HEADER));
    PutGroups(w, EntryGroups(r.released), ENTRY);
    bs := w.buffer;
  }

  method EncodeDecision(r: DecisionRecord) returns (bs: seq<byte>)
    ensures bs == DecisionBytes(r)
  {
    var w := new ByteWriter();
    PutFields(w, DecisionFields(r), DECISION);
    bs := w.buffer;
  }

  method EncodePolicy(p: Policy) returns (bs: seq<byte>)
    ensures bs == PolicyBytes(p)
  {
    var w := new ByteWriter();
    PutFields(w, PolicyHead(p), POLICY_HEAD);
    NothingMore(FieldsBytes(PolicyHead(p), POLICY_HEAD));
    PutGroups(w, IdGroups(p.allowedQos), ID);
    PutFields(w, [|p.allowedPriorities|], COUNT);
    PutGroups(w, IdGroups(p.allowedPriorities), ID);
    PutFields(w, PolicyTail(p), POLICY_TAIL);
    bs := w.buffer;
  }

  // ------------------------------------------------------------------
  // Reading
  // ------------------------------------------------------------------

  /** Trailing bytes make a record malformed. */
  function Finished<T>(p: Parse<T>): Parse<T> {
    if p.Parsed? && p.rest != [] then Rejected(MalformedInput) else p
  }

  /** Reads n groups one after another. */
  method GetGroups(r: ByteReader, ws: seq<nat>, n: nat) returns (t: Taken<seq<seq<nat>>>)
    requires r.Valid()
    modifies r
    ensures r.Valid() && t == TakeGroups(old(r.Rest()), ws, n)
    ensures t.Taken? ==> r.Rest() == t.rest
  {
    var gs: seq<seq<nat>> := [];
    ghost var start := r.Rest();
    PrefixedNone(TakeGroups(start, ws, n));
    for i := 0 to n
      invariant r.Valid() && |gs| == i
      invariant TakeGroups(start, ws, n) == Prefixed(gs, TakeGroups(r.Rest(), ws, n - i))
    {
      var g := r.GetFields(ws);
      if g.Short? {
        return Short;
      }
      PrefixedSnoc(gs, g.value, TakeGroups(r.Rest(), ws, n - i - 1));
      gs := gs + [g.value];
    }
    assert gs + [] == gs;
    return Taken(gs, r.data[r.offset..]);
  }

  method DecodePrepare(bytes: seq<byte>) returns (p: Parse<PrepareRecord>)
    ensures p == Finished(ParsePrepare(bytes))
  {
    var r := new ByteReader(bytes);
    var h := r.GetFields(PREPARE_HEADER);
    if h.Short? { return Rejected(MalformedInput); }
    if h.value[7] > MAX_RESOURCE_BINDINGS { return Rejected(OversizedInput); }
    var g := GetGroups(r, AMOUNT, h.value[7]);
    if g.Short? { return Rejected(MalformedInput); }
    var done := r.Exhausted();
    if !done { return Rejected(MalformedInput); }
    return Parsed(PrepareFrom(h.value, g.value), []);
  }

  method DecodeRelease(bytes: seq<byte>) returns (p: Parse<ReleaseRecord>)
    ensures p == Finished(ParseRelease(bytes))
  {
    var r := new ByteReader(bytes);
    var h := r.GetFields(RELEASE_HEADER);
    if h.Short? || h.value[2] > 9 { return Rejected(MalformedInput); }
    if h.value[3] > MAX_RESOURCE_BINDINGS { return Rejected(OversizedInput); }
    var g := GetGroups(r, ENTRY, h.value[3]);
    if g.Short? || !FlagsClean(g.value) { return Rejected(MalformedInput); }
    var done := r.Exhausted();
    if !done { return Rejected(MalformedInput); }
    return Parsed(ReleaseFrom(h.value, g.value), []);
  }

  method DecodeDecision(bytes: seq<byte>) returns (p: Parse<DecisionRecord>)
    ensures p == Finished(ParseDecision(bytes))
  {
    var r := new ByteReader(bytes);
    var t := r.GetFields(DECISION);
    if t.Short? || !DecisionCodes(t.value) { return Rejected(MalformedInput); }
    var done := r.Exhausted();
    if !done { return Rejected(MalformedInput); }
    return Parsed(DecisionFrom(t.value), []);
  }

  method GetIds(r: ByteReader, n: nat) returns (p: Parse<seq<u64>>)
    requires r.Valid()
    modifies r
    ensures r.Valid() && p == ParseIds(old(r.Rest()), n)
    ensures p.Parsed? ==> r.Rest() == p.rest
  {
    if n > MAX_ALLOWED_CLASSES { return Rejected(OversizedInput); }
    var g := GetGroups(r, ID, n);
    if g.Short? { return Rejected(MalformedInput); }
    return Parsed(IdsFrom(g.value), g.rest);
  }

  method DecodePolicy(bytes: seq<byte>) returns (p: Parse<Policy>)
    ensures p == Finished(ParsePolicy(bytes))
  {
    var r := new ByteReader(bytes);
    var h := r.GetFields(POLICY_HEAD);
    if h.Short? || !PolicyCodes(h.value) { return Rejected(MalformedInput); }
    var qos := GetIds(r, h.value[12]);
    if qos.Rejected? { return Rejected(qos.status); }
    var n := r.GetFields(COUNT);
    if n.Short? { return Rejected(MalformedInput); }
    var priorities := GetIds(r, n.value[0]);
    if priorities.Rejected? { return Rejected(priorities.status); }
    var t := r.GetFields(POLICY_TAIL);
    if t.Short? { return Rejected(MalformedInput); }
    var done := r.Exhausted();
    if !done { return Rejected(MalformedInput); }
    return Parsed(PolicyFrom(h.value, qos.value, priorities.value, t.value), []);
  }
}
