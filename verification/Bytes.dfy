/** The bounded little-endian byte codec (include/naf/core/bytes.hpp). */
module Bytes {
  import opened Base
  import Checked

  type byte = x: int | 0 <= x < 256

  function Pow256(n: nat): (p: nat)
    ensures p >= 1
  {
    if n == 0 then 1 else 256 * Pow256(n - 1)
  }

  /** The n low bytes of v, least significant first. */
  function LittleEndian(v: nat, n: nat): (bs: seq<byte>)
    ensures |bs| == n
    decreases n, v
  {
    if n == 0 then [] else [v % 256] + LittleEndian(v / 256, n - 1)
  }

  function ValueOf(bs: seq<byte>): nat {
    if bs == [] then 0 else bs[0] + 256 * ValueOf(bs[1..])
  }

  lemma {:induction false} ValueBound(bs: seq<byte>)
    ensures ValueOf(bs) < Pow256(|bs|)
  {
    if bs != [] {
      ValueBound(bs[1..]);
    }
  }

  lemma LowByte(v: nat, p: nat)
    requires v < 256 * p
    ensures v / 256 < p && v == v % 256 + 256 * (v / 256)
  {}

  lemma {:induction false} LittleEndianValue(v: nat, n: nat)
    requires v < Pow256(n)
    ensures ValueOf(LittleEndian(v, n)) == v
    decreases n
  {
    if n > 0 {
      LowByte(v, Pow256(n - 1));
      LittleEndianValue(v / 256, n - 1);
      assert LittleEndian(v, n)[1..] == LittleEndian(v / 256, n - 1);
    }
  }

  lemma Digits(b: byte, w: nat)
    ensures (b + 256 * w) % 256 == b && (b + 256 * w) / 256 == w
  {}

  lemma {:induction false} ValueLittleEndian(bs: seq<byte>)
    ensures LittleEndian(ValueOf(bs), |bs|) == bs
  {
    if bs != [] {
      ValueLittleEndian(bs[1..]);
      Digits(bs[0], ValueOf(bs[1..]));
      assert bs == [bs[0]] + bs[1..];
    }
  }

  lemma Widths()
    ensures Pow256(1) == 256 && Pow256(2) == 0x1_0000 && Pow256(4) == TWO32 && Pow256(8) == TWO64
  {
    assert Pow256(2) == 256 * Pow256(1) && Pow256(3) == 256 * Pow256(2) && Pow256(4) == 256 * Pow256(3);
    assert Pow256(5) == 256 * Pow256(4) && Pow256(6) == 256 * Pow256(5) && Pow256(7) == 256 * Pow256(6);
  }

  // ------------------------------------------------------------------
  // Runs of fixed-width fields
  // ------------------------------------------------------------------

  ghost predicate Fits(vs: seq<nat>, ws: seq<nat>) {
    |vs| == |ws| && forall i :: 0 <= i < |vs| ==> vs[i] < Pow256(ws[i])
  }

  function FieldsBytes(vs: seq<nat>, ws: seq<nat>): seq<byte>
    requires |vs| == |ws|
  {
    if vs == [] then [] else LittleEndian(vs[0], ws[0]) + FieldsBytes(vs[1..], ws[1..])
  }

  datatype Taken<T> = Taken(value: T, rest: seq<byte>) | Short

  function TakeFields(bs: seq<byte>, ws: seq<nat>): (t: Taken<seq<nat>>)
    ensures t.Taken? ==> |t.value| == |ws|
  {
    if ws == [] then Taken([], bs)
    else if |bs| < ws[0] then Short
    else
      match TakeFields(bs[ws[0]..], ws[1..])
      case Short => Short
      case Taken(vs, rest) => Taken([ValueOf(bs[..ws[0]])] + vs, rest)
  }

  lemma TakeFirst(v: nat, w: nat, ws: seq<nat>, more: seq<byte>, vs: seq<nat>, rest: seq<byte>)
    requires v < Pow256(w) && TakeFields(more, ws) == Taken(vs, rest)
    ensures TakeFields(LittleEndian(v, w) + more, [w] + ws) == Taken([v] + vs, rest)
  {
    var bs := LittleEndian(v, w) + more;
    LittleEndianValue(v, w);
    assert bs[..w] == LittleEndian(v, w) && bs[w..] == more;
    assert ([w] + ws)[1..] == ws;
  }

  lemma Regroup(a: seq<byte>, b: seq<byte>, c: seq<byte>)
    ensures a + b + c == a + (b + c)
  {}

  lemma NothingMore(bs: seq<byte>)
    ensures bs + [] == bs && [] + bs == bs
  {}

  lemma FirstAndRest(vs: seq<nat>)
    requires vs != []
    ensures vs == [vs[0]] + vs[1..]
  {}

  lemma {:induction false} TakeFieldsBytes(vs: seq<nat>, ws: seq<nat>, rest: seq<byte>)
    requires Fits(vs, ws)
    ensures TakeFields(FieldsBytes(vs, ws) + rest, ws) == Taken(vs, rest)
    decreases |vs|
  {
    if vs == [] {
      assert FieldsBytes(vs, ws) + rest == rest;
    } else {
      var tail := FieldsBytes(vs[1..], ws[1..]);
      TakeFieldsBytes(vs[1..], ws[1..], rest);
      TakeFirst(vs[0], ws[0], ws[1..], tail + rest, vs[1..], rest);
      Regroup(LittleEndian(vs[0], ws[0]), tail, rest);
      FirstAndRest(vs);
      FirstAndRest(ws);
    }
  }

  lemma FitsMore(v: nat, vs: seq<nat>, w: nat, ws: seq<nat>)
    requires v < Pow256(w) && Fits(vs, ws)
    ensures Fits([v] + vs, [w] + ws) && FieldsBytes([v] + vs, [w] + ws) == LittleEndian(v, w) + FieldsBytes(vs, ws)
  {
    assert ([v] + vs)[1..] == vs && ([w] + ws)[1..] == ws;
  }

  lemma FirstField(bs: seq<byte>, w: nat)
    requires w <= |bs|
    ensures ValueOf(bs[..w]) < Pow256(w) && bs == LittleEndian(ValueOf(bs[..w]), w) + bs[w..]
  {
    ValueBound(bs[..w]);
    ValueLittleEndian(bs[..w]);
    assert bs == bs[..w] + bs[w..];
  }

  lemma {:induction false} FieldsBytesTaken(bs: seq<byte>, ws: seq<nat>)
    requires TakeFields(bs, ws).Taken?
    ensures
      var t := TakeFields(bs, ws);
      Fits(t.value, ws) && bs == FieldsBytes(t.value, ws) + t.rest
    decreases |ws|
  {
    if ws != [] {
      var w := ws[0];
      FieldsBytesTaken(bs[w..], ws[1..]);
      var t' := TakeFields(bs[w..], ws[1..]);
      var v := ValueOf(bs[..w]);
      FirstField(bs, w);
      FitsMore(v, t'.value, w, ws[1..]);
      assert [w] + ws[1..] == ws;
      Regroup(LittleEndian(v, w), FieldsBytes(t'.value, ws[1..]), t'.rest);
    }
  }

  // ------------------------------------------------------------------
  // Counted groups of fields
  // ------------------------------------------------------------------

  ghost predicate GroupsFit(gs: seq<seq<nat>>, ws: seq<nat>) {
    forall i :: 0 <= i < |gs| ==> Fits(gs[i], ws)
  }

  function GroupsBytes(gs: seq<seq<nat>>, ws: seq<nat>): seq<byte>
    requires forall i :: 0 <= i < |gs| ==> |gs[i]| == |ws|
  {
    if gs == [] then [] else FieldsBytes(gs[0], ws) + GroupsBytes(gs[1..], ws)
  }

  function TakeGroups(bs: seq<byte>, ws: seq<nat>, n: nat): (t: Taken<seq<seq<nat>>>)
    ensures t.Taken? ==> |t.value| == n && forall i :: 0 <= i < n ==> |t.value[i]| == |ws|
    decreases n
  {
    if n == 0 then Taken([], bs)
    else
      match TakeFields(bs, ws)
      case Short => Short
      case Taken(g, rest) =>
        match TakeGroups(rest, ws, n - 1)
        case Short => Short
        case Taken(gs, rest') => Taken([g] + gs, rest')
  }

  lemma {:induction false} TakeGroupsBytes(gs: seq<seq<nat>>, ws: seq<nat>, rest: seq<byte>)
    requires GroupsFit(gs, ws)
    ensures TakeGroups(GroupsBytes(gs, ws) + rest, ws, |gs|) == Taken(gs, rest)
    decreases |gs|
  {
    if gs == [] {
      assert GroupsBytes(gs, ws) + rest == rest;
    } else {
      var tail := GroupsBytes(gs[1..], ws);
      TakeGroupsBytes(gs[1..], ws, rest);
      TakeFieldsBytes(gs[0], ws, tail + rest);
      assert GroupsBytes(gs, ws) + rest == FieldsBytes(gs[0], ws) + (tail + rest);
      assert [gs[0]] + gs[1..] == gs;
    }
  }

  lemma {:induction false} GroupsBytesTaken(bs: seq<byte>, ws: seq<nat>, n: nat)
    requires TakeGroups(bs, ws, n).Taken?
    ensures
      var t := TakeGroups(bs, ws, n);
      GroupsFit(t.value, ws) && bs == GroupsBytes(t.value, ws) + t.rest
    decreases n
  {
    if n > 0 {
      FieldsBytesTaken(bs, ws);
      var g := TakeFields(bs, ws);
      GroupsBytesTaken(g.rest, ws, n - 1);
      var t, t' := TakeGroups(bs, ws, n), TakeGroups(g.rest, ws, n - 1);
      assert t.value[1..] == t'.value;
      assert bs == FieldsBytes(g.value, ws) + (GroupsBytes(t'.value, ws) + t.rest);
    }
  }

  // ------------------------------------------------------------------
  // Writer and reader
  // ------------------------------------------------------------------

  lemma {:induction false} LittleEndianSnoc(v: nat, n: nat)
    ensures LittleEndian(v, n + 1) == LittleEndian(v, n) + [(v / Pow256(n)) % 256]
    decreases n
  {
    if n == 0 {
      assert v / Pow256(0) == v;
    } else {
      LittleEndianSnoc(v / 256, n - 1);
      ShiftTwice(v, Pow256(n - 1));
    }
  }

  lemma ShiftTwice(v: nat, p: nat)
    requires p >= 1
    ensures v / 256 / p == v / (256 * p)
  {
    var q, r := v / 256, v % 256;
    var a, b := q / p, q % p;
    assert v == 256 * (a * p + b) + r;
    assert v == (256 * p) * a + (256 * b + r);
    assert 0 <= 256 * b + r < 256 * p;
    Checked.DivUnique(v, 256 * p, a, 256 * b + r);
  }

  lemma {:induction false} ValueSnoc(bs: seq<byte>, b: byte)
    ensures ValueOf(bs + [b]) == ValueOf(bs) + b * Pow256(|bs|)
  {
    if bs == [] {
      assert bs + [b] == [b];
    } else {
      ValueSnoc(bs[1..], b);
      assert (bs + [b])[1..] == bs[1..] + [b];
      Scale(b, Pow256(|bs| - 1));
    }
  }

  lemma Scale(b: nat, p: nat)
    ensures 256 * (b * p) == b * (256 * p)
  {}

  class ByteWriter {
    var buffer: seq<byte>

    constructor ()
      ensures buffer == []
    {
      buffer := [];
    }

    /** Appends the width low bytes of v, one at a time. */
    method Put(v: nat, width: nat)
      modifies this
      ensures buffer == old(buffer) + LittleEndian(v, width)
    {
      for i := 0 to width
        invariant buffer == old(buffer) + LittleEndian(v, i)
      {
        LittleEndianSnoc(v, i);
        buffer := buffer + [(v / Pow256(i)) % 256];
      }
    }
  }

  class ByteReader {
    const data: seq<byte>
    var offset: nat

    ghost predicate Valid()
      reads this
    {
      offset <= |data|
    }

    ghost function Rest(): seq<byte>
      requires Valid()
      reads this
    {
      data[offset..]
    }

    constructor (bytes: seq<byte>)
      ensures Valid() && Rest() == bytes
    {
      data := bytes;
      offset := 0;
    }

    method Exhausted() returns (done: bool)
      requires Valid()
      ensures done <==> Rest() == []
    {
      done := offset == |data|;
    }

    /** Reads a little-endian value, or nothing when too few bytes remain. */
    method Get(width: nat) returns (ok: bool, v: nat)
      requires Valid()
      modifies this
      ensures Valid() && ok == (|old(Rest())| >= width)
      ensures ok ==> v == ValueOf(old(Rest())[..width]) && Rest() == old(Rest())[width..]
      ensures !ok ==> Rest() == old(Rest())
    {
      v := 0;
      if |data| - offset < width {
        return false, 0;
      }
      ghost var bs := data[offset..offset + width];
      for i := 0 to width
        invariant offset == old(offset) && v == ValueOf(bs[..i])
      {
        ValueSnoc(bs[..i], data[offset + i]);
        assert bs[..i] + [data[offset + i]] == bs[..i + 1];
        v := v + data[offset + i] * Pow256(i);
      }
      assert bs == bs[..width] == old(Rest())[..width];
      offset := offset + width;
      ok := true;
    }

    /** Reads fields one after another; the first that does not fit refuses all. */
    method GetFields(ws: seq<nat>) returns (t: Taken<seq<nat>>)
      requires Valid()
      modifies this
      ensures Valid() && t == TakeFields(old(Rest()), ws)
      ensures t.Taken? ==> Rest() == t.rest
    {
      var vs: seq<nat> := [];
      ghost var start := Rest();
      assert ws[0..] == ws;
      PrefixedNone(TakeFields(start, ws));
      for i := 0 to |ws|
        invariant Valid() && |vs| == i
        invariant TakeFields(start, ws) == Prefixed(vs, TakeFields(Rest(), ws[i..]))
      {
        var ok, v := Get(ws[i]);
        if !ok {
          return Short;
        }
        assert ws[i..][1..] == ws[i + 1..];
        PrefixedSnoc(vs, v, TakeFields(Rest(), ws[i + 1..]));
        vs := vs + [v];
      }
      assert vs + [] == vs;
      return Taken(vs, data[offset..]);
    }
  }

  function Prefixed<T>(vs: seq<T>, t: Taken<seq<T>>): Taken<seq<T>> {
    match t
    case Short => Short
    case Taken(more, rest) => Taken(vs + more, rest)
  }

  lemma PrefixedSnoc<T>(vs: seq<T>, v: T, t: Taken<seq<T>>)
    ensures Prefixed(vs, Prefixed([v], t)) == Prefixed(vs + [v], t)
  {
    if t.Taken? {
      assert vs + ([v] + t.value) == vs + [v] + t.value;
    }
  }

  lemma PrefixedNone<T>(t: Taken<seq<T>>)
    ensures Prefixed([], t) == t
  {
    if t.Taken? {
      assert [] + t.value == t.value;
    }
  }
}
