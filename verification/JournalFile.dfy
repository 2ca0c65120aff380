/** Journal frames, torn-tail scan and repair (src/durable/journal.cpp). Every
    result holds for any checksum function. */
module JournalFile {
  import opened Base
  import opened Bytes

  const MAGIC := 0x4A46414E
  const REVISION := 1
  const HEADER_BYTES := 24
  const OVERHEAD_BYTES := 28

  type u32 = x: int | 0 <= x < 0x1_0000_0000
  type Checksum = seq<byte> -> u32

  datatype Frame = Frame(kind: nat, sequence: nat, payload: seq<byte>)

  /** Magic, revision, kind, sequence and payload length. */
  function Header(f: Frame): seq<byte> {
    LittleEndian(MAGIC, 4) + LittleEndian(REVISION, 2) + LittleEndian(f.kind, 2) + LittleEndian(f.sequence, 8) + LittleEndian(|f.payload|, 4)
  }

  function EncodeFrame(crc: Checksum, f: Frame): seq<byte> {
    Header(f) + LittleEndian(crc(Header(f)), 4) + f.payload + LittleEndian(crc(f.payload), 4)
  }

  predicate FrameOk(f: Frame, maxPayload: nat) {
    f.kind < 0x1_0000 && f.sequence <= MAX64 && |f.payload| <= maxPayload
  }

  /** The four bytes at an offset. */
  function U32At(bs: seq<byte>, at: nat): nat
    requires at + 4 <= |bs|
  {
    ValueOf(bs[at..at + 4])
  }

  function U16At(bs: seq<byte>, at: nat): nat
    requires at + 2 <= |bs|
  {
    ValueOf(bs[at..at + 2])
  }

  function U64At(bs: seq<byte>, at: nat): nat
    requires at + 8 <= |bs|
  {
    ValueOf(bs[at..at + 8])
  }

  // ------------------------------------------------------------------
  // Scanning
  // ------------------------------------------------------------------

  datatype Verdict = Torn | Damaged | Whole(frame: Frame)

  /** What the scan makes of the frame at the front of the remaining bytes. */
  function FrontFrame(crc: Checksum, maxPayload: nat, bs: seq<byte>): Verdict
    requires bs != []
  {
    if |bs| < HEADER_BYTES then Torn
    else if U32At(bs, 0) != MAGIC || U16At(bs, 4) != REVISION || U32At(bs, 16) > maxPayload then Damaged
    else
      var n := U32At(bs, 16);
      var size := OVERHEAD_BYTES + n;
      if |bs| < size then Torn
      else if U32At(bs, 20) != crc(bs[..20]) || U32At(bs, HEADER_BYTES + n) != crc(bs[HEADER_BYTES..HEADER_BYTES + n]) then
        if |bs| == size then Torn else Damaged
      else Whole(Frame(U16At(bs, 6), U64At(bs, 8), bs[HEADER_BYTES..HEADER_BYTES + n]))
  }

  function SizeOf(f: Frame): nat {
    OVERHEAD_BYTES + |f.payload|
  }

  datatype Scan = Intact(frames: seq<Frame>, truncated: nat) | Corrupt

  function Extend(frames: seq<Frame>, scan: Scan): Scan {
    match scan
    case Corrupt => Corrupt
    case Intact(more, truncated) => Intact(frames + more, truncated)
  }

  lemma FrontSize(crc: Checksum, maxPayload: nat, bs: seq<byte>)
    requires bs != [] && FrontFrame(crc, maxPayload, bs).Whole?
    ensures 0 < SizeOf(FrontFrame(crc, maxPayload, bs).frame) <= |bs|
  {}

  function ScanBytes(crc: Checksum, maxPayload: nat, bs: seq<byte>): Scan
    decreases |bs|
  {
    if bs == [] then Intact([], 0)
    else
      match FrontFrame(crc, maxPayload, bs)
      case Torn => Intact([], |bs|)
      case Damaged => Corrupt
      case Whole(f) =>
        FrontSize(crc, maxPayload, bs);
        Extend([f], ScanBytes(crc, maxPayload, bs[SizeOf(f)..]))
  }

  function EncodeAll(crc: Checksum, frames: seq<Frame>): seq<byte> {
    if frames == [] then [] else EncodeFrame(crc, frames[0]) + EncodeAll(crc, frames[1..])
  }

  ghost predicate FramesOk(frames: seq<Frame>, maxPayload: nat) {
    forall i :: 0 <= i < |frames| ==> FrameOk(frames[i], maxPayload)
  }

  // ------------------------------------------------------------------
  // What encoded bytes look like
  // ------------------------------------------------------------------

  lemma FiveSlices(a: seq<byte>, b: seq<byte>, c: seq<byte>, d: seq<byte>, e: seq<byte>)
    requires |a| == 4 && |b| == 2 && |c| == 2 && |d| == 8 && |e| == 4
    ensures
      var h := a + b + c + d + e;
      h[0..4] == a && h[4..6] == b && h[6..8] == c && h[8..16] == d && h[16..20] == e
  {}

  /** The first twenty bytes carry the frame's fields where the scan looks. */
  ghost predicate Carries(bs: seq<byte>, f: Frame) {
    |bs| >= 20 && U32At(bs, 0) == MAGIC && U16At(bs, 4) == REVISION && U16At(bs, 6) == f.kind && U64At(bs, 8) == f.sequence &&
    U32At(bs, 16) == |f.payload|
  }

  lemma HeaderLayout(f: Frame)
    requires f.kind < 0x1_0000 && f.sequence <= MAX64 && |f.payload| < TWO32
    ensures |Header(f)| == 20 && Carries(Header(f), f)
  {
    Widths();
    FiveSlices(LittleEndian(MAGIC, 4), LittleEndian(REVISION, 2), LittleEndian(f.kind, 2), LittleEndian(f.sequence, 8), LittleEndian(|f.payload|, 4));
    LittleEndianValue(MAGIC, 4);
    LittleEndianValue(REVISION, 2);
    LittleEndianValue(f.kind, 2);
    LittleEndianValue(f.sequence, 8);
    LittleEndianValue(|f.payload|, 4);
  }

  lemma CarriedOn(h: seq<byte>, bs: seq<byte>, f: Frame)
    requires |h| == 20 && Carries(h, f) && |bs| >= 20 && bs[..20] == h
    ensures Carries(bs, f)
  {
    assert bs[0..4] == h[0..4] && bs[4..6] == h[4..6] && bs[6..8] == h[6..8] && bs[8..16] == h[8..16] && bs[16..20] == h[16..20];
  }

  lemma FourSlices(h: seq<byte>, c: seq<byte>, p: seq<byte>, t: seq<byte>, rest: seq<byte>)
    requires |h| == 20 && |c| == 4 && |t| == 4
    ensures
      var bs := h + c + p + t + rest;
      |bs| == 28 + |p| + |rest| && bs[..20] == h && bs[20..24] == c && bs[24..24 + |p|] == p && bs[24 + |p|..28 + |p|] == t && bs[28 + |p|..] == rest
  {}

  lemma FrontWhole(crc: Checksum, maxPayload: nat, f: Frame, h: seq<byte>, c: seq<byte>, t: seq<byte>, rest: seq<byte>)
    requires FrameOk(f, maxPayload) && |h| == 20 && Carries(h, f) && |c| == 4 && |t| == 4 && ValueOf(c) == crc(h) && ValueOf(t) == crc(f.payload)
    ensures
      var bs := h + c + f.payload + t + rest;
      bs != [] && FrontFrame(crc, maxPayload, bs) == Whole(f) && bs[SizeOf(f)..] == rest
  {
    var bs := h + c + f.payload + t + rest;
    FourSlices(h, c, f.payload, t, rest);
    CarriedOn(h, bs, f);
  }

  /** An encoded frame is read back whole, whatever follows it. */
  lemma FrameReadBack(crc: Checksum, maxPayload: nat, f: Frame, rest: seq<byte>)
    requires FrameOk(f, maxPayload) && maxPayload < TWO32
    ensures
      var bs := EncodeFrame(crc, f) + rest;
      |EncodeFrame(crc, f)| == SizeOf(f) && bs != [] && FrontFrame(crc, maxPayload, bs) == Whole(f) && bs[SizeOf(f)..] == rest
  {
    HeaderLayout(f);
    ChecksumBytes(crc(Header(f)));
    ChecksumBytes(crc(f.payload));
    FrontWhole(crc, maxPayload, f, Header(f), LittleEndian(crc(Header(f)), 4), LittleEndian(crc(f.payload), 4), rest);
  }

  lemma ChecksumBytes(v: u32)
    ensures ValueOf(LittleEndian(v, 4)) == v
  {
    Widths();
    LittleEndianValue(v, 4);
  }

  lemma FrontTorn(crc: Checksum, maxPayload: nat, f: Frame, bs: seq<byte>)
    requires FrameOk(f, maxPayload) && Carries(bs, f) && |bs| < SizeOf(f)
    ensures FrontFrame(crc, maxPayload, bs) == Torn
  {}

  /** Bytes that start like an encoded frame but stop short of it are torn, never
      damaged. */
  lemma PrefixTorn(crc: Checksum, maxPayload: nat, f: Frame, n: nat)
    requires FrameOk(f, maxPayload) && maxPayload < TWO32 && 0 < n < |EncodeFrame(crc, f)|
    ensures FrontFrame(crc, maxPayload, EncodeFrame(crc, f)[..n]) == Torn
  {
    if n >= HEADER_BYTES {
      var bs := EncodeFrame(crc, f)[..n];
      HeaderLayout(f);
      StartsWithHeader(Header(f), LittleEndian(crc(Header(f)), 4), f.payload, LittleEndian(crc(f.payload), 4), n);
      CarriedOn(Header(f), bs, f);
      FrontTorn(crc, maxPayload, f, bs);
    }
  }

  lemma StartsWithHeader(h: seq<byte>, c: seq<byte>, p: seq<byte>, t: seq<byte>, n: nat)
    requires |h| == 20 <= n < |h + c + p + t|
    ensures (h + c + p + t)[..n][..20] == h
  {}

  /** Every whole frame the scan accepts is the encoding of what it read. */
  lemma WholeIsEncoding(crc: Checksum, maxPayload: nat, bs: seq<byte>)
    requires maxPayload < TWO32 && bs != [] && FrontFrame(crc, maxPayload, bs).Whole?
    ensures
      var f := FrontFrame(crc, maxPayload, bs).frame;
      FrameOk(f, maxPayload) && SizeOf(f) <= |bs| && bs[..SizeOf(f)] == EncodeFrame(crc, f)
  {
    Widths();
    var f := FrontFrame(crc, maxPayload, bs).frame;
    var n := |f.payload|;
    ReadField(bs, 0, 4);
    ReadField(bs, 4, 2);
    ReadField(bs, 6, 2);
    ReadField(bs, 8, 8);
    ReadField(bs, 16, 4);
    ReadField(bs, 20, 4);
    ReadField(bs, HEADER_BYTES + n, 4);
    Pieces(bs);
    assert bs[..20] == Header(f);
    Trailer(bs, n);
  }

  lemma ReadField(bs: seq<byte>, at: nat, w: nat)
    requires at + w <= |bs|
    ensures ValueOf(bs[at..at + w]) < Pow256(w) && LittleEndian(ValueOf(bs[at..at + w]), w) == bs[at..at + w]
  {
    ValueBound(bs[at..at + w]);
    ValueLittleEndian(bs[at..at + w]);
  }

  lemma Pieces(bs: seq<byte>)
    requires |bs| >= 20
    ensures bs[..20] == bs[0..4] + bs[4..6] + bs[6..8] + bs[8..16] + bs[16..20]
  {}

  lemma Trailer(bs: seq<byte>, n: nat)
    requires |bs| >= 28 + n
    ensures bs[..28 + n] == bs[..20] + bs[20..24] + bs[24..24 + n] + bs[24 + n..28 + n]
  {}

  // ------------------------------------------------------------------
  // Scanning a file
  // ------------------------------------------------------------------

  /** Torn-tail repair: a file that holds the encodings of some frames and then
      any strict prefix of one more is scanned as exactly those frames with
      exactly that prefix to truncate. */
  lemma {:induction false} TornTail(crc: Checksum, maxPayload: nat, frames: seq<Frame>, g: Frame, n: nat)
    requires maxPayload < TWO32 && FramesOk(frames, maxPayload) && FrameOk(g, maxPayload) && n < |EncodeFrame(crc, g)|
    ensures ScanBytes(crc, maxPayload, EncodeAll(crc, frames) + EncodeFrame(crc, g)[..n]) == Intact(frames, n)
    decreases |frames|
  {
    var tail := EncodeFrame(crc, g)[..n];
    if frames == [] {
      assert EncodeAll(crc, frames) + tail == tail;
      if n > 0 {
        PrefixTorn(crc, maxPayload, g, n);
      }
    } else {
      TornTail(crc, maxPayload, frames[1..], g, n);
      ScanNext(crc, maxPayload, frames, tail, n);
    }
  }

  lemma ScanWhole(crc: Checksum, maxPayload: nat, bs: seq<byte>, f: Frame, rest: seq<byte>)
    requires bs != [] && FrontFrame(crc, maxPayload, bs) == Whole(f) && SizeOf(f) <= |bs| && bs[SizeOf(f)..] == rest
    ensures ScanBytes(crc, maxPayload, bs) == Extend([f], ScanBytes(crc, maxPayload, rest))
  {}

  lemma HeadAndTail(frames: seq<Frame>)
    requires frames != []
    ensures [frames[0]] + frames[1..] == frames
  {}

  lemma ScanNext(crc: Checksum, maxPayload: nat, frames: seq<Frame>, tail: seq<byte>, n: nat)
    requires maxPayload < TWO32 && frames != [] && FrameOk(frames[0], maxPayload)
    requires ScanBytes(crc, maxPayload, EncodeAll(crc, frames[1..]) + tail) == Intact(frames[1..], n)
    ensures ScanBytes(crc, maxPayload, EncodeAll(crc, frames) + tail) == Intact(frames, n)
  {
    var f, more := frames[0], EncodeAll(crc, frames[1..]);
    FrameReadBack(crc, maxPayload, f, more + tail);
    Regroup(EncodeFrame(crc, f), more, tail);
    ScanWhole(crc, maxPayload, EncodeAll(crc, frames) + tail, f, more + tail);
    HeadAndTail(frames);
  }

  lemma {:induction false} CleanFile(crc: Checksum, maxPayload: nat, frames: seq<Frame>)
    requires maxPayload < TWO32 && FramesOk(frames, maxPayload)
    ensures ScanBytes(crc, maxPayload, EncodeAll(crc, frames)) == Intact(frames, 0)
    decreases |frames|
  {
    if frames != [] {
      CleanFile(crc, maxPayload, frames[1..]);
      assert EncodeAll(crc, frames[1..]) + [] == EncodeAll(crc, frames[1..]) && EncodeAll(crc, frames) + [] == EncodeAll(crc, frames);
      ScanNext(crc, maxPayload, frames, [], 0);
    }
  }

  /** The bytes are the encoding of these frames, up to a truncated tail. */
  ghost predicate Encodes(crc: Checksum, maxPayload: nat, bs: seq<byte>, frames: seq<Frame>, truncated: nat) {
    FramesOk(frames, maxPayload) && truncated <= |bs| && bs[..|bs| - truncated] == EncodeAll(crc, frames)
  }

  lemma EncodesMore(crc: Checksum, maxPayload: nat, bs: seq<byte>, f: Frame, frames: seq<Frame>, truncated: nat)
    requires FrameOk(f, maxPayload) && SizeOf(f) <= |bs| && bs[..SizeOf(f)] == EncodeFrame(crc, f)
    requires Encodes(crc, maxPayload, bs[SizeOf(f)..], frames, truncated)
    ensures Encodes(crc, maxPayload, bs, [f] + frames, truncated)
  {
    assert ([f] + frames)[1..] == frames;
    TakenInTwo(bs, SizeOf(f), truncated);
  }

  lemma TakenInTwo(bs: seq<byte>, n: nat, truncated: nat)
    requires n + truncated <= |bs|
    ensures bs[..|bs| - truncated] == bs[..n] + bs[n..][..|bs| - n - truncated]
  {}

  lemma EncodesNone(crc: Checksum, maxPayload: nat, bs: seq<byte>)
    ensures Encodes(crc, maxPayload, bs, [], |bs|)
  {
    assert bs[..0] == [];
  }

  /** Whatever the scan accepts is the encoding of the frames it found, up to the
      bytes it truncates. */
  lemma {:induction false} AcceptedIsEncoding(crc: Checksum, maxPayload: nat, bs: seq<byte>)
    requires maxPayload < TWO32 && ScanBytes(crc, maxPayload, bs).Intact?
    ensures Encodes(crc, maxPayload, bs, ScanBytes(crc, maxPayload, bs).frames, ScanBytes(crc, maxPayload, bs).truncated)
    decreases |bs|
  {
    if bs != [] && FrontFrame(crc, maxPayload, bs).Whole? {
      WholeIsEncoding(crc, maxPayload, bs);
      var f := FrontFrame(crc, maxPayload, bs).frame;
      var rest := bs[SizeOf(f)..];
      ScanWhole(crc, maxPayload, bs, f, rest);
      AcceptedIsEncoding(crc, maxPayload, rest);
      var inner := ScanBytes(crc, maxPayload, rest);
      EncodesMore(crc, maxPayload, bs, f, inner.frames, inner.truncated);
    } else {
      EncodesNone(crc, maxPayload, bs);
    }
  }

  /** A second open of a repaired file finds the same frames and repairs nothing. */
  lemma RepairIsFinal(crc: Checksum, maxPayload: nat, bs: seq<byte>)
    requires maxPayload < TWO32 && ScanBytes(crc, maxPayload, bs).Intact?
    ensures
      var scan := ScanBytes(crc, maxPayload, bs);
      scan.truncated <= |bs| && ScanBytes(crc, maxPayload, bs[..|bs| - scan.truncated]) == Intact(scan.frames, 0)
  {
    AcceptedIsEncoding(crc, maxPayload, bs);
    CleanFile(crc, maxPayload, ScanBytes(crc, maxPayload, bs).frames);
  }

  // ------------------------------------------------------------------
  // Where the scan stops
  // ------------------------------------------------------------------

  /** The header is there and is this format's, with an admissible length. */
  predicate Headed(maxPayload: nat, bs: seq<byte>) {
    |bs| >= 24 && ValueOf(bs[0..4]) == 0x4A46414E && ValueOf(bs[4..6]) == 1 && ValueOf(bs[16..20]) <= maxPayload
  }

  /** Both checksums of the frame at the front are right. */
  predicate Summed(crc: Checksum, bs: seq<byte>)
    requires |bs| >= 24 && |bs| >= 28 + ValueOf(bs[16..20])
  {
    var n := ValueOf(bs[16..20]);
    ValueOf(bs[20..24]) == crc(bs[..20]) && ValueOf(bs[24 + n..28 + n]) == crc(bs[24..24 + n])
  }

  /** What a write cut short can leave: less than a header, less than the frame the
      header announces, or exactly that much with a checksum not yet right. */
  predicate Cut(crc: Checksum, maxPayload: nat, bs: seq<byte>) {
    0 < |bs| < 24 ||
    (Headed(maxPayload, bs) &&
     (|bs| < 28 + ValueOf(bs[16..20]) || (|bs| == 28 + ValueOf(bs[16..20]) && !Summed(crc, bs))))
  }

  /** What no write leaves: a foreign header, or a wrong checksum with more after. */
  predicate Spoiled(crc: Checksum, maxPayload: nat, bs: seq<byte>) {
    |bs| >= 24 &&
    (!Headed(maxPayload, bs) || (|bs| > 28 + ValueOf(bs[16..20]) && !Summed(crc, bs)))
  }

  lemma FrontExact(crc: Checksum, maxPayload: nat, bs: seq<byte>)
    requires bs != []
    ensures FrontFrame(crc, maxPayload, bs) == Torn <==> Cut(crc, maxPayload, bs)
    ensures FrontFrame(crc, maxPayload, bs) == Damaged <==> Spoiled(crc, maxPayload, bs)
  {}

  /** The file begins with these frames; from position n on it is at its end, or
      cut short, which the scan truncates, or spoiled, which it refuses. */
  ghost predicate StopsAt(crc: Checksum, maxPayload: nat, bs: seq<byte>, frames: seq<Frame>, n: nat, scan: Scan) {
    match scan
    case Corrupt => n < |bs| && Encodes(crc, maxPayload, bs, frames, |bs| - n) && Spoiled(crc, maxPayload, bs[n..])
    case Intact(found, truncated) =>
      n <= |bs| && Encodes(crc, maxPayload, bs, frames, |bs| - n) && found == frames && truncated == |bs| - n &&
      (n == |bs| || Cut(crc, maxPayload, bs[n..]))
  }

  lemma StopsFurther(crc: Checksum, maxPayload: nat, bs: seq<byte>, f: Frame, frames: seq<Frame>, n: nat, scan: Scan)
    requires FrameOk(f, maxPayload) && SizeOf(f) <= |bs| && bs[..SizeOf(f)] == EncodeFrame(crc, f)
    requires StopsAt(crc, maxPayload, bs[SizeOf(f)..], frames, n, scan)
    ensures StopsAt(crc, maxPayload, bs, [f] + frames, SizeOf(f) + n, Extend([f], scan))
  {
    assert bs[SizeOf(f)..][n..] == bs[SizeOf(f) + n..];
    EncodesMore(crc, maxPayload, bs, f, frames, |bs| - SizeOf(f) - n);
  }

  lemma StopsHere(crc: Checksum, maxPayload: nat, bs: seq<byte>)
    requires bs == [] || !FrontFrame(crc, maxPayload, bs).Whole?
    ensures StopsAt(crc, maxPayload, bs, [], 0, ScanBytes(crc, maxPayload, bs))
  {
    EncodesNone(crc, maxPayload, bs);
    assert bs[0..] == bs;
    if bs != [] {
      FrontExact(crc, maxPayload, bs);
    }
  }

  /** For every file: the scan finds the frames it begins with, and then stops at
      its end, at what a write cut short can leave, or at what no write leaves. */
  lemma {:induction false} ScanExact(crc: Checksum, maxPayload: nat, bs: seq<byte>) returns (frames: seq<Frame>, n: nat)
    requires maxPayload < TWO32
    ensures StopsAt(crc, maxPayload, bs, frames, n, ScanBytes(crc, maxPayload, bs))
    decreases |bs|
  {
    if bs == [] || !FrontFrame(crc, maxPayload, bs).Whole? {
      frames, n := [], 0;
      StopsHere(crc, maxPayload, bs);
    } else {
      FrontSize(crc, maxPayload, bs);
      var f := FrontFrame(crc, maxPayload, bs).frame;
      var rest := bs[SizeOf(f)..];
      frames, n := ScanExact(crc, maxPayload, rest);
      StopsLater(crc, maxPayload, bs, f, rest, frames, n);
      frames, n := [f] + frames, SizeOf(f) + n;
    }
  }

  lemma StopsLater(crc: Checksum, maxPayload: nat, bs: seq<byte>, f: Frame, rest: seq<byte>, frames: seq<Frame>, n: nat)
    requires bs != [] && FrontFrame(crc, maxPayload, bs) == Whole(f) && maxPayload < TWO32 && SizeOf(f) <= |bs| && rest == bs[SizeOf(f)..]
    requires StopsAt(crc, maxPayload, rest, frames, n, ScanBytes(crc, maxPayload, rest))
    ensures StopsAt(crc, maxPayload, bs, [f] + frames, SizeOf(f) + n, ScanBytes(crc, maxPayload, bs))
  {
    WholeIsEncoding(crc, maxPayload, bs);
    ScanWhole(crc, maxPayload, bs, f, rest);
    StopsFurther(crc, maxPayload, bs, f, frames, n, ScanBytes(crc, maxPayload, rest));
  }
}
