/** The journal over its file (Journal in src/durable/journal.cpp). File reads,
    seeks and truncation are taken to work; a write may fail without effect. */
module JournalStore {
  import opened Base
  import opened Bytes
  import opened JournalFile

  lemma {:induction false} EncodeSnoc(crc: Checksum, frames: seq<Frame>, f: Frame)
    ensures EncodeAll(crc, frames + [f]) == EncodeAll(crc, frames) + EncodeFrame(crc, f)
    decreases |frames|
  {
    if frames == [] {
      assert (frames + [f])[1..] == [];
      assert EncodeAll(crc, []) == [];
      NothingMore(EncodeFrame(crc, f));
    } else {
      EncodeSnoc(crc, frames[1..], f);
      assert (frames + [f])[1..] == frames[1..] + [f];
      Regroup(EncodeFrame(crc, frames[0]), EncodeAll(crc, frames[1..]), EncodeFrame(crc, f));
    }
  }

  lemma ExtendTwice(a: seq<Frame>, f: Frame, scan: Scan)
    ensures Extend(a, Extend([f], scan)) == Extend(a + [f], scan)
    ensures Extend([], scan) == scan
  {
    if scan.Intact? {
      assert a + ([f] + scan.frames) == a + [f] + scan.frames;
      assert [] + scan.frames == scan.frames;
    }
  }

  /** Accepts a buffer that is exactly one frame. */
  function DecodeFrame(crc: Checksum, maxPayload: nat, buffer: seq<byte>): Option<Frame> {
    if |buffer| < OVERHEAD_BYTES || U32At(buffer, 0) != MAGIC || U16At(buffer, 4) != JournalFile.REVISION then None
    else
      var n := U32At(buffer, 16);
      if n > maxPayload || |buffer| != OVERHEAD_BYTES + n then None
      else if U32At(buffer, 20) != crc(buffer[..20]) then None
      else
        var payload := buffer[HEADER_BYTES..HEADER_BYTES + n];
        if U32At(buffer, HEADER_BYTES + n) != crc(payload) then None
        else Some(Frame(U16At(buffer, 6), U64At(buffer, 8), payload))
  }

  /** Decoding an encoded frame gives it back. */
  lemma DecodeEncoded(crc: Checksum, maxPayload: nat, f: Frame)
    requires FrameOk(f, maxPayload) && maxPayload < TWO32
    ensures DecodeFrame(crc, maxPayload, EncodeFrame(crc, f)) == Some(f)
  {
    var bs := EncodeFrame(crc, f);
    FrameReadBack(crc, maxPayload, f, []);
    NothingMore(bs);
    WholeDecodes(crc, maxPayload, bs, f);
  }

  lemma WholeDecodes(crc: Checksum, maxPayload: nat, bs: seq<byte>, f: Frame)
    requires bs != [] && FrontFrame(crc, maxPayload, bs) == Whole(f) && |bs| == SizeOf(f)
    ensures DecodeFrame(crc, maxPayload, bs) == Some(f)
  {}

  function LastSequence(frames: seq<Frame>): nat {
    if frames == [] then 0 else frames[|frames| - 1].sequence
  }

  function Bump(n: nat): u64 {
    (n + 1) % 0x1_0000_0000_0000_0000
  }

  /** One step of the scan: the frame at the front is whole. */
  lemma ScanStep(crc: Checksum, maxPayload: nat, bytes: seq<byte>, offset: nat, got: seq<Frame>, f: Frame)
    requires offset < |bytes| && FrontFrame(crc, maxPayload, bytes[offset..]) == Whole(f)
    requires ScanBytes(crc, maxPayload, bytes) == Extend(got, ScanBytes(crc, maxPayload, bytes[offset..]))
    ensures offset + SizeOf(f) <= |bytes|
    ensures ScanBytes(crc, maxPayload, bytes) == Extend(got + [f], ScanBytes(crc, maxPayload, bytes[offset + SizeOf(f)..]))
  {
    var rest := bytes[offset..];
    FrontSize(crc, maxPayload, rest);
    assert rest[SizeOf(f)..] == bytes[offset + SizeOf(f)..];
    ScanWhole(crc, maxPayload, rest, f, rest[SizeOf(f)..]);
    ExtendTwice(got, f, ScanBytes(crc, maxPayload, rest[SizeOf(f)..]));
  }

  lemma ScanStart(crc: Checksum, maxPayload: nat, bytes: seq<byte>)
    ensures ScanBytes(crc, maxPayload, bytes) == Extend([], ScanBytes(crc, maxPayload, bytes[0..]))
  {
    assert bytes[0..] == bytes;
    ExtendTwice([], Frame(0, 0, []), ScanBytes(crc, maxPayload, bytes));
  }

  lemma ScanEnd(crc: Checksum, maxPayload: nat, bytes: seq<byte>, offset: nat, got: seq<Frame>)
    requires offset <= |bytes| && (offset < |bytes| ==> FrontFrame(crc, maxPayload, bytes[offset..]).Torn?)
    requires ScanBytes(crc, maxPayload, bytes) == Extend(got, ScanBytes(crc, maxPayload, bytes[offset..]))
    ensures ScanBytes(crc, maxPayload, bytes) == Intact(got, |bytes| - offset)
  {
    assert got + [] == got;
  }

  /** How the scan stands: the frames found so far and the bytes that remain. */
  ghost predicate ScanningAt(crc: Checksum, maxPayload: nat, bytes: seq<byte>, offset: nat, got: seq<Frame>) {
    offset <= |bytes| && ScanBytes(crc, maxPayload, bytes) == Extend(got, ScanBytes(crc, maxPayload, bytes[offset..]))
  }

  lemma ScanTurn(crc: Checksum, maxPayload: nat, bytes: seq<byte>, offset: nat, got: seq<Frame>, front: Verdict)
    requires ScanningAt(crc, maxPayload, bytes, offset, got) && offset < |bytes| && front == FrontFrame(crc, maxPayload, bytes[offset..])
    ensures front.Damaged? ==> ScanBytes(crc, maxPayload, bytes) == Corrupt
    ensures front.Torn? ==> ScanBytes(crc, maxPayload, bytes) == Intact(got, |bytes| - offset)
    ensures front.Whole? ==> ScanningAt(crc, maxPayload, bytes, offset + SizeOf(front.frame), got + [front.frame])
  {
    match front
    case Torn => ScanEnd(crc, maxPayload, bytes, offset, got);
    case Damaged => ScanDamaged(crc, maxPayload, bytes[offset..], got);
    case Whole(f) => ScanStep(crc, maxPayload, bytes, offset, got, f);
  }

  lemma ScanDamaged(crc: Checksum, maxPayload: nat, rest: seq<byte>, got: seq<Frame>)
    requires rest != [] && FrontFrame(crc, maxPayload, rest).Damaged?
    ensures Extend(got, ScanBytes(crc, maxPayload, rest)) == Corrupt
  {}

  /** The scan loop over the bytes of a file. */
  method ScanFile(crc: Checksum, maxPayload: nat, bytes: seq<byte>) returns (intact: bool, count: nat, last: nat, truncated: nat, ghost got: seq<Frame>)
    ensures intact <==> ScanBytes(crc, maxPayload, bytes).Intact?
    ensures intact ==> ScanBytes(crc, maxPayload, bytes) == Intact(got, truncated) && count == |got| && last == LastSequence(got)
  {
    var offset := 0;
    count, last, truncated, got := 0, 0, 0, [];
    ScanStart(crc, maxPayload, bytes);
    while offset < |bytes|
      invariant ScanningAt(crc, maxPayload, bytes, offset, got)
      invariant last == LastSequence(got) && count == |got|
      decreases |bytes| - offset
    {
      var front := FrontFrame(crc, maxPayload, bytes[offset..]);
      ScanTurn(crc, maxPayload, bytes, offset, got, front);
      if !front.Whole? {
        return front.Torn?, count, last, |bytes| - offset, got;
      }
      got := got + [front.frame];
      last, count := front.frame.sequence, count + 1;
      offset := offset + SizeOf(front.frame);
    }
    ScanEnd(crc, maxPayload, bytes, offset, got);
    intact := true;
  }

  datatype Replayed = Frames(frames: seq<Frame>) | Failed(status: Status)

  function Lead(out: seq<Frame>, r: Replayed): Replayed {
    match r
    case Failed(status) => Failed(status)
    case Frames(more) => Frames(out + more)
  }

  datatype Fetched = NoMore | Bad | Got(frame: Frame)

  /** The next frame, if the bytes that remain hold one. */
  function Fetch(crc: Checksum, maxPayload: nat, rest: seq<byte>): (r: Fetched)
    ensures r.Got? ==> HEADER_BYTES <= SizeOf(r.frame) <= |rest|
  {
    if |rest| < HEADER_BYTES then NoMore
    else if U32At(rest, 16) > maxPayload then Bad
    else if OVERHEAD_BYTES + U32At(rest, 16) > |rest| then NoMore
    else
      match FrontFrame(crc, maxPayload, rest)
      case Whole(f) => Got(f)
      case _ => Bad
  }

  /** The frames at the front of the bytes, within bounds on frames and bytes. */
  function ReplayBytes(crc: Checksum, maxPayload: nat, rest: seq<byte>, maxFrames: nat, maxBytes: nat): Replayed
    decreases |rest|
  {
    match Fetch(crc, maxPayload, rest)
    case NoMore => Frames([])
    case Bad => Failed(CorruptJournal)
    case Got(f) =>
      if maxFrames == 0 || SizeOf(f) > maxBytes then Failed(OversizedInput)
      else Lead([f], ReplayBytes(crc, maxPayload, rest[SizeOf(f)..], maxFrames - 1, maxBytes - SizeOf(f)))
  }

  lemma LeadTwice(a: seq<Frame>, f: Frame, r: Replayed)
    ensures Lead(a, Lead([f], r)) == Lead(a + [f], r)
  {
    if r.Frames? {
      assert a + ([f] + r.frames) == a + [f] + r.frames;
    }
  }

  lemma LeadNone(r: Replayed)
    ensures Lead([], r) == r
  {
    if r.Frames? {
      assert [] + r.frames == r.frames;
    }
  }

  lemma FetchWhole(crc: Checksum, maxPayload: nat, rest: seq<byte>, f: Frame)
    requires rest != [] && FrontFrame(crc, maxPayload, rest) == Whole(f)
    ensures Fetch(crc, maxPayload, rest) == Got(f)
  {}

  /** The bytes replay as these frames, or fail only because a bound is
      exceeded. */
  ghost predicate Replays(crc: Checksum, maxPayload: nat, bs: seq<byte>, frames: seq<Frame>, maxFrames: nat, maxBytes: nat) {
    ReplayBytes(crc, maxPayload, bs, maxFrames, maxBytes) ==
      if |frames| <= maxFrames && |bs| <= maxBytes then Frames(frames) else Failed(OversizedInput)
  }

  lemma ReplaysNext(crc: Checksum, maxPayload: nat, bs: seq<byte>, f: Frame, more: seq<byte>, fs: seq<Frame>, mf: nat, mb: nat, maxFrames: nat, maxBytes: nat)
    requires Fetch(crc, maxPayload, bs) == Got(f) && bs[SizeOf(f)..] == more && |bs| == SizeOf(f) + |more|
    requires Replays(crc, maxPayload, more, fs, mf, mb) && maxFrames == mf + 1 && maxBytes == mb + SizeOf(f)
    ensures Replays(crc, maxPayload, bs, [f] + fs, maxFrames, maxBytes)
  {
    assert maxFrames - 1 == mf && maxBytes - SizeOf(f) == mb;
    assert ReplayBytes(crc, maxPayload, bs, maxFrames, maxBytes) == Lead([f], ReplayBytes(crc, maxPayload, more, mf, mb));
  }

  lemma ReplaysNone(crc: Checksum, maxPayload: nat, bs: seq<byte>, f: Frame, fs: seq<Frame>, maxFrames: nat, maxBytes: nat)
    requires Fetch(crc, maxPayload, bs) == Got(f) && (maxFrames == 0 || SizeOf(f) > maxBytes)
    ensures Replays(crc, maxPayload, bs, [f] + fs, maxFrames, maxBytes)
  {}

  lemma NextEncoded(crc: Checksum, maxPayload: nat, frames: seq<Frame>) returns (f: Frame, fs: seq<Frame>, more: seq<byte>)
    requires frames != [] && FramesOk(frames, maxPayload)
    ensures FrameOk(f, maxPayload) && FramesOk(fs, maxPayload) && |fs| < |frames| && frames == [f] + fs
    ensures more == EncodeAll(crc, fs) && EncodeAll(crc, frames) == EncodeFrame(crc, f) + more
  {
    f, fs, more := frames[0], frames[1..], EncodeAll(crc, frames[1..]);
  }

  lemma EnoughRoom(crc: Checksum, maxPayload: nat, f: Frame, fs: seq<Frame>, more: seq<byte>, mf: nat, mb: nat, maxFrames: nat, maxBytes: nat, bs: seq<byte>)
    requires maxPayload < TWO32 && FrameOk(f, maxPayload) && Replays(crc, maxPayload, more, fs, mf, mb)
    requires maxFrames == mf + 1 && maxBytes == mb + SizeOf(f) && bs == EncodeFrame(crc, f) + more
    ensures Replays(crc, maxPayload, bs, [f] + fs, maxFrames, maxBytes)
  {
    FrameReadBack(crc, maxPayload, f, more);
    FetchWhole(crc, maxPayload, bs, f);
    ReplaysNext(crc, maxPayload, bs, f, more, fs, mf, mb, maxFrames, maxBytes);
  }

  lemma NoRoom(crc: Checksum, maxPayload: nat, f: Frame, fs: seq<Frame>, more: seq<byte>, maxFrames: nat, maxBytes: nat)
    requires maxPayload < TWO32 && FrameOk(f, maxPayload) && (maxFrames == 0 || SizeOf(f) > maxBytes)
    ensures Replays(crc, maxPayload, EncodeFrame(crc, f) + more, [f] + fs, maxFrames, maxBytes)
  {
    FrameReadBack(crc, maxPayload, f, more);
    FetchWhole(crc, maxPayload, EncodeFrame(crc, f) + more, f);
    ReplaysNone(crc, maxPayload, EncodeFrame(crc, f) + more, f, fs, maxFrames, maxBytes);
  }

  lemma NothingReplays(crc: Checksum, maxPayload: nat, maxFrames: nat, maxBytes: nat)
    ensures Replays(crc, maxPayload, [], [], maxFrames, maxBytes)
  {}

  /** Replaying an intact file returns its frames. */
  lemma {:induction false} ReplayIntact(crc: Checksum, maxPayload: nat, frames: seq<Frame>, maxFrames: nat, maxBytes: nat, bs: seq<byte>)
    requires maxPayload < TWO32 && FramesOk(frames, maxPayload) && bs == EncodeAll(crc, frames)
    ensures Replays(crc, maxPayload, bs, frames, maxFrames, maxBytes)
    decreases |frames|
  {
    if frames == [] {
      NothingReplays(crc, maxPayload, maxFrames, maxBytes);
    } else {
      var f, fs, more := NextEncoded(crc, maxPayload, frames);
      if maxFrames == 0 || SizeOf(f) > maxBytes {
        NoRoom(crc, maxPayload, f, fs, more, maxFrames, maxBytes);
      } else {
        var mf, mb := maxFrames - 1, maxBytes - SizeOf(f);
        ReplayIntact(crc, maxPayload, fs, mf, mb, more);
        EnoughRoom(crc, maxPayload, f, fs, more, mf, mb, maxFrames, maxBytes, bs);
      }
    }
  }

  /** How the replay loop stands: what it has returned so far, and what the
      bytes that remain will add within the bounds that remain. */
  ghost predicate ReplayingAt(crc: Checksum, maxPayload: nat, all: Replayed, out: seq<Frame>, rest: seq<byte>, frames: int, bytes: int) {
    frames >= 0 && bytes >= 0 && all == Lead(out, ReplayBytes(crc, maxPayload, rest, frames, bytes))
  }

  lemma ReplayTurn(crc: Checksum, maxPayload: nat, all: Replayed, out: seq<Frame>, rest: seq<byte>, frames: int, bytes: int, front: Fetched)
    requires ReplayingAt(crc, maxPayload, all, out, rest, frames, bytes) && front == Fetch(crc, maxPayload, rest)
    ensures front.NoMore? ==> all == Frames(out)
    ensures front.Bad? ==> all == Failed(CorruptJournal)
    ensures front.Got? && (frames == 0 || SizeOf(front.frame) > bytes) ==> all == Failed(OversizedInput)
    ensures front.Got? && frames > 0 && SizeOf(front.frame) <= bytes ==>
      ReplayingAt(crc, maxPayload, all, out + [front.frame], rest[SizeOf(front.frame)..], frames - 1, bytes - SizeOf(front.frame))
  {
    if front.NoMore? {
      assert out + [] == out;
    } else if front.Got? && frames > 0 && SizeOf(front.frame) <= bytes {
      LeadTwice(out, front.frame, ReplayBytes(crc, maxPayload, rest[SizeOf(front.frame)..], frames - 1, bytes - SizeOf(front.frame)));
    }
  }

  /** One turn of the replay loop: an answer, or one more frame. */
  method TakeTurn(crc: Checksum, maxPayload: nat, out: seq<Frame>, rest: seq<byte>, framesLeft: nat, bytesLeft: nat, ghost all: Replayed)
    returns (answer: Option<Replayed>, out': seq<Frame>, size: nat)
    requires ReplayingAt(crc, maxPayload, all, out, rest, framesLeft, bytesLeft)
    ensures answer.Some? ==> answer.value == all
    ensures answer.None? ==> 0 < size <= |rest| && size <= bytesLeft && framesLeft > 0
    ensures answer.None? ==> ReplayingAt(crc, maxPayload, all, out', rest[size..], framesLeft - 1, bytesLeft - size)
  {
    out', size := out, 0;
    var front := Fetch(crc, maxPayload, rest);
    ReplayTurn(crc, maxPayload, all, out, rest, framesLeft, bytesLeft, front);
    if front.NoMore? {
      answer := Some(Frames(out));
    } else if front.Bad? {
      answer := Some(Failed(CorruptJournal));
    } else if framesLeft == 0 || SizeOf(front.frame) > bytesLeft {
      answer := Some(Failed(OversizedInput));
    } else {
      answer, out', size := None, out + [front.frame], SizeOf(front.frame);
    }
  }

  /** The replay loop over the bytes of a file. */
  method ReplayFile(crc: Checksum, maxPayload: nat, bytes: seq<byte>, maxFrames: nat, maxBytes: nat) returns (r: Replayed)
    ensures r == ReplayBytes(crc, maxPayload, bytes, maxFrames, maxBytes)
  {
    ghost var all := ReplayBytes(crc, maxPayload, bytes, maxFrames, maxBytes);
    var out: seq<Frame> := [];
    var rest, framesLeft, bytesLeft := bytes, maxFrames, maxBytes;
    LeadNone(all);
    while true
      invariant ReplayingAt(crc, maxPayload, all, out, rest, framesLeft, bytesLeft)
      decreases |rest|
    {
      var answer, out', size := TakeTurn(crc, maxPayload, out, rest, framesLeft, bytesLeft, all);
      if answer.Some? {
        return answer.value;
      }
      out, rest, framesLeft, bytesLeft := out', rest[size..], framesLeft - 1, bytesLeft - size;
    }
  }

  datatype Entry = Entry(kind: nat, payload: seq<byte>)

  /** Frames numbered from one. */
  function Numbered(live: seq<Entry>): (fs: seq<Frame>)
    ensures |fs| == |live| && forall i :: 0 <= i < |fs| ==> fs[i] == Frame(live[i].kind, i + 1, live[i].payload)
  {
    seq(|live|, i requires 0 <= i < |live| => Frame(live[i].kind, i + 1, live[i].payload))
  }

  class Journal {
    const crc: Checksum
    const maxPayload: nat
    const maxFileBytes: nat
    var file: seq<byte>
    var isOpen: bool
    var nextSequence: u64
    var frameCount: nat
    var truncated: nat
    ghost var frames: seq<Frame>
    ghost var accepted: bool

    /** An open file whose scan was accepted holds exactly `frames`. A file whose
        scan was refused stays open as it is. */
    ghost predicate Valid()
      reads this
    {
      maxPayload < TWO32 &&
      (isOpen && accepted ==> FramesOk(frames, maxPayload) && file == EncodeAll(crc, frames) && frameCount == |frames|)
    }

    constructor (checksum: Checksum, payloadBound: nat, fileBound: nat, content: seq<byte>)
      requires payloadBound < TWO32
      ensures Valid() && !isOpen && file == content && crc == checksum && maxPayload == payloadBound && maxFileBytes == fileBound
    {
      crc, maxPayload, maxFileBytes := checksum, payloadBound, fileBound;
      file, isOpen, nextSequence, frameCount, truncated, frames, accepted := content, false, 1, 0, 0, [], false;
    }

    /** Scans every frame and cuts off a torn tail. Damage anywhere else refuses
        the file and leaves it alone, open and with the counters of before. */
    method Open() returns (st: Status)
      requires Valid()
      modifies this
      ensures Valid() && isOpen && (accepted <==> st == Ok)
      ensures st == Ok <==> |old(file)| <= maxFileBytes && ScanBytes(crc, maxPayload, old(file)).Intact?
      ensures st != Ok ==> st == if |old(file)| > maxFileBytes then OversizedInput else CorruptJournal
      ensures st != Ok ==> file == old(file) && nextSequence == old(nextSequence) && frameCount == old(frameCount)
      ensures st == Ok ==> Intact(frames, truncated) == ScanBytes(crc, maxPayload, old(file))
      ensures st == Ok ==> nextSequence == Bump(LastSequence(frames))
    {
      isOpen, accepted, truncated := true, false, 0;
      if |file| > maxFileBytes {
        return OversizedInput;
      }
      var intact, count, last, cut, got := ScanFile(crc, maxPayload, file);
      if !intact {
        return CorruptJournal;
      }
      AcceptedIsEncoding(crc, maxPayload, file);
      nextSequence, frameCount, truncated := Bump(last), count, cut;
      frames, accepted := got, true;
      file := file[..|file| - cut];
      return Ok;
    }

    /** Adds one frame at the end of the file, or changes nothing. */
    method Append(kind: nat, payload: seq<byte>, writeFails: bool) returns (st: Status)
      requires Valid() && kind < 0x1_0000
      modifies this
      ensures Valid() && isOpen == old(isOpen) && accepted == old(accepted)
      ensures st == (if !isOpen then InvalidArgument else if |payload| > maxPayload then OversizedInput else if writeFails then DurableFailure else Ok)
      ensures st == Ok ==> frames == old(frames) + [Frame(kind, old(nextSequence), payload)] && nextSequence == Bump(old(nextSequence))
      ensures st == Ok ==> file == old(file) + EncodeFrame(crc, Frame(kind, old(nextSequence), payload))
      ensures st != Ok ==> frames == old(frames) && file == old(file) && nextSequence == old(nextSequence)
    {
      if !isOpen {
        return InvalidArgument;
      }
      if |payload| > maxPayload {
        return OversizedInput;
      }
      var f := Frame(kind, nextSequence, payload);
      if writeFails {
        return DurableFailure;
      }
      EncodeSnoc(crc, frames, f);
      file := file + EncodeFrame(crc, f);
      frames := frames + [f];
      nextSequence, frameCount := Bump(nextSequence), frameCount + 1;
      return Ok;
    }
  
    /** Replays an open file: every frame of it if its scan was accepted, unless a
        bound is exceeded. */
    method Replay(maxFrames: nat, maxBytes: nat) returns (r: Replayed)
      requires Valid()
      ensures r ==
        if !isOpen then Failed(InvalidArgument)
        else if |file| > maxFileBytes then Failed(OversizedInput)
        else ReplayBytes(crc, maxPayload, file, maxFrames, maxBytes)
      ensures isOpen && accepted ==>
        r == (if |file| <= maxFileBytes && |frames| <= maxFrames && |file| <= maxBytes then Frames(frames) else Failed(OversizedInput))
    {
      if !isOpen {
        return Failed(InvalidArgument);
      }
      if |file| > maxFileBytes {
        return Failed(OversizedInput);
      }
      if accepted {
        ReplayIntact(crc, maxPayload, frames, maxFrames, maxBytes, file);
      }
      r := ReplayFile(crc, maxPayload, file, maxFrames, maxBytes);
    }
  
    /** Replaces the file by exactly the given records, numbered from one, and
        opens the result. A file that the open refuses stays in place. */
    method Compact(live: seq<Entry>, writeFails: bool) returns (st: Status)
      requires Valid() && |live| < TWO32 && forall i :: 0 <= i < |live| ==> live[i].kind < 0x1_0000
      modifies this
      ensures Valid()
      ensures !old(isOpen) || writeFails ==> st != Ok && file == old(file) && frames == old(frames) && isOpen == old(isOpen) && accepted == old(accepted)
      ensures old(isOpen) && !writeFails ==> isOpen && (accepted <==> st == Ok) && (st != Ok ==> file == EncodeAll(crc, Numbered(live)))
      ensures old(isOpen) && !writeFails && FramesOk(Numbered(live), maxPayload) && |EncodeAll(crc, Numbered(live))| <= maxFileBytes ==>
        st == Ok && frames == Numbered(live)
      ensures old(isOpen) && !writeFails && st == Ok ==> ScanBytes(crc, maxPayload, EncodeAll(crc, Numbered(live))) == Intact(frames, truncated)
    {
      if !isOpen {
        return InvalidArgument;
      }
      if writeFails {
        return DurableFailure;
      }
      isOpen := false;
      file := EncodeNumbered(crc, live);
      if FramesFit(live, maxPayload) {
        CleanFile(crc, maxPayload, Numbered(live));
      }
      st := Open();
    }
  }

  predicate FramesFit(live: seq<Entry>, maxPayload: nat) {
    forall i :: 0 <= i < |live| ==> FrameOk(Numbered(live)[i], maxPayload)
  }

  /** The writing loop of a compaction. */
  method EncodeNumbered(crc: Checksum, live: seq<Entry>) returns (bs: seq<byte>)
    ensures bs == EncodeAll(crc, Numbered(live))
  {
    bs := [];
    ghost var all := Numbered(live);
    for i := 0 to |live|
      invariant bs == EncodeAll(crc, all[..i])
    {
      var f := Frame(live[i].kind, i + 1, live[i].payload);
      EncodeNext(crc, all, i, f);
      bs := bs + EncodeFrame(crc, f);
    }
    assert all[..|live|] == all;
  }

  lemma EncodeNext(crc: Checksum, all: seq<Frame>, i: nat, f: Frame)
    requires i < |all| && all[i] == f
    ensures EncodeAll(crc, all[..i + 1]) == EncodeAll(crc, all[..i]) + EncodeFrame(crc, f)
  {
    EncodeSnoc(crc, all[..i], f);
    assert all[..i] + [f] == all[..i + 1];
  }
}
