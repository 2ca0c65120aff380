/** Records, frames and files together: what recovery reads back from the bytes
    a crash leaves behind. */
module DurableStack {
  import opened Base
  import opened Model
  import opened Bytes
  import opened Records
  import opened JournalFile
  import opened Recovery

  datatype Readback = Readback(records: seq<Record>) | Unreadable(status: Status)

  function Before(records: seq<Record>, r: Readback): Readback {
    match r
    case Unreadable(status) => Unreadable(status)
    case Readback(more) => Readback(records + more)
  }

  /** Decodes the payload of each frame in turn; frames of other kinds carry
      nothing recovery needs. */
  function ReadFrames(frames: seq<Frame>): Readback {
    if frames == [] then Readback([])
    else if !IsRecordKind(frames[0].kind) then ReadFrames(frames[1..])
    else
      match DecodeRecord(frames[0].kind, frames[0].payload)
      case Rejected(status) => Unreadable(status)
      case Parsed(r, _) => Before([r], ReadFrames(frames[1..]))
  }

  /** A frame that holds the record. */
  ghost predicate Holds(f: Frame, r: Record, maxPayload: nat) {
    FrameOk(f, maxPayload) && f.kind == KindOf(r) && f.payload == PayloadOf(r) && Bounded(r)
  }

  ghost predicate HoldsAll(frames: seq<Frame>, log: seq<Record>, maxPayload: nat) {
    |frames| == |log| && forall i :: 0 <= i < |frames| ==> Holds(frames[i], log[i], maxPayload)
  }

  lemma ReadFirst(frames: seq<Frame>, r: Record, maxPayload: nat)
    requires frames != [] && Holds(frames[0], r, maxPayload)
    ensures ReadFrames(frames) == Before([r], ReadFrames(frames[1..]))
  {
    DecodeEncode(r);
  }

  lemma BeforeRest(r: Record, log: seq<Record>)
    requires log != [] && log[0] == r
    ensures Before([r], Readback(log[1..])) == Readback(log)
  {
    assert [r] + log[1..] == log;
  }

  lemma {:induction false} ReadsBack(frames: seq<Frame>, log: seq<Record>, maxPayload: nat)
    requires HoldsAll(frames, log, maxPayload)
    ensures ReadFrames(frames) == Readback(log)
    decreases |frames|
  {
    if frames != [] {
      ReadsBack(frames[1..], log[1..], maxPayload);
      ReadFirst(frames, log[0], maxPayload);
      BeforeRest(log[0], log);
    }
  }

  /** What recovery makes of the bytes of a journal file. */
  function ReplayFileBytes(b: Recovering, crc: Checksum, maxPayload: nat, file: seq<byte>): Replayed {
    match ScanBytes(crc, maxPayload, file)
    case Corrupt => Unrecoverable(CorruptJournal)
    case Intact(frames, _) =>
      match ReadFrames(frames)
      case Unreadable(status) => Unrecoverable(status)
      case Readback(log) => ReplayLog(b, log)
  }

  lemma HeldFramesOk(frames: seq<Frame>, log: seq<Record>, maxPayload: nat)
    requires HoldsAll(frames, log, maxPayload)
    ensures FramesOk(frames, maxPayload)
  {
    forall i | 0 <= i < |frames| ensures FrameOk(frames[i], maxPayload) {
      assert Holds(frames[i], log[i], maxPayload);
    }
  }

  /** A write torn at any byte: the file holds the frames of the log and any
      strict prefix of one more, and recovery sees exactly the log. */
  lemma TornWriteRecovers(b: Recovering, crc: Checksum, maxPayload: nat, frames: seq<Frame>, log: seq<Record>, next: Frame, n: nat)
    requires maxPayload < TWO32 && HoldsAll(frames, log, maxPayload) && FrameOk(next, maxPayload) && n < |EncodeFrame(crc, next)|
    ensures ReplayFileBytes(b, crc, maxPayload, EncodeAll(crc, frames) + EncodeFrame(crc, next)[..n]) == ReplayLog(b, log)
  {
    HeldFramesOk(frames, log, maxPayload);
    TornTail(crc, maxPayload, frames, next, n);
    ReadsBack(frames, log, maxPayload);
  }

  /** The frames recovery decodes, in order. */
  function RecordFrames(frames: seq<Frame>): seq<Frame> {
    if frames == [] then []
    else if IsRecordKind(frames[0].kind) then [frames[0]] + RecordFrames(frames[1..])
    else RecordFrames(frames[1..])
  }

  /** Frame by frame, the encoding of the log. */
  ghost predicate Spells(frames: seq<Frame>, log: seq<Record>) {
    |frames| == |log| &&
    forall i :: 0 <= i < |log| ==> frames[i].kind == KindOf(log[i]) && frames[i].payload == PayloadOf(log[i]) && Bounded(log[i])
  }

  lemma SpellsMore(f: Frame, frames: seq<Frame>, r: Record, log: seq<Record>)
    requires Spells(frames, log) && f.kind == KindOf(r) && f.payload == PayloadOf(r) && Bounded(r)
    ensures Spells([f] + frames, [r] + log)
  {}

  /** What is read is what was written: the records are, one for one and in order,
      those of the record frames. */
  lemma {:induction false} ReadIsEncoded(frames: seq<Frame>)
    requires ReadFrames(frames).Readback?
    ensures Spells(RecordFrames(frames), ReadFrames(frames).records)
    decreases |frames|
  {
    if frames != [] {
      ReadIsEncoded(frames[1..]);
      if IsRecordKind(frames[0].kind) {
        EncodeDecode(frames[0].kind, frames[0].payload);
        SpellsMore(frames[0], RecordFrames(frames[1..]), DecodeRecord(frames[0].kind, frames[0].payload).value, ReadFrames(frames[1..]).records);
      }
    }
  }

  /** Nothing is recovered that was not written: every file recovery accepts is,
      up to the tail it truncates, the encoding of frames whose records, in order,
      it replays. */
  lemma AcceptedFile(b: Recovering, crc: Checksum, maxPayload: nat, file: seq<byte>) returns (frames: seq<Frame>, torn: nat, log: seq<Record>)
    requires maxPayload < TWO32 && ReplayFileBytes(b, crc, maxPayload, file).Replaying?
    ensures Encodes(crc, maxPayload, file, frames, torn) && Spells(RecordFrames(frames), log)
    ensures ReplayFileBytes(b, crc, maxPayload, file) == ReplayLog(b, log)
  {
    AcceptedIsEncoding(crc, maxPayload, file);
    var scan := ScanBytes(crc, maxPayload, file);
    frames, torn := scan.frames, scan.truncated;
    ReadIsEncoded(frames);
    log := ReadFrames(frames).records;
  }

  /** An intent over more than 1024 resources encodes to bytes its own decoder
      refuses as oversized. */
  lemma OversizedIntentRefused(p: PrepareRecord)
    requires p.decision <= MAX64 && MAX_RESOURCE_BINDINGS < |p.amounts| < TWO32
    ensures DecodeRecord(KIND_PREPARE, PrepareBytes(p)) == Rejected(OversizedInput)
  {
    var tail := GroupsBytes(AmountGroups(p.amounts), AMOUNT);
    Widths();
    TakeFieldsBytes(PrepareFields(p), PREPARE_HEADER, tail);
  }
}
