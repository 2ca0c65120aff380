/** The engine and its file together: whatever bytes a crash leaves, recovery
    makes of them a possible outcome of the operation under way. */
module CrashedFile {
  import opened Base
  import opened Model
  import opened Engine
  import opened Invariants
  import opened Closure
  import opened CleanRuns
  import opened Recovery
  import opened Meaning
  import opened Compaction
  import opened Durability
  import opened Crash
  import opened Restart
  import Lifetimes
  import opened Encodable
  import JournalFile
  import DurableStack

  ghost predicate AlwaysInRange(cfg: Config, s: State, ops: seq<Op>) {
    forall i :: 0 <= i <= |ops| ==> InRange(Run(cfg, s, ops[..i]))
  }

  lemma DurableWrites(b: Recovering, s: State)
    requires Durable(b, s) && Orderly(s) && s.journal.attached && Encodable.Encodes(s.journal) && InRange(s)
    ensures Writing(s)
  {
    HeldFromMeans(b, s);
  }

  /** Over every run whose counters fit 64 bits, with any journal failures, every
      content of the journal is within the bounds of the codecs. */
  lemma {:induction false} EncodesOverRuns(b: Recovering, cfg: Config, s: State, ops: seq<Op>)
    requires Durable(b, s) && Orderly(s) && s.journal.attached && Encodable.Encodes(s.journal)
    requires AllAskForSomething(ops) && AllRecordable(cfg, s, ops) && AlwaysInRange(cfg, s, ops)
    ensures Encodable.Encodes(Run(cfg, s, ops).journal)
  {
    if ops != [] {
      var n := |ops| - 1;
      var front := ops[..n];
      var before := Run(cfg, s, front);
      PrefixRun(cfg, s, ops, n);
      EncodesOverRuns(b, cfg, s, front);
      DurabilityOverRuns(b, cfg, s, front);
      Lifetimes.RunAttached(b, cfg, s, front);
      RangeAt(cfg, s, ops);
      DurableWrites(b, before);
      StepEncodes(cfg, before, ops[n]);
    }
  }

  lemma PrefixRun(cfg: Config, s: State, ops: seq<Op>, n: nat)
    requires n <= |ops| && AllAskForSomething(ops) && AllRecordable(cfg, s, ops) && AlwaysInRange(cfg, s, ops)
    ensures AllAskForSomething(ops[..n]) && AllRecordable(cfg, s, ops[..n]) && AlwaysInRange(cfg, s, ops[..n])
  {
    assert forall i :: 0 <= i <= n ==> ops[..n][..i] == ops[..i];
  }

  lemma RangeAt(cfg: Config, s: State, ops: seq<Op>)
    requires ops != [] && AllRecordable(cfg, s, ops) && AlwaysInRange(cfg, s, ops)
    ensures
      var n := |ops| - 1;
      InRange(Run(cfg, s, ops[..n])) && InRange(After(cfg, Run(cfg, s, ops[..n]), ops[n])) && Recordable(Run(cfg, s, ops[..n]), ops[n])
  {
    assert ops[..|ops|] == ops;
    assert InRange(Run(cfg, s, ops[..|ops|]));
  }

  /** The frames hold the log's records and nothing else. */
  ghost predicate Framed(frames: seq<JournalFile.Frame>, log: seq<Record>, maxPayload: nat) {
    |frames| == |log| &&
    forall i :: 0 <= i < |log| ==>
      JournalFile.FrameOk(frames[i], maxPayload) && frames[i].kind == Records.KindOf(log[i]) && frames[i].payload == Records.PayloadOf(log[i])
  }

  lemma FramedHolds(frames: seq<JournalFile.Frame>, log: seq<Record>, maxPayload: nat)
    requires Framed(frames, log, maxPayload) && AllBounded(log)
    ensures DurableStack.HoldsAll(frames, log, maxPayload)
  {}

  lemma CrashBounded(s: State, s': State, log: seq<Record>)
    requires Encodable.Encodes(s.journal) && Encodable.Encodes(s'.journal) && CrashContent(s, s', log)
    ensures AllBounded(log)
  {
    if log != s.journal.log {
      var i :| |s.journal.images| <= i < |s'.journal.images| && s'.journal.images[i] == log;
    }
  }

  /** The engine dies during an operation of a run, and its file holds some
      content the journal had during it, torn at any byte of a further frame. What
      recovery reads from those bytes is exactly that content, and so an engine
      that reopens the file holds a possible outcome of the operation. */
  lemma CrashedFileRecovers(b: Recovering, cfg: Config, s: State, op: Op, log: seq<Record>, e: State, scan: Scan, outcomes: seq<bool>,
                            crc: JournalFile.Checksum, maxPayload: nat, frames: seq<JournalFile.Frame>, next: JournalFile.Frame, n: nat)
    returns (m: Meaning)
    requires Template(e, b) && Durable(b, s) && Orderly(s) && s.journal.attached && Encodable.Encodes(s.journal)
    requires AsksForSomething(op) && Recordable(s, op) && InRange(s) && InRange(After(cfg, s, op)) && CrashContent(s, After(cfg, s, op), log)
    requires maxPayload < TWO32 && Framed(frames, log, maxPayload) && JournalFile.FrameOk(next, maxPayload)
    requires n < |JournalFile.EncodeFrame(crc, next)|
    ensures DurableStack.ReplayFileBytes(b, crc, maxPayload, JournalFile.EncodeAll(crc, frames) + JournalFile.EncodeFrame(crc, next)[..n])
         == ReplayLog(b, log)
    ensures m == MeaningOf(s) || m == MeaningOf(After(cfg, s, op)) ||
      (Enforcing(op) && Consistent(Republished(s, op)) && exists t: nat :: m == PartMeaning(Republished(s, op), t))
    ensures ReplayLog(b, log).Replaying?
    ensures
      var o := OpenDurable(e, scan, log, outcomes);
      o.OpenedWith? ==> Reopened(ReplayLog(b, log).state, m, log, o.state)
  {
    DurableWrites(b, s);
    StepEncodes(cfg, s, op);
    CrashBounded(s, After(cfg, s, op), log);
    FramedHolds(frames, log, maxPayload);
    DurableStack.TornWriteRecovers(b, crc, maxPayload, frames, log, next, n);
    m := CrashRecovers(b, cfg, s, op, log, e, scan, outcomes);
  }
}
