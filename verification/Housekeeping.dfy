/** What the session operations, a new incarnation and a compaction answer and
    leave (src/engine/engine.cpp). */
module Housekeeping {
  import opened Base
  import opened Model
  import opened Engine
  import opened Frames
  import opened Interrupted
  import opened Revocations

  /** A session is granted exactly when the claimant is named, there is an epoch
      and there is room; it is the only change, under a number not used before in
      this incarnation. */
  ghost predicate RegisteredAs(cfg: Config, s: State, publisher: u64, boot: u64, a: RegisterResult, s': State) {
    if publisher != 0 && boot != 0 && s.epoch != 0 && |s.sessions| < cfg.sessionCapacity then
      a.Registered? && a.grant.session == s.nextNonce && a.grant.epoch == s.epoch && a.grant.incarnation == s.incarnation &&
      a.grant.publisher == publisher && a.grant.boot == boot && s'.nextNonce == s.nextNonce + 1 &&
      (forall n :: n in s'.sessions <==> n in s.sessions || n == s.nextNonce) &&
      (forall n :: n in s'.sessions ==> s'.sessions[n] == if n == s.nextNonce then Session(publisher, boot) else s.sessions[n]) &&
      s' == s.(sessions := s'.sessions, nextNonce := s'.nextNonce)
    else
      s' == s &&
      a == NotRegistered(if publisher == 0 || boot == 0 then InvalidArgument else if s.epoch == 0 then EpochMismatch else Busy)
  }

  lemma RegisterExact(cfg: Config, s: State, publisher: u64, boot: u64)
    ensures RegisteredAs(cfg, s, publisher, boot, Register(cfg, s, publisher, boot).0, Register(cfg, s, publisher, boot).1)
  {}

  /** Retiring ends that session and no other. */
  lemma RetireExact(s: State, session: nat)
    ensures
      var (st, s') := Retire(s, session);
      (st == (if session in s.sessions then Ok else NotFound)) && session !in s'.sessions &&
      (forall n :: n != session ==> (n in s'.sessions <==> n in s.sessions) && (n in s'.sessions ==> s'.sessions[n] == s.sessions[n])) &&
      s' == s.(sessions := s'.sessions)
  {}

  /** A new incarnation takes the next epoch and ends every session; it is in force
      even where its boot record cannot be written. */
  lemma IncarnationExact(s: State, incarnation: u64)
    ensures
      var (st, s') := NewIncarnation(s, incarnation);
      if s.epoch == MAX64 then st == ArithmeticOverflow && s' == s
      else
        st == (if Succeeds(s.journal, 0) then Ok else DurableFailure) && s'.epoch == s.epoch + 1 && s'.incarnation == incarnation &&
        s'.sessions == map[] && s'.nextNonce == 1 &&
        Journals(s, s', if Succeeds(s.journal, 0) then [BootEpoch(BootRecord(s.epoch + 1, FORMAT_REVISION, PRODUCT_NAME, incarnation, incarnation))] else []) &&
        s' == s.(epoch := s'.epoch, incarnation := s'.incarnation, sessions := s'.sessions, nextNonce := s'.nextNonce, journal := s'.journal)
  {
    if s.epoch != MAX64 {
      var s1 := s.(epoch := s.epoch + 1, incarnation := incarnation, sessions := map[], nextNonce := 1);
      FirstWrite(s1, BootOf(s1));
    }
  }

  /** A compaction rewrites the journal or leaves it, and touches nothing else. */
  lemma CompactExact(s: State)
    ensures
      var (st, s') := Compact(s);
      st == (if !s.journal.attached then InvalidArgument else if Succeeds(s.journal, 0) then Ok else DurableFailure) &&
      s'.journal.attached == s.journal.attached && s'.journal.log == (if st == Ok then CompactedLog(s) else s.journal.log) &&
      s' == s.(journal := s'.journal)
  {}

  /** The clock moves forward by what is asked and stops at its end. */
  lemma TickExact(cfg: Config, s: State, ticks: u64)
    ensures
      var s' := After(cfg, s, OpTick(ticks));
      s'.tick == Min(s.tick + ticks, MAX64) && s' == s.(tick := s'.tick)
  {}

  /** Forgetting an authority forgets that one and nothing else. */
  lemma InvalidateExact(cfg: Config, s: State)
    ensures After(cfg, s, OpInvalidateCapacity) == s.(auth := Authorities(s.auth.policy, None, s.auth.reservations, s.auth.paths, s.auth.qos, s.auth.priorities))
    ensures After(cfg, s, OpInvalidatePaths) == s.(auth := Authorities(s.auth.policy, s.auth.capacity, s.auth.reservations, None, s.auth.qos, s.auth.priorities))
  {}

  // ------------------------------------------------------------------
  // Sessions over runs
  // ------------------------------------------------------------------

  /** The sessions are within the bound and numbered below the next. */
  ghost predicate Bounded(cfg: Config, s: State) {
    |s.sessions| <= cfg.sessionCapacity && forall n :: n in s.sessions ==> n < s.nextNonce
  }

  lemma RegisterBounded(cfg: Config, s: State, publisher: u64, boot: u64)
    requires Bounded(cfg, s)
    ensures Bounded(cfg, Register(cfg, s, publisher, boot).1)
  {}

  lemma RetireBounded(cfg: Config, s: State, session: nat)
    requires Bounded(cfg, s)
    ensures Bounded(cfg, Retire(s, session).1)
  {
    if session in s.sessions {
      assert |s.sessions - {session}| == |s.sessions| - 1 by {
        assert (s.sessions - {session}).Keys == s.sessions.Keys - {session};
        assert |s.sessions.Keys| == |s.sessions| && |(s.sessions - {session}).Keys| == |s.sessions - {session}|;
      }
    }
  }

  lemma StepBounded(cfg: Config, s: State, op: Op)
    requires Bounded(cfg, s)
    ensures Bounded(cfg, After(cfg, s, op))
  {
    match op
    case OpAdmit(req, claim) => AdmitCarries(cfg, s, req, claim);
    case OpRegister(publisher, boot) => RegisterBounded(cfg, s, publisher, boot);
    case OpRetire(session) => RetireBounded(cfg, s, session);
    case OpIncarnation(i) => IncarnationExact(s, i);
    case _ => StepSteady(cfg, s, op);
  }

  /** Over every run the sessions stay within the bound. */
  lemma {:induction false} SessionsBounded(cfg: Config, s: State, ops: seq<Op>)
    requires Bounded(cfg, s)
    ensures Bounded(cfg, Run(cfg, s, ops))
  {
    if ops != [] {
      var n := |ops| - 1;
      SessionsBounded(cfg, s, ops[..n]);
      StepBounded(cfg, Run(cfg, s, ops[..n]), ops[n]);
    }
  }
}
