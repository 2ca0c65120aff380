/** Decisions remembered across a restart: what the journal holds of a decision
    decides whether repeating its attempt in the reopened engine repeats its
    answer (src/engine/engine.cpp, src/engine/admission.cpp). */
module Recall {
  import opened Model
  import opened Attempts
  import opened Checks
  import opened Engine
  import opened Frames
  import opened Invariants
  import opened Idempotence
  import opened Recovery
  import opened Restart
  import opened Reissue
  import opened Registry
  import opened Lineage

  lemma OpenedMemory(e: State, b: Recovering, scan: Scan, log: seq<Record>, outcomes: seq<bool>) returns (st: Recovering)
    requires Template(e, b) && OpenDurable(e, scan, log, outcomes).OpenedWith?
    ensures ReplayLog(b, log) == Replaying(st)
    ensures
      var s := OpenDurable(e, scan, log, outcomes).state;
      s.attempts == st.attempts && s.cache == map[] && s.nextDecision == st.maxDecision + 1 &&
      forall d :: d in s.history.records ==> d in st.history.records && s.history.records[d] == st.history.records[d]
  {
    st := ReplayLog(b, log).state;
    TrimSubset(st.history, RestoredLedger(LiveGrants(st)).1.byDecision.Keys);
  }

  lemma RecountsTells(log: seq<Record>, key: AttemptKey, o: Decision, n: nat, r: DecisionRecord)
    requires n < |log| && IsDecision(log[n]) && Tells(DecisionIn(log[n]), key, o) && OncePerDecision(log) && Recounts(log, o.decision, r)
    ensures Agrees(r, o)
  {
    var i: nat :| LatestOf(log, o.decision, i) && RecountsFrom(log, o.decision, r, i);
    assert i == n;
  }

  lemma RememberedBy(s: State, log: seq<Record>, key: AttemptKey, o: Decision, n: nat)
    requires OncePerDecision(log) && n < |log| && IsDecision(log[n]) && Tells(DecisionIn(log[n]), key, o)
    requires NamesLatest(s.attempts, log) && s.cache == map[] && o.decision < s.nextDecision
    requires o.decision in s.history.records ==> Agrees(s.history.records[o.decision], o)
    ensures Remembered(s, key, o) <==> LatestUnder(log, key, n) && key in s.attempts.attempts
  {
    if key in s.attempts.attempts {
      var i: nat :| LatestUnder(log, key, i) && s.attempts.attempts[key] == AttemptIn(log[i]);
      if Remembered(s, key, o) || LatestUnder(log, key, n) {
        assert i == n;
      }
    }
  }

  /** Where the journal holds a decision, the reopened engine remembers it exactly
      when that is the latest decision noted under its key and the key stayed
      within the bound of the registry. */
  lemma RecalledIff(e: State, b: Recovering, scan: Scan, log: seq<Record>, outcomes: seq<bool>, key: AttemptKey, o: Decision, n: nat)
    requires Template(e, b) && OpenDurable(e, scan, log, outcomes).OpenedWith? && OncePerDecision(log)
    requires n < |log| && IsDecision(log[n]) && Tells(DecisionIn(log[n]), key, o) && o.decision != 0
    ensures Remembered(OpenDurable(e, scan, log, outcomes).state, key, o) <==>
      LatestUnder(log, key, n) && key in KeysAfter(e.attempts.capacity, log)
  {
    var s := OpenDurable(e, scan, log, outcomes).state;
    var st := OpenedMemory(e, b, scan, log, outcomes);
    RegistryExact(b, log);
    ReissuedIff(e, scan, log, outcomes, o.decision);
    HistoryExact(b, log);
    if o.decision in s.history.records {
      RecountsTells(log, key, o, n, s.history.records[o.decision]);
    }
    RememberedBy(s, log, key, o, n);
  }

  // ------------------------------------------------------------------
  // From the answer to the restart
  // ------------------------------------------------------------------

  /** The journal held this content at some instant since s, up to s'. */
  ghost predicate HeldSince(s: State, s': State, log: seq<Record>) {
    log == s.journal.log || exists i :: |s.journal.images| <= i < |s'.journal.images| && s'.journal.images[i] == log
  }

  lemma HeldTidy(cfg: Config, s: State, ops: seq<Op>, log: seq<Record>, key: AttemptKey, o: Decision)
    requires Consistent(s) && Recollects(s, key, o) && o.decision < s.nextDecision && HeldSince(s, Run(cfg, s, ops), log)
    ensures Tidy(log, Run(cfg, s, ops).nextDecision, key, o)
  {
    TidyOverRuns(cfg, s, ops, key, o);
    TidyLater(s.journal.log, s.nextDecision, Run(cfg, s, ops).nextDecision, key, o);
  }

  /** A decision was answered, the engine ran on and died, and another was opened
      on what the journal held: if that holds the decision at n, then the new
      engine remembers it exactly when it is the latest noted under its key there
      and the key stayed within the bound. */
  lemma AnswerRecalledIff(cfg: Config, s: State, req: Request, ops: seq<Op>, log: seq<Record>, n: nat,
                          e: State, b: Recovering, scan: Scan, outcomes: seq<bool>)
    requires Consistent(s) && Regular(s) && AdmitNew(cfg, s, req).0.Decided?
    requires HeldSince(AdmitNew(cfg, s, req).1, Run(cfg, AdmitNew(cfg, s, req).1, ops), log)
    requires n < |log| && Settles(log[n], AdmitNew(cfg, s, req).0.decision.decision)
    requires Template(e, b) && OpenDurable(e, scan, log, outcomes).OpenedWith?
    ensures Remembered(OpenDurable(e, scan, log, outcomes).state, KeyFor(req), AdmitNew(cfg, s, req).0.decision) <==>
      LatestUnder(log, KeyFor(req), n) && KeyFor(req) in KeysAfter(e.attempts.capacity, log)
  {
    var o := AdmitNew(cfg, s, req).0.decision;
    AnsweredIsTold(cfg, s, req);
    HeldTidy(cfg, AdmitNew(cfg, s, req).1, ops, log, KeyFor(req), o);
    RecalledIff(e, b, scan, log, outcomes, KeyFor(req), o, n);
  }

  /** And where it remembers, repeating the attempt, with any claim that passes
      the fence, at any time in any run that does not disturb the key, repeats
      the answer; other content under the key is refused; no load moves. */
  lemma ReplayAcrossRestart(cfg: Config, s: State, req: Request, ops: seq<Op>, log: seq<Record>, n: nat,
                            e: State, b: Recovering, scan: Scan, outcomes: seq<bool>, later: seq<Op>, again: Request, claim: Claim)
    requires Consistent(s) && Regular(s) && AdmitNew(cfg, s, req).0.Decided?
    requires HeldSince(AdmitNew(cfg, s, req).1, Run(cfg, AdmitNew(cfg, s, req).1, ops), log)
    requires n < |log| && Settles(log[n], AdmitNew(cfg, s, req).0.decision.decision)
    requires Template(e, b) && OpenDurable(e, scan, log, outcomes).OpenedWith?
    requires LatestUnder(log, KeyFor(req), n) && KeyFor(req) in KeysAfter(e.attempts.capacity, log)
    requires UndisturbedRun(cfg, OpenDurable(e, scan, log, outcomes).state, later, KeyFor(req))
    requires KeyFor(again) == KeyFor(req) && ValidRequest(again) && FenceVerdict(cfg, Run(cfg, OpenDurable(e, scan, log, outcomes).state, later), claim) == Admit
    ensures
      var now := Run(cfg, OpenDurable(e, scan, log, outcomes).state, later);
      var o := AdmitNew(cfg, s, req).0.decision;
      var (answer, s') := AdmitRequest(cfg, now, again, claim);
      if cfg.fingerprint(again) == o.fingerprint then RepeatsOriginal(now, answer, s', o) else RefusesReuse(now, answer, s')
  {
    AnswerRecalledIff(cfg, s, req, ops, log, n, e, b, scan, outcomes);
    ReplayOverRuns(cfg, OpenDurable(e, scan, log, outcomes).state, later, again, claim, AdmitNew(cfg, s, req).0.decision);
  }

  // ------------------------------------------------------------------
  // Every key on record
  // ------------------------------------------------------------------

  lemma OnRecordNeverGrants(cfg: Config, s: State, req: Request, claim: Claim)
    requires KeyFor(req) in s.attempts.attempts
    ensures AdmitRequest(cfg, s, req, claim).1.ledger == s.ledger
  {}

  /** A key that recovery put on record, whoever used it last, is never granted
      again at once. */
  lemma ReopenedNeverGrantsAgain(cfg: Config, e: State, b: Recovering, scan: Scan, log: seq<Record>, outcomes: seq<bool>, req: Request, claim: Claim)
    requires Template(e, b) && OpenDurable(e, scan, log, outcomes).OpenedWith? && KeyFor(req) in KeysAfter(e.attempts.capacity, log)
    ensures
      var s := OpenDurable(e, scan, log, outcomes).state;
      AdmitRequest(cfg, s, req, claim).1.ledger == s.ledger
  {
    var st := OpenedMemory(e, b, scan, log, outcomes);
    RegistryExact(b, log);
    OnRecordNeverGrants(cfg, OpenDurable(e, scan, log, outcomes).state, req, claim);
  }

  // ------------------------------------------------------------------
  // The journal stays regular across restarts
  // ------------------------------------------------------------------

  lemma OpenedLog(e: State, b: Recovering, scan: Scan, log: seq<Record>, outcomes: seq<bool>)
    requires Template(e, b) && OpenDurable(e, scan, log, outcomes).OpenedWith?
    ensures
      var s := OpenDurable(e, scan, log, outcomes).state;
      s.journal.log == log + [BootOf(s)] && s.nextDecision > 0
  {}

  /** An engine opened on a journal that records each decision once continues so. */
  lemma ReopenedRegular(e: State, b: Recovering, scan: Scan, log: seq<Record>, outcomes: seq<bool>)
    requires Template(e, b) && OpenDurable(e, scan, log, outcomes).OpenedWith? && OncePerDecision(log)
    ensures Regular(OpenDurable(e, scan, log, outcomes).state)
  {
    var s := OpenDurable(e, scan, log, outcomes).state;
    OpenedLog(e, b, scan, log, outcomes);
    ReissuedIff(e, scan, log, outcomes, s.nextDecision);
    AllBelowSnoc(log, BootOf(s), s.nextDecision);
  }
}
