/** Claimant fencing over runs (EngineCore::check_fence, src/engine/admission.cpp,
    and the session operations of src/engine/engine.cpp). */
module Fencing {
  import opened Base
  import opened Model
  import opened Engine
  import opened Frames

  /** The claim a holder of the grant makes. */
  function ClaimFrom(g: SessionGrant, origin: Origin): Claim {
    Claim(origin, g.publisher, g.boot, g.session, g.incarnation, g.epoch)
  }

  ghost predicate Live(s: State, g: SessionGrant) {
    s.epoch == g.epoch && s.incarnation == g.incarnation && g.session in s.sessions
  }

  /** The grant was issued at or before s: its nonce is used up in its epoch, and
      whatever session carries that nonce there is the grant's own. */
  ghost predicate Issued(s: State, g: SessionGrant) {
    g.session != 0 && g.epoch != 0 &&
    (s.epoch > g.epoch ||
     (s.epoch == g.epoch && s.incarnation == g.incarnation && g.session < s.nextNonce &&
      (g.session in s.sessions ==> s.sessions[g.session] == Session(g.publisher, g.boot))))
  }

  lemma PassesWhileLive(cfg: Config, s: State, g: SessionGrant, origin: Origin)
    requires Issued(s, g) && (origin != InProcess || !cfg.acceptInProcess)
    ensures FenceVerdict(cfg, s, ClaimFrom(g, origin)) == Admit <==> Live(s, g)
  {}

  /** Ends the grant's session, or its whole epoch. */
  ghost predicate Ends(op: Op, g: SessionGrant) {
    op == OpRetire(g.session) || (op.OpIncarnation? && g.epoch < MAX64)
  }

  lemma SessionStep(cfg: Config, s: State, op: Op, g: SessionGrant)
    requires Issued(s, g) && g.epoch <= MAX64
    ensures Issued(After(cfg, s, op), g)
    ensures Live(After(cfg, s, op), g) <==> Live(s, g) && !Ends(op, g)
  {
    if op.OpAdmit? {
      AdmitCarries(cfg, s, op.request, op.claim);
    } else if !op.OpIncarnation? && !op.OpRegister? && !op.OpRetire? {
      StepSteady(cfg, s, op);
    }
  }

  ghost predicate NeverEnds(ops: seq<Op>, g: SessionGrant) {
    forall i :: 0 <= i < |ops| ==> !Ends(ops[i], g)
  }

  lemma {:induction false} SessionRun(cfg: Config, s: State, ops: seq<Op>, g: SessionGrant)
    requires Issued(s, g) && Live(s, g)
    ensures Issued(Run(cfg, s, ops), g)
    ensures Live(Run(cfg, s, ops), g) <==> NeverEnds(ops, g)
  {
    if ops != [] {
      var n := |ops| - 1;
      SessionRun(cfg, s, ops[..n], g);
      SessionStep(cfg, Run(cfg, s, ops[..n]), ops[n], g);
      assert NeverEnds(ops, g) <==> NeverEnds(ops[..n], g) && !Ends(ops[n], g) by {
        assert forall i :: 0 <= i < n ==> ops[..n][i] == ops[i];
      }
    }
  }

  /** Over every run after a session is granted, a claim under the grant passes
      the fence exactly until the session is retired or a new incarnation begins,
      and never again after that. */
  lemma FencingOverRuns(cfg: Config, s: State, publisher: u64, boot: u64, ops: seq<Op>, origin: Origin)
    requires s.nextNonce > 0 && (origin != InProcess || !cfg.acceptInProcess)
    requires Register(cfg, s, publisher, boot).0.Registered?
    ensures
      var (answer, s1) := Register(cfg, s, publisher, boot);
      FenceVerdict(cfg, Run(cfg, s1, ops), ClaimFrom(answer.grant, origin)) == Admit <==> NeverEnds(ops, answer.grant)
  {
    var (answer, s1) := Register(cfg, s, publisher, boot);
    SessionRun(cfg, s1, ops, answer.grant);
    PassesWhileLive(cfg, Run(cfg, s1, ops), answer.grant, origin);
  }
}
