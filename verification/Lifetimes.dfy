/** Runs that span any number of crashes and restarts. */
module Lifetimes {
  import opened Base
  import opened Model
  import opened Engine
  import opened Enforcement
  import opened Closure
  import opened CleanRuns
  import opened Recovery
  import opened Restoration
  import opened Meaning
  import opened Durability
  import opened Crash
  import opened Restart

  /** One incarnation: operations completed, the operation under way when the
      engine died, what the journal then held, and how it was reopened. */
  datatype Life = Life(ops: seq<Op>, last: Op, content: seq<Record>, template: State, scan: Scan, outcomes: seq<bool>)

  ghost function Reborn(life: Life): OpenResult {
    OpenDurable(life.template, life.scan, life.content, life.outcomes)
  }

  /** The incarnation runs as assumed, and the journal it leaves is reopened with
      no live grant under the resumed audit number. */
  ghost predicate Lived(b: Recovering, cfg: Config, s: State, life: Life) {
    var before := Run(cfg, s, life.ops);
    Template(life.template, b) && AllAskForSomething(life.ops) && AllRecordable(cfg, s, life.ops) &&
    AsksForSomething(life.last) && Recordable(before, life.last) &&
    CrashContent(before, After(cfg, before, life.last), life.content) && Reborn(life).OpenedWith? &&
    (ReplayLog(b, life.content).Replaying? ==> !Collides(ReplayLog(b, life.content).state))
  }

  ghost predicate LivedAll(b: Recovering, cfg: Config, s: State, lives: seq<Life>)
    decreases |lives|
  {
    lives == [] || (Lived(b, cfg, s, lives[0]) && LivedAll(b, cfg, Reborn(lives[0]).state, lives[1..]))
  }

  /** The state the latest incarnation started from. */
  ghost function Latest(b: Recovering, cfg: Config, s: State, lives: seq<Life>): State
    requires LivedAll(b, cfg, s, lives)
    decreases |lives|
  {
    if lives == [] then s else Latest(b, cfg, Reborn(lives[0]).state, lives[1..])
  }

  lemma StepAttached(b: Recovering, cfg: Config, s: State, op: Op)
    requires Durable(b, s) && Orderly(s) && Recordable(s, op)
    ensures After(cfg, s, op).journal.attached == s.journal.attached
  {
    if Enforcing(op) {
      PublicationLands(b, cfg, s, op);
    } else {
      OperationLands(b, cfg, s, op);
    }
  }

  lemma {:induction false} RunAttached(b: Recovering, cfg: Config, s: State, ops: seq<Op>)
    requires Durable(b, s) && Orderly(s) && AllAskForSomething(ops) && AllRecordable(cfg, s, ops)
    ensures Run(cfg, s, ops).journal.attached == s.journal.attached
  {
    if ops != [] {
      var n := |ops| - 1;
      var front := ops[..n];
      assert forall i :: 0 <= i < n ==> front[..i] == ops[..i];
      RunAttached(b, cfg, s, front);
      DurabilityOverRuns(b, cfg, s, front);
      assert Recordable(Run(cfg, s, ops[..n]), ops[n]);
      StepAttached(b, cfg, Run(cfg, s, front), ops[n]);
    }
  }

  ghost predicate Serving(b: Recovering, s: State) {
    StartsAgain(b, s) && s.journal.attached
  }

  /** One incarnation hands over to the next. */
  lemma HandsOver(b: Recovering, cfg: Config, s: State, life: Life)
    requires Serving(b, s) && Lived(b, cfg, s, life)
    ensures Serving(b, Reborn(life).state)
  {
    var before := Run(cfg, s, life.ops);
    DurabilityOverRuns(b, cfg, s, life.ops);
    RunAttached(b, cfg, s, life.ops);
    var m := CrashRecovers(b, cfg, before, life.last, life.content, life.template, life.scan, life.outcomes);
  }

  lemma {:induction false} AlwaysServing(b: Recovering, cfg: Config, s: State, lives: seq<Life>)
    requires Serving(b, s) && LivedAll(b, cfg, s, lives)
    ensures Serving(b, Latest(b, cfg, s, lives))
    decreases |lives|
  {
    if lives != [] {
      HandsOver(b, cfg, s, lives[0]);
      AlwaysServing(b, cfg, Reborn(lives[0]).state, lives[1..]);
    }
  }

  /** Closure across restarts: however many times the engine has died, at
      whatever instants, as long as no restart found a live grant under the audit
      number it resumed at, the accounts are closed in every state the current
      incarnation reaches while its journal writes succeed. */
  lemma ClosureAcrossRestarts(b: Recovering, cfg: Config, s: State, lives: seq<Life>, ops: seq<Op>)
    requires Serving(b, s) && LivedAll(b, cfg, s, lives) && AllAskForSomething(ops)
    requires WritesSucceed(Latest(b, cfg, s, lives).journal)
    ensures Closed(Run(cfg, Latest(b, cfg, s, lives), ops))
  {
    AlwaysServing(b, cfg, s, lives);
    ClosureOverCleanRuns(cfg, Latest(b, cfg, s, lives), ops);
  }

  /** Opening an empty journal starts the first incarnation. */
  lemma FirstOpening(e: State, b: Recovering, outcomes: seq<bool>)
    requires Template(e, b) && (outcomes == [] || outcomes[0])
    ensures
      var o := OpenDurable(e, Scan(true, 0), [], outcomes);
      o.OpenedWith? && Serving(b, o.state) && o.report == RecoveryReport(FreshStart, {})
  {
    var m := Meaning(map[], None);
    var k := Counters(1, 0);
    BlankMeans(b, k);
    EmptyPossible();
    OpenExact(e, b, Scan(true, 0), [], outcomes, k, m);
    ReopenedStarts(b, k, m, [], OpenDurable(e, Scan(true, 0), [], outcomes).state);
  }

  lemma EmptyPossible()
    ensures Possible(Meaning(map[], None)) && PathsFit(map[])
  {}
}
