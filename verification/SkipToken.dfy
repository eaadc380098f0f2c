/** The one-shot skip token refines the history of applied controls. */
module SkipToken {
  import opened Options
  import opened ServiceState
  import opened ServiceSystem
  import opened ServiceFrames
  import opened CommitPath

  /** The last control applied in the run, if it was Handled. */
  function LastHandled(applied: seq<AppliedControl>): Option<AppliedControl> {
    if applied != [] && applied[|applied| - 1].control.PreshutdownCommitHandled? then Some(applied[|applied| - 1]) else None
  }

  function DeadlineFrom(applied: seq<AppliedControl>): Option<nat> {
    var last := LastHandled(applied);
    if last.Some? then Some(last.value.at + 300_000) else None
  }

  /** At `at` the last control of the run is Handled and at most five minutes old. */
  predicate HandledRecently(applied: seq<AppliedControl>, at: nat) {
    var last := LastHandled(applied);
    last.Some? && at - last.value.at <= 300_000
  }

  ghost predicate TokenRefines(sh: Shared, applied: seq<AppliedControl>, decision: Option<SkipDecision>) {
    match decision
    case None => sh.skipDeadline == DeadlineFrom(applied)
    case Some(d) => sh.skipDeadline == None && (d.skipped <==> HandledRecently(applied, d.at))
  }

  ghost predicate SkipInv(s: State) {
    && TokenRefines(s.shared, s.controls.applied, s.commit.decision)
    && (s.controls.applied != [] ==> s.controls.applied[|s.controls.applied| - 1].at <= s.now)
  }

  lemma ApplyKeepsToken(sh: Shared, applied: seq<AppliedControl>, next: AppliedControl, now: nat)
    requires next.at == now
    ensures ControlApplied(sh, next.control, now).skipDeadline == DeadlineFrom(applied + [next])
  {
  }

  lemma ConsumeKeepsToken(s: State)
    requires SkipInv(s) && s.commit.decision.None? && s.main.ConsumeSkipToken?
    ensures TokenRefines(MainShared(s.shared, s.main), s.controls.applied, MainCommit(s, true).decision)
  {
  }

  lemma MainKeepsSkip(s: State, ok: bool)
    requires SkipInv(s) && CommitInv(s) && MainStep(s, ok).Some?
    ensures SkipInv(MainStep(s, ok).value)
  {
    MainShares(s.shared, s.main);
    if s.main.ConsumeSkipToken? {
      ConsumeKeepsToken(s);
    }
  }

  lemma AcceptorKeepsSkip(s: State, o: AcceptorOutcome)
    requires SkipInv(s) && CommitInv(s) && AcceptorStep(s, o).Some?
    ensures SkipInv(AcceptorStep(s, o).value)
  {
    AcceptorShares(s, o);
    if s.acceptor.ApplyFrame? {
      ApplyKeepsToken(s.shared, s.controls.applied, AppliedControl(s.acceptor.pipe, s.acceptor.frame, s.acceptor.control, s.now), s.now);
    }
  }

  lemma StepKeepsSkip(s: State, a: Action)
    requires SkipInv(s) && CommitInv(s) && Step(s, a).Some?
    ensures SkipInv(Step(s, a).value)
  {
    match a
    case MainAction(ok) => MainKeepsSkip(s, ok);
    case HandlerActionOf(Receive(control, ok)) => HandlerEntryShares(s.shared, control, ok);
    case HandlerActionOf(Continue(ok)) => HandlerContinueShares(s.shared, s.handler, ok);
    case AcceptorAction(o) => AcceptorKeepsSkip(s, o);
    case SupervisorAction(o) => SupervisorShares(s, o);
    case _ =>
  }

  lemma SkipHolds(t: State)
    requires Reachable(t)
    ensures SkipInv(t)
  {
    forall u, a | Reachable(u) && SkipInv(u) && Step(u, a).Some?
      ensures SkipInv(Step(u, a).value)
    {
      CommitHolds(u);
      StepKeepsSkip(u, a);
    }
    ReachableKeeps(SkipInv, t);
  }

  /**
    The commit of a run is skipped exactly when the last control applied in the whole run was Handled and at
    most five minutes had passed since. `applied` is the history up to `t`, however long after the decision
    `t` is: no control is applied once the decision is taken.
   */
  lemma SkipDecisionRefinesHistory(t: State)
    requires Reachable(t) && t.commit.decision.Some?
    ensures t.commit.decision.value.skipped <==> HandledRecently(t.controls.applied, t.commit.decision.value.at)
    ensures t.shared.skipDeadline == None && !t.acceptor.ApplyFrame?
  {
    SkipHolds(t);
    CommitHolds(t);
  }

  /** Until the decision the token is exactly what the last applied control left, never older than that control. */
  lemma TokenFollowsLastControl(t: State)
    requires Reachable(t) && t.commit.decision.None?
    ensures t.shared.skipDeadline == DeadlineFrom(t.controls.applied)
    ensures SkipTokenValid(t.shared, t.now) <==> HandledRecently(t.controls.applied, t.now)
  {
    SkipHolds(t);
  }
}
