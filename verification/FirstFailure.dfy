/** The published exit code of a normal end is the first recorded infrastructure failure. */
module FirstFailure {
  import opened ServiceState
  import opened ServiceSystem
  import opened ServiceFrames
  import opened ServiceThreads
  import opened CommitPath

  /** The exit code a history of failures stands for. */
  function ExitCodeOf(failures: seq<nat>): nat {
    if failures == [] then NO_ERROR else FailureCode(failures[0])
  }

  ghost predicate FailureInv(s: State) {
    && s.shared.stopExitCode == ExitCodeOf(s.failures)
    && (s.main.LoadExitCode? ==> !s.main.branch.FailBranch?)
    && ((s.main.PublishStopped? || s.main.Finished?) ==>
          s.main.exitCode == if s.main.branch.FailBranch? then ERROR_GEN_FAILURE else ExitCodeOf(s.failures))
    && (Closing(s.main) ==> (s.acceptor.AcceptorNotStarted? || s.acceptor.AcceptorDone?)
                            && (s.supervisor.SupervisorNotStarted? || s.supervisor.SupervisorDone?))
    && (s.scm.terminatedAt.Some? || s.main.Finished? ==> TerminationPublished(s))
  }

  /** The STOPPED record carries the code service main ended with. */
  ghost predicate TerminationPublished(s: State) {
    && s.main.Finished?
    && s.scm.terminatedAt.Some?
    && s.scm.terminatedAt.value < |s.scm.published|
    && s.scm.published[s.scm.terminatedAt.value] == Publication(StoppedStatus(s.main.exitCode), FromTermination)
  }

  lemma RecordKeepsFirst(sh: Shared, failures: seq<nat>, error: nat)
    requires sh.stopExitCode == ExitCodeOf(failures)
    ensures FailureRecorded(sh, error).stopExitCode == ExitCodeOf(failures + [error])
  {
  }

  lemma MainKeepsFailure(s: State, ok: bool)
    requires FailureInv(s) && ThreadsInv(s) && MainStep(s, ok).Some?
    ensures FailureInv(MainStep(s, ok).value)
  {
    MainShares(s.shared, s.main);
  }

  lemma HandlerKeepsFailure(s: State, a: HandlerAction)
    requires FailureInv(s) && HandlerStep(s, a).Some?
    ensures FailureInv(HandlerStep(s, a).value)
  {
    match a
    case Receive(control, ok) => HandlerEntryShares(s.shared, control, ok);
    case Continue(ok) => HandlerContinueShares(s.shared, s.handler, ok);
  }

  lemma StepKeepsFailure(s: State, a: Action)
    requires FailureInv(s) && ThreadsInv(s) && Step(s, a).Some?
    ensures FailureInv(Step(s, a).value)
  {
    match a
    case MainAction(ok) => MainKeepsFailure(s, ok);
    case HandlerActionOf(h) => HandlerKeepsFailure(s, h);
    case AcceptorAction(o) =>
      AcceptorShares(s, o);
      if s.acceptor.AcceptorFailing? {
        RecordKeepsFirst(s.shared, s.failures, s.acceptor.error);
      }
    case SupervisorAction(o) =>
      SupervisorShares(s, o);
      if s.supervisor.SupervisorFailing? {
        RecordKeepsFirst(s.shared, s.failures, s.supervisor.error);
      }
    case _ =>
  }

  lemma FailureHolds(t: State)
    requires Reachable(t)
    ensures FailureInv(t)
  {
    forall u, a | Reachable(u) && FailureInv(u) && Step(u, a).Some?
      ensures FailureInv(Step(u, a).value)
    {
      ThreadsHold(u);
      StepKeepsFailure(u, a);
    }
    ReachableKeeps(FailureInv, t);
  }

  /**
    When service main ends normally, the STOPPED record carries a non-zero exit code exactly
    when some infrastructure thread recorded a failure, and then the code of the first one recorded, with a zero
    code mapped to the general failure. When a call of service main itself failed the code is the general failure.
   */
  lemma ExitCodeIsFirstFailure(t: State)
    requires Reachable(t) && t.main.Finished?
    ensures t.scm.terminatedAt.Some? && t.scm.terminatedAt.value < |t.scm.published|
    ensures var status := t.scm.published[t.scm.terminatedAt.value].status;
            && status.state.Stopped?
            && (if t.main.branch.FailBranch? then status.exitCode == 31
                else && (status.exitCode != 0 <==> t.failures != [])
                     && (t.failures != [] ==> status.exitCode == if t.failures[0] == 0 then 31 else t.failures[0]))
  {
    FailureHolds(t);
  }
}
