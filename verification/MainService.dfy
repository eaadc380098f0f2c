/** What service main does when one of its own calls fails. */
module MainService {
  import opened Options
  import opened ServiceState
  import opened ServiceSystem
  import opened Preshutdown
  import opened FirstFailure
  import opened PublishedRecords

  /** Service main is at a call that throws where it fails: a thread start, the RUNNING record, its wait, the worker start. */
  predicate AtMainCall(pc: MainPc) {
    pc.SpawnAcceptor? || pc.SpawnSupervisor? || pc.ReportRunning? || pc.AwaitShutdown? || pc.StartWorker?
  }

  /** The state after the failed call and the first step of the clean-up. */
  function AfterFailure(s: State, ok: bool): Option<State> {
    var t := MainStep(s, false);
    if t.None? then None else MainStep(t.value, ok)
  }

  /**
    A call of service main that fails sets the stop event, and service main then stops and joins exactly the threads that
    were started, the supervisor first; with none left it publishes STOPPED with the general failure.
   */
  lemma FailedCallCleansUp(s: State, ok: bool)
    requires AtMainCall(s.main)
    ensures AfterFailure(s, ok).Some?
    ensures var t := AfterFailure(s, ok).value;
            && t.shared.stopEvent && OnBranch(t.main, FailBranch)
            && t.main == (if t.threads.supervisorJoinable then RequestSupervisorStop(FailBranch)
                          else if t.threads.acceptorJoinable then RequestAcceptorStop(FailBranch)
                          else PublishStopped(FailBranch, 31))
            && t.threads == MainThreads(s.threads, s.main, false)
            && t.worker == s.worker && t.scm.published == s.scm.published
  {
  }

  lemma FailBranchIsFinal(s: State, ok: bool)
    requires MainNext(s, ok).Some? && (s.main.SignalFailure? || OnBranch(s.main, FailBranch))
    ensures OnBranch(MainNext(s, ok).value, FailBranch)
  {
  }

  /** Whatever happens then: no commit is begun, and once service main has finished STOPPED carries the general failure. */
  lemma FailureIsPublished(s: State, run: seq<Action>, t: State)
    requires Reachable(s) && AtMainCall(s.main) && Leads(MainStep(s, false).value, run, t)
    ensures t.commit.workerStarts == s.commit.workerStarts
    ensures t.main.Finished? ==>
              && t.scm.terminatedAt.Some? && t.scm.terminatedAt.value < |t.scm.published|
              && t.scm.published[t.scm.terminatedAt.value].status == Status(Stopped, 0, 31, 0, 0)
  {
    var starts := s.commit.workerStarts;
    var first := ReachedBy(s, MainAction(false));
    forall u, a | Failed(u, starts) && Step(u, a).Some?
      ensures Failed(Step(u, a).value, starts)
    {
      StepKeepsFailed(u, a, starts);
    }
    RunKeeps((u: State) => Failed(u, starts), first, run, t);
    ReachableOn(first, run, t);
    if t.main.Finished? {
      ExitCodeIsFirstFailure(t);
      RecordsAreWellFormed(t, t.scm.terminatedAt.value);
    }
  }

  ghost predicate Failed(s: State, starts: nat) {
    && (s.main.SignalFailure? || OnBranch(s.main, FailBranch))
    && s.commit.workerStarts == starts
  }

  lemma StepKeepsFailed(s: State, a: Action, starts: nat)
    requires Failed(s, starts) && Step(s, a).Some?
    ensures Failed(Step(s, a).value, starts)
  {
    if a.MainAction? {
      FailBranchIsFinal(s, a.ok);
    }
  }
}
