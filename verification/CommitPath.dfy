/** The PRESHUTDOWN commit: at most one worker, only after both infrastructure threads are joined. */
module CommitPath {
  import opened Options
  import opened ServiceSystem
  import opened ServiceThreads

  /** Service main has not yet decided whether to commit. */
  predicate Undecided(pc: MainPc) {
    Starting(pc) || StoppingSupervisor(pc) || StoppingAcceptor(pc) || pc.ConsumeSkipToken?
  }

  predicate RunsWorker(pc: MainPc) {
    pc.AwaitWorker? || pc.ClaimHeartbeat? || pc.PublishHeartbeat? || pc.JoinWorker?
  }

  predicate Closing(pc: MainPc) {
    pc.LoadExitCode? || pc.PublishStopped? || pc.Finished?
  }

  ghost predicate DecisionInv(pc: MainPc, commit: CommitHistory, threads: Threads) {
    && (Undecided(pc) ==> commit == CommitHistory(0, None))
    && (pc.StartWorker? ==> commit.workerStarts == 0 && commit.decision.Some? && !commit.decision.value.skipped)
    && (RunsWorker(pc) ==> commit.workerStarts == 1 && commit.decision.Some? && !commit.decision.value.skipped)
    && (pc.SignalFailure? ==> commit.workerStarts == 0)
    && (pc.SignalFailure? && commit.decision.Some? ==> !threads.acceptorJoinable && !threads.supervisorJoinable && !commit.decision.value.skipped)
  }

  /** What is decided once service main closes, by the branch it took. */
  ghost predicate OutcomeInv(pc: MainPc, commit: CommitHistory) {
    && (Closing(pc) && pc.branch.StopBranch? ==> commit == CommitHistory(0, None))
    && (Closing(pc) && pc.branch.FailBranch? ==> commit.workerStarts == 0)
    && (Closing(pc) && pc.branch.CommitBranch? ==> commit.decision.Some? && commit.workerStarts == (if commit.decision.value.skipped then 0 else 1))
  }

  ghost predicate WorkerInv(pc: MainPc, commit: CommitHistory, worker: WorkerPc) {
    && (worker.WorkerNotStarted? <==> commit.workerStarts == 0)
    && (pc.JoinWorker? ==> worker.ResultReady? || worker.WorkerExited?)
    && (Closing(pc) && commit.workerStarts == 1 ==> worker.WorkerExited?)
  }

  /** Once the decision is taken neither infrastructure thread runs any more. */
  ghost predicate QuietInv(s: State) {
    s.commit.decision.Some? || s.commit.workerStarts > 0 ==>
      && (s.acceptor.AcceptorNotStarted? || s.acceptor.AcceptorDone?)
      && (s.supervisor.SupervisorNotStarted? || s.supervisor.SupervisorDone?)
      && !s.main.SpawnAcceptor? && !s.main.SpawnSupervisor?
  }

  ghost predicate CommitInv(s: State) {
    && DecisionInv(s.main, s.commit, s.threads)
    && OutcomeInv(s.main, s.commit)
    && WorkerInv(s.main, s.commit, s.worker)
    && QuietInv(s)
  }

  lemma MainKeepsDecision(s: State, ok: bool)
    requires CommitInv(s) && ThreadsInv(s) && MainNext(s, ok).Some?
    ensures DecisionInv(MainNext(s, ok).value, MainCommit(s, ok), MainThreads(s.threads, s.main, ok))
  {
  }

  lemma MainKeepsOutcome(s: State, ok: bool)
    requires CommitInv(s) && ThreadsInv(s) && MainNext(s, ok).Some?
    ensures OutcomeInv(MainNext(s, ok).value, MainCommit(s, ok))
  {
  }

  lemma MainKeepsWorker(s: State, ok: bool)
    requires CommitInv(s) && MainNext(s, ok).Some?
    ensures WorkerInv(MainNext(s, ok).value, MainCommit(s, ok), if s.main.StartWorker? && ok then WorkerRunning else s.worker)
  {
  }

  lemma MainKeepsQuiet(s: State, ok: bool)
    requires CommitInv(s) && ThreadsInv(s) && MainStep(s, ok).Some?
    ensures QuietInv(MainStep(s, ok).value)
  {
    MainKeepsDecision(s, ok);
  }

  lemma StepKeepsCommit(s: State, a: Action)
    requires CommitInv(s) && ThreadsInv(s) && Step(s, a).Some?
    ensures CommitInv(Step(s, a).value)
  {
    match a
    case MainAction(ok) =>
      MainKeepsDecision(s, ok);
      MainKeepsOutcome(s, ok);
      MainKeepsWorker(s, ok);
      MainKeepsQuiet(s, ok);
    case _ =>
  }

  lemma CommitHolds(t: State)
    requires Reachable(t)
    ensures CommitInv(t)
  {
    forall u, a | Reachable(u) && CommitInv(u) && Step(u, a).Some?
      ensures CommitInv(Step(u, a).value)
    {
      ThreadsHold(u);
      StepKeepsCommit(u, a);
    }
    ReachableKeeps(CommitInv, t);
  }

  /**
    In every run the commit worker starts at most once, and only on the PRESHUTDOWN branch after both
    infrastructure threads have been joined; from then on neither of them takes another step.
   */
  lemma WorkerStartsOnceAfterJoins(t: State)
    requires Reachable(t)
    ensures t.commit.workerStarts <= 1
    ensures t.commit.workerStarts == 1 ==>
              && t.acceptor.AcceptorDone? && t.supervisor.SupervisorDone?
              && !t.threads.acceptorJoinable && !t.threads.supervisorJoinable
              && (RunsWorker(t.main) || (Closing(t.main) && t.main.branch.CommitBranch?))
  {
    CommitHolds(t);
    WorkerPosition(t);
    if t.commit.workerStarts == 1 {
      BothStarted(t);
      ThreadsHold(t);
      BothJoined(t);
    }
  }

  /** Where service main stands once the worker has started. */
  lemma WorkerPosition(t: State)
    requires CommitInv(t)
    ensures t.commit.workerStarts <= 1
    ensures t.commit.workerStarts == 1 ==> RunsWorker(t.main) || (Closing(t.main) && t.main.branch.CommitBranch?)
  {
  }

  lemma BothJoined(t: State)
    requires ThreadsInv(t) && StartedInv(t)
    requires RunsWorker(t.main) || (Closing(t.main) && t.main.branch.CommitBranch?)
    ensures t.acceptor.AcceptorDone? && t.supervisor.SupervisorDone?
    ensures !t.threads.acceptorJoinable && !t.threads.supervisorJoinable
  {
  }

  /**
    When service main closes the PRESHUTDOWN branch, either the commit was skipped and no worker ever ran,
    or the one worker has finished; on the stop branch the question was never raised.
   */
  lemma StoppedOnlyAfterCommit(t: State)
    requires Reachable(t) && Closing(t.main)
    ensures t.main.branch.CommitBranch? ==>
              && t.commit.decision.Some?
              && (t.commit.decision.value.skipped <==> t.commit.workerStarts == 0)
              && (t.commit.decision.value.skipped <==> t.worker.WorkerNotStarted?)
              && (!t.commit.decision.value.skipped ==> t.worker.WorkerExited?)
    ensures t.main.branch.StopBranch? ==> t.commit.decision.None? && t.worker.WorkerNotStarted?
  {
    CommitHolds(t);
  }

  // ----- On the way to a commit both threads had been started -----

  ghost predicate StartedInv(s: State) {
    && (s.main.AwaitShutdown? ==> !s.acceptor.AcceptorNotStarted? && !s.supervisor.SupervisorNotStarted?)
    && (s.main.SignalAgentNeeded? || s.main.ReportRunning? ==> !s.acceptor.AcceptorNotStarted? && !s.supervisor.SupervisorNotStarted?)
    && (s.main.SpawnSupervisor? ==> !s.acceptor.AcceptorNotStarted?)
    && ((StoppingSupervisor(s.main) || StoppingAcceptor(s.main)) && s.main.branch.CommitBranch? ==>
          !s.acceptor.AcceptorNotStarted? && !s.supervisor.SupervisorNotStarted?)
    && (s.main.ConsumeSkipToken? || s.main.StartWorker? || RunsWorker(s.main) ==>
          !s.acceptor.AcceptorNotStarted? && !s.supervisor.SupervisorNotStarted?)
    && (Closing(s.main) && s.main.branch.CommitBranch? ==> !s.acceptor.AcceptorNotStarted? && !s.supervisor.SupervisorNotStarted?)
  }

  lemma MainKeepsStarted(s: State, ok: bool)
    requires StartedInv(s) && ThreadsInv(s) && MainStep(s, ok).Some?
    ensures StartedInv(MainStep(s, ok).value)
  {
  }

  lemma BothStarted(t: State)
    requires Reachable(t)
    ensures StartedInv(t)
  {
    forall u, a | Reachable(u) && StartedInv(u) && Step(u, a).Some?
      ensures StartedInv(Step(u, a).value)
    {
      ThreadsHold(u);
      StepKeepsStarted(u, a);
    }
    ReachableKeeps(StartedInv, t);
  }

  lemma StepKeepsStarted(s: State, a: Action)
    requires StartedInv(s) && ThreadsInv(s) && Step(s, a).Some?
    ensures StartedInv(Step(s, a).value)
  {
    match a
    case MainAction(ok) => MainKeepsStarted(s, ok);
    case AcceptorAction(o) => NeverUnstarts(s, o, Good);
    case SupervisorAction(o) => NeverUnstarts(s, Proceed, o);
    case _ =>
  }
}
