/** The life cycle of the infrastructure threads as service main starts, stops and joins them. */
module ServiceThreads {
  import opened Options
  import opened ServiceSystem
  import opened ServiceFrames

  /** Service main has joined, or never started, both infrastructure threads. */
  predicate PastInfrastructure(pc: MainPc) {
    || pc.ConsumeSkipToken? || pc.StartWorker? || pc.AwaitWorker? || pc.ClaimHeartbeat? || pc.PublishHeartbeat? || pc.JoinWorker?
    || pc.LoadExitCode? || pc.PublishStopped? || pc.Finished?
  }

  predicate StoppingAcceptor(pc: MainPc) {
    pc.RequestAcceptorStop? || pc.SignalAcceptorStop? || pc.JoinAcceptor?
  }

  predicate StoppingSupervisor(pc: MainPc) {
    pc.RequestSupervisorStop? || pc.SignalSupervisorStop? || pc.JoinSupervisor?
  }

  predicate Starting(pc: MainPc) {
    pc.SpawnAcceptor? || pc.SpawnSupervisor? || pc.SignalAgentNeeded? || pc.ReportRunning? || pc.AwaitShutdown?
  }

  ghost predicate JoinInv(pc: MainPc, threads: Threads, acceptor: AcceptorPc, supervisor: SupervisorPc) {
    && (pc.SpawnAcceptor? ==> acceptor.AcceptorNotStarted?)
    && (pc.SpawnAcceptor? || pc.SpawnSupervisor? ==> supervisor.SupervisorNotStarted?)
    && (!threads.acceptorJoinable ==> acceptor.AcceptorNotStarted? || acceptor.AcceptorDone?)
    && (!threads.supervisorJoinable ==> supervisor.SupervisorNotStarted? || supervisor.SupervisorDone?)
    && (threads.acceptorJoinable ==> !acceptor.AcceptorNotStarted?)
    && (threads.supervisorJoinable ==> !supervisor.SupervisorNotStarted?)
    && (PastInfrastructure(pc) ==> !threads.acceptorJoinable)
    && (PastInfrastructure(pc) || StoppingAcceptor(pc) ==> !threads.supervisorJoinable)
    && (StoppingAcceptor(pc) ==> threads.acceptorJoinable)
    && (StoppingSupervisor(pc) ==> threads.supervisorJoinable)
  }

  ghost predicate TokenInv(pc: MainPc, threads: Threads, stopEvent: bool) {
    && (pc.SignalSupervisorStop? || pc.JoinSupervisor? ==> threads.supervisorStopRequested)
    && (pc.SignalAcceptorStop? || pc.JoinAcceptor? ==> threads.acceptorStopRequested)
    && (pc.JoinSupervisor? || pc.JoinAcceptor? ==> stopEvent)
    && (Starting(pc) ==> !threads.supervisorStopRequested && !threads.acceptorStopRequested)
  }

  ghost predicate ThreadsInv(s: State) {
    && JoinInv(s.main, s.threads, s.acceptor, s.supervisor)
    && TokenInv(s.main, s.threads, s.shared.stopEvent)
  }

  lemma MainKeepsJoins(s: State, ok: bool)
    requires ThreadsInv(s) && MainNext(s, ok).Some?
    ensures JoinInv(MainNext(s, ok).value, MainThreads(s.threads, s.main, ok),
                    if s.main.SpawnAcceptor? && ok then PrepareDescriptor else s.acceptor,
                    if s.main.SpawnSupervisor? && ok then SupervisorTop else s.supervisor)
  {
  }

  lemma MainKeepsTokens(s: State, ok: bool)
    requires ThreadsInv(s) && MainNext(s, ok).Some?
    ensures TokenInv(MainNext(s, ok).value, MainThreads(s.threads, s.main, ok), MainShared(s.shared, s.main).stopEvent)
  {
    MainShares(s.shared, s.main);
  }

  lemma StepKeepsThreads(s: State, a: Action)
    requires ThreadsInv(s) && Step(s, a).Some?
    ensures ThreadsInv(Step(s, a).value)
  {
    match a
    case MainAction(ok) =>
      MainKeepsJoins(s, ok);
      MainKeepsTokens(s, ok);
    case HandlerActionOf(Receive(control, ok)) =>
      HandlerEntryShares(s.shared, control, ok);
    case HandlerActionOf(Continue(ok)) =>
      HandlerContinueShares(s.shared, s.handler, ok);
    case AcceptorAction(o) =>
      AcceptorShares(s, o);
      NeverUnstarts(s, o, Good);
    case SupervisorAction(o) =>
      SupervisorShares(s, o);
      NeverUnstarts(s, Proceed, o);
    case _ =>
  }

  lemma NeverUnstarts(s: State, o: AcceptorOutcome, q: SupervisorOutcome)
    ensures AcceptorNext(s, o) != Some(AcceptorNotStarted)
    ensures SupervisorNext(s, q) != Some(SupervisorNotStarted)
  {
  }

  lemma ThreadsHold(t: State)
    requires Reachable(t)
    ensures ThreadsInv(t)
  {
    forall u, a | Reachable(u) && ThreadsInv(u) && Step(u, a).Some?
      ensures ThreadsInv(Step(u, a).value)
    {
      StepKeepsThreads(u, a);
    }
    ReachableKeeps(ThreadsInv, t);
  }
}
