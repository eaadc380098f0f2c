/**
  Joining the infrastructure threads always comes to an end: once the stop event and a thread's stop token are
  set, the thread is never blocked and every step of its own brings it closer to its end.
 */
module ShutdownDrain {
  import opened ServiceSystem
  import opened ServiceFrames
  import opened ServiceThreads

  /** An upper bound of the steps the supervisor still takes under a stop. */
  function SupervisorRank(pc: SupervisorPc): nat {
    match pc
    case SupervisorDone => 0
    case SupervisorNotStarted => 0
    case SupervisorTop => 1
    case SupervisorSignal => 1
    case SupervisorFailing(_) => 2
    case Park => 3
    case ObserveWait(_) => 12
    case ObserveDeadline(_) => 13
    case ObserveDiscard(_, _) => 14
    case ObserveCheck(_, _) => 15
    case ObserveFetch(_) => 16
    case ObserveTop(_) => 17
    case ObserveSession(_) => 18
    case Launching => 18
    case Launch => 19
    case Delay(_) => 20
    case Decide => 21
    case RetainDiscard(_) => 22
    case RetainCheck(_) => 23
    case RetainFetch => 24
  }

  /** An upper bound of the steps the acceptor still takes under a stop. */
  function AcceptorRank(pc: AcceptorPc): nat {
    match pc
    case AcceptorDone => 0
    case AcceptorNotStarted => 0
    case AcceptorTop => 1
    case AcceptorSignal => 1
    case AfterDiscard => 1
    case AcceptorFailing(_) => 2
    case DiscardOwn(_) => 2
    case PrepareDescriptor => 3
    case ReadStart(_) => 3
    case EchoStart(_, _) => 4
    case ReadWait(_) => 6
    case EchoWait(_, _) => 5
    case ApplyFrame(_, _, _) => 5
    case Install(_) => 4
    case HandshakeWait(_) => 5
    case HandshakeStart(_) => 6
    case Authenticate(_) => 7
    case ConnectDone(_, _) => 8
    case ConnectWait(_) => 9
    case ConnectStart(_) => 10
    case CreatePipe => 11
  }

  predicate SupervisorDraining(s: State) {
    s.shared.stopEvent && s.threads.supervisorStopRequested
  }

  predicate AcceptorDraining(s: State) {
    s.shared.stopEvent && s.threads.acceptorStopRequested
  }

  lemma SupervisorRankFalls(s: State, o: SupervisorOutcome)
    requires SupervisorDraining(s) && SupervisorNext(s, o).Some?
    ensures SupervisorRank(SupervisorNext(s, o).value) < SupervisorRank(s.supervisor)
  {
  }

  lemma AcceptorRankFalls(s: State, o: AcceptorOutcome)
    requires AcceptorDraining(s) && AcceptorNext(s, o).Some?
    ensures AcceptorRank(AcceptorNext(s, o).value) < AcceptorRank(s.acceptor)
  {
  }

  lemma SupervisorNeverBlocked(s: State)
    requires SupervisorDraining(s) && !s.supervisor.SupervisorDone? && !s.supervisor.SupervisorNotStarted?
    ensures SupervisorNext(s, Good).Some?
  {
  }

  /** An outcome that lets the acceptor go on wherever it stands: a cancelled operation, or a plain success. */
  function StopOutcome(pc: AcceptorPc): AcceptorOutcome {
    if pc.ConnectWait? || pc.HandshakeWait? || pc.ReadWait? || pc.EchoWait? then Io(IoStopped, false) else Proceed
  }

  lemma AcceptorNeverBlocked(s: State)
    requires AcceptorDraining(s) && !s.acceptor.AcceptorDone? && !s.acceptor.AcceptorNotStarted?
    ensures AcceptorNext(s, StopOutcome(s.acceptor)).Some?
  {
  }

  // ----- Runs -----

  function SupervisorSteps(run: seq<Action>): nat {
    if run == [] then 0
    else SupervisorSteps(run[..|run| - 1]) + if run[|run| - 1].SupervisorAction? then 1 else 0
  }

  function AcceptorSteps(run: seq<Action>): nat {
    if run == [] then 0
    else AcceptorSteps(run[..|run| - 1]) + if run[|run| - 1].AcceptorAction? then 1 else 0
  }

  /** The stop event and the stop tokens are never taken back. */
  lemma StopPersists(s: State, a: Action)
    requires ThreadsInv(s) && Step(s, a).Some?
    ensures SupervisorDraining(s) ==> SupervisorDraining(Step(s, a).value)
    ensures AcceptorDraining(s) ==> AcceptorDraining(Step(s, a).value)
  {
    match a
    case MainAction(ok) =>
      MainShares(s.shared, s.main);
      TokensPersist(s.threads, s.main, ok);
    case HandlerActionOf(Receive(control, ok)) => HandlerEntryShares(s.shared, control, ok);
    case HandlerActionOf(Continue(ok)) => HandlerContinueShares(s.shared, s.handler, ok);
    case AcceptorAction(o) => AcceptorShares(s, o);
    case SupervisorAction(o) => SupervisorShares(s, o);
    case _ =>
  }

  lemma TokensPersist(threads: Threads, pc: MainPc, ok: bool)
    ensures threads.supervisorStopRequested ==> MainThreads(threads, pc, ok).supervisorStopRequested
    ensures threads.acceptorStopRequested ==> MainThreads(threads, pc, ok).acceptorStopRequested
  {
  }

  lemma {:induction false} SupervisorBudget(s: State, run: seq<Action>, t: State)
    requires SupervisorDraining(s) && ThreadsInv(s) && !s.supervisor.SupervisorNotStarted? && Leads(s, run, t)
    ensures SupervisorDraining(t) && ThreadsInv(t) && !t.supervisor.SupervisorNotStarted?
    ensures SupervisorSteps(run) + SupervisorRank(t.supervisor) <= SupervisorRank(s.supervisor)
  {
    if run != [] {
      var before := Execute(s, run[..|run| - 1]).value;
      var a := run[|run| - 1];
      SupervisorBudget(s, run[..|run| - 1], before);
      StepKeepsThreads(before, a);
      StopPersists(before, a);
      if a.SupervisorAction? {
        SupervisorRankFalls(before, a.supervisor);
        NeverUnstarts(before, Proceed, a.supervisor);
      }
    }
  }

  lemma {:induction false} AcceptorBudget(s: State, run: seq<Action>, t: State)
    requires AcceptorDraining(s) && ThreadsInv(s) && !s.acceptor.AcceptorNotStarted? && Leads(s, run, t)
    ensures AcceptorDraining(t) && ThreadsInv(t) && !t.acceptor.AcceptorNotStarted?
    ensures AcceptorSteps(run) + AcceptorRank(t.acceptor) <= AcceptorRank(s.acceptor)
  {
    if run != [] {
      var before := Execute(s, run[..|run| - 1]).value;
      var a := run[|run| - 1];
      AcceptorBudget(s, run[..|run| - 1], before);
      StepKeepsThreads(before, a);
      StopPersists(before, a);
      if a.AcceptorAction? {
        AcceptorRankFalls(before, a.acceptor);
        NeverUnstarts(before, a.acceptor, Good);
      }
    }
  }

  lemma SupervisorJoinDrains(s: State)
    requires Reachable(s) && s.main.JoinSupervisor?
    ensures SupervisorDraining(s) && ThreadsInv(s) && !s.supervisor.SupervisorNotStarted? && SupervisorRank(s.supervisor) <= 24
  {
    ThreadsHold(s);
  }

  lemma AcceptorJoinDrains(s: State)
    requires Reachable(s) && s.main.JoinAcceptor?
    ensures AcceptorDraining(s) && ThreadsInv(s) && !s.acceptor.AcceptorNotStarted? && AcceptorRank(s.acceptor) <= 11
  {
    ThreadsHold(s);
  }

  /**
    While service main joins the supervisor, in every run the supervisor takes at most 24 more steps, and as long
    as it has not ended it can take one: the join ends. It cannot be kept alive by agents, signals or clients.
   */
  lemma SupervisorJoinEnds(s: State, run: seq<Action>, t: State)
    requires Reachable(s) && s.main.JoinSupervisor? && Leads(s, run, t)
    ensures SupervisorSteps(run) <= 24
    ensures t.supervisor.SupervisorDone? || exists o :: SupervisorNext(t, o).Some?
  {
    SupervisorJoinDrains(s);
    SupervisorBudget(s, run, t);
    if !t.supervisor.SupervisorDone? {
      SupervisorNeverBlocked(t);
    }
  }

  /** The same for the acceptor, with at most 11 steps, even where its client keeps sending valid controls. */
  lemma AcceptorJoinEnds(s: State, run: seq<Action>, t: State)
    requires Reachable(s) && s.main.JoinAcceptor? && Leads(s, run, t)
    ensures AcceptorSteps(run) <= 11
    ensures t.acceptor.AcceptorDone? || exists o :: AcceptorNext(t, o).Some?
  {
    AcceptorJoinDrains(s);
    AcceptorBudget(s, run, t);
    if !t.acceptor.AcceptorDone? {
      AcceptorNeverBlocked(t);
    }
  }
}
