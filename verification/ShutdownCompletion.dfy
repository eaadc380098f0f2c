/**
  The whole shutdown ends: once service main has left its wait, every thread has a bounded amount of work left, and
  until STOPPED is published some thread can do a piece of it.
 */
module ShutdownCompletion {
  import opened ServiceSystem
  import opened ServiceThreads
  import opened CommitPath
  import opened ShutdownDrain

  /** Service main has left its wait, or failed before it. */
  predicate ShuttingDown(s: State) {
    !Starting(s.main)
  }

  predicate InHeartbeatLoop(pc: MainPc) {
    pc.AwaitWorker? || pc.ClaimHeartbeat? || pc.PublishHeartbeat?
  }

  predicate WorkerEnded(worker: WorkerPc) {
    worker.ResultReady? || worker.WorkerExited?
  }

  // ----- What is left to do -----

  function WorkerWork(worker: WorkerPc): nat {
    if worker.WorkerExited? then 0 else if worker.ResultReady? then 1 else 2
  }

  /** The heartbeat loop, which runs down only once the worker has ended. */
  function LoopWork(pc: MainPc, worker: WorkerPc): nat {
    if !WorkerEnded(worker) then 7 else if pc.ClaimHeartbeat? then 6 else if pc.PublishHeartbeat? then 5 else 4
  }

  /** The steps left of service main and of the thread that it joins. */
  function MainWork(pc: MainPc, threads: Threads, supervisor: SupervisorPc, acceptor: AcceptorPc, worker: WorkerPc): nat {
    if pc.Finished? then 0
    else if pc.PublishStopped? then 1
    else if pc.LoadExitCode? then 2
    else if pc.JoinWorker? then 3
    else if InHeartbeatLoop(pc) then LoopWork(pc, worker)
    else if pc.StartWorker? then 8
    else if pc.ConsumeSkipToken? then 9
    else if pc.JoinAcceptor? then 10 + AcceptorRank(acceptor)
    else if pc.SignalAcceptorStop? then 22
    else if pc.RequestAcceptorStop? then 23
    else if pc.JoinSupervisor? then 24 + SupervisorRank(supervisor)
    else if pc.SignalSupervisorStop? then 49
    else if pc.RequestSupervisorStop? then 50
    else if threads.supervisorJoinable then 51
    else if threads.acceptorJoinable then 24
    else 2
  }

  function Remaining(s: State): nat {
    MainWork(s.main, s.threads, s.supervisor, s.acceptor, s.worker) + if Closing(s.main) then 0 else WorkerWork(s.worker)
  }

  /**
    A step that works off the shutdown: one of service main, unless it only waits for the worker and reports
    heartbeats; one of the thread that service main joins; one of the worker.
   */
  predicate WorksOff(s: State, a: Action) {
    match a
    case MainAction(_) => !(InHeartbeatLoop(s.main) && !WorkerEnded(s.worker))
    case SupervisorAction(_) => s.main.JoinSupervisor?
    case AcceptorAction(_) => s.main.JoinAcceptor?
    case WorkerAction => true
    case HandlerActionOf(_) => false
    case Tick(_) => false
  }

  function Weight(s: State, a: Action): nat {
    if WorksOff(s, a) then 1 else 0
  }

  // ----- Every step -----

  /** Leaving the joins: what follows is less than what the join counted. */
  lemma MainWorksOff(s: State, ok: bool)
    requires ShuttingDown(s) && ThreadsInv(s) && CommitInv(s) && MainNext(s, ok).Some?
    ensures var pc, worker := MainNext(s, ok).value, if s.main.StartWorker? && ok then WorkerRunning else s.worker;
            MainWork(pc, MainThreads(s.threads, s.main, ok), s.supervisor, s.acceptor, worker) + Weight(s, MainAction(ok))
            <= MainWork(s.main, s.threads, s.supervisor, s.acceptor, s.worker)
  {
    RanksAreBounded(s);
  }

  lemma RanksAreBounded(s: State)
    ensures SupervisorRank(s.supervisor) <= 24 && AcceptorRank(s.acceptor) <= 11
  {
  }

  /** Service main does not fall back into its wait, nor out of closing. */
  lemma MainStaysDown(s: State, ok: bool)
    requires ShuttingDown(s) && MainNext(s, ok).Some?
    ensures !Starting(MainNext(s, ok).value)
    ensures Closing(s.main) ==> Closing(MainNext(s, ok).value)
  {
  }

  lemma MainStepWorksOff(s: State, ok: bool)
    requires ShuttingDown(s) && ThreadsInv(s) && CommitInv(s) && MainStep(s, ok).Some?
    ensures ShuttingDown(MainStep(s, ok).value)
    ensures Remaining(MainStep(s, ok).value) + Weight(s, MainAction(ok)) <= Remaining(s)
  {
    MainWorksOff(s, ok);
    MainStaysDown(s, ok);
    WorkerStartsFresh(s);
  }

  lemma WorkerStartsFresh(s: State)
    requires CommitInv(s)
    ensures s.main.StartWorker? ==> s.worker.WorkerNotStarted?
  {
  }

  /** The worker never steps once service main closes. */
  lemma WorkerWorksOff(s: State)
    requires CommitInv(s) && WorkerStep(s).Some?
    ensures !Closing(s.main) && Remaining(WorkerStep(s).value) + 1 <= Remaining(s)
  {
    WorkerPosition(s);
  }

  lemma JoinedThreadWorksOff(s: State, a: Action)
    requires ThreadsInv(s) && Step(s, a).Some? && (a.SupervisorAction? || a.AcceptorAction?)
    ensures Step(s, a).value.main == s.main && Remaining(Step(s, a).value) + Weight(s, a) <= Remaining(s)
  {
    if a.SupervisorAction? && s.main.JoinSupervisor? {
      SupervisorRankFalls(s, a.supervisor);
    }
    if a.AcceptorAction? && s.main.JoinAcceptor? {
      AcceptorRankFalls(s, a.acceptor);
    }
  }

  lemma OthersLeaveWork(s: State, a: Action)
    requires Step(s, a).Some? && (a.HandlerActionOf? || a.Tick?)
    ensures Step(s, a).value.main == s.main && Remaining(Step(s, a).value) == Remaining(s)
  {
  }

  lemma StepWorksOff(s: State, a: Action)
    requires ShuttingDown(s) && ThreadsInv(s) && CommitInv(s) && Step(s, a).Some?
    ensures ShuttingDown(Step(s, a).value)
    ensures Remaining(Step(s, a).value) + Weight(s, a) <= Remaining(s)
  {
    if a.MainAction? {
      MainStepWorksOff(s, a.ok);
    } else if a.WorkerAction? {
      WorkerWorksOff(s);
    } else if a.SupervisorAction? || a.AcceptorAction? {
      JoinedThreadWorksOff(s, a);
    } else {
      OthersLeaveWork(s, a);
    }
  }

  // ----- Every run -----

  /** How many steps of a run work off the shutdown. */
  function WorkIn(s: State, run: seq<Action>): nat {
    if run == [] then 0
    else
      var before := Execute(s, run[..|run| - 1]);
      WorkIn(s, run[..|run| - 1]) + if before.Some? then Weight(before.value, run[|run| - 1]) else 0
  }

  lemma {:induction false} WorkIsSpent(s: State, run: seq<Action>, t: State)
    requires Reachable(s) && ShuttingDown(s) && Leads(s, run, t)
    ensures Reachable(t) && ShuttingDown(t)
    ensures WorkIn(s, run) + Remaining(t) <= Remaining(s)
  {
    if run != [] {
      var before := Execute(s, run[..|run| - 1]).value;
      var a := run[|run| - 1];
      WorkIsSpent(s, run[..|run| - 1], before);
      ThreadsHold(before);
      CommitHolds(before);
      StepWorksOff(before, a);
      ReachableStep(before, a);
    }
  }

  lemma RemainingIsBounded(s: State)
    ensures Remaining(s) <= 53
    ensures Remaining(s) == 0 <==> s.main.Finished?
  {
    RanksAreBounded(s);
  }

  /**
    From the step at which service main leaves its wait, every run contains at most 53 steps that work off the shutdown,
    whatever controls, agents, clients and heartbeats interleave and whatever fails; once that work is spent, STOPPED has
    been published.
   */
  lemma ShutdownIsBounded(s: State, run: seq<Action>, t: State)
    requires Reachable(s) && ShuttingDown(s) && Leads(s, run, t)
    ensures WorkIn(s, run) <= Remaining(s) <= 53
    ensures WorkIn(s, run) == Remaining(s) ==> t.main.Finished?
  {
    WorkIsSpent(s, run, t);
    RemainingIsBounded(s);
    RemainingIsBounded(t);
  }

  // ----- No deadlock -----

  /** What can be done next for the shutdown. */
  function NextWork(s: State): Action {
    if s.main.JoinSupervisor? && !s.supervisor.SupervisorDone? then SupervisorAction(Good)
    else if s.main.JoinAcceptor? && !s.acceptor.AcceptorDone? then AcceptorAction(StopOutcome(s.acceptor))
    else if (InHeartbeatLoop(s.main) && !WorkerEnded(s.worker)) || (s.main.JoinWorker? && !s.worker.WorkerExited?) then WorkerAction
    else MainAction(true)
  }

  lemma JoinedThreadCanStep(s: State)
    requires ThreadsInv(s)
    ensures s.main.JoinSupervisor? && !s.supervisor.SupervisorDone? ==> SupervisorNext(s, Good).Some?
    ensures s.main.JoinAcceptor? && !s.acceptor.AcceptorDone? ==> AcceptorNext(s, StopOutcome(s.acceptor)).Some?
  {
    if s.main.JoinSupervisor? && !s.supervisor.SupervisorDone? {
      SupervisorNeverBlocked(s);
    }
    if s.main.JoinAcceptor? && !s.acceptor.AcceptorDone? {
      AcceptorNeverBlocked(s);
    }
  }

  lemma WorkerCanStep(s: State)
    requires CommitInv(s)
    ensures InHeartbeatLoop(s.main) && !WorkerEnded(s.worker) ==> s.worker.WorkerRunning?
    ensures s.main.JoinWorker? && !s.worker.WorkerExited? ==> s.worker.ResultReady?
  {
  }

  lemma MainCanStep(s: State)
    requires ShuttingDown(s) && !s.main.Finished? && NextWork(s) == MainAction(true)
    ensures MainNext(s, true).Some? && WorksOff(s, MainAction(true))
  {
  }

  /**
    In every reachable state from there to STOPPED some step that works off the shutdown is possible: no thread waits
    for another that waits for it.
   */
  lemma ShutdownNeverStuck(t: State)
    requires Reachable(t) && ShuttingDown(t) && !t.main.Finished?
    ensures Step(t, NextWork(t)).Some? && WorksOff(t, NextWork(t))
  {
    ThreadsHold(t);
    CommitHolds(t);
    JoinedThreadCanStep(t);
    WorkerCanStep(t);
    if NextWork(t) == MainAction(true) {
      MainCanStep(t);
    }
  }

  /** So from every such state a run of at most 53 steps publishes STOPPED. */
  lemma {:induction false} ShutdownCanFinish(s: State) returns (run: seq<Action>, t: State)
    requires Reachable(s) && ShuttingDown(s)
    ensures Leads(s, run, t) && t.main.Finished? && |run| <= Remaining(s)
    decreases Remaining(s)
  {
    if s.main.Finished? {
      run, t := [], s;
    } else {
      var a := NextWork(s);
      ShutdownNeverStuck(s);
      ThreadsHold(s);
      CommitHolds(s);
      StepWorksOff(s, a);
      var u := ReachedBy(s, a);
      var rest;
      rest, t := ShutdownCanFinish(u);
      run := [a] + rest;
      LeadsCons(s, a, u, rest, t);
    }
  }
}
