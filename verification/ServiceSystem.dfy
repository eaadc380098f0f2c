/**
  The enhanced-mode service as a transition system: one program counter per thread, the shared
  fields, a clock and a history of what happened (src/service/EnhancedModeServiceRuntime.cpp).

  An action names a thread and the outcome of the operating-system call at its program counter.
  `Step` gives the next state, or `None` where the thread is blocked or the outcome is impossible.
  A wait on several objects returns the lowest signalled one.
 */
module ServiceSystem {
  import opened Options
  import opened EnhancedModeProtocol
  import opened ServiceState

  // ----- Program counters -----

  /** Why service main shuts down: after PRESHUTDOWN, after a stop, or because one of its own calls failed. */
  datatype Branch = CommitBranch | StopBranch | FailBranch

  datatype MainPc =
    | SpawnAcceptor
    | SpawnSupervisor
    | SignalAgentNeeded
    | ReportRunning
    | AwaitShutdown
    | SignalFailure
    | RequestSupervisorStop(branch: Branch)
    | SignalSupervisorStop(branch: Branch)
    | JoinSupervisor(branch: Branch)
    | RequestAcceptorStop(branch: Branch)
    | SignalAcceptorStop(branch: Branch)
    | JoinAcceptor(branch: Branch)
    | ConsumeSkipToken
    | StartWorker
    | AwaitWorker(wakeAt: nat, heartbeatAvailable: bool)
    | ClaimHeartbeat
    | PublishHeartbeat(claimed: nat)
    | JoinWorker
    | LoadExitCode(branch: Branch)
    | PublishStopped(branch: Branch, exitCode: nat)
    | Finished(branch: Branch, exitCode: nat)

  datatype AcceptorPc =
    | AcceptorNotStarted
    | PrepareDescriptor
    | AcceptorTop
    | CreatePipe
    | ConnectStart(pipe: nat)
    | ConnectWait(pipe: nat)
    | ConnectDone(pipe: nat, io: IoResult)
    | Authenticate(pipe: nat)
    | HandshakeStart(pipe: nat)
    | HandshakeWait(pipe: nat)
    | Install(pipe: nat)
    | ReadStart(pipe: nat)
    | ReadWait(pipe: nat)
    | ApplyFrame(pipe: nat, frame: Frame, control: Control)
    | EchoStart(pipe: nat, frame: Frame)
    | EchoWait(pipe: nat, frame: Frame)
    | DiscardOwn(pipe: nat)
    | AfterDiscard
    | AcceptorFailing(error: nat)
    | AcceptorSignal
    | AcceptorDone

  datatype SupervisorPc =
    | SupervisorNotStarted
    | SupervisorTop
    | RetainFetch
    | RetainCheck(held: nat)
    | RetainDiscard(held: nat)
    | Decide
    | Park
    | Delay(wakeAt: nat)
    | Launch
    | Launching
    | ObserveTop(deadline: nat)
    | ObserveFetch(deadline: nat)
    | ObserveCheck(deadline: nat, held: nat)
    | ObserveDiscard(deadline: nat, held: nat)
    | ObserveDeadline(deadline: nat)
    | ObserveWait(deadline: nat)
    | ObserveSession(deadline: nat)
    | SupervisorFailing(error: nat)
    | SupervisorSignal
    | SupervisorDone

  datatype WorkerPc = WorkerNotStarted | WorkerRunning | ResultReady | WorkerExited

  datatype IoResult = Completed | Disconnected | IoStopped

  // ----- Locals, history and state -----

  /** The supervisor's two loop variables, and how many delays have elapsed since the last reset. */
  datatype Backoff = Backoff(retryDelay: nat, delayBeforeLaunch: bool, timeouts: nat)

  const FRESH: Backoff := Backoff(AGENT_RETRY_INITIAL, false, 0)

  /** What the current observation loop has done, and how the slot and the signals stood when it began. */
  datatype Observation = Observation(
    iterations: nat,
    connectedWakes: nat,
    neededWakes: nat,
    teardownsBefore: nat,
    signalsBefore: nat,
    pendingBefore: bool)

  /** A launch attempt, with the number of installs and signals so far and what was pending then. */
  datatype LaunchRecord = LaunchRecord(
    at: nat, timeouts: nat, installs: nat, signals: nat, needed: bool, connected: bool)

  datatype SignalCause = AtStart | OnSessionChange(eventType: nat)

  datatype PublishSource = FromStartup | FromStop | FromPreshutdown | FromInterrogate | FromHeartbeat | FromTermination

  datatype Publication = Publication(status: Status, source: PublishSource)

  datatype ReceivedFrame = ReceivedFrame(pipe: nat, frame: Frame)

  datatype AppliedControl = AppliedControl(pipe: nat, frame: Frame, control: Control, at: nat)

  datatype Echo = Echo(pipe: nat, frame: Frame)

  datatype SkipDecision = SkipDecision(skipped: bool, at: nat)

  /** The stop tokens of the two infrastructure threads, and whether their handles can be joined. */
  datatype Threads = Threads(
    acceptorStopRequested: bool, supervisorStopRequested: bool, acceptorJoinable: bool, supervisorJoinable: bool)

  /** Pipe instances are numbered in the order of their creation. */
  datatype PipeHistory = PipeHistory(nextPipe: nat, installs: seq<nat>, teardowns: seq<nat>)

  /** `received` holds every frame read in full, valid or not. */
  datatype ControlHistory = ControlHistory(
    authenticated: set<nat>, handshaken: set<nat>, received: seq<ReceivedFrame>, applied: seq<AppliedControl>, echoed: seq<Echo>)

  /**
    The records handed to the SCM. `terminatedAt` is the index of the STOPPED record, `reportedAt` that of
    the latest PRESHUTDOWN record and `acceptedAt` the same once the control is accepted; `claims` counts
    the calls of nextCheckpoint.
   */
  datatype ScmHistory = ScmHistory(
    published: seq<Publication>, running: bool, terminatedAt: Option<nat>, reportedAt: nat, acceptedAt: Option<nat>, claims: nat)

  /** `consumed` counts the agent-needed signals the supervisor has consumed. */
  datatype AgentHistory = AgentHistory(
    signals: seq<SignalCause>, consumed: nat, launches: seq<LaunchRecord>, launchesAfterStop: nat)

  datatype CommitHistory = CommitHistory(workerStarts: nat, decision: Option<SkipDecision>)

  datatype State = State(
    now: nat,
    shared: Shared,
    main: MainPc,
    handler: HandlerPc,
    acceptor: AcceptorPc,
    supervisor: SupervisorPc,
    worker: WorkerPc,
    threads: Threads,
    backoff: Backoff,
    observation: Observation,
    pipes: PipeHistory,
    controls: ControlHistory,
    scm: ScmHistory,
    agent: AgentHistory,
    commit: CommitHistory,
    failures: seq<nat>)

  const INIT: State :=
    State(0, INITIAL, SpawnAcceptor, Idle, AcceptorNotStarted, SupervisorNotStarted, WorkerNotStarted,
          Threads(false, false, false, false), FRESH, Observation(0, 0, 0, 0, 0, false),
          PipeHistory(0, [], []), ControlHistory({}, {}, [], [], []),
          ScmHistory([Publication(StatusOf(START_PENDING), FromStartup)], false, None, 0, None, 0),
          AgentHistory([], 0, [], 0), CommitHistory(0, None), [])

  // ----- Outcomes and actions -----

  datatype HandlerAction = Receive(control: ServiceControl, accepted: bool) | Continue(ok: bool)

  /** `delivered`: the client may get the bytes of a write that is not reported as completed or ends in an exception. */
  datatype AcceptorOutcome =
    | Proceed
    | Refuse
    | Io(result: IoResult, delivered: bool)
    | Received(frame: Frame)
    | Fail(error: nat, delivered: bool)

  datatype SupervisorOutcome = Good | Bad | ProcessExit | WaitError(error: nat)

  datatype Action =
    | MainAction(ok: bool)
    | HandlerActionOf(handler: HandlerAction)
    | AcceptorAction(acceptor: AcceptorOutcome)
    | SupervisorAction(supervisor: SupervisorOutcome)
    | WorkerAction
    | Tick(elapsed: nat)

  // ----- Service main -----

  function StopInfrastructure(threads: Threads, branch: Branch): MainPc {
    if threads.supervisorJoinable then RequestSupervisorStop(branch) else StopAcceptor(threads, branch)
  }

  function StopAcceptor(threads: Threads, branch: Branch): MainPc {
    if threads.acceptorJoinable then RequestAcceptorStop(branch) else AfterInfrastructure(branch)
  }

  function AfterInfrastructure(branch: Branch): MainPc {
    match branch
    case CommitBranch => ConsumeSkipToken
    case StopBranch => LoadExitCode(StopBranch)
    case FailBranch => PublishStopped(FailBranch, ERROR_GEN_FAILURE)
  }

  /** Where service main goes; `ok` is false where the operating-system call of this step fails, `None` means blocked. */
  function MainNext(s: State, ok: bool): Option<MainPc> {
    match s.main
    case SpawnAcceptor => Some(if ok then SpawnSupervisor else SignalFailure)
    case SpawnSupervisor => Some(if ok then SignalAgentNeeded else SignalFailure)
    case SignalAgentNeeded => Some(ReportRunning)
    case ReportRunning => Some(if ok then AwaitShutdown else SignalFailure)
    case AwaitShutdown =>
      if !ok then Some(SignalFailure)
      else if s.shared.stopEvent then Some(StopInfrastructure(s.threads, StopBranch))
      else if s.shared.preshutdownEvent then Some(StopInfrastructure(s.threads, CommitBranch))
      else None
    case SignalFailure => Some(StopInfrastructure(s.threads, FailBranch))
    case RequestSupervisorStop(branch) => Some(SignalSupervisorStop(branch))
    case SignalSupervisorStop(branch) => Some(JoinSupervisor(branch))
    case JoinSupervisor(branch) => if s.supervisor.SupervisorDone? then Some(StopAcceptor(s.threads, branch)) else None
    case RequestAcceptorStop(branch) => Some(SignalAcceptorStop(branch))
    case SignalAcceptorStop(branch) => Some(JoinAcceptor(branch))
    case JoinAcceptor(branch) => if s.acceptor.AcceptorDone? then Some(AfterInfrastructure(branch)) else None
    case ConsumeSkipToken => Some(if SkipTokenValid(s.shared, s.now) then LoadExitCode(CommitBranch) else StartWorker)
    case StartWorker => Some(if ok then AwaitWorker(s.now + HEARTBEAT_INTERVAL, true) else SignalFailure)
    case AwaitWorker(wakeAt, heartbeatAvailable) =>
      if s.worker.ResultReady? || s.worker.WorkerExited? then Some(JoinWorker)
      else if s.now < wakeAt then None
      else if heartbeatAvailable then Some(ClaimHeartbeat)
      else Some(AwaitWorker(s.now + HEARTBEAT_INTERVAL, false))
    case ClaimHeartbeat => Some(PublishHeartbeat(CheckpointClaimed(s.shared).checkpoint))
    case PublishHeartbeat(_) => Some(AwaitWorker(s.now + HEARTBEAT_INTERVAL, ok))
    case JoinWorker => if s.worker.WorkerExited? then Some(LoadExitCode(CommitBranch)) else None
    case LoadExitCode(branch) => Some(PublishStopped(branch, s.shared.stopExitCode))
    case PublishStopped(branch, exitCode) => Some(Finished(branch, exitCode))
    case Finished(_, _) => None
  }

  function MainShared(sh: Shared, pc: MainPc): Shared {
    if pc.SignalAgentNeeded? then sh.(agentNeeded := true)
    else if pc.ReportRunning? then Reported(sh, RUNNING)
    else if pc.SignalFailure? || pc.SignalSupervisorStop? || pc.SignalAcceptorStop? then StopSignalled(sh)
    else if pc.ConsumeSkipToken? then SkipTokenConsumed(sh)
    else if pc.ClaimHeartbeat? then CheckpointClaimed(sh)
    else if pc.PublishHeartbeat? then Reported(sh, StopPendingAt(pc.claimed))
    else if pc.PublishStopped? then StoppedReported(sh, pc.exitCode)
    else sh
  }

  function MainThreads(threads: Threads, pc: MainPc, ok: bool): Threads {
    if pc.SpawnAcceptor? then threads.(acceptorJoinable := ok)
    else if pc.SpawnSupervisor? then threads.(supervisorJoinable := ok)
    else if pc.RequestSupervisorStop? then threads.(supervisorStopRequested := true)
    else if pc.JoinSupervisor? then threads.(supervisorJoinable := false)
    else if pc.RequestAcceptorStop? then threads.(acceptorStopRequested := true)
    else if pc.JoinAcceptor? then threads.(acceptorJoinable := false)
    else threads
  }

  function Published(h: ScmHistory, status: Status, source: PublishSource): ScmHistory {
    h.(published := h.published + [Publication(status, source)])
  }

  /** `reportStopped` ignores what the SCM answers, so its record counts as handed over in any case. */
  function MainScm(h: ScmHistory, pc: MainPc, ok: bool): ScmHistory {
    if pc.ClaimHeartbeat? then h.(claims := h.claims + 1)
    else if pc.PublishStopped? then
      Published(h, StoppedStatus(pc.exitCode), FromTermination).(terminatedAt := Some(|h.published|))
    else if !ok then h
    else if pc.ReportRunning? then Published(h, StatusOf(RUNNING), FromStartup).(running := true)
    else if pc.PublishHeartbeat? then Published(h, StatusOf(StopPendingAt(pc.claimed)), FromHeartbeat)
    else h
  }

  function MainCommit(s: State, ok: bool): CommitHistory {
    if s.main.ConsumeSkipToken? then s.commit.(decision := Some(SkipDecision(SkipTokenValid(s.shared, s.now), s.now)))
    else if s.main.StartWorker? && ok then s.commit.(workerStarts := s.commit.workerStarts + 1)
    else s.commit
  }

  function MainStep(s: State, ok: bool): Option<State> {
    var next := MainNext(s, ok);
    if next.None? then None
    else
      Some(s.(main := next.value,
              shared := MainShared(s.shared, s.main),
              acceptor := if s.main.SpawnAcceptor? && ok then PrepareDescriptor else s.acceptor,
              supervisor := if s.main.SpawnSupervisor? && ok then SupervisorTop else s.supervisor,
              worker := if s.main.StartWorker? && ok then WorkerRunning else s.worker,
              threads := MainThreads(s.threads, s.main, ok),
              scm := MainScm(s.scm, s.main, ok),
              agent := if s.main.SignalAgentNeeded? then s.agent.(signals := s.agent.signals + [AtStart]) else s.agent,
              commit := MainCommit(s, ok)))
  }

  // ----- The control handler -----

  /** The SCM sends STOP and PRESHUTDOWN only once RUNNING is published, and nothing after STOPPED. */
  predicate MayReceive(s: State, control: ServiceControl) {
    s.scm.terminatedAt.None? && (s.scm.running || control.Interrogate?)
  }

  predicate Signals(control: ServiceControl) {
    control.SessionChange? && SessionChangeRequiresAgent(control.eventType)
  }

  /** The source of a record published by the handler step at `pc`. */
  function HandlerSource(pc: HandlerPc): PublishSource {
    if pc.StopReport? then FromStop else if pc.PreshutdownReport? then FromPreshutdown else FromInterrogate
  }

  function HandlerScm(h: ScmHistory, pc: HandlerPc, turn: HandlerTurn): ScmHistory {
    var after := if turn.published.Some? then Published(h, turn.published.value, HandlerSource(pc)) else h;
    if pc.PreshutdownClaim? then after.(claims := h.claims + 1)
    else if pc.PreshutdownReport? then after.(reportedAt := |h.published|)
    else if pc.PreshutdownSignal? && turn.pc.Idle? then after.(acceptedAt := Some(h.reportedAt))
    else after
  }

  /** Calls come one after the other from the dispatcher thread. */
  function HandlerStep(s: State, a: HandlerAction): Option<State> {
    match a
    case Receive(control, accepted) =>
      if !s.handler.Idle? || !MayReceive(s, control) then None
      else
        var turn := HandlerEntry(s.shared, control, accepted);
        Some(s.(shared := turn.shared, handler := turn.pc,
                scm := HandlerScm(s.scm, Idle, turn),
                agent := if Signals(control) then s.agent.(signals := s.agent.signals + [OnSessionChange(control.eventType)]) else s.agent))
    case Continue(ok) =>
      if s.handler.Idle? then None
      else
        var turn := HandlerContinue(s.shared, s.handler, ok);
        Some(s.(shared := turn.shared, handler := turn.pc, scm := HandlerScm(s.scm, s.handler, turn)))
  }

  // ----- The pipe acceptor -----

  /** A cancelled operation needs the stop event. */
  predicate IoPossible(s: State, o: AcceptorOutcome) {
    o.Io? && (o.result.IoStopped? ==> s.shared.stopEvent)
  }

  function FailOr(o: AcceptorOutcome): Option<AcceptorPc> {
    if o.Fail? then Some(AcceptorFailing(o.error)) else None
  }

  /**
    Where the acceptor goes. A pipe operation first looks at the stop event and then may complete, disconnect
    or, while the stop event is set, be cancelled; each half is one step. The two stop-token checks after a
    connection are adjacent and are one step here.
   */
  function AcceptorNext(s: State, o: AcceptorOutcome): Option<AcceptorPc> {
    match s.acceptor
    case AcceptorNotStarted => None
    case PrepareDescriptor => if o.Proceed? then Some(AcceptorTop) else FailOr(o)
    case AcceptorTop => Some(if s.threads.acceptorStopRequested then AcceptorDone else CreatePipe)
    case CreatePipe => if o.Proceed? then Some(ConnectStart(s.pipes.nextPipe)) else FailOr(o)
    case ConnectStart(pipe) => Some(if s.shared.stopEvent then ConnectDone(pipe, IoStopped) else ConnectWait(pipe))
    case ConnectWait(pipe) => if IoPossible(s, o) then Some(ConnectDone(pipe, o.result)) else FailOr(o)
    case ConnectDone(pipe, io) =>
      Some(if io.IoStopped? || s.threads.acceptorStopRequested then AcceptorDone
           else if io.Disconnected? then AcceptorTop
           else Authenticate(pipe))
    case Authenticate(pipe) =>
      if o.Proceed? then Some(HandshakeStart(pipe)) else if o.Refuse? then Some(AcceptorTop) else FailOr(o)
    case HandshakeStart(pipe) => Some(if s.shared.stopEvent then AcceptorDone else HandshakeWait(pipe))
    case HandshakeWait(pipe) =>
      if IoPossible(s, o) then
        Some(match o.result case Completed => Install(pipe) case Disconnected => AcceptorTop case IoStopped => AcceptorDone)
      else FailOr(o)
    case Install(pipe) => if o.Proceed? then Some(ReadStart(pipe)) else FailOr(o)
    case ReadStart(pipe) => Some(if s.shared.stopEvent then DiscardOwn(pipe) else ReadWait(pipe))
    case ReadWait(pipe) =>
      if o.Received? then
        var message := Decode(o.frame);
        Some(if message.Some? then ApplyFrame(pipe, o.frame, message.value.control) else DiscardOwn(pipe))
      else if IoPossible(s, o) && !o.result.Completed? then Some(DiscardOwn(pipe))
      else FailOr(o)
    case ApplyFrame(pipe, frame, _) => Some(EchoStart(pipe, frame))
    case EchoStart(pipe, frame) => Some(if s.shared.stopEvent then DiscardOwn(pipe) else EchoWait(pipe, frame))
    case EchoWait(pipe, frame) =>
      if IoPossible(s, o) then Some(if o.result.Completed? then ReadStart(pipe) else DiscardOwn(pipe)) else FailOr(o)
    case DiscardOwn(_) => Some(AfterDiscard)
    case AfterDiscard =>
      Some(if s.threads.acceptorStopRequested || s.shared.stopEvent then AcceptorDone else AcceptorTop)
    case AcceptorFailing(_) => Some(AcceptorSignal)
    case AcceptorSignal => Some(AcceptorDone)
    case AcceptorDone => None
  }

  function AcceptorShared(s: State, o: AcceptorOutcome): Shared {
    if s.acceptor.Install? && o.Proceed? then Installed(s.shared, s.acceptor.pipe)
    else if s.acceptor.ApplyFrame? then ControlApplied(s.shared, s.acceptor.control, s.now)
    else if s.acceptor.DiscardOwn? then Discarded(s.shared, s.acceptor.pipe)
    else if s.acceptor.AcceptorFailing? then FailureRecorded(s.shared, s.acceptor.error)
    else if s.acceptor.AcceptorSignal? then StopSignalled(s.shared)
    else s.shared
  }

  /** The pipe history once a thread that holds `pipe` has run `discardConnection`. */
  function DiscardedPipes(s: State, pipe: nat): PipeHistory {
    if s.shared.connection == Some(pipe) then s.pipes.(teardowns := s.pipes.teardowns + [pipe]) else s.pipes
  }

  function AcceptorPipes(s: State, o: AcceptorOutcome): PipeHistory {
    if s.acceptor.CreatePipe? && o.Proceed? then s.pipes.(nextPipe := s.pipes.nextPipe + 1)
    else if s.acceptor.Install? && o.Proceed? then s.pipes.(installs := s.pipes.installs + [s.acceptor.pipe])
    else if s.acceptor.DiscardOwn? then DiscardedPipes(s, s.acceptor.pipe)
    else s.pipes
  }

  /** The bytes of a write reach the client: it completed, or ended otherwise but not before they did. */
  predicate Delivers(o: AcceptorOutcome) {
    (o.Io? && o.result.Completed?) || ((o.Io? || o.Fail?) && o.delivered)
  }

  function AcceptorControls(s: State, o: AcceptorOutcome): ControlHistory {
    if s.acceptor.Authenticate? && o.Proceed? then
      s.controls.(authenticated := s.controls.authenticated + {s.acceptor.pipe})
    else if s.acceptor.HandshakeWait? && o.Io? && o.result.Completed? then
      s.controls.(handshaken := s.controls.handshaken + {s.acceptor.pipe})
    else if s.acceptor.ReadWait? && o.Received? then
      s.controls.(received := s.controls.received + [ReceivedFrame(s.acceptor.pipe, o.frame)])
    else if s.acceptor.ApplyFrame? then
      s.controls.(applied := s.controls.applied + [AppliedControl(s.acceptor.pipe, s.acceptor.frame, s.acceptor.control, s.now)])
    else if s.acceptor.EchoWait? && Delivers(o) then
      s.controls.(echoed := s.controls.echoed + [Echo(s.acceptor.pipe, s.acceptor.frame)])
    else s.controls
  }

  function AcceptorStep(s: State, o: AcceptorOutcome): Option<State> {
    var next := AcceptorNext(s, o);
    if next.None? then None
    else
      Some(s.(acceptor := next.value,
              shared := AcceptorShared(s, o),
              pipes := AcceptorPipes(s, o),
              controls := AcceptorControls(s, o),
              failures := if s.acceptor.AcceptorFailing? then s.failures + [s.acceptor.error] else s.failures))
  }

  // ----- The agent supervisor -----

  /** What a wait of the supervisor returns; the lowest signalled object wins. */
  datatype Wake = NoWake | WakeStop | WakeNeeded | WakeConnected | WakeProcess | WakeTimeout | WakeError(error: nat)

  function Wait(sh: Shared, onConnected: bool, exited: bool, timedOut: bool, o: SupervisorOutcome): Wake {
    if o.WaitError? then WakeError(o.error)
    else if sh.stopEvent then WakeStop
    else if sh.agentNeeded then WakeNeeded
    else if onConnected && sh.agentConnected then WakeConnected
    else if exited then WakeProcess
    else if timedOut then WakeTimeout
    else NoWake
  }

  function SupervisorWake(s: State, o: SupervisorOutcome): Wake {
    if s.supervisor.Park? then Wait(s.shared, false, false, false, o)
    else if s.supervisor.Delay? then Wait(s.shared, true, false, s.now >= s.supervisor.wakeAt, o)
    else if s.supervisor.ObserveWait? then Wait(s.shared, true, o.ProcessExit?, s.now >= s.supervisor.deadline, o)
    else NoWake
  }

  /** Where the supervisor goes; `Good` and `Bad` tell a health check, a launch or a session comparison apart. */
  function SupervisorNext(s: State, o: SupervisorOutcome): Option<SupervisorPc> {
    match s.supervisor
    case SupervisorNotStarted => None
    case SupervisorTop => Some(if s.threads.supervisorStopRequested then SupervisorDone else RetainFetch)
    case RetainFetch => Some(if s.shared.connection.None? then Decide else RetainCheck(s.shared.connection.value))
    case RetainCheck(held) => if o.Good? then Some(Park) else if o.Bad? then Some(RetainDiscard(held)) else None
    case RetainDiscard(_) => Some(Decide)
    case Decide => Some(if s.backoff.delayBeforeLaunch then Delay(s.now + s.backoff.retryDelay) else Launch)
    case Park =>
      (match SupervisorWake(s, o)
       case WakeError(error) => Some(SupervisorFailing(error))
       case WakeStop => Some(SupervisorDone)
       case WakeNeeded => Some(SupervisorTop)
       case _ => None)
    case Delay(_) =>
      (match SupervisorWake(s, o)
       case WakeError(error) => Some(SupervisorFailing(error))
       case WakeStop => Some(SupervisorDone)
       case WakeNeeded => Some(SupervisorTop)
       case WakeConnected => Some(SupervisorTop)
       case WakeTimeout => Some(Launch)
       case _ => None)
    case Launch => Some(Launching)
    case Launching =>
      if o.Good? then Some(ObserveTop(s.now + AGENT_STARTUP_GRACE)) else if o.Bad? then Some(SupervisorTop) else None
    case ObserveTop(deadline) =>
      Some(if s.shared.connection.None? then ObserveDeadline(deadline) else ObserveFetch(deadline))
    case ObserveFetch(deadline) =>
      Some(if s.shared.connection.None? then ObserveDeadline(deadline) else ObserveCheck(deadline, s.shared.connection.value))
    case ObserveCheck(deadline, held) =>
      if o.Good? then Some(SupervisorTop) else if o.Bad? then Some(ObserveDiscard(deadline, held)) else None
    case ObserveDiscard(deadline, _) => Some(ObserveDeadline(deadline))
    case ObserveDeadline(deadline) => Some(if s.now >= deadline then SupervisorTop else ObserveWait(deadline))
    case ObserveWait(deadline) =>
      (match SupervisorWake(s, o)
       case NoWake => None
       case WakeStop => Some(SupervisorDone)
       case WakeNeeded => Some(ObserveSession(deadline))
       case WakeConnected => Some(ObserveTop(deadline))
       case _ => Some(SupervisorTop))
    case ObserveSession(deadline) =>
      if o.Good? then Some(SupervisorTop) else if o.Bad? then Some(ObserveTop(deadline)) else None
    case SupervisorFailing(_) => Some(SupervisorSignal)
    case SupervisorSignal => Some(SupervisorDone)
    case SupervisorDone => None
  }

  /** A launch attempt failed, or its observation ended without a connection or a session change. */
  predicate LaunchLost(s: State, o: SupervisorOutcome) {
    || (s.supervisor.Launching? && o.Bad?)
    || (s.supervisor.ObserveDeadline? && s.now >= s.supervisor.deadline)
    || (s.supervisor.ObserveWait? && var wake := SupervisorWake(s, o); wake.WakeProcess? || wake.WakeTimeout? || wake.WakeError?)
  }

  /** A healthy connection, an observed connection or a session change resets the backoff. */
  predicate BackoffReset(pc: SupervisorPc, o: SupervisorOutcome) {
    o.Good? && (pc.RetainCheck? || pc.ObserveCheck? || pc.ObserveSession?)
  }

  function Min(a: nat, b: nat): nat {
    if a <= b then a else b
  }

  function SupervisorBackoff(s: State, o: SupervisorOutcome): Backoff {
    var wake := SupervisorWake(s, o);
    if BackoffReset(s.supervisor, o) then FRESH
    else if LaunchLost(s, o) then s.backoff.(delayBeforeLaunch := true)
    else if s.supervisor.Delay? && (wake.WakeNeeded? || wake.WakeConnected?) then s.backoff.(delayBeforeLaunch := false)
    else if s.supervisor.Delay? && wake.WakeTimeout? then
      s.backoff.(retryDelay := Min(s.backoff.retryDelay * 2, AGENT_RETRY_MAXIMUM), timeouts := s.backoff.timeouts + 1)
    else s.backoff
  }

  function SupervisorObservation(s: State, o: SupervisorOutcome): Observation {
    var wake := SupervisorWake(s, o);
    if s.supervisor.Launching? && o.Good? then
      Observation(1, 0, 0, |s.pipes.teardowns|, |s.agent.signals|, s.shared.agentNeeded)
    else if s.supervisor.ObserveWait? && wake.WakeNeeded? then
      s.observation.(neededWakes := s.observation.neededWakes + 1)
    else if s.supervisor.ObserveWait? && wake.WakeConnected? then
      s.observation.(iterations := s.observation.iterations + 1, connectedWakes := s.observation.connectedWakes + 1)
    else if s.supervisor.ObserveSession? && o.Bad? then
      s.observation.(iterations := s.observation.iterations + 1)
    else s.observation
  }

  function SupervisorShared(s: State, o: SupervisorOutcome): Shared {
    if s.supervisor.RetainDiscard? || s.supervisor.ObserveDiscard? then Discarded(s.shared, s.supervisor.held)
    else if s.supervisor.SupervisorFailing? then FailureRecorded(s.shared, s.supervisor.error)
    else if s.supervisor.SupervisorSignal? then StopSignalled(s.shared)
    else if SupervisorWake(s, o).WakeNeeded? then s.shared.(agentNeeded := false)
    else s.shared
  }

  function SupervisorPipes(s: State): PipeHistory {
    if s.supervisor.RetainDiscard? || s.supervisor.ObserveDiscard? then DiscardedPipes(s, s.supervisor.held) else s.pipes
  }

  function LaunchNow(s: State): LaunchRecord {
    LaunchRecord(s.now, s.backoff.timeouts, |s.pipes.installs|, |s.agent.signals|, s.shared.agentNeeded, s.shared.connection.Some?)
  }

  function SupervisorAgent(s: State, o: SupervisorOutcome): AgentHistory {
    if s.supervisor.Launch? then
      s.agent.(launches := s.agent.launches + [LaunchNow(s)],
               launchesAfterStop := s.agent.launchesAfterStop + if s.threads.supervisorStopRequested then 1 else 0)
    else if SupervisorWake(s, o).WakeNeeded? then s.agent.(consumed := s.agent.consumed + 1)
    else s.agent
  }

  function SupervisorStep(s: State, o: SupervisorOutcome): Option<State> {
    var next := SupervisorNext(s, o);
    if next.None? then None
    else
      Some(s.(supervisor := next.value,
              shared := SupervisorShared(s, o),
              backoff := SupervisorBackoff(s, o),
              observation := SupervisorObservation(s, o),
              pipes := SupervisorPipes(s),
              agent := SupervisorAgent(s, o),
              failures := if s.supervisor.SupervisorFailing? then s.failures + [s.supervisor.error] else s.failures))
  }

  // ----- The commit worker and the whole system -----

  /** The worker commits for an arbitrary time, fulfils its promise with a result or an exception, and exits. */
  function WorkerStep(s: State): Option<State> {
    match s.worker
    case WorkerRunning => Some(s.(worker := ResultReady))
    case ResultReady => Some(s.(worker := WorkerExited))
    case _ => None
  }

  function Step(s: State, a: Action): Option<State> {
    match a
    case MainAction(ok) => MainStep(s, ok)
    case HandlerActionOf(handler) => HandlerStep(s, handler)
    case AcceptorAction(outcome) => AcceptorStep(s, outcome)
    case SupervisorAction(outcome) => SupervisorStep(s, outcome)
    case WorkerAction => WorkerStep(s)
    case Tick(elapsed) => Some(s.(now := s.now + elapsed))
  }

  /** The state after the actions `run` from `s`, or `None` if one of them cannot happen. */
  function Execute(s: State, run: seq<Action>): Option<State> {
    if run == [] then Some(s)
    else
      var before := Execute(s, run[..|run| - 1]);
      if before.None? then None else Step(before.value, run[|run| - 1])
  }

  ghost predicate Leads(s: State, run: seq<Action>, t: State) {
    Execute(s, run) == Some(t)
  }

  ghost predicate Reachable(t: State) {
    exists run :: Leads(INIT, run, t)
  }

  lemma {:induction false} ExecuteAppend(s: State, first: seq<Action>, second: seq<Action>)
    requires Execute(s, first).Some?
    ensures Execute(s, first + second) == Execute(Execute(s, first).value, second)
  {
    if second == [] {
      assert first + second == first;
    } else {
      var last := |second| - 1;
      assert (first + second)[..|first + second| - 1] == first + second[..last];
      ExecuteAppend(s, first, second[..last]);
    }
  }

  /** Induction over runs: what every step keeps holds at the end of every run. */
  lemma {:induction false} RunKeeps(inv: State -> bool, s: State, run: seq<Action>, t: State)
    requires inv(s) && Leads(s, run, t)
    requires forall u, a :: inv(u) && Step(u, a).Some? ==> inv(Step(u, a).value)
    ensures inv(t)
  {
    if run != [] {
      var before := Execute(s, run[..|run| - 1]).value;
      RunKeeps(inv, s, run[..|run| - 1], before);
      assert Step(before, run[|run| - 1]) == Some(t);
    }
  }

  lemma ReachableStep(s: State, a: Action)
    requires Reachable(s) && Step(s, a).Some?
    ensures Reachable(Step(s, a).value)
  {
    var run :| Leads(INIT, run, s);
    var longer := run + [a];
    assert longer[..|longer| - 1] == run;
    assert Leads(INIT, longer, Step(s, a).value);
  }

  lemma ReachedBy(s: State, a: Action) returns (t: State)
    requires Reachable(s) && Step(s, a).Some?
    ensures Reachable(t) && Step(s, a) == Some(t)
  {
    ReachableStep(s, a);
    t := Step(s, a).value;
  }

  /** What a run leads to from a reachable state is reachable. */
  lemma ReachableOn(s: State, run: seq<Action>, t: State)
    requires Reachable(s) && Leads(s, run, t)
    ensures Reachable(t)
  {
    var before :| Leads(INIT, before, s);
    ExecuteAppend(INIT, before, run);
    assert Leads(INIT, before + run, t);
  }

  /** A run with one more action in front. */
  lemma LeadsCons(s: State, a: Action, u: State, rest: seq<Action>, t: State)
    requires Step(s, a) == Some(u) && Leads(u, rest, t)
    ensures Leads(s, [a] + rest, t)
  {
    assert [a][..0] == [];
    assert Execute(s, [a]) == Some(u);
    ExecuteAppend(s, [a], rest);
  }

  lemma {:induction false} ExecutePrefix(s: State, first: seq<Action>, second: seq<Action>)
    requires Execute(s, first + second).Some?
    ensures Execute(s, first).Some?
  {
    if second == [] {
      assert first + second == first;
    } else {
      var last := |second| - 1;
      assert (first + second)[..|first + second| - 1] == first + second[..last];
      ExecutePrefix(s, first, second[..last]);
    }
  }

  /** The first action of a run, and the rest of it. */
  lemma LeadsFirst(s: State, run: seq<Action>, t: State) returns (u: State)
    requires Leads(s, run, t) && run != []
    ensures Step(s, run[0]) == Some(u) && Leads(u, run[1..], t)
  {
    assert run == [run[0]] + run[1..] && [run[0]][..0] == [];
    ExecutePrefix(s, [run[0]], run[1..]);
    assert Execute(s, [run[0]]) == Step(s, run[0]);
    ExecuteAppend(s, [run[0]], run[1..]);
    u := Step(s, run[0]).value;
  }

  lemma InitReachable()
    ensures Reachable(INIT)
  {
    assert Leads(INIT, [], INIT);
  }

  /** What holds at the start and is kept by every step from a reachable state holds in every reachable state. */
  lemma ReachableKeeps(inv: State -> bool, t: State)
    requires Reachable(t) && inv(INIT)
    requires forall u, a :: Reachable(u) && inv(u) && Step(u, a).Some? ==> inv(Step(u, a).value)
    ensures inv(t)
  {
    InitReachable();
    var run :| Leads(INIT, run, t);
    var both := u => Reachable(u) && inv(u);
    forall u, a | both(u) && Step(u, a).Some?
      ensures both(Step(u, a).value)
    {
      ReachableStep(u, a);
    }
    RunKeeps(both, INIT, run, t);
  }
}
