/**
  The shared fields of the enhanced-mode service runtime and the effect of each of its atomic
  blocks on them (src/service/EnhancedModeServiceRuntime.cpp). A block guarded by one mutex, one
  atomic operation and one event call are each a single function here. The class in
  ServiceRuntime.dfy performs them in place; the transition system in ServiceSystem.dfy interleaves them.
 */
module ServiceState {
  import opened Options
  import opened EnhancedModeProtocol

  const NO_ERROR: nat := 0
  const ERROR_GEN_FAILURE: nat := 31
  const ERROR_CALL_NOT_IMPLEMENTED: nat := 120
  const ERROR_EXCEPTION_IN_SERVICE: nat := 1064

  const WTS_CONSOLE_CONNECT: nat := 1
  const WTS_REMOTE_CONNECT: nat := 3
  const WTS_SESSION_LOGON: nat := 5

  const SERVICE_ACCEPT_STOP: nat := 0x1
  const SERVICE_ACCEPT_SESSIONCHANGE: nat := 0x80
  const SERVICE_ACCEPT_PRESHUTDOWN: nat := 0x100
  const RUNNING_CONTROLS: nat := SERVICE_ACCEPT_STOP + SERVICE_ACCEPT_PRESHUTDOWN + SERVICE_ACCEPT_SESSIONCHANGE

  // All durations are in milliseconds.
  const SERVICE_WAIT_HINT: nat := 60_000
  const HEARTBEAT_INTERVAL: nat := 15_000
  const AGENT_STARTUP_GRACE: nat := 30_000
  const AGENT_RETRY_INITIAL: nat := 5_000
  const AGENT_RETRY_MAXIMUM: nat := 60_000
  const PRESHUTDOWN_SKIP_LIFETIME: nat := 300_000

  /** One more than the largest value of the 32-bit checkpoint counter. */
  const DWORD_LIMIT: nat := 0x1_0000_0000

  datatype RunState = StartPending | Running | StopPending | Stopped

  datatype Status = Status(state: RunState, controls: nat, exitCode: nat, checkpoint: nat, waitHint: nat)

  datatype StatusUpdate = StatusUpdate(state: RunState, controls: nat, checkpoint: nat, waitHint: nat)

  datatype ServiceControl =
    | StopControl
    | PreshutdownControl
    | SessionChange(eventType: nat)
    | Interrogate
    | OtherControl

  /**
    `checkpoint` is the 32-bit atomic, `connection` names the installed pipe instance and
    `skipDeadline` is the time point up to which the one-shot skip token is valid.
   */
  datatype Shared = Shared(
    stopEvent: bool,
    preshutdownEvent: bool,
    agentNeeded: bool,
    agentConnected: bool,
    connection: Option<nat>,
    skipDeadline: Option<nat>,
    status: Status,
    checkpoint: nat,
    preshutdownStarted: bool,
    stopExitCode: nat)

  const START_PENDING: StatusUpdate := StatusUpdate(StartPending, 0, 1, SERVICE_WAIT_HINT)
  const RUNNING: StatusUpdate := StatusUpdate(Running, RUNNING_CONTROLS, 0, 0)

  function StopPendingAt(checkpoint: nat): StatusUpdate {
    StatusUpdate(StopPending, 0, checkpoint, SERVICE_WAIT_HINT)
  }

  function StatusOf(update: StatusUpdate): Status {
    Status(update.state, update.controls, NO_ERROR, update.checkpoint, update.waitHint)
  }

  function StoppedStatus(exitCode: nat): Status {
    Status(Stopped, 0, exitCode, 0, 0)
  }

  /** The events exist and START_PENDING has been published; no thread runs yet. */
  const INITIAL: Shared :=
    Shared(false, false, false, false, None, None, StatusOf(START_PENDING), 1, false, NO_ERROR)

  predicate SessionChangeRequiresAgent(eventType: nat) {
    eventType == WTS_SESSION_LOGON || eventType == WTS_CONSOLE_CONNECT || eventType == WTS_REMOTE_CONNECT
  }

  /** `report` stores the record before it hands it to the SCM, so a refused record stays stored. */
  function Reported(sh: Shared, update: StatusUpdate): Shared {
    sh.(status := StatusOf(update))
  }

  function StoppedReported(sh: Shared, exitCode: nat): Shared {
    sh.(status := StoppedStatus(exitCode))
  }

  function CheckpointClaimed(sh: Shared): Shared {
    sh.(checkpoint := (sh.checkpoint + 1) % DWORD_LIMIT)
  }

  /** The code that an error leaves behind: a zero code becomes the general failure. */
  function FailureCode(error: nat): nat {
    if error == NO_ERROR then ERROR_GEN_FAILURE else error
  }

  /** The compare-exchange of `stopForInfrastructureFailure`: only the first failure is kept. */
  function FailureRecorded(sh: Shared, error: nat): Shared {
    if sh.stopExitCode == NO_ERROR then sh.(stopExitCode := FailureCode(error)) else sh
  }

  function StopSignalled(sh: Shared): Shared {
    sh.(stopEvent := true)
  }

  function Installed(sh: Shared, pipe: nat): Shared {
    sh.(connection := Some(pipe), agentConnected := true)
  }

  function Discarded(sh: Shared, pipe: nat): Shared {
    if sh.connection == Some(pipe) then sh.(connection := None, agentConnected := false) else sh
  }

  function ControlApplied(sh: Shared, control: Control, now: nat): Shared {
    match control
    case PreshutdownCommitHandled => sh.(skipDeadline := Some(now + PRESHUTDOWN_SKIP_LIFETIME))
    case PreshutdownCommitRequired => sh.(skipDeadline := None)
  }

  predicate SkipTokenValid(sh: Shared, now: nat) {
    sh.skipDeadline.Some? && now <= sh.skipDeadline.value
  }

  function SkipTokenConsumed(sh: Shared): Shared {
    sh.(skipDeadline := None)
  }

  // ----- The control handler -----

  /** Where a control handler call stands between two of its atomic steps. */
  datatype HandlerPc =
    | Idle
    | StopReport
    | StopSignal
    | PreshutdownClaim
    | PreshutdownReport(claimed: nat)
    | PreshutdownSignal
    | PreshutdownRollback

  /** The shared fields after one handler step, where the call stands then, and the record it handed to the SCM. */
  datatype HandlerTurn = HandlerTurn(shared: Shared, pc: HandlerPc, published: Option<Status>)

  /** The first atomic step of a call; `ok` tells whether the SCM takes a republished record. */
  function HandlerEntry(sh: Shared, control: ServiceControl, ok: bool): HandlerTurn {
    match control
    case StopControl => HandlerTurn(sh, if sh.preshutdownStarted then Idle else StopReport, None)
    case PreshutdownControl =>
      if sh.preshutdownStarted then HandlerTurn(sh, Idle, None)
      else HandlerTurn(sh.(preshutdownStarted := true), PreshutdownClaim, None)
    case SessionChange(eventType) =>
      HandlerTurn(if SessionChangeRequiresAgent(eventType) then sh.(agentNeeded := true) else sh, Idle, None)
    case Interrogate => HandlerTurn(sh, Idle, if ok then Some(sh.status) else None)
    case OtherControl => HandlerTurn(sh, Idle, None)
  }

  /** Every later atomic step; `ok` tells whether its SCM or event call succeeds. */
  function HandlerContinue(sh: Shared, pc: HandlerPc, ok: bool): HandlerTurn
    requires !pc.Idle?
  {
    match pc
    case StopReport =>
      var after := Reported(sh, StopPendingAt(1));
      if ok then HandlerTurn(after, StopSignal, Some(after.status)) else HandlerTurn(after, Idle, None)
    case StopSignal => HandlerTurn(StopSignalled(sh), Idle, None)
    case PreshutdownClaim =>
      var after := CheckpointClaimed(sh);
      HandlerTurn(after, PreshutdownReport(after.checkpoint), None)
    case PreshutdownReport(claimed) =>
      var after := Reported(sh, StopPendingAt(claimed));
      if ok then HandlerTurn(after, PreshutdownSignal, Some(after.status))
      else HandlerTurn(after, PreshutdownRollback, None)
    case PreshutdownSignal =>
      if ok then HandlerTurn(sh.(preshutdownEvent := true), Idle, None)
      else HandlerTurn(sh, PreshutdownRollback, None)
    case PreshutdownRollback => HandlerTurn(sh.(preshutdownStarted := false), Idle, None)
  }
}
