/** When the supervisor may launch an agent: never while parked, and at most once more after its stop is requested. */
module LaunchSafety {
  import opened ServiceState
  import opened ServiceSystem
  import opened ServiceFrames
  import opened ServiceThreads

  // ----- Parked -----

  /** What a run makes of a supervisor that is parked with `launches` attempts and `consumed` signals so far. */
  predicate StaysParked(s: State, launches: nat, consumed: nat) {
    || s.agent.consumed > consumed
    || (|s.agent.launches| == launches && (s.supervisor.Park? || s.supervisor.SupervisorFailing? || s.supervisor.SupervisorSignal? || s.supervisor.SupervisorDone?))
  }

  lemma SupervisorStaysParked(s: State, o: SupervisorOutcome, launches: nat, consumed: nat)
    requires StaysParked(s, launches, consumed) && s.agent.consumed >= consumed && SupervisorStep(s, o).Some?
    ensures StaysParked(SupervisorStep(s, o).value, launches, consumed) && SupervisorStep(s, o).value.agent.consumed >= consumed
  {
  }

  lemma StepStaysParked(s: State, a: Action, launches: nat, consumed: nat)
    requires StaysParked(s, launches, consumed) && s.agent.consumed >= consumed && !s.main.SpawnSupervisor? && !s.main.SpawnAcceptor? && Step(s, a).Some?
    ensures StaysParked(Step(s, a).value, launches, consumed) && Step(s, a).value.agent.consumed >= consumed
    ensures !Step(s, a).value.main.SpawnSupervisor? && !Step(s, a).value.main.SpawnAcceptor?
  {
    match a
    case SupervisorAction(o) => SupervisorStaysParked(s, o, launches, consumed);
    case MainAction(ok) => NeverBackToStart(s, ok);
    case _ =>
  }

  lemma NeverBackToStart(s: State, ok: bool)
    requires MainNext(s, ok).Some?
    ensures MainNext(s, ok).value.SpawnSupervisor? ==> s.main.SpawnAcceptor?
    ensures !MainNext(s, ok).value.SpawnAcceptor?
  {
  }

  /**
    Once the supervisor has parked on a healthy agent, no run launches an agent before the supervisor has consumed
    another agent-needed signal: a user who closes the UI is left alone.
   */
  lemma ParkedLaunchesNothing(s: State, run: seq<Action>, t: State)
    requires Reachable(s) && s.supervisor.Park? && Leads(s, run, t)
    ensures |t.agent.launches| != |s.agent.launches| ==> t.agent.consumed > s.agent.consumed
  {
    ThreadsHold(s);
    var launches, consumed := |s.agent.launches|, s.agent.consumed;
    var inv := (u: State) =>
      StaysParked(u, launches, consumed) && u.agent.consumed >= consumed && !u.main.SpawnSupervisor? && !u.main.SpawnAcceptor?;
    forall u, a | inv(u) && Step(u, a).Some?
      ensures inv(Step(u, a).value)
    {
      StepStaysParked(u, a, launches, consumed);
    }
    RunKeeps(inv, s, run, t);
  }

  // ----- Where signals come from -----

  predicate LegitimateCause(cause: SignalCause) {
    cause.AtStart? || cause.eventType == 1 || cause.eventType == 3 || cause.eventType == 5
  }

  /** Every consumed signal was raised: the pending one, if any, has not been consumed. */
  ghost predicate SignalInv(s: State) {
    && (forall i :: 0 <= i < |s.agent.signals| ==> LegitimateCause(s.agent.signals[i]))
    && s.agent.consumed + (if s.shared.agentNeeded then 1 else 0) <= |s.agent.signals|
  }

  lemma StepKeepsSignals(s: State, a: Action)
    requires SignalInv(s) && Step(s, a).Some?
    ensures SignalInv(Step(s, a).value)
  {
    match a
    case MainAction(ok) => MainShares(s.shared, s.main);
    case HandlerActionOf(Receive(control, ok)) => HandlerEntryShares(s.shared, control, ok);
    case HandlerActionOf(Continue(ok)) => HandlerContinueShares(s.shared, s.handler, ok);
    case AcceptorAction(o) => AcceptorShares(s, o);
    case SupervisorAction(o) => SupervisorKeepsSignals(s, o);
    case _ =>
  }

  lemma SupervisorKeepsSignals(s: State, o: SupervisorOutcome)
    requires SignalInv(s) && SupervisorStep(s, o).Some?
    ensures SignalInv(SupervisorStep(s, o).value)
  {
    SupervisorShares(s, o);
    WakeNeedsSignal(s, o);
  }

  lemma WakeNeedsSignal(s: State, o: SupervisorOutcome)
    ensures SupervisorWake(s, o).WakeNeeded? ==> s.shared.agentNeeded && !s.supervisor.Launch?
  {
  }

  lemma SignalsHold(t: State)
    requires Reachable(t)
    ensures SignalInv(t)
  {
    forall u, a | Reachable(u) && SignalInv(u) && Step(u, a).Some?
      ensures SignalInv(Step(u, a).value)
    {
      StepKeepsSignals(u, a);
    }
    ReachableKeeps(SignalInv, t);
  }

  /**
    Every signal was raised at the start or by a logon, a console connect or a remote connect, and the supervisor
    consumes no more signals than were raised.
   */
  lemma SignalsAreLegitimate(t: State)
    requires Reachable(t)
    ensures forall i :: 0 <= i < |t.agent.signals| ==> LegitimateCause(t.agent.signals[i])
    ensures t.agent.consumed <= |t.agent.signals|
  {
    SignalsHold(t);
  }

  /** Receiving a session change raises a signal exactly for a console connect (1), a remote connect (3) and a logon (5). */
  lemma SessionChangeSignals(s: State, eventType: nat, ok: bool)
    requires HandlerStep(s, Receive(SessionChange(eventType), ok)).Some?
    ensures var t, raised := HandlerStep(s, Receive(SessionChange(eventType), ok)).value, eventType == 1 || eventType == 3 || eventType == 5;
            && t.agent.signals == s.agent.signals + (if raised then [OnSessionChange(eventType)] else [])
            && t.shared == s.shared.(agentNeeded := s.shared.agentNeeded || raised)
            && t.handler.Idle? && t.supervisor == s.supervisor && t.scm == s.scm
  {
  }

  // ----- After the stop request -----

  /** The supervisor is past its last look at the stop token and may still launch. */
  predicate MayStillLaunch(pc: SupervisorPc) {
    pc.RetainFetch? || pc.RetainCheck? || pc.RetainDiscard? || pc.Decide? || pc.Delay? || pc.Launch?
  }

  ghost predicate StopInv(s: State) {
    && s.agent.launchesAfterStop <= 1
    && (!s.threads.supervisorStopRequested ==> s.agent.launchesAfterStop == 0)
    && (s.agent.launchesAfterStop == 1 ==> !MayStillLaunch(s.supervisor))
  }

  lemma SupervisorKeepsStop(s: State, o: SupervisorOutcome)
    requires StopInv(s) && SupervisorStep(s, o).Some?
    ensures StopInv(SupervisorStep(s, o).value)
  {
    LaunchFlow(s, o);
  }

  lemma LaunchFlow(s: State, o: SupervisorOutcome)
    requires SupervisorNext(s, o).Some?
    ensures MayStillLaunch(SupervisorNext(s, o).value) ==>
              (MayStillLaunch(s.supervisor) && !s.supervisor.Launch?) || (s.supervisor.SupervisorTop? && !s.threads.supervisorStopRequested)
  {
  }

  lemma StepKeepsStop(s: State, a: Action)
    requires StopInv(s) && ThreadsInv(s) && Step(s, a).Some?
    ensures StopInv(Step(s, a).value)
  {
    match a
    case MainAction(ok) => MainKeepsTokens(s, ok);
    case SupervisorAction(o) => SupervisorKeepsStop(s, o);
    case _ =>
  }

  lemma StopHolds(t: State)
    requires Reachable(t)
    ensures StopInv(t)
  {
    forall u, a | Reachable(u) && StopInv(u) && Step(u, a).Some?
      ensures StopInv(Step(u, a).value)
    {
      ThreadsHold(u);
      StepKeepsStop(u, a);
    }
    ReachableKeeps(StopInv, t);
  }

  /** At most one launch attempt begins after the supervisor's stop has been requested. */
  lemma AtMostOneLaunchAfterStop(t: State)
    requires Reachable(t)
    ensures t.agent.launchesAfterStop <= 1
  {
    StopHolds(t);
  }

  /** The supervisor does not run and will not be started, and `launches` are those that have begun. */
  predicate Settled(s: State, launches: seq<LaunchRecord>) {
    && s.agent.launches == launches && (s.supervisor.SupervisorNotStarted? || s.supervisor.SupervisorDone?)
    && !s.main.SpawnAcceptor? && !s.main.SpawnSupervisor?
  }

  lemma StepKeepsSettled(s: State, a: Action, launches: seq<LaunchRecord>)
    requires Settled(s, launches) && Step(s, a).Some?
    ensures Settled(Step(s, a).value, launches)
  {
    if a.MainAction? {
      NeverBackToStart(s, a.ok);
    }
  }

  /** No launch attempt ever begins once the supervisor has been joined: a run from there on records none. */
  lemma NoLaunchAfterJoin(s: State, run: seq<Action>, t: State)
    requires Reachable(s) && !s.threads.supervisorJoinable && !s.main.SpawnAcceptor? && !s.main.SpawnSupervisor?
    requires Leads(s, run, t)
    ensures t.agent.launches == s.agent.launches
  {
    ThreadsHold(s);
    var launches := s.agent.launches;
    forall u, a | Settled(u, launches) && Step(u, a).Some?
      ensures Settled(Step(u, a).value, launches)
    {
      StepKeepsSettled(u, a, launches);
    }
    RunKeeps((u: State) => Settled(u, launches), s, run, t);
  }
}
