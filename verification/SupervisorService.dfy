/** What the agent supervisor owes the user: prompt launches, the right delays, and a fair wait for a launched agent. */
module SupervisorService {
  import opened Options
  import opened ServiceState
  import opened ServiceSystem
  import opened ServiceThreads
  import opened LaunchSafety

  // ----- The backoff, step by step -----

  /** A healthy connection has been found, or the session of the launched agent is no longer the active one. */
  predicate Refreshes(pc: SupervisorPc, o: SupervisorOutcome) {
    o.Good? && (pc.RetainCheck? || pc.ObserveCheck? || pc.ObserveSession?)
  }

  /** The supervisor goes back to its loop from a launch or an observation that did not end well. */
  predicate LosesLaunch(pc: SupervisorPc, o: SupervisorOutcome, next: SupervisorPc) {
    next.SupervisorTop? && !Refreshes(pc, o) && (pc.Launching? || pc.ObserveDeadline? || pc.ObserveWait?)
  }

  /**
    A healthy connection and a changed session bring the backoff back to five seconds and no delay; a delay that runs out
    doubles it up to a minute and counts; nothing else moves it.
   */
  lemma BackoffMoves(s: State, o: SupervisorOutcome)
    requires SupervisorStep(s, o).Some?
    ensures var t := SupervisorStep(s, o).value;
            && (Refreshes(s.supervisor, o) ==> t.backoff == Backoff(5_000, false, 0))
            && (s.supervisor.Delay? && t.supervisor.Launch? ==>
                  && t.backoff.timeouts == s.backoff.timeouts + 1
                  && t.backoff.retryDelay == if s.backoff.retryDelay * 2 <= 60_000 then s.backoff.retryDelay * 2 else 60_000)
            && (!Refreshes(s.supervisor, o) && !(s.supervisor.Delay? && t.supervisor.Launch?) ==>
                  t.backoff.timeouts == s.backoff.timeouts && t.backoff.retryDelay == s.backoff.retryDelay)
  {
  }

  /**
    The next launch is delayed from a lost launch on, until a healthy connection, a changed session, or a signal or
    connection that ends the delay.
   */
  lemma DelayFlagMoves(s: State, o: SupervisorOutcome)
    requires SupervisorStep(s, o).Some?
    ensures var t := SupervisorStep(s, o).value;
            t.backoff.delayBeforeLaunch
            <==> LosesLaunch(s.supervisor, o, t.supervisor)
                 || (s.backoff.delayBeforeLaunch && !Refreshes(s.supervisor, o) && !(s.supervisor.Delay? && t.supervisor.SupervisorTop?))
  {
  }

  /** Only the supervisor moves its backoff. */
  lemma OthersLeaveBackoff(s: State, a: Action)
    requires Step(s, a).Some? && !a.SupervisorAction?
    ensures Step(s, a).value.backoff == s.backoff
  {
  }

  // ----- Runs of the supervisor -----

  ghost predicate SupervisorLeads(s: State, t: State) {
    exists run: seq<Action> :: Leads(s, run, t) && forall i :: 0 <= i < |run| ==> run[i].SupervisorAction?
  }

  lemma SupervisorStays(s: State)
    ensures SupervisorLeads(s, s)
  {
    assert Leads(s, [], s);
  }

  lemma SupervisorGoesOn(s: State, t: State, o: SupervisorOutcome) returns (u: State)
    requires SupervisorLeads(s, t) && SupervisorStep(t, o).Some?
    ensures SupervisorLeads(s, u) && SupervisorStep(t, o) == Some(u)
  {
    var run: seq<Action> :| Leads(s, run, t) && forall i :: 0 <= i < |run| ==> run[i].SupervisorAction?;
    u := SupervisorStep(t, o).value;
    var longer := run + [SupervisorAction(o)];
    assert longer[..|longer| - 1] == run;
    assert Leads(s, longer, u);
  }

  /** From `s` steps of the supervisor alone, in which no time passes, begin exactly one launch. */
  ghost predicate LaunchesAtOnce(s: State) {
    exists t :: && SupervisorLeads(s, t) && t.supervisor.Launching? && |t.agent.launches| == |s.agent.launches| + 1
                && t.agent.launches[|s.agent.launches|].at == s.now
  }

  lemma Launches(s: State, u: State)
    requires SupervisorLeads(s, u) && u.supervisor.Launch? && u.agent.launches == s.agent.launches && u.now == s.now
    ensures LaunchesAtOnce(s)
  {
    var t := SupervisorGoesOn(s, u, Good);
    assert t.agent.launches == s.agent.launches + [LaunchNow(u)];
  }

  /** With an empty slot and no delay due, the loop goes straight to a launch. */
  lemma TopLaunches(s: State, u: State)
    requires SupervisorLeads(s, u) && u.supervisor.SupervisorTop? && u.agent.launches == s.agent.launches && u.now == s.now
    requires u.shared.connection == None && !u.threads.supervisorStopRequested && !u.backoff.delayBeforeLaunch
    ensures LaunchesAtOnce(s)
  {
    var t1 := SupervisorGoesOn(s, u, Good);
    assert t1 == u.(supervisor := RetainFetch);
    var t2 := SupervisorGoesOn(s, t1, Good);
    assert t2 == u.(supervisor := Decide);
    DecidesToLaunch(s, t2);
  }

  lemma DecidesToLaunch(s: State, u: State)
    requires SupervisorLeads(s, u) && u.supervisor.Decide? && u.agent.launches == s.agent.launches && u.now == s.now
    requires !u.backoff.delayBeforeLaunch
    ensures LaunchesAtOnce(s)
  {
    var t := SupervisorGoesOn(s, u, Good);
    assert t == u.(supervisor := Launch);
    Launches(s, t);
  }

  /** Where no launch has been lost, as at the start, the loop launches at once. */
  lemma FreshLaunchIsPrompt(s: State)
    requires s.supervisor.SupervisorTop? && s.shared.connection == None && !s.threads.supervisorStopRequested
    requires !s.backoff.delayBeforeLaunch
    ensures LaunchesAtOnce(s)
  {
    SupervisorStays(s);
    TopLaunches(s, s);
  }

  /** Once the session of the launched agent is no longer the active one, the new session gets its agent at once. */
  lemma SessionChangeLaunches(s: State)
    requires s.supervisor.ObserveSession? && s.shared.connection == None && !s.threads.supervisorStopRequested
    ensures LaunchesAtOnce(s)
  {
    SupervisorStays(s);
    var t := SupervisorGoesOn(s, s, Good);
    assert t == s.(supervisor := SupervisorTop, backoff := FRESH);
    TopLaunches(s, t);
  }

  /** A signal ends a delay before its time, whatever the delay. */
  lemma SignalEndsDelay(s: State)
    requires s.supervisor.Delay? && s.shared.agentNeeded && !s.shared.stopEvent
    requires s.shared.connection == None && !s.threads.supervisorStopRequested
    ensures LaunchesAtOnce(s)
  {
    SupervisorStays(s);
    var t := SupervisorGoesOn(s, s, Good);
    assert t.supervisor.SupervisorTop? && !t.backoff.delayBeforeLaunch && t.shared.connection == None && t.threads == s.threads;
    TopLaunches(s, t);
  }

  /**
    So does an agent that connects meanwhile: the supervisor looks at its connection at once, and parks on it without a
    launch if it is healthy.
   */
  lemma ConnectionEndsDelay(s: State)
    requires s.supervisor.Delay? && s.shared.agentConnected && s.shared.connection.Some?
    requires !s.shared.stopEvent && !s.shared.agentNeeded && !s.threads.supervisorStopRequested
    ensures exists t :: SupervisorLeads(s, t) && t == s.(supervisor := Park, backoff := Backoff(5_000, false, 0))
  {
    SupervisorStays(s);
    var t1 := SupervisorGoesOn(s, s, Good);
    assert t1 == s.(supervisor := SupervisorTop, backoff := s.backoff.(delayBeforeLaunch := false));
    var t2 := SupervisorGoesOn(s, t1, Good);
    assert t2 == t1.(supervisor := RetainFetch);
    ParksOnConnection(s, t2);
  }

  lemma ParksOnConnection(s: State, u: State)
    requires SupervisorLeads(s, u) && u.supervisor.RetainFetch? && u.shared.connection.Some?
    ensures exists t :: SupervisorLeads(s, t) && t == u.(supervisor := Park, backoff := Backoff(5_000, false, 0))
  {
    var t1 := SupervisorGoesOn(s, u, Good);
    assert t1 == u.(supervisor := RetainCheck(u.shared.connection.value));
    HealthyIsRetained(t1);
    var t2 := SupervisorGoesOn(s, t1, Good);
  }

  // ----- Delays -----

  /** No stop, no signal and no connection. */
  predicate Undisturbed(sh: Shared) {
    !sh.stopEvent && !sh.agentNeeded && !sh.agentConnected && sh.connection == None
  }

  /** The state `elapsed` milliseconds later. */
  function Later(s: State, elapsed: nat): State {
    s.(now := s.now + elapsed)
  }

  /**
    Undisturbed, the launch after a lost one waits for the retry delay in force: before that time the supervisor is blocked
    unless its wait fails, and from then on it launches.
   */
  lemma DelayIsKept(s: State, o: SupervisorOutcome, p: SupervisorOutcome, elapsed: nat)
    requires s.supervisor.Decide? && s.backoff.delayBeforeLaunch && Undisturbed(s.shared) && !p.WaitError?
    ensures SupervisorStep(s, o).Some?
    ensures var t := Later(SupervisorStep(s, o).value, elapsed);
            && t.agent.launches == s.agent.launches
            && (elapsed < s.backoff.retryDelay ==> SupervisorStep(t, p).None?)
            && (elapsed >= s.backoff.retryDelay ==> LaunchesAtOnce(t))
  {
    var t := Later(SupervisorStep(s, o).value, elapsed);
    assert t.supervisor == Delay(s.now + s.backoff.retryDelay) && t.shared == s.shared;
    if elapsed >= s.backoff.retryDelay {
      DelayElapsed(t);
    }
  }

  lemma DelayElapsed(s: State)
    requires s.supervisor.Delay? && s.supervisor.wakeAt <= s.now && Undisturbed(s.shared)
    ensures LaunchesAtOnce(s)
  {
    SupervisorStays(s);
    var t := SupervisorGoesOn(s, s, Good);
    assert t.supervisor.Launch? && t.agent == s.agent && t.now == s.now;
    Launches(s, t);
  }

  // ----- A parked supervisor -----

  /** Parking leaves no delay behind, so that a signal finds the backoff at its start. */
  ghost predicate ParkedIsFresh(s: State) {
    s.supervisor.Park? ==> s.backoff == Backoff(5_000, false, 0)
  }

  lemma StepKeepsParked(s: State, a: Action)
    requires ParkedIsFresh(s) && ThreadsInv(s) && Step(s, a).Some?
    ensures ParkedIsFresh(Step(s, a).value)
  {
    if a.SupervisorAction? {
      ParkFlow(s, a.supervisor);
      BackoffMoves(s, a.supervisor);
    } else {
      OthersLeaveBackoff(s, a);
      OthersDoNotPark(s, a);
    }
  }

  lemma ParkFlow(s: State, o: SupervisorOutcome)
    requires SupervisorNext(s, o).Some?
    ensures SupervisorNext(s, o).value.Park? ==> s.supervisor.RetainCheck? && o.Good?
  {
  }

  lemma OthersDoNotPark(s: State, a: Action)
    requires ThreadsInv(s) && Step(s, a).Some? && !a.SupervisorAction?
    ensures Step(s, a).value.supervisor.Park? ==> s.supervisor.Park?
  {
  }

  lemma ParkedHolds(t: State)
    requires Reachable(t)
    ensures ParkedIsFresh(t)
  {
    forall u, a | Reachable(u) && ParkedIsFresh(u) && Step(u, a).Some?
      ensures ParkedIsFresh(Step(u, a).value)
    {
      ThreadsHold(u);
      StepKeepsParked(u, a);
    }
    ReachableKeeps(ParkedIsFresh, t);
  }

  /**
    A parked supervisor launches at once when a signal arrives and the agent it parked on is gone, be it that the slot is
    empty or that the connection in it proves unhealthy.
   */
  lemma SignalWakesParked(s: State)
    requires Reachable(s) && s.supervisor.Park? && s.shared.agentNeeded && !s.shared.stopEvent && !s.threads.supervisorStopRequested
    ensures LaunchesAtOnce(s)
  {
    ParkedHolds(s);
    SupervisorStays(s);
    var t := SupervisorGoesOn(s, s, Good);
    assert t == s.(supervisor := SupervisorTop, shared := s.shared.(agentNeeded := false), agent := t.agent);
    if s.shared.connection.None? {
      TopLaunches(s, t);
    } else {
      TopReplaces(s, t);
    }
  }

  /**
    So a user who logs on, or connects at the console or remotely, after the agent has gone gets a new one at once: the
    control is handled, and no time passes before the launch begins.
   */
  lemma NewSessionGetsAgent(s: State, eventType: nat)
    requires Reachable(s) && s.supervisor.Park? && !s.shared.stopEvent && !s.threads.supervisorStopRequested
    requires s.handler.Idle? && MayReceive(s, SessionChange(eventType)) && (eventType == 1 || eventType == 3 || eventType == 5)
    ensures Step(s, HandlerActionOf(Receive(SessionChange(eventType), true))).Some?
    ensures LaunchesAtOnce(Step(s, HandlerActionOf(Receive(SessionChange(eventType), true))).value)
  {
    SessionChangeSignals(s, eventType, true);
    var t := ReachedBy(s, HandlerActionOf(Receive(SessionChange(eventType), true)));
    SignalWakesParked(t);
  }

  /** The loop finds an unhealthy connection, discards it and launches. */
  lemma TopReplaces(s: State, u: State)
    requires SupervisorLeads(s, u) && u.supervisor.SupervisorTop? && u.agent.launches == s.agent.launches && u.now == s.now
    requires u.shared.connection.Some? && !u.threads.supervisorStopRequested && !u.backoff.delayBeforeLaunch
    ensures LaunchesAtOnce(s)
  {
    var t1 := SupervisorGoesOn(s, u, Good);
    assert t1 == u.(supervisor := RetainFetch);
    var t2 := SupervisorGoesOn(s, t1, Good);
    assert t2 == u.(supervisor := RetainCheck(u.shared.connection.value));
    UnhealthyIsDiscarded(t2);
    var t3 := SupervisorGoesOn(s, t2, Bad);
    var t4 := SupervisorGoesOn(s, t3, Good);
    DecidesToLaunch(s, t4);
  }

  // ----- Health checks -----

  /** The state after two supervisor steps. */
  function TwoSteps(s: State, first: SupervisorOutcome, second: SupervisorOutcome): Option<State> {
    var t := SupervisorStep(s, first);
    if t.None? then None else SupervisorStep(t.value, second)
  }

  /** A connection that fails the health check of the loop leaves the slot before the supervisor decides. */
  lemma UnhealthyIsDiscarded(s: State)
    requires s.supervisor.RetainCheck?
    ensures SupervisorStep(s, Bad) == Some(s.(supervisor := RetainDiscard(s.supervisor.held)))
    ensures TwoSteps(s, Bad, Good)
         == Some(s.(supervisor := Decide, shared := Discarded(s.shared, s.supervisor.held), pipes := DiscardedPipes(s, s.supervisor.held)))
    ensures TwoSteps(s, Bad, Good).value.shared.connection != Some(s.supervisor.held)
  {
  }

  /** A healthy one stays, and the supervisor parks. */
  lemma HealthyIsRetained(s: State)
    requires s.supervisor.RetainCheck?
    ensures SupervisorStep(s, Good) == Some(s.(supervisor := Park, backoff := Backoff(5_000, false, 0)))
  {
  }

  // ----- Observing a launched agent -----

  /** A launched agent that does not connect, exit or see a signal is given thirty seconds, and then the launch is lost. */
  lemma LaunchedAgentGetsThirtySeconds(s: State, o: SupervisorOutcome, p: SupervisorOutcome, elapsed: nat)
    requires s.supervisor.Launching? && Undisturbed(s.shared)
    ensures SupervisorStep(s, Good).Some? && TwoSteps(SupervisorStep(s, Good).value, o, p).Some?
    ensures var t := Later(TwoSteps(SupervisorStep(s, Good).value, o, p).value, elapsed);
            && (elapsed < 30_000 ==> SupervisorStep(t, Good).None? && SupervisorStep(t, Bad).None?)
            && (elapsed >= 30_000 ==>
                  && SupervisorStep(t, Good).Some? && SupervisorStep(t, Good).value.supervisor.SupervisorTop?
                  && SupervisorStep(t, Good).value.backoff == s.backoff.(delayBeforeLaunch := true))
  {
    var t := SupervisorStep(s, Good).value;
    assert t.supervisor == ObserveTop(s.now + 30_000) && t.shared == s.shared && t.backoff == s.backoff && t.now == s.now;
    ObservationWaits(t, o, p);
    WaitsUntilDeadline(Later(TwoSteps(t, o, p).value, elapsed));
  }

  lemma ObservationWaits(s: State, o: SupervisorOutcome, p: SupervisorOutcome)
    requires s.supervisor.ObserveTop? && s.shared.connection == None && s.now < s.supervisor.deadline
    ensures TwoSteps(s, o, p) == Some(s.(supervisor := ObserveWait(s.supervisor.deadline)))
  {
  }

  lemma WaitsUntilDeadline(s: State)
    requires s.supervisor.ObserveWait? && Undisturbed(s.shared)
    ensures s.now < s.supervisor.deadline ==> SupervisorStep(s, Good).None? && SupervisorStep(s, Bad).None?
    ensures s.now >= s.supervisor.deadline ==>
              SupervisorStep(s, Good) == Some(s.(supervisor := SupervisorTop, backoff := s.backoff.(delayBeforeLaunch := true)))
  {
  }

  /** While nothing else is signalled, an agent that exits is noticed at once, and its launch is lost. */
  lemma ExitIsNoticed(s: State)
    requires s.supervisor.ObserveWait? && Undisturbed(s.shared)
    ensures SupervisorStep(s, ProcessExit) == Some(s.(supervisor := SupervisorTop, backoff := s.backoff.(delayBeforeLaunch := true)))
  {
  }

  /** A connection that is installed while the agent is observed is checked next; a healthy one ends the observation well. */
  lemma ConnectionIsObserved(s: State, o: SupervisorOutcome, p: SupervisorOutcome)
    requires s.supervisor.ObserveTop? && s.shared.connection.Some?
    ensures TwoSteps(s, o, p) == Some(s.(supervisor := ObserveCheck(s.supervisor.deadline, s.shared.connection.value)))
    ensures SupervisorStep(TwoSteps(s, o, p).value, Good) == Some(s.(supervisor := SupervisorTop, backoff := Backoff(5_000, false, 0)))
    ensures TwoSteps(TwoSteps(s, o, p).value, Bad, o).Some?
    ensures var t := TwoSteps(TwoSteps(s, o, p).value, Bad, o).value;
            t.shared.connection == None && !t.shared.agentConnected && t.supervisor == ObserveDeadline(s.supervisor.deadline)
  {
    ObservedUnhealthy(s.(supervisor := ObserveCheck(s.supervisor.deadline, s.shared.connection.value)), o);
  }

  lemma ObservedUnhealthy(s: State, o: SupervisorOutcome)
    requires s.supervisor.ObserveCheck?
    ensures TwoSteps(s, Bad, o)
         == Some(s.(supervisor := ObserveDeadline(s.supervisor.deadline), shared := Discarded(s.shared, s.supervisor.held),
                    pipes := DiscardedPipes(s, s.supervisor.held)))
  {
  }

  lemma ConnectionWakesObservation(s: State)
    requires s.supervisor.ObserveWait? && s.shared.agentConnected && !s.shared.stopEvent && !s.shared.agentNeeded
    ensures SupervisorStep(s, Good).Some? && SupervisorStep(s, Good).value.supervisor == ObserveTop(s.supervisor.deadline)
    ensures SupervisorStep(s, Good).value.shared == s.shared && SupervisorStep(s, Good).value.backoff == s.backoff
  {
  }

  /** A signal makes the supervisor compare sessions; in the same session it goes on observing the agent it has launched. */
  lemma SignalComparesSessions(s: State)
    requires s.supervisor.ObserveWait? && s.shared.agentNeeded && !s.shared.stopEvent
    ensures SupervisorStep(s, Good).Some? && SupervisorStep(s, Good).value.supervisor.ObserveSession?
    ensures TwoSteps(s, Good, Bad).Some?
    ensures var t := TwoSteps(s, Good, Bad).value;
            && t.supervisor == ObserveTop(s.supervisor.deadline) && t.backoff == s.backoff
            && t.shared == s.shared.(agentNeeded := false) && t.agent.launches == s.agent.launches
  {
  }

  // ----- Stopping and failing -----

  /** A supervisor that waits ends as soon as the stop event is set, whatever else is signalled. */
  lemma StopEndsWaits(s: State, o: SupervisorOutcome)
    requires (s.supervisor.Park? || s.supervisor.Delay? || s.supervisor.ObserveWait?) && s.shared.stopEvent && !o.WaitError?
    ensures SupervisorStep(s, o).Some? && SupervisorStep(s, o).value.supervisor.SupervisorDone?
    ensures SupervisorStep(s, o).value.shared == s.shared
  {
  }

  /** A failed wait in the loop stops the service with its code; one in an observation only loses the launch. */
  lemma FailedWait(s: State, error: nat, o: SupervisorOutcome, p: SupervisorOutcome)
    requires s.supervisor.Park? || s.supervisor.Delay? || s.supervisor.ObserveWait?
    ensures SupervisorStep(s, WaitError(error)).Some?
    ensures var t := SupervisorStep(s, WaitError(error)).value;
            if s.supervisor.ObserveWait? then t == s.(supervisor := SupervisorTop, backoff := s.backoff.(delayBeforeLaunch := true))
            else
              && TwoSteps(t, o, p).Some?
              && var u := TwoSteps(t, o, p).value;
                 && u.supervisor.SupervisorDone? && u.failures == s.failures + [error]
                 && u.shared == s.shared.(stopEvent := true,
                                          stopExitCode := if s.shared.stopExitCode != 0 then s.shared.stopExitCode
                                                          else if error == 0 then 31 else error)
  {
    if !s.supervisor.ObserveWait? {
      var t := SupervisorStep(s, WaitError(error)).value;
      assert t.supervisor == SupervisorFailing(error) && t.shared == s.shared && t.failures == s.failures;
      FailureIsRecorded(t, o, p);
    }
  }

  lemma FailureIsRecorded(s: State, o: SupervisorOutcome, p: SupervisorOutcome)
    requires s.supervisor.SupervisorFailing?
    ensures TwoSteps(s, o, p)
         == Some(s.(supervisor := SupervisorDone, failures := s.failures + [s.supervisor.error],
                    shared := StopSignalled(FailureRecorded(s.shared, s.supervisor.error))))
  {
  }
}
