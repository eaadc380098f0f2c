/** The loop that observes a launched agent cannot spin. */
module AgentObservation {
  import opened Options
  import opened ServiceSystem
  import opened ServiceFrames
  import opened ConnectionSlot

  /** Between the two look-ups of a connection and the next wait. */
  predicate LooksAtSlot(pc: SupervisorPc) {
    pc.ObserveTop? || pc.ObserveFetch? || pc.ObserveCheck? || pc.ObserveDiscard? || pc.ObserveSession?
  }

  predicate BeforeWait(pc: SupervisorPc) {
    pc.ObserveDeadline? || pc.ObserveWait?
  }

  predicate InObservation(pc: SupervisorPc) {
    LooksAtSlot(pc) || BeforeWait(pc)
  }

  /** The connection that the supervisor holds is at least the `floor`-th ever installed. */
  ghost predicate HeldAtLeast(installs: seq<nat>, held: nat, floor: nat) {
    exists m :: 0 <= m < |installs| && installs[m] == held && m + 1 >= floor
  }

  /** Every wake on the connected event so far belongs to a connection of its own, torn down before the next wait. */
  ghost predicate WakeInv(s: State) {
    var floor := s.observation.teardownsBefore + s.observation.connectedWakes;
    && (InObservation(s.supervisor) ==> |s.pipes.installs| >= floor)
    && (BeforeWait(s.supervisor) || s.supervisor.ObserveSession? ==> |s.pipes.teardowns| >= floor)
    && (s.supervisor.ObserveCheck? || s.supervisor.ObserveDiscard? ==> HeldAtLeast(s.pipes.installs, s.supervisor.held, floor))
  }

  ghost predicate SignalCountInv(s: State) {
    InObservation(s.supervisor) ==>
      && s.observation.neededWakes + (if s.shared.agentNeeded then 1 else 0)
         <= (if s.observation.pendingBefore then 1 else 0) + |s.agent.signals| - s.observation.signalsBefore
      && s.observation.iterations + (if s.supervisor.ObserveSession? then 1 else 0)
         <= 1 + s.observation.connectedWakes + s.observation.neededWakes
  }

  lemma DiscardTearsDown(s: State, held: nat, floor: nat)
    requires SlotInv(s) && HeldAtLeast(s.pipes.installs, held, floor)
    ensures |DiscardedPipes(s, held).teardowns| >= floor
  {
    var m :| 0 <= m < |s.pipes.installs| && s.pipes.installs[m] == held && m + 1 >= floor;
    if s.shared.connection.Some? && m == |s.pipes.installs| - 1 {
      assert s.pipes.installs[m] == s.shared.connection.value;
    }
  }

  lemma FetchHoldsNewest(s: State, floor: nat)
    requires SlotInv(s) && s.shared.connection.Some? && |s.pipes.installs| >= floor
    ensures HeldAtLeast(s.pipes.installs, s.shared.connection.value, floor)
  {
    assert s.pipes.installs[|s.pipes.installs| - 1] == s.shared.connection.value;
  }

  lemma ObservationFlow(s: State, o: SupervisorOutcome)
    requires SupervisorNext(s, o).Some?
    ensures var next := SupervisorNext(s, o).value;
            && (InObservation(next) ==> InObservation(s.supervisor) || (s.supervisor.Launching? && o.Good? && next.ObserveTop?))
            && (next.ObserveCheck? ==> s.supervisor.ObserveFetch? && s.shared.connection == Some(next.held))
            && (next.ObserveDiscard? ==> s.supervisor.ObserveCheck? && s.supervisor.held == next.held)
            && (next.ObserveWait? ==> s.supervisor.ObserveDeadline?)
            && (next.ObserveSession? ==> s.supervisor.ObserveWait? && SupervisorWake(s, o).WakeNeeded?)
            && (next.ObserveDeadline? ==>
                  s.supervisor.ObserveDiscard? || ((s.supervisor.ObserveTop? || s.supervisor.ObserveFetch?) && s.shared.connection.None?))
  {
  }

  lemma SupervisorKeepsWakes(s: State, o: SupervisorOutcome)
    requires WakeInv(s) && SlotInv(s) && SupervisorStep(s, o).Some?
    ensures WakeInv(SupervisorStep(s, o).value)
  {
    var floor := s.observation.teardownsBefore + s.observation.connectedWakes;
    ObservationFlow(s, o);
    ConnectedWakeNeedsConnection(s, o);
    if s.supervisor.ObserveDiscard? {
      DiscardTearsDown(s, s.supervisor.held, floor);
    }
    if s.supervisor.ObserveFetch? && s.shared.connection.Some? {
      FetchHoldsNewest(s, floor);
    }
    assert SupervisorPipes(s).installs == s.pipes.installs && |SupervisorPipes(s).teardowns| >= |s.pipes.teardowns|;
  }

  lemma ConnectedWakeNeedsConnection(s: State, o: SupervisorOutcome)
    requires SlotInv(s)
    ensures SupervisorWake(s, o).WakeConnected? ==> |s.pipes.installs| == |s.pipes.teardowns| + 1
    ensures s.shared.connection.None? ==> s.pipes.installs == s.pipes.teardowns
  {
  }

  /** The observation record changes only where a launch succeeds and where the loop goes round. */
  lemma SupervisorKeepsCounts(s: State, o: SupervisorOutcome)
    requires SignalCountInv(s) && SupervisorStep(s, o).Some?
    ensures SignalCountInv(SupervisorStep(s, o).value)
  {
    SupervisorShares(s, o);
    ObservationFlow(s, o);
  }

  lemma AcceptorKeepsWakes(s: State, o: AcceptorOutcome)
    requires WakeInv(s) && AcceptorStep(s, o).Some?
    ensures WakeInv(AcceptorStep(s, o).value)
  {
    var pipes := AcceptorPipes(s, o);
    assert |pipes.teardowns| >= |s.pipes.teardowns| && s.pipes.installs <= pipes.installs;
    if s.supervisor.ObserveCheck? || s.supervisor.ObserveDiscard? {
      var floor := s.observation.teardownsBefore + s.observation.connectedWakes;
      var m :| 0 <= m < |s.pipes.installs| && s.pipes.installs[m] == s.supervisor.held && m + 1 >= floor;
      assert pipes.installs[m] == s.supervisor.held;
    }
  }

  lemma StepKeepsWakes(s: State, a: Action)
    requires WakeInv(s) && SlotInv(s) && Step(s, a).Some?
    ensures WakeInv(Step(s, a).value)
  {
    match a
    case AcceptorAction(o) => AcceptorKeepsWakes(s, o);
    case SupervisorAction(o) => SupervisorKeepsWakes(s, o);
    case _ =>
  }

  lemma StepKeepsCounts(s: State, a: Action)
    requires SignalCountInv(s) && Step(s, a).Some?
    ensures SignalCountInv(Step(s, a).value)
  {
    match a
    case MainAction(ok) => MainShares(s.shared, s.main);
    case HandlerActionOf(Receive(control, ok)) => HandlerEntryShares(s.shared, control, ok);
    case HandlerActionOf(Continue(ok)) => HandlerContinueShares(s.shared, s.handler, ok);
    case AcceptorAction(o) => AcceptorShares(s, o);
    case SupervisorAction(o) => SupervisorKeepsCounts(s, o);
    case _ =>
  }

  lemma ObservationHolds(t: State)
    requires Reachable(t)
    ensures WakeInv(t) && SignalCountInv(t)
  {
    var inv := u => WakeInv(u) && SignalCountInv(u);
    forall u, a | Reachable(u) && inv(u) && Step(u, a).Some?
      ensures inv(Step(u, a).value)
    {
      SlotHolds(u);
      StepKeepsWakes(u, a);
      StepKeepsCounts(u, a);
    }
    ReachableKeeps(inv, t);
  }

  /**
    While a launched agent is observed, the loop has gone round at most once for the start, once for every
    connection in the slot at the start or installed since, and once for every signal pending at the start or
    raised since. A finite supply of connections and signals therefore ends the loop or leaves it in its timed wait.
   */
  lemma ObservationCannotSpin(t: State)
    requires Reachable(t) && InObservation(t.supervisor)
    ensures t.observation.iterations
         <= 1 + (|t.pipes.installs| - t.observation.teardownsBefore)
            + (|t.agent.signals| - t.observation.signalsBefore) + (if t.observation.pendingBefore then 1 else 0)
  {
    ObservationHolds(t);
  }

  /** Each wake on the connected event is charged to a connection of its own. */
  lemma ConnectedWakesAreDistinct(t: State)
    requires Reachable(t) && t.supervisor.ObserveWait?
    ensures t.observation.teardownsBefore + t.observation.connectedWakes <= |t.pipes.teardowns| <= |t.pipes.installs|
  {
    ObservationHolds(t);
    SlotHolds(t);
  }
}
