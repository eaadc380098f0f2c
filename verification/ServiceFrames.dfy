/** What each thread of the service leaves unchanged: shared fields that only some steps touch. */
module ServiceFrames {
  import opened ServiceState
  import opened ServiceSystem

  predicate SameSlot(a: Shared, b: Shared) {
    a.connection == b.connection && a.agentConnected == b.agentConnected
  }

  lemma MainShares(sh: Shared, pc: MainPc)
    ensures var after := MainShared(sh, pc);
            && SameSlot(sh, after)
            && after.preshutdownEvent == sh.preshutdownEvent
            && after.preshutdownStarted == sh.preshutdownStarted
            && after.stopExitCode == sh.stopExitCode
            && (sh.stopEvent ==> after.stopEvent)
            && (!pc.ConsumeSkipToken? ==> after.skipDeadline == sh.skipDeadline)
            && (!pc.SignalAgentNeeded? ==> after.agentNeeded == sh.agentNeeded)
            && (!pc.ClaimHeartbeat? ==> after.checkpoint == sh.checkpoint)
            && (!pc.SignalFailure? && !pc.SignalSupervisorStop? && !pc.SignalAcceptorStop? ==> after.stopEvent == sh.stopEvent)
  {
  }

  lemma HandlerEntryShares(sh: Shared, control: ServiceControl, ok: bool)
    ensures var after := HandlerEntry(sh, control, ok).shared;
            && SameSlot(sh, after)
            && after.skipDeadline == sh.skipDeadline
            && after.stopExitCode == sh.stopExitCode
            && after.stopEvent == sh.stopEvent
            && after.checkpoint == sh.checkpoint
            && after.status == sh.status
            && after.preshutdownEvent == sh.preshutdownEvent
            && after.agentNeeded == (sh.agentNeeded || Signals(control))
  {
  }

  lemma HandlerContinueShares(sh: Shared, pc: HandlerPc, ok: bool)
    requires !pc.Idle?
    ensures var after := HandlerContinue(sh, pc, ok).shared;
            && SameSlot(sh, after)
            && after.skipDeadline == sh.skipDeadline
            && after.stopExitCode == sh.stopExitCode
            && after.agentNeeded == sh.agentNeeded
            && after.stopEvent == (sh.stopEvent || pc.StopSignal?)
  {
  }

  lemma AcceptorShares(s: State, o: AcceptorOutcome)
    ensures var after := AcceptorShared(s, o);
            && after.agentNeeded == s.shared.agentNeeded
            && after.stopEvent == (s.shared.stopEvent || s.acceptor.AcceptorSignal?)
            && (!s.acceptor.AcceptorFailing? ==> after.stopExitCode == s.shared.stopExitCode)
            && (!s.acceptor.ApplyFrame? ==> after.skipDeadline == s.shared.skipDeadline)
  {
  }

  lemma AcceptorSharesStatus(s: State, o: AcceptorOutcome)
    ensures var after := AcceptorShared(s, o);
            && after.status == s.shared.status
            && after.checkpoint == s.shared.checkpoint
            && after.preshutdownEvent == s.shared.preshutdownEvent
            && after.preshutdownStarted == s.shared.preshutdownStarted
  {
  }

  lemma AcceptorSharesSlot(s: State, o: AcceptorOutcome)
    ensures !s.acceptor.Install? && !s.acceptor.DiscardOwn? ==> SameSlot(s.shared, AcceptorShared(s, o))
  {
  }

  lemma SupervisorShares(s: State, o: SupervisorOutcome)
    ensures var after := SupervisorShared(s, o);
            && after.skipDeadline == s.shared.skipDeadline
            && after.stopEvent == (s.shared.stopEvent || s.supervisor.SupervisorSignal?)
            && after.agentNeeded == (s.shared.agentNeeded && !SupervisorWake(s, o).WakeNeeded?)
            && (!s.supervisor.SupervisorFailing? ==> after.stopExitCode == s.shared.stopExitCode)
  {
  }

  lemma SupervisorSharesStatus(s: State, o: SupervisorOutcome)
    ensures var after := SupervisorShared(s, o);
            && after.status == s.shared.status
            && after.checkpoint == s.shared.checkpoint
            && after.preshutdownEvent == s.shared.preshutdownEvent
            && after.preshutdownStarted == s.shared.preshutdownStarted
  {
  }

  lemma SupervisorSharesSlot(s: State, o: SupervisorOutcome)
    ensures !s.supervisor.RetainDiscard? && !s.supervisor.ObserveDiscard? ==> SameSlot(s.shared, SupervisorShared(s, o))
  {
  }

  // ----- The pipe instance at hand in the acceptor -----

  /** The acceptor owns a pipe instance that it has not installed. */
  predicate Preparing(pc: AcceptorPc) {
    pc.ConnectStart? || pc.ConnectWait? || pc.ConnectDone? || pc.Authenticate? || pc.HandshakeStart? || pc.HandshakeWait? || pc.Install?
  }

  /** The acceptor has installed its pipe and has not yet discarded it. */
  predicate Serving(pc: AcceptorPc) {
    pc.ReadStart? || pc.ReadWait? || pc.ApplyFrame? || pc.EchoStart? || pc.EchoWait? || pc.DiscardOwn?
  }

  predicate Ended(pc: AcceptorPc) {
    pc.AcceptorFailing? || pc.AcceptorSignal? || pc.AcceptorDone?
  }

  lemma PreparingFlow(s: State, o: AcceptorOutcome)
    requires AcceptorNext(s, o).Some? && Preparing(AcceptorNext(s, o).value)
    ensures var next := AcceptorNext(s, o).value;
            if s.acceptor.CreatePipe? then o.Proceed? && next.pipe == s.pipes.nextPipe
            else Preparing(s.acceptor) && !s.acceptor.Install? && next.pipe == s.acceptor.pipe
  {
  }

  lemma ServingFlow(s: State, o: AcceptorOutcome)
    requires AcceptorNext(s, o).Some? && Serving(AcceptorNext(s, o).value)
    ensures var next := AcceptorNext(s, o).value;
            && next.pipe == s.acceptor.pipe
            && (if s.acceptor.Install? then o.Proceed? && next.ReadStart? else Serving(s.acceptor) && !s.acceptor.DiscardOwn?)
  {
  }

  lemma IdleFlow(s: State, o: AcceptorOutcome)
    requires AcceptorNext(s, o).Some?
    requires !Serving(AcceptorNext(s, o).value) && !Ended(AcceptorNext(s, o).value)
    ensures !Ended(s.acceptor) && (s.acceptor.Install? ==> !o.Proceed?)
    ensures Serving(s.acceptor) ==> s.acceptor.DiscardOwn?
  {
  }
}
