/**
  The connection slot over every interleaving: the connected event mirrors the slot, every install
  lands on an empty slot, and every connection is torn down at most once, in the order of installs.
 */
module ConnectionSlot {
  import opened Options
  import opened ServiceState
  import opened ServiceSystem
  import opened ServiceFrames
  import opened ServiceThreads

  ghost predicate Increasing(pipes: seq<nat>) {
    forall i, j :: 0 <= i < j < |pipes| ==> pipes[i] < pipes[j]
  }

  ghost predicate AllBelow(pipes: seq<nat>, limit: nat) {
    forall i :: 0 <= i < |pipes| ==> pipes[i] < limit
  }

  function SlotContents(slot: Option<nat>): seq<nat> {
    match slot
    case None => []
    case Some(pipe) => [pipe]
  }

  /** The supervisor holds a copy of a connection that it checks or discards. */
  predicate Holding(pc: SupervisorPc) {
    pc.RetainCheck? || pc.RetainDiscard? || pc.ObserveCheck? || pc.ObserveDiscard?
  }

  ghost predicate CoreInv(sh: Shared, installs: seq<nat>, teardowns: seq<nat>) {
    && sh.agentConnected == sh.connection.Some?
    && installs == teardowns + SlotContents(sh.connection)
    && Increasing(installs)
  }

  ghost predicate AcceptorInv(pc: AcceptorPc, connection: Option<nat>, installs: seq<nat>, nextPipe: nat) {
    && AllBelow(installs, nextPipe)
    && (Preparing(pc) ==> pc.pipe < nextPipe && AllBelow(installs, pc.pipe))
    && (Serving(pc) ==> |installs| > 0 && installs[|installs| - 1] == pc.pipe)
    && (!Serving(pc) && !Ended(pc) ==> connection == None)
  }

  ghost predicate SlotInv(s: State) {
    && CoreInv(s.shared, s.pipes.installs, s.pipes.teardowns)
    && AcceptorInv(s.acceptor, s.shared.connection, s.pipes.installs, s.pipes.nextPipe)
    && (Holding(s.supervisor) ==> s.supervisor.held in s.pipes.installs)
  }

  lemma InstallKeeps(sh: Shared, installs: seq<nat>, teardowns: seq<nat>, pipe: nat)
    requires CoreInv(sh, installs, teardowns) && sh.connection == None && AllBelow(installs, pipe)
    ensures CoreInv(Installed(sh, pipe), installs + [pipe], teardowns)
  {
  }

  lemma DiscardKeeps(s: State, pipe: nat)
    requires CoreInv(s.shared, s.pipes.installs, s.pipes.teardowns)
    ensures var sh, pipes := Discarded(s.shared, pipe), DiscardedPipes(s, pipe);
            && CoreInv(sh, pipes.installs, pipes.teardowns)
            && pipes.installs == s.pipes.installs && pipes.nextPipe == s.pipes.nextPipe
            && (sh.connection == s.shared.connection || sh.connection == None)
            && sh.connection != Some(pipe)
  {
  }

  lemma AcceptorKeepsCore(s: State, o: AcceptorOutcome)
    requires SlotInv(s)
    ensures CoreInv(AcceptorShared(s, o), AcceptorPipes(s, o).installs, AcceptorPipes(s, o).teardowns)
  {
    AcceptorSharesSlot(s, o);
    if s.acceptor.DiscardOwn? {
      DiscardKeeps(s, s.acceptor.pipe);
    } else if s.acceptor.Install? {
      InstallKeeps(s.shared, s.pipes.installs, s.pipes.teardowns, s.acceptor.pipe);
    }
  }

  lemma AcceptorKeepsPipes(s: State, o: AcceptorOutcome)
    requires SlotInv(s) && AcceptorNext(s, o).Some?
    ensures var next, pipes := AcceptorNext(s, o).value, AcceptorPipes(s, o);
            && AllBelow(pipes.installs, pipes.nextPipe)
            && (Preparing(next) ==> next.pipe < pipes.nextPipe && AllBelow(pipes.installs, next.pipe))
            && (Serving(next) ==> |pipes.installs| > 0 && pipes.installs[|pipes.installs| - 1] == next.pipe)
  {
    var next := AcceptorNext(s, o).value;
    if Preparing(next) {
      PreparingFlow(s, o);
    }
    if Serving(next) {
      ServingFlow(s, o);
    }
  }

  lemma AcceptorKeepsSlotEmpty(s: State, o: AcceptorOutcome)
    requires SlotInv(s) && AcceptorNext(s, o).Some?
    requires !Serving(AcceptorNext(s, o).value) && !Ended(AcceptorNext(s, o).value)
    ensures AcceptorShared(s, o).connection == None
  {
    IdleFlow(s, o);
    AcceptorSharesSlot(s, o);
    if s.acceptor.DiscardOwn? {
      DiscardKeeps(s, s.acceptor.pipe);
    }
  }

  lemma AcceptorKeepsSlot(s: State, o: AcceptorOutcome)
    requires SlotInv(s) && AcceptorStep(s, o).Some?
    ensures SlotInv(AcceptorStep(s, o).value)
  {
    AcceptorKeepsCore(s, o);
    AcceptorKeepsPipes(s, o);
    if !Serving(AcceptorNext(s, o).value) && !Ended(AcceptorNext(s, o).value) {
      AcceptorKeepsSlotEmpty(s, o);
    }
    assert forall pipe :: pipe in s.pipes.installs ==> pipe in AcceptorPipes(s, o).installs;
  }

  lemma SupervisorKeepsSlot(s: State, o: SupervisorOutcome)
    requires SlotInv(s) && SupervisorNext(s, o).Some?
    ensures var sh, pipes := SupervisorShared(s, o), SupervisorPipes(s);
            && CoreInv(sh, pipes.installs, pipes.teardowns)
            && AcceptorInv(s.acceptor, sh.connection, pipes.installs, pipes.nextPipe)
            && pipes.installs == s.pipes.installs
  {
    SupervisorSharesSlot(s, o);
    if s.supervisor.RetainDiscard? || s.supervisor.ObserveDiscard? {
      DiscardKeeps(s, s.supervisor.held);
    }
  }

  lemma SupervisorKeepsHeld(s: State, o: SupervisorOutcome)
    requires SlotInv(s) && SupervisorNext(s, o).Some?
    ensures Holding(SupervisorNext(s, o).value) ==> SupervisorNext(s, o).value.held in s.pipes.installs
  {
    if s.shared.connection.Some? {
      assert s.pipes.installs[|s.pipes.installs| - 1] == s.shared.connection.value;
    }
  }

  lemma MainKeepsSlot(s: State, ok: bool)
    requires SlotInv(s) && ThreadsInv(s) && MainStep(s, ok).Some?
    ensures SlotInv(MainStep(s, ok).value)
  {
    MainShares(s.shared, s.main);
  }

  lemma StepKeepsSlot(s: State, a: Action)
    requires SlotInv(s) && ThreadsInv(s) && Step(s, a).Some?
    ensures SlotInv(Step(s, a).value)
  {
    match a
    case MainAction(ok) =>
      MainKeepsSlot(s, ok);
    case HandlerActionOf(Receive(control, ok)) =>
      HandlerEntryShares(s.shared, control, ok);
    case HandlerActionOf(Continue(ok)) =>
      HandlerContinueShares(s.shared, s.handler, ok);
    case AcceptorAction(o) =>
      AcceptorKeepsSlot(s, o);
    case SupervisorAction(o) =>
      SupervisorKeepsSlot(s, o);
      SupervisorKeepsHeld(s, o);
    case _ =>
  }

  lemma SlotHolds(t: State)
    requires Reachable(t)
    ensures SlotInv(t)
  {
    forall u, a | Reachable(u) && SlotInv(u) && Step(u, a).Some?
      ensures SlotInv(Step(u, a).value)
    {
      ThreadsHold(u);
      StepKeepsSlot(u, a);
    }
    ReachableKeeps(SlotInv, t);
  }

  /**
    In every reachable state the connected event is signalled exactly when a connection is installed,
    and the installs are the teardowns followed by the installed connection, each one once: no
    connection is torn down twice, out of order, or replaced without being torn down.
   */
  lemma SlotMirrorsHistory(t: State)
    requires Reachable(t)
    ensures t.shared.agentConnected <==> t.shared.connection.Some?
    ensures t.pipes.installs == t.pipes.teardowns + SlotContents(t.shared.connection)
    ensures Increasing(t.pipes.installs)
  {
    SlotHolds(t);
  }

  /** An install never lands on an occupied slot. */
  lemma InstallLandsOnEmptySlot(t: State)
    requires Reachable(t) && t.acceptor.Install?
    ensures t.shared.connection == None && !t.shared.agentConnected
    ensures t.acceptor.pipe !in t.pipes.installs
  {
    SlotHolds(t);
  }

  /**
    A supervisor that discards the connection it once fetched leaves the slot exactly as it is
    whenever another connection is installed by then; that connection is a newer one.
   */
  lemma StaleDiscardSparesNewer(s: State, o: SupervisorOutcome, newer: nat)
    requires Reachable(s) && SupervisorStep(s, o).Some?
    requires s.supervisor.RetainDiscard? || s.supervisor.ObserveDiscard?
    requires s.shared.connection == Some(newer) && newer != s.supervisor.held
    ensures s.supervisor.held < newer
    ensures var t := SupervisorStep(s, o).value; t.shared == s.shared && t.pipes.teardowns == s.pipes.teardowns
  {
    SlotHolds(s);
    var installs := s.pipes.installs;
    assert installs[|installs| - 1] == newer;
    var i :| 0 <= i < |installs| && installs[i] == s.supervisor.held;
  }
}
