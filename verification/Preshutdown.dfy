/** PRESHUTDOWN against STOP: acceptance, rollback and the branch that service main takes. */
module Preshutdown {
  import opened Options
  import opened ServiceState
  import opened ServiceSystem
  import opened ServiceFrames
  import opened ServiceThreads
  import opened CommitPath

  predicate InStop(pc: HandlerPc) {
    pc.StopReport? || pc.StopSignal?
  }

  predicate InPreshutdown(pc: HandlerPc) {
    pc.PreshutdownClaim? || pc.PreshutdownReport? || pc.PreshutdownSignal? || pc.PreshutdownRollback?
  }

  /** Service main has chosen `branch`. */
  predicate OnBranch(pc: MainPc, branch: Branch) {
    || ((StoppingSupervisor(pc) || StoppingAcceptor(pc) || Closing(pc)) && pc.branch == branch)
    || (branch.CommitBranch? && (pc.ConsumeSkipToken? || pc.StartWorker? || RunsWorker(pc)))
  }

  ghost predicate FlagInv(pc: HandlerPc, sh: Shared) {
    && (pc.Idle? ==> sh.preshutdownStarted == sh.preshutdownEvent)
    && (InStop(pc) ==> !sh.preshutdownStarted && !sh.preshutdownEvent)
    && (InPreshutdown(pc) ==> sh.preshutdownStarted && !sh.preshutdownEvent)
  }

  ghost predicate BranchInv(s: State) {
    && (OnBranch(s.main, CommitBranch) ==> s.shared.preshutdownEvent)
    && (OnBranch(s.main, StopBranch) ==> s.shared.stopEvent)
    && (s.acceptor.AcceptorSignal? || s.supervisor.SupervisorSignal? ==> s.failures != [])
  }

  ghost predicate PreshutdownInv(s: State) {
    && FlagInv(s.handler, s.shared)
    && BranchInv(s)
    && (s.scm.acceptedAt.Some? <==> s.shared.preshutdownEvent)
  }

  lemma MainBranches(s: State, ok: bool, branch: Branch)
    requires MainNext(s, ok).Some? && OnBranch(MainNext(s, ok).value, branch)
    ensures || OnBranch(s.main, branch)
            || (branch.FailBranch? && s.main.SignalFailure?)
            || (s.main.AwaitShutdown? && ok && branch.StopBranch? && s.shared.stopEvent)
            || (s.main.AwaitShutdown? && ok && branch.CommitBranch? && !s.shared.stopEvent && s.shared.preshutdownEvent)
  {
  }

  lemma MainKeepsBranch(s: State, ok: bool)
    requires PreshutdownInv(s) && MainStep(s, ok).Some?
    ensures PreshutdownInv(MainStep(s, ok).value)
  {
    MainShares(s.shared, s.main);
    var next := MainNext(s, ok).value;
    if OnBranch(next, CommitBranch) {
      MainBranches(s, ok, CommitBranch);
    }
    if OnBranch(next, StopBranch) {
      MainBranches(s, ok, StopBranch);
    }
    assert MainScm(s.scm, s.main, ok).acceptedAt == s.scm.acceptedAt;
  }

  lemma EntryKeepsFlags(sh: Shared, control: ServiceControl, ok: bool)
    requires FlagInv(Idle, sh)
    ensures var turn := HandlerEntry(sh, control, ok); FlagInv(turn.pc, turn.shared)
  {
  }

  lemma ContinueKeepsFlags(sh: Shared, pc: HandlerPc, ok: bool)
    requires !pc.Idle? && FlagInv(pc, sh)
    ensures var turn := HandlerContinue(sh, pc, ok);
            && FlagInv(turn.pc, turn.shared)
            && (sh.preshutdownEvent ==> turn.shared.preshutdownEvent)
            && (turn.shared.preshutdownEvent <==> sh.preshutdownEvent || (pc.PreshutdownSignal? && turn.pc.Idle?))
  {
  }

  lemma HandlerKeepsPreshutdown(s: State, a: HandlerAction)
    requires PreshutdownInv(s) && HandlerStep(s, a).Some?
    ensures PreshutdownInv(HandlerStep(s, a).value)
  {
    match a
    case Receive(control, ok) =>
      HandlerEntryShares(s.shared, control, ok);
      EntryKeepsFlags(s.shared, control, ok);
    case Continue(ok) =>
      HandlerContinueShares(s.shared, s.handler, ok);
      ContinueKeepsFlags(s.shared, s.handler, ok);
  }

  lemma StepKeepsPreshutdown(s: State, a: Action)
    requires PreshutdownInv(s) && Step(s, a).Some?
    ensures PreshutdownInv(Step(s, a).value)
  {
    match a
    case MainAction(ok) => MainKeepsBranch(s, ok);
    case HandlerActionOf(h) => HandlerKeepsPreshutdown(s, h);
    case AcceptorAction(o) =>
      AcceptorShares(s, o);
      AcceptorSharesStatus(s, o);
      AcceptorSignalFlow(s, o);
    case SupervisorAction(o) =>
      SupervisorShares(s, o);
      SupervisorSharesStatus(s, o);
      SupervisorSignalFlow(s, o);
    case _ =>
  }

  lemma AcceptorSignalFlow(s: State, o: AcceptorOutcome)
    ensures AcceptorNext(s, o) == Some(AcceptorSignal) ==> s.acceptor.AcceptorFailing?
  {
  }

  lemma SupervisorSignalFlow(s: State, o: SupervisorOutcome)
    ensures SupervisorNext(s, o) == Some(SupervisorSignal) ==> s.supervisor.SupervisorFailing?
  {
  }

  lemma PreshutdownHolds(t: State)
    requires Reachable(t)
    ensures PreshutdownInv(t)
  {
    forall u, a | Reachable(u) && PreshutdownInv(u) && Step(u, a).Some?
      ensures PreshutdownInv(Step(u, a).value)
    {
      StepKeepsPreshutdown(u, a);
    }
    ReachableKeeps(PreshutdownInv, t);
  }

  /**
    Between handler calls the started flag equals the preshutdown event, also after a rollback; the commit
    branch is taken only after PRESHUTDOWN was accepted.
   */
  lemma StartedMatchesEvent(t: State)
    requires Reachable(t)
    ensures t.handler.Idle? ==> (t.shared.preshutdownStarted <==> t.shared.preshutdownEvent)
    ensures t.shared.preshutdownEvent <==> t.scm.acceptedAt.Some?
    ensures OnBranch(t.main, CommitBranch) ==> t.shared.preshutdownEvent
  {
    PreshutdownHolds(t);
  }

  // ----- Which branch follows an accepted PRESHUTDOWN -----

  /** PRESHUTDOWN has been accepted, and only an infrastructure failure could still divert service main. */
  ghost predicate Guarded(s: State) {
    && s.handler.Idle? && s.shared.preshutdownStarted && s.shared.preshutdownEvent
    && (s.acceptor.AcceptorSignal? || s.supervisor.SupervisorSignal? ==> s.failures != [])
    && (s.failures == [] ==> (Starting(s.main) ==> !s.shared.stopEvent) && !OnBranch(s.main, StopBranch))
  }

  lemma MainKeepsGuarded(s: State, ok: bool)
    requires Guarded(s) && MainStep(s, ok).Some?
    ensures Guarded(MainStep(s, ok).value)
  {
    MainShares(s.shared, s.main);
    if OnBranch(MainNext(s, ok).value, StopBranch) {
      MainBranches(s, ok, StopBranch);
    }
    if Starting(MainNext(s, ok).value) {
      NeverRestarts(s, ok);
    }
  }

  lemma NeverRestarts(s: State, ok: bool)
    requires MainNext(s, ok).Some? && Starting(MainNext(s, ok).value)
    ensures Starting(s.main)
  {
  }

  lemma StepKeepsGuarded(s: State, a: Action)
    requires Guarded(s) && Step(s, a).Some?
    ensures Guarded(Step(s, a).value)
  {
    match a
    case MainAction(ok) =>
      MainKeepsGuarded(s, ok);
    case HandlerActionOf(Receive(control, ok)) => HandlerEntryShares(s.shared, control, ok);
    case AcceptorAction(o) =>
      AcceptorShares(s, o);
      AcceptorSharesStatus(s, o);
      AcceptorSignalFlow(s, o);
    case SupervisorAction(o) =>
      SupervisorShares(s, o);
      SupervisorSharesStatus(s, o);
      SupervisorSignalFlow(s, o);
    case _ =>
  }

  /** The stop event was already set at the acceptance, while service main had not yet looked. */
  ghost predicate Diverted(s: State) {
    s.shared.stopEvent && !OnBranch(s.main, CommitBranch)
  }

  lemma StepKeepsDiverted(s: State, a: Action)
    requires Diverted(s) && Step(s, a).Some?
    ensures Diverted(Step(s, a).value)
  {
    match a
    case MainAction(ok) =>
      MainShares(s.shared, s.main);
      if OnBranch(MainNext(s, ok).value, CommitBranch) {
        MainBranches(s, ok, CommitBranch);
      }
    case HandlerActionOf(Receive(control, ok)) => HandlerEntryShares(s.shared, control, ok);
    case HandlerActionOf(Continue(ok)) => HandlerContinueShares(s.shared, s.handler, ok);
    case AcceptorAction(o) => AcceptorShares(s, o);
    case SupervisorAction(o) => SupervisorShares(s, o);
    case _ =>
  }

  /**
    Let PRESHUTDOWN be accepted in state `s`, and let the run go on in any way to a state `t`. If the stop event was clear
    at the acceptance and no infrastructure thread has failed, service main never takes the stop branch, whatever STOP
    controls follow: it still waits, or has chosen to commit, or one of its own calls failed. If the stop event was set,
    for whatever reason, service main never takes the commit branch.
   */
  lemma StopCannotPreemptAccepted(s: State, run: seq<Action>, t: State)
    requires Reachable(s) && s.handler.PreshutdownSignal?
    requires Leads(Accepted(s), run, t)
    ensures !s.shared.stopEvent && t.failures == [] ==> !OnBranch(t.main, StopBranch)
    ensures !s.shared.stopEvent && t.failures == [] && t.main.AwaitShutdown? ==>
              MainNext(t, true).Some? && OnBranch(MainNext(t, true).value, CommitBranch)
    ensures s.shared.stopEvent ==> !OnBranch(t.main, CommitBranch)
  {
    if s.shared.stopEvent {
      SetStopEventPrevails(s, run, t);
    } else {
      PreshutdownHolds(s);
      ThreadsHold(s);
      assert Guarded(Accepted(s));
      forall u, a | Guarded(u) && Step(u, a).Some?
        ensures Guarded(Step(u, a).value)
      {
        StepKeepsGuarded(u, a);
      }
      RunKeeps(Guarded, Accepted(s), run, t);
    }
  }

  /** The state in which the handler has signalled the preshutdown event. */
  function Accepted(s: State): State
    requires s.handler.PreshutdownSignal?
  {
    Step(s, HandlerActionOf(Continue(true))).value
  }

  lemma SetStopEventPrevails(s: State, run: seq<Action>, t: State)
    requires Reachable(s) && s.handler.PreshutdownSignal? && s.shared.stopEvent
    requires Leads(Accepted(s), run, t)
    ensures !OnBranch(t.main, CommitBranch)
  {
    PreshutdownHolds(s);
    forall u, a | Diverted(u) && Step(u, a).Some?
      ensures Diverted(Step(u, a).value)
    {
      StepKeepsDiverted(u, a);
    }
    RunKeeps(Diverted, Accepted(s), run, t);
  }

  // ----- When RUNNING has been published -----

  ghost predicate RunningInv(s: State) {
    && (s.main.SpawnAcceptor? || s.main.SpawnSupervisor? || s.main.SignalAgentNeeded? || s.main.ReportRunning? ==> !s.scm.running)
    && (!s.handler.Idle? || s.shared.preshutdownStarted ==> s.scm.running)
  }

  lemma MainKeepsRunning(s: State, ok: bool)
    requires RunningInv(s) && MainStep(s, ok).Some?
    ensures RunningInv(MainStep(s, ok).value)
  {
    MainShares(s.shared, s.main);
  }

  lemma StepKeepsRunning(s: State, a: Action)
    requires RunningInv(s) && Step(s, a).Some?
    ensures RunningInv(Step(s, a).value)
  {
    match a
    case MainAction(ok) => MainKeepsRunning(s, ok);
    case AcceptorAction(o) => AcceptorSharesStatus(s, o);
    case SupervisorAction(o) => SupervisorSharesStatus(s, o);
    case _ =>
  }

  lemma RunningHolds(t: State)
    requires Reachable(t)
    ensures RunningInv(t)
  {
    forall u, a | Reachable(u) && RunningInv(u) && Step(u, a).Some?
      ensures RunningInv(Step(u, a).value)
    {
      StepKeepsRunning(u, a);
    }
    ReachableKeeps(RunningInv, t);
  }

  // ----- When an accepted PRESHUTDOWN can commit -----

  /** Service main has chosen something else than to commit. */
  ghost predicate ChosenOtherwise(s: State) {
    !Starting(s.main) && !OnBranch(s.main, CommitBranch)
  }

  lemma StepKeepsChoice(s: State, a: Action)
    requires ChosenOtherwise(s) && Step(s, a).Some?
    ensures ChosenOtherwise(Step(s, a).value)
  {
    if a.MainAction? {
      var next := MainNext(s, a.ok).value;
      if OnBranch(next, CommitBranch) {
        MainBranches(s, a.ok, CommitBranch);
      }
      if Starting(next) {
        NeverRestarts(s, a.ok);
      }
    }
  }

  lemma ChoiceStands(s: State, run: seq<Action>, t: State)
    requires Reachable(s) && s.handler.PreshutdownSignal? && !s.main.AwaitShutdown?
    requires Leads(Accepted(s), run, t)
    ensures !OnBranch(t.main, CommitBranch)
  {
    PreshutdownHolds(s);
    RunningHolds(s);
    assert ChosenOtherwise(Accepted(s));
    forall u, a | ChosenOtherwise(u) && Step(u, a).Some?
      ensures ChosenOtherwise(Step(u, a).value)
    {
      StepKeepsChoice(u, a);
    }
    RunKeeps(ChosenOtherwise, Accepted(s), run, t);
  }

  /** After the acceptance in `s` some run commits. */
  ghost predicate MayCommit(s: State)
    requires s.handler.PreshutdownSignal?
  {
    exists run, t :: Leads(Accepted(s), run, t) && OnBranch(t.main, CommitBranch)
  }

  /**
    An accepted PRESHUTDOWN can lead to a commit if and only if at its acceptance service main still waits and the stop
    event is clear, whether STOP or an infrastructure failure has set it.
   */
  lemma StopEventDecides(s: State)
    requires Reachable(s) && s.handler.PreshutdownSignal?
    ensures MayCommit(s) <==> s.main.AwaitShutdown? && !s.shared.stopEvent
  {
    if MayCommit(s) {
      var run, t :| Leads(Accepted(s), run, t) && OnBranch(t.main, CommitBranch);
      if s.shared.stopEvent {
        SetStopEventPrevails(s, run, t);
      }
      if !s.main.AwaitShutdown? {
        ChoiceStands(s, run, t);
      }
    }
    if s.main.AwaitShutdown? && !s.shared.stopEvent {
      CommitChosen(s);
    }
  }

  lemma CommitChosen(s: State)
    requires s.handler.PreshutdownSignal? && s.main.AwaitShutdown? && !s.shared.stopEvent
    ensures MayCommit(s)
  {
    var first := Accepted(s);
    var t := Step(first, MainAction(true)).value;
    assert Leads(t, [], t);
    LeadsCons(first, MainAction(true), t, [], t);
    assert OnBranch(t.main, CommitBranch);
  }

  // ----- The condition is needed -----

  /** The start: RUNNING is published, both infrastructure threads are on their way, and the first agent is asked for. */
  lemma WaitingReachable() returns (t: State)
    ensures Reachable(t) && t.main.AwaitShutdown? && t.handler.Idle? && t.scm.running && t.scm.terminatedAt.None?
    ensures !t.shared.stopEvent && !t.shared.preshutdownStarted && !t.shared.preshutdownEvent && t.failures == []
    ensures t.acceptor.PrepareDescriptor? && t.supervisor.SupervisorTop? && t.threads == Threads(false, false, true, true)
    ensures t.shared.skipDeadline == None && t.scm.claims == 0
    ensures t.shared.agentNeeded && t.agent.signals == [AtStart]
    ensures t.scm.published == [Publication(StatusOf(START_PENDING), FromStartup), Publication(StatusOf(RUNNING), FromStartup)]
  {
    var t1 := ThreadsReachable();
    var t2 := ReachedBy(t1, MainAction(true));
    t := ReachedBy(t2, MainAction(true));
  }

  /** Both infrastructure threads have been started and have done nothing yet. */
  lemma ThreadsReachable() returns (t: State)
    ensures Reachable(t)
    ensures t == INIT.(main := SignalAgentNeeded, acceptor := PrepareDescriptor, supervisor := SupervisorTop,
                       threads := Threads(false, false, true, true))
  {
    InitReachable();
    var t1 := ReachedBy(INIT, MainAction(true));
    t := ReachedBy(t1, MainAction(true));
  }

  /** A STOP that is handled while service main still waits. */
  lemma StopHandled(s: State) returns (t: State)
    requires Reachable(s) && s.main.AwaitShutdown? && s.handler.Idle? && MayReceive(s, StopControl) && !s.shared.preshutdownStarted
    ensures Reachable(t) && t.main == s.main && t.handler.Idle? && t.scm.running && t.scm.terminatedAt.None?
    ensures t.shared.stopEvent && !t.shared.preshutdownStarted && t.failures == s.failures
  {
    ReachableStep(s, HandlerActionOf(Receive(StopControl, true)));
    var t1 := Step(s, HandlerActionOf(Receive(StopControl, true))).value;
    ReachableStep(t1, HandlerActionOf(Continue(true)));
    var t2 := Step(t1, HandlerActionOf(Continue(true))).value;
    ReachableStep(t2, HandlerActionOf(Continue(true)));
    t := Step(t2, HandlerActionOf(Continue(true))).value;
  }

  lemma PreshutdownReceived(s: State) returns (t: State)
    requires Reachable(s) && s.handler.Idle? && MayReceive(s, PreshutdownControl) && !s.shared.preshutdownStarted
    ensures Reachable(t) && t == s.(handler := PreshutdownClaim, shared := s.shared.(preshutdownStarted := true))
  {
    t := ReachedBy(s, HandlerActionOf(Receive(PreshutdownControl, true)));
  }

  lemma PreshutdownClaimed(s: State) returns (t: State)
    requires Reachable(s) && s.handler.PreshutdownClaim?
    ensures Reachable(t)
    ensures t == s.(handler := PreshutdownReport(CheckpointClaimed(s.shared).checkpoint), shared := CheckpointClaimed(s.shared),
                    scm := s.scm.(claims := s.scm.claims + 1))
  {
    t := ReachedBy(s, HandlerActionOf(Continue(true)));
  }

  lemma PreshutdownPublished(s: State) returns (t: State)
    requires Reachable(s) && s.handler.PreshutdownReport?
    ensures Reachable(t)
    ensures t == s.(handler := PreshutdownSignal, shared := Reported(s.shared, StopPendingAt(s.handler.claimed)), scm := t.scm)
    ensures t.scm == Published(s.scm, StatusOf(StopPendingAt(s.handler.claimed)), FromPreshutdown).(reportedAt := |s.scm.published|)
  {
    t := ReachedBy(s, HandlerActionOf(Continue(true)));
  }

  /** The record of a PRESHUTDOWN reaches the SCM; only the signal is left to do. */
  lemma PreshutdownReported(s: State) returns (t: State)
    requires Reachable(s) && s.handler.Idle? && MayReceive(s, PreshutdownControl) && !s.shared.preshutdownStarted
    ensures Reachable(t) && t.handler.PreshutdownSignal?
    ensures t == s.(handler := PreshutdownSignal, shared := t.shared, scm := t.scm)
    ensures t.shared == CheckpointClaimed(s.shared).(preshutdownStarted := true, status := t.shared.status)
    ensures var record := Publication(StatusOf(StopPendingAt(CheckpointClaimed(s.shared).checkpoint)), FromPreshutdown);
            t.scm == s.scm.(published := s.scm.published + [record], claims := s.scm.claims + 1, reportedAt := |s.scm.published|)
  {
    var t1 := PreshutdownReceived(s);
    var t2 := PreshutdownClaimed(t1);
    assert t2.shared == CheckpointClaimed(s.shared).(preshutdownStarted := true);
    assert t2 == s.(handler := t2.handler, shared := t2.shared, scm := s.scm.(claims := s.scm.claims + 1));
    t := PreshutdownPublished(t2);
    assert t.shared == t2.shared.(status := t.shared.status);
  }

  /** The accepting step. */
  lemma PreshutdownSignalled(s: State) returns (t: State)
    requires Reachable(s) && s.handler.PreshutdownSignal?
    ensures Reachable(t)
    ensures t == s.(handler := Idle, shared := s.shared.(preshutdownEvent := true), scm := s.scm.(acceptedAt := Some(s.scm.reportedAt)))
  {
    ReachableStep(s, HandlerActionOf(Continue(true)));
    t := Step(s, HandlerActionOf(Continue(true))).value;
  }

  /**
    Not every accepted PRESHUTDOWN leads to a commit: in the run STOP, PRESHUTDOWN, wait, service main takes the
    stop branch although PRESHUTDOWN was accepted and nothing failed.
   */
  lemma AcceptedPreshutdownMayNotCommit()
    ensures exists t :: Reachable(t) && t.scm.acceptedAt.Some? && t.failures == [] && OnBranch(t.main, StopBranch)
  {
    var t0 := WaitingReachable();
    var t1 := StopHandled(t0);
    var t2 := PreshutdownReported(t1);
    var t3 := PreshutdownSignalled(t2);
    ReachableStep(t3, MainAction(true));
    var t := Step(t3, MainAction(true)).value;
    assert t.scm.acceptedAt.Some? && t.failures == [] && OnBranch(t.main, StopBranch);
  }

  /** An infrastructure thread fails and stops the service while service main still waits. */
  lemma AcceptorFails(s: State, error: nat) returns (t: State)
    requires Reachable(s) && s.acceptor.PrepareDescriptor?
    ensures Reachable(t) && t.acceptor.AcceptorDone? && t.failures == s.failures + [error]
    ensures t.shared == StopSignalled(FailureRecorded(s.shared, error))
    ensures t.main == s.main && t.handler == s.handler && t.scm == s.scm
  {
    var t1 := ReachedBy(s, AcceptorAction(Fail(error, false)));
    assert t1 == s.(acceptor := AcceptorFailing(error));
    t := FailureStops(t1);
  }

  lemma FailureStops(s: State) returns (t: State)
    requires Reachable(s) && s.acceptor.AcceptorFailing?
    ensures Reachable(t)
    ensures t == s.(acceptor := AcceptorDone, failures := s.failures + [s.acceptor.error],
                    shared := StopSignalled(FailureRecorded(s.shared, s.acceptor.error)))
  {
    var t1 := ReachedBy(s, AcceptorAction(Proceed));
    assert t1 == s.(acceptor := AcceptorSignal, failures := s.failures + [s.acceptor.error],
                    shared := FailureRecorded(s.shared, s.acceptor.error));
    t := ReachedBy(t1, AcceptorAction(Proceed));
  }

  /** No STOP was ever handled, and the record before the accepted PRESHUTDOWN is RUNNING, which accepts that control. */
  ghost predicate AcceptedWhileRunning(h: ScmHistory) {
    && h.acceptedAt.Some? && 0 < h.acceptedAt.value < |h.published|
    && h.published[h.acceptedAt.value - 1].status == StatusOf(RUNNING)
    && forall k :: 0 <= k < |h.published| ==> !h.published[k].source.FromStop?
  }

  /**
    Nor does it take a STOP: in the run acceptor failure, PRESHUTDOWN, wait, the control arrives while RUNNING with all its
    controls is the published record, is accepted, and yet service main takes the stop branch.
   */
  lemma FailureMayDivertPreshutdown()
    ensures exists t :: Reachable(t) && AcceptedWhileRunning(t.scm) && OnBranch(t.main, StopBranch)
  {
    var t0 := WaitingReachable();
    var t1 := AcceptorFails(t0, ERROR_GEN_FAILURE);
    var t2 := PreshutdownReported(t1);
    var t3 := PreshutdownSignalled(t2);
    var t := ReachedBy(t3, MainAction(true));
    assert t.scm == t3.scm && OnBranch(t.main, StopBranch);
    RunningThenPreshutdown(t0.scm, t.scm);
  }

  lemma RunningThenPreshutdown(before: ScmHistory, after: ScmHistory)
    requires before.published == [Publication(StatusOf(START_PENDING), FromStartup), Publication(StatusOf(RUNNING), FromStartup)]
    requires |after.published| == 3 && after.published[..2] == before.published && after.published[2].source.FromPreshutdown?
    requires after.acceptedAt == Some(2)
    ensures AcceptedWhileRunning(after)
  {
    assert after.published[0] == before.published[0] && after.published[1] == before.published[1];
  }
}
