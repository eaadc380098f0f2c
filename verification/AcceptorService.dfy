/** What the pipe acceptor does for a client: it lets clients in, serves their frames, and cuts them off. */
module AcceptorService {
  import opened Options
  import opened EnhancedModeProtocol
  import opened ServiceState
  import opened ServiceSystem
  import opened ServiceThreads
  import opened ServiceFrames
  import opened ConnectionSlot
  import opened Preshutdown

  // ----- A valid frame -----

  /** The service is not stopping: neither the event nor the acceptor's token is set. */
  predicate Running(s: State) {
    !s.shared.stopEvent && !s.threads.acceptorStopRequested
  }

  /** The state after two acceptor steps. */
  function TwoSteps(s: State, first: AcceptorOutcome, second: AcceptorOutcome): Option<State> {
    var t := AcceptorStep(s, first);
    if t.None? then None else AcceptorStep(t.value, second)
  }

  /**
    Whatever valid message a client sends: once its frame is read, the acceptor's next step applies the message's control
    to the skip token, arming it for five minutes or disarming it.
   */
  lemma ValidFrameIsApplied(s: State, message: Message, frame: Frame, o: AcceptorOutcome)
    requires s.acceptor.ReadWait? && message.requestId < REQUEST_ID_LIMIT && Encode(message) == Some(frame)
    ensures TwoSteps(s, Received(frame), o).Some?
    ensures var t := TwoSteps(s, Received(frame), o).value;
            && t.controls.applied == s.controls.applied + [AppliedControl(s.acceptor.pipe, frame, message.control, s.now)]
            && t.shared == s.shared.(skipDeadline := if message.control.PreshutdownCommitHandled? then Some(s.now + 300_000) else None)
            && t.controls.echoed == s.controls.echoed && t.pipes == s.pipes && t.now == s.now
  {
    DecodeExactlyEncodings(frame, message);
  }

  /**
    And with the stop event clear the frame is echoed, and once the write completes the acceptor reads the next frame of
    the same client.
   */
  lemma ValidFrameIsEchoed(s: State, message: Message, frame: Frame, o: AcceptorOutcome, p: AcceptorOutcome, delivered: bool)
    requires s.acceptor.ReadWait? && message.requestId < REQUEST_ID_LIMIT && Encode(message) == Some(frame) && !s.shared.stopEvent
    ensures TwoSteps(s, Received(frame), o).Some?
    ensures var t := TwoSteps(s, Received(frame), o).value;
            && TwoSteps(t, p, Io(Completed, delivered)).Some?
            && var u := TwoSteps(t, p, Io(Completed, delivered)).value;
               && u.acceptor == ReadStart(s.acceptor.pipe)
               && u.controls == t.controls.(echoed := s.controls.echoed + [Echo(s.acceptor.pipe, frame)])
               && u.shared == t.shared && u.pipes == s.pipes
  {
    ValidFrameIsApplied(s, message, frame, o);
    AfterApplying(s, message, frame, o);
    EchoCompletes(TwoSteps(s, Received(frame), o).value, s.acceptor.pipe, frame, p, delivered);
  }

  lemma AfterApplying(s: State, message: Message, frame: Frame, o: AcceptorOutcome)
    requires s.acceptor.ReadWait? && message.requestId < REQUEST_ID_LIMIT && Encode(message) == Some(frame)
    ensures TwoSteps(s, Received(frame), o).Some? && TwoSteps(s, Received(frame), o).value.acceptor == EchoStart(s.acceptor.pipe, frame)
  {
    DecodeExactlyEncodings(frame, message);
  }

  lemma EchoCompletes(s: State, pipe: nat, frame: Frame, p: AcceptorOutcome, delivered: bool)
    requires s.acceptor == EchoStart(pipe, frame) && !s.shared.stopEvent
    ensures TwoSteps(s, p, Io(Completed, delivered))
         == Some(s.(acceptor := ReadStart(pipe), controls := s.controls.(echoed := s.controls.echoed + [Echo(pipe, frame)])))
  {
  }

  // ----- Cutting a client off -----

  /** A read that brings no valid frame, or an echo that does not complete. */
  ghost predicate ClientFails(s: State, o: AcceptorOutcome) {
    || (s.acceptor.ReadWait? && o.Received? && forall m: Message :: m.requestId < REQUEST_ID_LIMIT ==> Encode(m) != Some(o.frame))
    || ((s.acceptor.ReadWait? || s.acceptor.EchoWait?) && IoPossible(s, o) && !o.result.Completed?)
  }

  lemma InvalidFrame(frame: Frame)
    requires forall m: Message :: m.requestId < REQUEST_ID_LIMIT ==> Encode(m) != Some(frame)
    ensures Decode(frame).None?
  {
    if Decode(frame).Some? {
      DecodedFits(frame);
      DecodeExactlyEncodings(frame, Decode(frame).value);
    }
  }

  /**
    A client that sends anything but a valid frame, that goes away, or whose echo cannot be completed is cut off: its
    connection leaves the slot with the event, nothing is applied, and with the service running the next client is let in.
   */
  lemma FailedClientIsCutOff(s: State, o: AcceptorOutcome, p: AcceptorOutcome, q: AcceptorOutcome)
    requires ClientFails(s, o)
    ensures TwoSteps(s, o, p).Some?
    ensures var t := TwoSteps(s, o, p).value;
            && t.shared == Discarded(s.shared, s.acceptor.pipe) && t.controls.applied == s.controls.applied
            && t.shared.connection != Some(s.acceptor.pipe)
            && (Running(s) ==> AcceptorStep(t, q) == Some(t.(acceptor := AcceptorTop)))
            && (s.shared.stopEvent ==> AcceptorStep(t, q) == Some(t.(acceptor := AcceptorDone)))
  {
    if o.Received? {
      InvalidFrame(o.frame);
    }
    var t := AcceptorStep(s, o).value;
    assert t.acceptor == DiscardOwn(s.acceptor.pipe) && t.shared == s.shared;
    CutOff(t, p, q);
  }

  lemma CutOff(s: State, p: AcceptorOutcome, q: AcceptorOutcome)
    requires s.acceptor.DiscardOwn?
    ensures AcceptorStep(s, p)
         == Some(s.(acceptor := AfterDiscard, shared := Discarded(s.shared, s.acceptor.pipe), pipes := DiscardedPipes(s, s.acceptor.pipe)))
    ensures var t := AcceptorStep(s, p).value;
            && (Running(s) ==> AcceptorStep(t, q) == Some(t.(acceptor := AcceptorTop)))
            && (s.shared.stopEvent ==> AcceptorStep(t, q) == Some(t.(acceptor := AcceptorDone)))
  {
  }

  // ----- Letting a client in -----

  /**
    A client that passes authentication and takes the handshake while the service runs gets the connection slot and the
    event, and the acceptor turns to its frames; a client that is refused or lost before that leaves everything as it was.
   */
  lemma AuthenticatedClientIsInstalled(s: State, p: AcceptorOutcome, delivered: bool)
    requires s.acceptor.Authenticate? && Running(s)
    ensures var pipe := s.acceptor.pipe;
            && TwoSteps(s, Proceed, p) == Some(s.(acceptor := HandshakeWait(pipe), controls := Admitted(s.controls, pipe)))
            && TwoSteps(s.(acceptor := HandshakeWait(pipe), controls := Admitted(s.controls, pipe)), Io(Completed, delivered), Proceed)
            == Some(s.(acceptor := ReadStart(pipe), shared := s.shared.(connection := Some(pipe), agentConnected := true),
                       pipes := s.pipes.(installs := s.pipes.installs + [pipe]),
                       controls := Admitted(s.controls, pipe).(handshaken := s.controls.handshaken + {pipe})))
  {
    Handshakes(s, p);
    Installs(s.(acceptor := HandshakeWait(s.acceptor.pipe), controls := Admitted(s.controls, s.acceptor.pipe)), delivered);
  }

  function Admitted(controls: ControlHistory, pipe: nat): ControlHistory {
    controls.(authenticated := controls.authenticated + {pipe})
  }

  lemma Handshakes(s: State, p: AcceptorOutcome)
    requires s.acceptor.Authenticate? && Running(s)
    ensures TwoSteps(s, Proceed, p) == Some(s.(acceptor := HandshakeWait(s.acceptor.pipe), controls := Admitted(s.controls, s.acceptor.pipe)))
  {
  }

  lemma Installs(s: State, delivered: bool)
    requires s.acceptor.HandshakeWait?
    ensures TwoSteps(s, Io(Completed, delivered), Proceed)
         == Some(s.(acceptor := ReadStart(s.acceptor.pipe), shared := s.shared.(connection := Some(s.acceptor.pipe), agentConnected := true),
                    pipes := s.pipes.(installs := s.pipes.installs + [s.acceptor.pipe]),
                    controls := s.controls.(handshaken := s.controls.handshaken + {s.acceptor.pipe})))
  {
  }

  lemma LostClientChangesNothing(s: State, o: AcceptorOutcome)
    requires || (s.acceptor.Authenticate? && o.Refuse?)
             || (s.acceptor.HandshakeWait? && o.Io? && o.result.Disconnected?)
             || (s.acceptor.ConnectDone? && s.acceptor.io.Disconnected? && Running(s))
    ensures AcceptorStep(s, o) == Some(s.(acceptor := AcceptorTop))
  {
  }

  // ----- Always ready for the next client -----

  ghost predicate AcceptorLeads(s: State, t: State) {
    exists run: seq<Action> :: Leads(s, run, t) && forall i :: 0 <= i < |run| ==> run[i].AcceptorAction?
  }

  lemma AcceptorStays(s: State)
    ensures AcceptorLeads(s, s)
  {
    assert Leads(s, [], s);
  }

  lemma AcceptorGoesOn(s: State, t: State, o: AcceptorOutcome) returns (u: State)
    requires AcceptorLeads(s, t) && AcceptorStep(t, o).Some?
    ensures AcceptorLeads(s, u) && AcceptorStep(t, o) == Some(u)
  {
    var run: seq<Action> :| Leads(s, run, t) && forall i :: 0 <= i < |run| ==> run[i].AcceptorAction?;
    u := AcceptorStep(t, o).value;
    var longer := run + [AcceptorAction(o)];
    assert longer[..|longer| - 1] == run;
    assert Leads(s, longer, u);
  }

  lemma AcceptorGoesOnTwice(s: State, t: State, o: AcceptorOutcome, p: AcceptorOutcome) returns (u: State)
    requires AcceptorLeads(s, t) && TwoSteps(t, o, p).Some?
    ensures AcceptorLeads(s, u) && TwoSteps(t, o, p) == Some(u)
  {
    var v := AcceptorGoesOn(s, t, o);
    u := AcceptorGoesOn(s, v, p);
  }

  /** The acceptor has been started and has not come to its end. */
  predicate Active(pc: AcceptorPc) {
    !pc.AcceptorNotStarted? && !Ended(pc)
  }

  /** The outcome at which the client at hand, if there is one, goes away. */
  function ClientLeaves(pc: AcceptorPc): AcceptorOutcome {
    if pc.ConnectWait? || pc.HandshakeWait? || pc.ReadWait? || pc.EchoWait? then Io(Disconnected, false)
    else if pc.Authenticate? then Refuse
    else Proceed
  }

  /** Without a stop, a client that goes away brings the acceptor back to its loop in at most eight steps. */
  function StepsToTop(pc: AcceptorPc): nat
    requires Active(pc)
  {
    match pc
    case AcceptorTop => 0
    case PrepareDescriptor => 1
    case AfterDiscard => 1
    case DiscardOwn(_) => 2
    case ReadWait(_) => 3
    case EchoWait(_, _) => 3
    case ReadStart(_) => 4
    case EchoStart(_, _) => 4
    case ApplyFrame(_, _, _) => 5
    case Install(_) => 5
    case HandshakeWait(_) => 1
    case HandshakeStart(_) => 2
    case Authenticate(_) => 1
    case ConnectDone(_, _) => 2
    case ConnectWait(_) => 3
    case ConnectStart(_) => 4
    case CreatePipe => 5
  }

  lemma LeavingComesCloser(s: State)
    requires Active(s.acceptor) && !s.acceptor.AcceptorTop? && Running(s) && (s.acceptor.ConnectDone? ==> !s.acceptor.io.IoStopped?)
    ensures AcceptorNext(s, ClientLeaves(s.acceptor)).Some?
    ensures var next := AcceptorNext(s, ClientLeaves(s.acceptor)).value;
            && Active(next) && StepsToTop(next) < StepsToTop(s.acceptor) && (next.ConnectDone? ==> !next.io.IoStopped?)
  {
  }

  lemma LeavingKeepsRunning(s: State)
    requires Active(s.acceptor) && Running(s) && AcceptorStep(s, ClientLeaves(s.acceptor)).Some?
    ensures Running(AcceptorStep(s, ClientLeaves(s.acceptor)).value)
    ensures s.pipes.installs <= AcceptorStep(s, ClientLeaves(s.acceptor)).value.pipes.installs
  {
    AcceptorShares(s, ClientLeaves(s.acceptor));
  }

  lemma {:induction false} BackToTop(s: State, u: State) returns (t: State)
    requires AcceptorLeads(s, u) && Active(u.acceptor) && Running(u) && (u.acceptor.ConnectDone? ==> !u.acceptor.io.IoStopped?)
    ensures AcceptorLeads(s, t) && t.acceptor.AcceptorTop? && Running(t) && u.pipes.installs <= t.pipes.installs
    decreases StepsToTop(u.acceptor)
  {
    if u.acceptor.AcceptorTop? {
      t := u;
    } else {
      LeavingComesCloser(u);
      LeavingKeepsRunning(u);
      var v := AcceptorGoesOn(s, u, ClientLeaves(u.acceptor));
      t := BackToTop(s, v);
    }
  }

  /** A cancelled connection was cancelled by the stop event, which stays set. */
  ghost predicate CancelledByStop(s: State) {
    s.acceptor.ConnectDone? && s.acceptor.io.IoStopped? ==> s.shared.stopEvent
  }

  lemma StepKeepsCancelled(s: State, a: Action)
    requires CancelledByStop(s) && Step(s, a).Some?
    ensures CancelledByStop(Step(s, a).value)
  {
    match a
    case MainAction(ok) => MainShares(s.shared, s.main);
    case HandlerActionOf(Receive(control, ok)) => HandlerEntryShares(s.shared, control, ok);
    case HandlerActionOf(Continue(ok)) => HandlerContinueShares(s.shared, s.handler, ok);
    case AcceptorAction(o) => AcceptorShares(s, o);
    case SupervisorAction(o) => SupervisorShares(s, o);
    case _ =>
  }

  lemma CancelledHolds(t: State)
    requires Reachable(t)
    ensures CancelledByStop(t)
  {
    forall u, a | Reachable(u) && CancelledByStop(u) && Step(u, a).Some?
      ensures CancelledByStop(Step(u, a).value)
    {
      StepKeepsCancelled(u, a);
    }
    ReachableKeeps(CancelledByStop, t);
  }

  /** A pipe is created, and a client connects to it. */
  lemma ClientConnects(s: State, u: State) returns (t: State)
    requires AcceptorLeads(s, u) && u.acceptor.AcceptorTop? && Running(u)
    ensures AcceptorLeads(s, t) && Running(t) && t.acceptor == Authenticate(u.pipes.nextPipe) && t.pipes.installs == u.pipes.installs
  {
    var created := AcceptorGoesOnTwice(s, u, Proceed, Proceed);
    assert created == u.(acceptor := ConnectStart(u.pipes.nextPipe), pipes := u.pipes.(nextPipe := u.pipes.nextPipe + 1));
    t := ClientArrives(s, created);
  }

  lemma ClientArrives(s: State, u: State) returns (t: State)
    requires AcceptorLeads(s, u) && u.acceptor.ConnectStart? && Running(u)
    ensures AcceptorLeads(s, t) && t == u.(acceptor := Authenticate(u.acceptor.pipe))
  {
    var connected := AcceptorGoesOnTwice(s, u, Proceed, Io(Completed, true));
    assert connected == u.(acceptor := ConnectDone(u.acceptor.pipe, Completed));
    t := AcceptorGoesOn(s, connected, Proceed);
  }

  /**
    The acceptor never gives up: in every reachable state in which it is active and nobody asks it to stop, steps of its
    own lead to a new client in the slot, whatever it is doing for the present one.
   */
  lemma NextClientIsServed(s: State)
    requires Reachable(s) && Active(s.acceptor) && Running(s)
    ensures exists t :: && AcceptorLeads(s, t) && t.acceptor.ReadStart? && t.shared.connection == Some(t.acceptor.pipe)
                        && t.shared.agentConnected && |t.pipes.installs| > |s.pipes.installs|
  {
    CancelledHolds(s);
    AcceptorStays(s);
    var top := BackToTop(s, s);
    var known := ClientConnects(s, top);
    AuthenticatedClientIsInstalled(known, Proceed, true);
    var waiting := AcceptorGoesOnTwice(s, known, Proceed, Proceed);
    var t := AcceptorGoesOnTwice(s, waiting, Io(Completed, true), Proceed);
  }

  // ----- Stopping -----

  /** The acceptor's loop ends where it looks at its stop token, even if a client has just connected. */
  lemma RequestedStopEndsLoop(s: State, o: AcceptorOutcome)
    requires (s.acceptor.AcceptorTop? || s.acceptor.ConnectDone? || s.acceptor.AfterDiscard?) && s.threads.acceptorStopRequested
    ensures AcceptorStep(s, o) == Some(s.(acceptor := AcceptorDone))
  {
  }

  /** With the stop event set no pipe operation is begun: the acceptor ends, or first gives up the client it serves. */
  lemma StopEventEndsOperations(s: State, o: AcceptorOutcome)
    requires s.shared.stopEvent
    ensures s.acceptor.ConnectStart? ==> AcceptorStep(s, o) == Some(s.(acceptor := ConnectDone(s.acceptor.pipe, IoStopped)))
    ensures s.acceptor.ConnectDone? && s.acceptor.io.IoStopped? ==> AcceptorStep(s, o) == Some(s.(acceptor := AcceptorDone))
    ensures s.acceptor.HandshakeStart? ==> AcceptorStep(s, o) == Some(s.(acceptor := AcceptorDone))
    ensures s.acceptor.ReadStart? || s.acceptor.EchoStart? ==> AcceptorStep(s, o) == Some(s.(acceptor := DiscardOwn(s.acceptor.pipe)))
    ensures s.acceptor.AfterDiscard? ==> AcceptorStep(s, o) == Some(s.(acceptor := AcceptorDone))
  {
  }

  /** The stop of the acceptor has been requested, and it is not just about to authenticate a client. */
  ghost predicate Closed(s: State, authenticated: set<nat>) {
    s.threads.acceptorStopRequested && !s.acceptor.Authenticate? && s.controls.authenticated == authenticated
  }

  lemma AdmitsNobody(s: State, o: AcceptorOutcome, authenticated: set<nat>)
    requires Closed(s, authenticated) && AcceptorStep(s, o).Some?
    ensures Closed(AcceptorStep(s, o).value, authenticated)
  {
  }

  lemma StepKeepsClosed(s: State, a: Action, authenticated: set<nat>)
    requires Closed(s, authenticated) && Step(s, a).Some?
    ensures Closed(Step(s, a).value, authenticated)
  {
    if a.AcceptorAction? {
      AdmitsNobody(s, a.acceptor, authenticated);
    }
  }

  /** Once the acceptor's stop is requested no further client is let through the authentication, in any continuation. */
  lemma NobodyAfterStopRequest(s: State, run: seq<Action>, t: State)
    requires s.threads.acceptorStopRequested && !s.acceptor.Authenticate? && Leads(s, run, t)
    ensures t.controls.authenticated == s.controls.authenticated
  {
    var authenticated := s.controls.authenticated;
    forall u, a | Closed(u, authenticated) && Step(u, a).Some?
      ensures Closed(Step(u, a).value, authenticated)
    {
      StepKeepsClosed(u, a, authenticated);
    }
    RunKeeps((u: State) => Closed(u, authenticated), s, run, t);
  }

  // ----- Failures -----

  /** The acceptor is at an operating-system call that can throw. */
  predicate AtCall(pc: AcceptorPc) {
    || pc.PrepareDescriptor? || pc.CreatePipe? || pc.ConnectWait? || pc.Authenticate? || pc.HandshakeWait?
    || pc.Install? || pc.ReadWait? || pc.EchoWait?
  }

  /** No failure is ignored: a call that throws is recorded, sets the stop event and ends the acceptor. */
  lemma FailedCallStopsService(s: State, error: nat, delivered: bool, p: AcceptorOutcome, q: AcceptorOutcome)
    requires AtCall(s.acceptor)
    ensures AcceptorStep(s, Fail(error, delivered)).Some?
    ensures var t := AcceptorStep(s, Fail(error, delivered)).value;
            && TwoSteps(t, p, q).Some?
            && var u := TwoSteps(t, p, q).value;
               && u.acceptor.AcceptorDone? && u.failures == s.failures + [error]
               && u.shared == s.shared.(stopEvent := true,
                                        stopExitCode := if s.shared.stopExitCode != 0 then s.shared.stopExitCode
                                                        else if error == 0 then 31 else error)
  {
    var t := AcceptorStep(s, Fail(error, delivered)).value;
    assert t.acceptor == AcceptorFailing(error) && t.shared == s.shared && t.failures == s.failures;
    FailureIsRecorded(t, p, q);
  }

  lemma FailureIsRecorded(s: State, p: AcceptorOutcome, q: AcceptorOutcome)
    requires s.acceptor.AcceptorFailing?
    ensures TwoSteps(s, p, q)
         == Some(s.(acceptor := AcceptorDone, failures := s.failures + [s.acceptor.error],
                    shared := StopSignalled(FailureRecorded(s.shared, s.acceptor.error))))
  {
  }

  // ----- The end -----

  /** The acceptor has ended, or is about to, by a failure. */
  ghost predicate CleanEnd(s: State) {
    && (s.acceptor.AcceptorSignal? ==> s.failures != [])
    && (s.acceptor.AcceptorDone? && s.shared.connection.Some? ==> s.failures != [])
  }

  lemma AcceptorKeepsCleanEnd(s: State, o: AcceptorOutcome)
    requires CleanEnd(s) && SlotInv(s) && AcceptorStep(s, o).Some?
    ensures CleanEnd(AcceptorStep(s, o).value)
  {
    AcceptorSignalFlow(s, o);
    if AcceptorNext(s, o).value.AcceptorDone? {
      EndFlow(s, o);
      AcceptorSharesSlot(s, o);
    }
  }

  lemma EndFlow(s: State, o: AcceptorOutcome)
    requires AcceptorNext(s, o) == Some(AcceptorDone)
    ensures s.acceptor.AcceptorSignal? || (!Serving(s.acceptor) && !Ended(s.acceptor) && !s.acceptor.Install?)
  {
  }

  lemma SupervisorNeverInstalls(s: State, o: SupervisorOutcome)
    ensures SupervisorShared(s, o).connection.Some? ==> s.shared.connection.Some?
  {
  }

  lemma StepKeepsCleanEnd(s: State, a: Action)
    requires CleanEnd(s) && SlotInv(s) && ThreadsInv(s) && Step(s, a).Some?
    ensures CleanEnd(Step(s, a).value)
  {
    match a
    case MainAction(ok) => MainShares(s.shared, s.main);
    case HandlerActionOf(Receive(control, ok)) => HandlerEntryShares(s.shared, control, ok);
    case HandlerActionOf(Continue(ok)) => HandlerContinueShares(s.shared, s.handler, ok);
    case AcceptorAction(o) => AcceptorKeepsCleanEnd(s, o);
    case SupervisorAction(o) => SupervisorNeverInstalls(s, o);
    case _ =>
  }

  /** An acceptor that has ended leaves no connection behind, unless an infrastructure failure was recorded. */
  lemma EndLeavesNoConnection(t: State)
    requires Reachable(t) && t.acceptor.AcceptorDone? && t.failures == []
    ensures t.shared.connection == None && !t.shared.agentConnected
  {
    forall u, a | Reachable(u) && CleanEnd(u) && Step(u, a).Some?
      ensures CleanEnd(Step(u, a).value)
    {
      SlotHolds(u);
      ThreadsHold(u);
      StepKeepsCleanEnd(u, a);
    }
    ReachableKeeps(CleanEnd, t);
    SlotHolds(t);
  }
}
