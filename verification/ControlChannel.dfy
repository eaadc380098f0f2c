/** The control protocol on the agent pipe: who may send a control, and what an echo tells the client. */
module ControlChannel {
  import opened Options
  import opened EnhancedModeProtocol
  import opened ServiceSystem
  import opened ServiceThreads
  import opened ConnectionSlot

  // ----- Only authenticated, handshaken clients -----

  ghost predicate Genuine(a: AppliedControl, pipes: PipeHistory, controls: ControlHistory) {
    && a.pipe in controls.authenticated && a.pipe in controls.handshaken && a.pipe in pipes.installs
    && Decode(a.frame).Some? && Decode(a.frame).value.control == a.control
  }

  ghost predicate OriginInv(s: State) {
    && (forall pipe :: pipe in s.pipes.installs ==> pipe in s.controls.authenticated && pipe in s.controls.handshaken)
    && (s.acceptor.HandshakeStart? || s.acceptor.HandshakeWait? || s.acceptor.Install? ==> s.acceptor.pipe in s.controls.authenticated)
    && (s.acceptor.Install? ==> s.acceptor.pipe in s.controls.handshaken)
    && (s.acceptor.ApplyFrame? ==> Decode(s.acceptor.frame).Some? && Decode(s.acceptor.frame).value.control == s.acceptor.control)
    && (forall i :: 0 <= i < |s.controls.applied| ==> Genuine(s.controls.applied[i], s.pipes, s.controls))
  }

  lemma AcceptorKeepsCredentials(s: State, o: AcceptorOutcome)
    requires OriginInv(s) && AcceptorNext(s, o).Some?
    ensures var next, after := AcceptorNext(s, o).value, AcceptorControls(s, o);
            && (next.HandshakeStart? || next.HandshakeWait? || next.Install? ==> next.pipe in after.authenticated)
            && (next.Install? ==> next.pipe in after.handshaken)
  {
  }

  lemma AcceptorKeepsDecoded(s: State, o: AcceptorOutcome)
    requires AcceptorNext(s, o).Some? && AcceptorNext(s, o).value.ApplyFrame?
    ensures var next := AcceptorNext(s, o).value; Decode(next.frame).Some? && Decode(next.frame).value.control == next.control
  {
  }

  lemma AcceptorGrows(s: State, o: AcceptorOutcome)
    ensures s.controls.authenticated <= AcceptorControls(s, o).authenticated
    ensures s.controls.handshaken <= AcceptorControls(s, o).handshaken
    ensures forall pipe :: pipe in s.pipes.installs ==> pipe in AcceptorPipes(s, o).installs
  {
  }

  lemma AcceptorKeepsGenuine(s: State, o: AcceptorOutcome)
    requires OriginInv(s) && SlotInv(s) && AcceptorNext(s, o).Some?
    ensures var after := AcceptorControls(s, o);
            forall i :: 0 <= i < |after.applied| ==> Genuine(after.applied[i], AcceptorPipes(s, o), after)
  {
    AcceptorGrows(s, o);
    if s.acceptor.ApplyFrame? {
      assert s.acceptor.pipe in s.pipes.installs;
    }
  }

  lemma AcceptorKeepsInstalled(s: State, o: AcceptorOutcome)
    requires OriginInv(s)
    ensures forall pipe :: pipe in AcceptorPipes(s, o).installs ==>
              pipe in AcceptorControls(s, o).authenticated && pipe in AcceptorControls(s, o).handshaken
  {
  }

  lemma StepKeepsOrigin(s: State, a: Action)
    requires OriginInv(s) && SlotInv(s) && Step(s, a).Some?
    ensures OriginInv(Step(s, a).value)
  {
    match a
    case AcceptorAction(o) =>
      AcceptorKeepsCredentials(s, o);
      AcceptorKeepsGenuine(s, o);
      AcceptorKeepsInstalled(s, o);
      if AcceptorNext(s, o).value.ApplyFrame? {
        AcceptorKeepsDecoded(s, o);
      }
    case SupervisorAction(o) =>
      assert SupervisorPipes(s).installs == s.pipes.installs;
      forall i | 0 <= i < |s.controls.applied|
        ensures Genuine(s.controls.applied[i], SupervisorPipes(s), s.controls)
      {
        assert Genuine(s.controls.applied[i], s.pipes, s.controls);
      }
    case _ =>
  }

  lemma OriginHolds(t: State)
    requires Reachable(t)
    ensures OriginInv(t)
  {
    forall u, a | Reachable(u) && OriginInv(u) && Step(u, a).Some?
      ensures OriginInv(Step(u, a).value)
    {
      SlotHolds(u);
      StepKeepsOrigin(u, a);
    }
    ReachableKeeps(OriginInv, t);
  }

  /**
    Every applied control was read from a connection whose client had been authenticated and had taken the
    handshake, and is the control its frame decodes to.
   */
  lemma AppliedControlsAreGenuine(t: State, i: nat)
    requires Reachable(t) && i < |t.controls.applied|
    ensures Genuine(t.controls.applied[i], t.pipes, t.controls)
  {
    OriginHolds(t);
  }

  // ----- Echoes -----

  /** The frames applied on `pipe`, in order. */
  function AppliedOn(applied: seq<AppliedControl>, pipe: nat): seq<Frame> {
    if applied == [] then []
    else
      var last := applied[|applied| - 1];
      AppliedOn(applied[..|applied| - 1], pipe) + if last.pipe == pipe then [last.frame] else []
  }

  /** The frames whose echo reached the client of `pipe`, in order. */
  function EchoedOn(echoed: seq<Echo>, pipe: nat): seq<Frame> {
    if echoed == [] then []
    else
      var last := echoed[|echoed| - 1];
      EchoedOn(echoed[..|echoed| - 1], pipe) + if last.pipe == pipe then [last.frame] else []
  }

  lemma AppliedSnoc(applied: seq<AppliedControl>, next: AppliedControl, pipe: nat)
    ensures AppliedOn(applied + [next], pipe) == AppliedOn(applied, pipe) + if next.pipe == pipe then [next.frame] else []
  {
    assert (applied + [next])[..|applied|] == applied;
  }

  lemma EchoedSnoc(echoed: seq<Echo>, next: Echo, pipe: nat)
    ensures EchoedOn(echoed + [next], pipe) == EchoedOn(echoed, pipe) + if next.pipe == pipe then [next.frame] else []
  {
    assert (echoed + [next])[..|echoed|] == echoed;
  }

  /** `echoed` is a prefix of `applied` that lacks at most one frame. */
  ghost predicate OneBehind(applied: seq<Frame>, echoed: seq<Frame>) {
    echoed <= applied && |applied| <= |echoed| + 1
  }

  /** How the two sequences of `pipe` relate while the acceptor stands at `pc`. */
  ghost predicate InStep(pc: AcceptorPc, installs: seq<nat>, pipe: nat, applied: seq<Frame>, echoed: seq<Frame>) {
    && OneBehind(applied, echoed)
    && (pipe !in installs ==> applied == echoed == [])
    && ((pc.ReadStart? || pc.ReadWait? || pc.ApplyFrame?) && pc.pipe == pipe ==> applied == echoed)
    && ((pc.EchoStart? || pc.EchoWait?) && pc.pipe == pipe ==> applied == echoed + [pc.frame])
  }

  ghost predicate EchoInvOn(s: State, pipe: nat) {
    InStep(s.acceptor, s.pipes.installs, pipe, AppliedOn(s.controls.applied, pipe), EchoedOn(s.controls.echoed, pipe))
  }

  ghost predicate EchoInv(s: State) {
    forall pipe: nat :: EchoInvOn(s, pipe)
  }

  /** The acceptor stands at an echo whose bytes reach the client. */
  predicate Echoes(pc: AcceptorPc, o: AcceptorOutcome) {
    pc.EchoWait? && Delivers(o)
  }

  /** What one acceptor step does to the applied frames of a pipe. */
  lemma AppliedSequence(s: State, o: AcceptorOutcome, pipe: nat)
    ensures AppliedOn(AcceptorControls(s, o).applied, pipe)
         == AppliedOn(s.controls.applied, pipe) + if s.acceptor.ApplyFrame? && s.acceptor.pipe == pipe then [s.acceptor.frame] else []
  {
    AppliedEffect(s, o);
    if s.acceptor.ApplyFrame? {
      AppliedSnoc(s.controls.applied, AppliedControl(s.acceptor.pipe, s.acceptor.frame, s.acceptor.control, s.now), pipe);
    }
  }

  lemma AppliedEffect(s: State, o: AcceptorOutcome)
    ensures s.acceptor.ApplyFrame? ==>
              AcceptorControls(s, o).applied == s.controls.applied + [AppliedControl(s.acceptor.pipe, s.acceptor.frame, s.acceptor.control, s.now)]
    ensures !s.acceptor.ApplyFrame? ==> AcceptorControls(s, o).applied == s.controls.applied
  {
  }

  /** What one acceptor step does to the echoed frames of a pipe. */
  lemma EchoedSequence(s: State, o: AcceptorOutcome, pipe: nat)
    ensures EchoedOn(AcceptorControls(s, o).echoed, pipe)
         == EchoedOn(s.controls.echoed, pipe) + if Echoes(s.acceptor, o) && s.acceptor.pipe == pipe then [s.acceptor.frame] else []
  {
    EchoedEffect(s, o);
    if s.acceptor.EchoWait? {
      EchoedSnoc(s.controls.echoed, Echo(s.acceptor.pipe, s.acceptor.frame), pipe);
    }
  }

  lemma EchoedEffect(s: State, o: AcceptorOutcome)
    ensures Echoes(s.acceptor, o) ==> AcceptorControls(s, o).echoed == s.controls.echoed + [Echo(s.acceptor.pipe, s.acceptor.frame)]
    ensures !Echoes(s.acceptor, o) ==> AcceptorControls(s, o).echoed == s.controls.echoed
  {
  }

  /** Which steps lead into the reading and the echoing positions of a pipe. */
  lemma EchoFlow(s: State, o: AcceptorOutcome)
    requires AcceptorNext(s, o).Some?
    ensures var next := AcceptorNext(s, o).value;
            && (next.ReadStart? || next.ReadWait? || next.ApplyFrame? ==>
                  || (s.acceptor.Install? && next.ReadStart? && s.acceptor.pipe == next.pipe && o.Proceed?)
                  || ((s.acceptor.ReadStart? || s.acceptor.ReadWait?) && s.acceptor.pipe == next.pipe)
                  || (s.acceptor.EchoWait? && o.Io? && o.result.Completed? && s.acceptor.pipe == next.pipe))
            && (next.EchoStart? || next.EchoWait? ==>
                  (s.acceptor.ApplyFrame? || s.acceptor.EchoStart?) && s.acceptor.pipe == next.pipe && s.acceptor.frame == next.frame)
  {
  }

  lemma AcceptorKeepsEcho(s: State, o: AcceptorOutcome, pipe: nat)
    requires EchoInvOn(s, pipe) && SlotInv(s) && AcceptorNext(s, o).Some?
    ensures InStep(AcceptorNext(s, o).value, AcceptorPipes(s, o).installs, pipe,
                   AppliedOn(AcceptorControls(s, o).applied, pipe), EchoedOn(AcceptorControls(s, o).echoed, pipe))
  {
    AppliedSequence(s, o, pipe);
    EchoedSequence(s, o, pipe);
    EchoFlow(s, o);
    AcceptorGrows(s, o);
    if s.acceptor.Install? && s.acceptor.pipe == pipe {
      assert pipe !in s.pipes.installs;
    }
  }

  lemma MainKeepsEcho(s: State, ok: bool, pipe: nat)
    requires EchoInvOn(s, pipe) && ThreadsInv(s) && MainStep(s, ok).Some?
    ensures EchoInvOn(MainStep(s, ok).value, pipe)
  {
  }

  lemma StepKeepsEcho(s: State, a: Action, pipe: nat)
    requires EchoInvOn(s, pipe) && SlotInv(s) && ThreadsInv(s) && Step(s, a).Some?
    ensures EchoInvOn(Step(s, a).value, pipe)
  {
    match a
    case MainAction(ok) => MainKeepsEcho(s, ok, pipe);
    case AcceptorAction(o) => AcceptorKeepsEcho(s, o, pipe);
    case SupervisorAction(o) => SupervisorKeepsEcho(s, o, pipe);
    case _ => EchoFrame(s, Step(s, a).value, pipe);
  }

  /** Only the acceptor's position, the installs and the control history matter. */
  lemma EchoFrame(s: State, t: State, pipe: nat)
    requires EchoInvOn(s, pipe) && t.acceptor == s.acceptor && t.pipes.installs == s.pipes.installs && t.controls == s.controls
    ensures EchoInvOn(t, pipe)
  {
  }

  lemma SupervisorKeepsEcho(s: State, o: SupervisorOutcome, pipe: nat)
    requires EchoInvOn(s, pipe) && SupervisorStep(s, o).Some?
    ensures EchoInvOn(SupervisorStep(s, o).value, pipe)
  {
    assert SupervisorPipes(s).installs == s.pipes.installs;
    EchoFrame(s, SupervisorStep(s, o).value, pipe);
  }

  lemma EchoHolds(t: State)
    requires Reachable(t)
    ensures EchoInv(t)
  {
    forall pipe: nat
      ensures EchoInvOn(INIT, pipe)
    {
    }
    forall u, a | Reachable(u) && EchoInv(u) && Step(u, a).Some?
      ensures EchoInv(Step(u, a).value)
    {
      SlotHolds(u);
      ThreadsHold(u);
      forall pipe: nat
        ensures EchoInvOn(Step(u, a).value, pipe)
      {
        StepKeepsEcho(u, a, pipe);
      }
    }
    ReachableKeeps(EchoInv, t);
  }

  /**
    On every connection the echoed frames are a prefix of the applied frames, and at most one applied frame
    is not echoed, whatever fails in between.
   */
  lemma EchoesFollowApplications(t: State, pipe: nat)
    requires Reachable(t)
    ensures OneBehind(AppliedOn(t.controls.applied, pipe), EchoedOn(t.controls.echoed, pipe))
  {
    EchoHolds(t);
    assert EchoInvOn(t, pipe);
  }

  lemma {:induction false} InEchoed(echoed: seq<Echo>, i: nat)
    requires i < |echoed|
    ensures echoed[i].frame in EchoedOn(echoed, echoed[i].pipe)
  {
    var last := echoed[|echoed| - 1];
    if i < |echoed| - 1 {
      InEchoed(echoed[..|echoed| - 1], i);
    }
  }

  lemma {:induction false} InApplied(applied: seq<AppliedControl>, pipe: nat, frame: Frame)
    requires frame in AppliedOn(applied, pipe)
    ensures exists k :: 0 <= k < |applied| && applied[k].pipe == pipe && applied[k].frame == frame
  {
    if frame in AppliedOn(applied[..|applied| - 1], pipe) {
      InApplied(applied[..|applied| - 1], pipe, frame);
      var k :| 0 <= k < |applied| - 1 && applied[k].pipe == pipe && applied[k].frame == frame;
    } else {
      assert applied[|applied| - 1].pipe == pipe && applied[|applied| - 1].frame == frame;
    }
  }

  /** A client that gets an echo knows that the control of exactly that frame was applied, on its own connection. */
  lemma EchoMeansApplied(t: State, i: nat)
    requires Reachable(t) && i < |t.controls.echoed|
    ensures var echo := t.controls.echoed[i];
            && Decode(echo.frame).Some?
            && exists k :: && 0 <= k < |t.controls.applied|
                           && t.controls.applied[k].pipe == echo.pipe
                           && t.controls.applied[k].frame == echo.frame
                           && t.controls.applied[k].control == Decode(echo.frame).value.control
  {
    var echo := t.controls.echoed[i];
    EchoesFollowApplications(t, echo.pipe);
    InEchoed(t.controls.echoed, i);
    InApplied(t.controls.applied, echo.pipe, echo.frame);
    var k :| 0 <= k < |t.controls.applied| && t.controls.applied[k].pipe == echo.pipe && t.controls.applied[k].frame == echo.frame;
    AppliedControlsAreGenuine(t, k);
  }

  // ----- Every valid frame is applied -----

  /** The frames read on `pipe` that carry a valid message, in order. */
  function ValidOn(received: seq<ReceivedFrame>, pipe: nat): seq<Frame> {
    if received == [] then []
    else
      var last := received[|received| - 1];
      ValidOn(received[..|received| - 1], pipe) + if last.pipe == pipe && Decode(last.frame).Some? then [last.frame] else []
  }

  lemma ValidSnoc(received: seq<ReceivedFrame>, next: ReceivedFrame, pipe: nat)
    ensures ValidOn(received + [next], pipe)
         == ValidOn(received, pipe) + if next.pipe == pipe && Decode(next.frame).Some? then [next.frame] else []
  {
    assert (received + [next])[..|received|] == received;
  }

  /** The frame that has been read and is about to be applied. */
  function Pending(pc: AcceptorPc, pipe: nat): seq<Frame> {
    if pc.ApplyFrame? && pc.pipe == pipe then [pc.frame] else []
  }

  ghost predicate NoneLost(s: State, pipe: nat) {
    ValidOn(s.controls.received, pipe) == AppliedOn(s.controls.applied, pipe) + Pending(s.acceptor, pipe)
  }

  lemma ReceivedEffect(s: State, o: AcceptorOutcome)
    ensures s.acceptor.ReadWait? && o.Received? ==>
              AcceptorControls(s, o).received == s.controls.received + [ReceivedFrame(s.acceptor.pipe, o.frame)]
    ensures !(s.acceptor.ReadWait? && o.Received?) ==> AcceptorControls(s, o).received == s.controls.received
  {
  }

  lemma ReadingFlow(s: State, o: AcceptorOutcome)
    requires AcceptorNext(s, o).Some?
    ensures s.acceptor.ReadWait? && o.Received? && Decode(o.frame).Some? ==>
              AcceptorNext(s, o) == Some(ApplyFrame(s.acceptor.pipe, o.frame, Decode(o.frame).value.control))
    ensures AcceptorNext(s, o).value.ApplyFrame? ==> s.acceptor.ReadWait? && o.Received? && Decode(o.frame).Some?
  {
  }

  lemma AcceptorLosesNone(s: State, o: AcceptorOutcome, pipe: nat)
    requires NoneLost(s, pipe) && AcceptorStep(s, o).Some?
    ensures NoneLost(AcceptorStep(s, o).value, pipe)
  {
    AppliedSequence(s, o, pipe);
    ReceivedEffect(s, o);
    ReadingFlow(s, o);
    if s.acceptor.ReadWait? && o.Received? {
      ValidSnoc(s.controls.received, ReceivedFrame(s.acceptor.pipe, o.frame), pipe);
    }
  }

  lemma StepLosesNone(s: State, a: Action, pipe: nat)
    requires NoneLost(s, pipe) && ThreadsInv(s) && Step(s, a).Some?
    ensures NoneLost(Step(s, a).value, pipe)
  {
    if a.AcceptorAction? {
      AcceptorLosesNone(s, a.acceptor, pipe);
    } else {
      OthersDoNotRead(s, a, pipe);
    }
  }

  lemma OthersDoNotRead(s: State, a: Action, pipe: nat)
    requires ThreadsInv(s) && Step(s, a).Some? && !a.AcceptorAction?
    ensures Step(s, a).value.controls == s.controls
    ensures Pending(Step(s, a).value.acceptor, pipe) == Pending(s.acceptor, pipe)
  {
  }

  /**
    On every connection the applied frames are exactly the valid frames that were read there, in order, but for the one
    that is just about to be applied: no valid control is dropped, whichever of the two it is, and none is invented.
   */
  lemma EveryValidFrameIsApplied(t: State, pipe: nat)
    requires Reachable(t)
    ensures ValidOn(t.controls.received, pipe) == AppliedOn(t.controls.applied, pipe) + Pending(t.acceptor, pipe)
  {
    var inv := u => NoneLost(u, pipe);
    forall u, a | Reachable(u) && inv(u) && Step(u, a).Some?
      ensures inv(Step(u, a).value)
    {
      ThreadsHold(u);
      StepLosesNone(u, a, pipe);
    }
    ReachableKeeps(inv, t);
  }
}
