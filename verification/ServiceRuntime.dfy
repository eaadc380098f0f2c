/**
  The runtime object itself: its fields and its methods, each proved against the specification functions of
  ServiceState.dfy that the transition system interleaves. A method that throws in the source returns the
  failure here; whether the SCM or an event call succeeds is a parameter.
 */
module ServiceRuntime {
  import opened Options
  import opened EnhancedModeProtocol
  import opened ServiceState

  // ----- A whole handler call -----

  function HandlerRank(pc: HandlerPc): nat {
    match pc
    case Idle => 0
    case PreshutdownRollback => 1
    case PreshutdownSignal => 2
    case PreshutdownReport(_) => 3
    case PreshutdownClaim => 4
    case StopSignal => 1
    case StopReport => 2
  }

  /** Whether the call at `pc` succeeds, if the SCM takes records (`scm`) and events can be set (`event`). */
  function CallSucceeds(pc: HandlerPc, scm: bool, event: bool): bool {
    if pc.StopReport? || pc.PreshutdownReport? then scm else event
  }

  function Prepend(published: Option<Status>, rest: seq<Status>): seq<Status> {
    if published.None? then rest else [published.value] + rest
  }

  /** The rest of a handler call without interference, and the records it hands to the SCM. */
  function HandlerRest(sh: Shared, pc: HandlerPc, scm: bool, event: bool): (Shared, seq<Status>)
    decreases HandlerRank(pc)
  {
    if pc.Idle? then (sh, [])
    else
      var turn := HandlerContinue(sh, pc, CallSucceeds(pc, scm, event));
      var rest := HandlerRest(turn.shared, turn.pc, scm, event);
      (rest.0, Prepend(turn.published, rest.1))
  }

  /** A whole handler call: the steps that the transition system takes one by one. */
  function HandlerCall(sh: Shared, control: ServiceControl, scm: bool, event: bool): (Shared, seq<Status>) {
    var turn := HandlerEntry(sh, control, scm);
    var rest := HandlerRest(turn.shared, turn.pc, scm, event);
    (rest.0, Prepend(turn.published, rest.1))
  }

  lemma RestStep(sh: Shared, pc: HandlerPc, scm: bool, event: bool)
    requires !pc.Idle?
    ensures var turn := HandlerContinue(sh, pc, CallSucceeds(pc, scm, event));
            && HandlerRest(sh, pc, scm, event).0 == HandlerRest(turn.shared, turn.pc, scm, event).0
            && HandlerRest(sh, pc, scm, event).1 == Prepend(turn.published, HandlerRest(turn.shared, turn.pc, scm, event).1)
  {
  }

  /** A STOP call as a whole. */
  lemma StopCall(sh: Shared, scm: bool, event: bool)
    ensures HandlerCall(sh, StopControl, scm, event)
         == if sh.preshutdownStarted then (sh, [])
            else
              var reported := Reported(sh, StopPendingAt(1));
              if scm then (StopSignalled(reported), [reported.status]) else (reported, [])
  {
    if !sh.preshutdownStarted {
      RestStep(sh, StopReport, scm, event);
      RestStep(Reported(sh, StopPendingAt(1)), StopSignal, scm, event);
      assert [StatusOf(StopPendingAt(1))] + [] == [StatusOf(StopPendingAt(1))];
    }
  }

  /** A PRESHUTDOWN call as a whole. */
  lemma PreshutdownCall(sh: Shared, scm: bool, event: bool)
    ensures HandlerCall(sh, PreshutdownControl, scm, event)
         == if sh.preshutdownStarted then (sh, [])
            else
              var claimed := CheckpointClaimed(sh);
              var reported := Reported(claimed, StopPendingAt(claimed.checkpoint));
              (if scm && event then reported.(preshutdownStarted := true, preshutdownEvent := true) else reported,
               if scm then [reported.status] else [])
  {
    if !sh.preshutdownStarted {
      var sh1 := sh.(preshutdownStarted := true);
      var sh2 := CheckpointClaimed(sh1);
      var sh3 := Reported(sh2, StopPendingAt(sh2.checkpoint));
      RestStep(sh1, PreshutdownClaim, scm, event);
      RestStep(sh2, PreshutdownReport(sh2.checkpoint), scm, event);
      assert [sh3.status] + [] == [sh3.status];
      if scm {
        RestStep(sh3, PreshutdownSignal, scm, event);
      }
      if !scm || !event {
        RestStep(sh3, PreshutdownRollback, scm, event);
      }
    }
  }

  /** Whether the call ends in an exception. */
  predicate HandlerThrows(sh: Shared, control: ServiceControl, scm: bool, event: bool) {
    match control
    case StopControl => !sh.preshutdownStarted && !scm
    case PreshutdownControl => !sh.preshutdownStarted && !(scm && event)
    case Interrogate => !scm
    case _ => false
  }

  /**
    PRESHUTDOWN is all or nothing: from a state between calls it leaves flag and event equal, the event is set
    afterwards exactly when it was set before or both calls of the handler succeed, and the call throws exactly
    when it is not accepted.
   */
  lemma PreshutdownAllOrNothing(sh: Shared, scm: bool, event: bool)
    requires sh.preshutdownStarted == sh.preshutdownEvent
    ensures var after := HandlerCall(sh, PreshutdownControl, scm, event).0;
            && after.preshutdownStarted == after.preshutdownEvent
            && (after.preshutdownEvent <==> sh.preshutdownEvent || (scm && event))
            && (HandlerThrows(sh, PreshutdownControl, scm, event) <==> !after.preshutdownEvent)
            && (sh.preshutdownEvent ==> after == sh)
  {
    PreshutdownCall(sh, scm, event);
  }

  /** STOP after an accepted PRESHUTDOWN changes nothing and publishes nothing, whatever calls would fail. */
  lemma StopAfterPreshutdownIsIdle(sh: Shared, scm: bool, event: bool, scm2: bool, event2: bool)
    requires sh.preshutdownStarted == sh.preshutdownEvent
    requires HandlerCall(sh, PreshutdownControl, scm, event).0.preshutdownEvent
    ensures var accepted := HandlerCall(sh, PreshutdownControl, scm, event).0;
            HandlerCall(accepted, StopControl, scm2, event2) == (accepted, [])
  {
    PreshutdownAllOrNothing(sh, scm, event);
    StopCall(HandlerCall(sh, PreshutdownControl, scm, event).0, scm2, event2);
  }

  // ----- Heartbeats -----

  /** A value of the counter is claimed and reported. */
  function NextReport(sh: Shared): Shared {
    Reported(CheckpointClaimed(sh), StopPendingAt(CheckpointClaimed(sh).checkpoint))
  }

  /** The heartbeats of a commit: one per elapsed interval until one is refused, then none. */
  function Heartbeats(sh: Shared, taken: seq<bool>): (Shared, seq<Status>)
    decreases taken
  {
    if taken == [] then (sh, [])
    else if !taken[0] then (NextReport(sh), [])
    else
      var rest := Heartbeats(NextReport(sh), taken[1..]);
      (rest.0, [NextReport(sh).status] + rest.1)
  }

  /**
    The commit of PRESHUTDOWN as a whole: skipped on a token that is valid at `now`; otherwise the worker runs for
    `|taken|` elapsed intervals, and `taken` tells which heartbeats the SCM would take.
   */
  function CommitCall(sh: Shared, now: nat, taken: seq<bool>): (Shared, seq<Status>) {
    if SkipTokenValid(sh, now) then (SkipTokenConsumed(sh), []) else Heartbeats(SkipTokenConsumed(sh), taken)
  }

  /** How many of the attempts precede the first refused one. */
  function TakenPrefix(taken: seq<bool>): (n: nat)
    ensures n <= |taken|
    ensures forall i :: 0 <= i < n ==> taken[i]
    ensures n < |taken| ==> !taken[n]
  {
    if taken == [] || !taken[0] then 0 else 1 + TakenPrefix(taken[1..])
  }

  lemma {:induction false} HeartbeatRecords(sh: Shared, taken: seq<bool>)
    requires sh.checkpoint + |taken| < DWORD_LIMIT
    ensures |Heartbeats(sh, taken).1| == TakenPrefix(taken)
    ensures forall i :: 0 <= i < TakenPrefix(taken) ==> Heartbeats(sh, taken).1[i] == StatusOf(StopPendingAt(sh.checkpoint + 1 + i))
    decreases |taken|
  {
    if taken != [] && taken[0] {
      HeartbeatRecords(NextReport(sh), taken[1..]);
      var all, rest := Heartbeats(sh, taken).1, Heartbeats(NextReport(sh), taken[1..]).1;
      assert all == [NextReport(sh).status] + rest;
      forall i | 0 <= i < |all|
        ensures all[i] == StatusOf(StopPendingAt(sh.checkpoint + 1 + i))
      {
        assert all[i] == if i == 0 then NextReport(sh).status else rest[i - 1];
      }
    }
  }

  lemma NextReportClaims(sh: Shared)
    requires sh.checkpoint + 1 < DWORD_LIMIT
    ensures NextReport(sh).checkpoint == sh.checkpoint + 1
  {
  }

  lemma {:induction false} HeartbeatClaims(sh: Shared, taken: seq<bool>)
    requires sh.checkpoint + |taken| < DWORD_LIMIT
    ensures Heartbeats(sh, taken).0.checkpoint
         == sh.checkpoint + TakenPrefix(taken) + if TakenPrefix(taken) < |taken| then 1 else 0
    decreases |taken|
  {
    if taken != [] {
      NextReportClaims(sh);
      HeartbeatsCons(sh, taken, []);
      if taken[0] {
        HeartbeatClaims(NextReport(sh), taken[1..]);
        assert TakenPrefix(taken) == 1 + TakenPrefix(taken[1..]);
      }
    }
  }

  /**
    The SCM sees exactly the heartbeats before the first refused one, with consecutive checkpoints that continue the
    counter, and after a refusal none, however long the commit still takes.
   */
  lemma HeartbeatsAreConsecutive(sh: Shared, taken: seq<bool>)
    requires sh.checkpoint + |taken| < DWORD_LIMIT
    ensures |Heartbeats(sh, taken).1| == TakenPrefix(taken)
    ensures forall i :: 0 <= i < TakenPrefix(taken) ==> Heartbeats(sh, taken).1[i] == StatusOf(StopPendingAt(sh.checkpoint + 1 + i))
    ensures Heartbeats(sh, taken).0.checkpoint
         == sh.checkpoint + TakenPrefix(taken) + if TakenPrefix(taken) < |taken| then 1 else 0
  {
    HeartbeatRecords(sh, taken);
    HeartbeatClaims(sh, taken);
  }

  /** The first attempt and the rest, with the records published before. */
  lemma HeartbeatsCons(sh: Shared, taken: seq<bool>, before: seq<Status>)
    requires taken != []
    ensures Heartbeats(sh, taken).0 == if taken[0] then Heartbeats(NextReport(sh), taken[1..]).0 else NextReport(sh)
    ensures before + Heartbeats(sh, taken).1
         == if taken[0] then (before + [NextReport(sh).status]) + Heartbeats(NextReport(sh), taken[1..]).1 else before + []
  {
  }

  /**
    After `elapsed` intervals the object is at `sh` and `published` is out; with `available` the rest of the attempts
    is still to come, otherwise nothing is.
   */
  ghost predicate Underway(start: Shared, taken: seq<bool>, elapsed: nat, sh: Shared, published: seq<Status>, available: bool) {
    && elapsed <= |taken|
    && Heartbeats(start, taken).0 == (if available then Heartbeats(sh, taken[elapsed..]).0 else sh)
    && Heartbeats(start, taken).1 == published + if available then Heartbeats(sh, taken[elapsed..]).1 else []
  }

  lemma UnderwayFrom(start: Shared, taken: seq<bool>)
    ensures Underway(start, taken, 0, start, [], true)
  {
    assert taken[0..] == taken;
  }

  /** One more attempt. */
  lemma UnderwayOn(start: Shared, taken: seq<bool>, elapsed: nat, sh: Shared, published: seq<Status>)
    requires elapsed < |taken| && Underway(start, taken, elapsed, sh, published, true)
    ensures Underway(start, taken, elapsed + 1, NextReport(sh),
                     published + if taken[elapsed] then [NextReport(sh).status] else [], taken[elapsed])
  {
    assert taken[elapsed..][1..] == taken[elapsed + 1..];
    HeartbeatsCons(sh, taken[elapsed..], published);
  }

  class ServiceRuntime {
    var stopEvent: bool
    var preshutdownEvent: bool
    var agentNeeded: bool
    var agentConnected: bool
    var connection: Option<nat>
    var skipDeadline: Option<nat>
    var status: Status
    var checkpoint: nat
    var preshutdownStarted: bool
    var stopExitCode: nat

    ghost function View(): Shared
      reads this
    {
      Shared(stopEvent, preshutdownEvent, agentNeeded, agentConnected, connection, skipDeadline, status, checkpoint,
             preshutdownStarted, stopExitCode)
    }

    constructor ()
      ensures View() == INITIAL
    {
      stopEvent, preshutdownEvent, agentNeeded, agentConnected := false, false, false, false;
      connection, skipDeadline := None, None;
      status := StatusOf(START_PENDING);
      checkpoint, preshutdownStarted, stopExitCode := 1, false, NO_ERROR;
    }

    /** Stores the record and hands it to the SCM; false stands for the exception of a refused record. */
    method Report(update: StatusUpdate, scm: bool) returns (ok: bool)
      modifies this
      ensures View() == Reported(old(View()), update) && ok == scm
    {
      status := Status(update.state, update.controls, NO_ERROR, update.checkpoint, update.waitHint);
      ok := scm;
    }

    method ReportStopped(exitCode: nat)
      modifies this
      ensures View() == StoppedReported(old(View()), exitCode)
    {
      status := status.(state := Stopped, controls := 0, exitCode := exitCode, checkpoint := 0, waitHint := 0);
    }

    method NextCheckpoint() returns (claimed: nat)
      modifies this
      ensures View() == CheckpointClaimed(old(View())) && claimed == checkpoint
    {
      checkpoint := (checkpoint + 1) % DWORD_LIMIT;
      claimed := checkpoint;
    }

    /** A heartbeat; the counter has moved even where the record is refused. */
    method ReportRealProgress(scm: bool) returns (ok: bool)
      modifies this
      ensures View() == NextReport(old(View())) && ok == scm
    {
      var claimed := NextCheckpoint();
      ok := Report(StopPendingAt(claimed), scm);
    }

    method StopForInfrastructureFailure(error: nat)
      modifies this
      ensures View() == StopSignalled(FailureRecorded(old(View()), error))
    {
      var exitCode := if error == NO_ERROR then ERROR_GEN_FAILURE else error;
      if stopExitCode == NO_ERROR {
        stopExitCode := exitCode;
      }
      stopEvent := true;
    }

    method InstallConnection(pipe: nat)
      modifies this
      ensures View() == Installed(old(View()), pipe)
    {
      connection := Some(pipe);
      agentConnected := true;
    }

    method DiscardConnection(pipe: nat)
      modifies this
      ensures View() == Discarded(old(View()), pipe)
    {
      if connection == Some(pipe) {
        connection := None;
        agentConnected := false;
      }
    }

    /** The three health checks are parameters; an unhealthy connection is discarded. */
    method RetainHealthyAgent(sessionMatches: bool, processAlive: bool, pipeOpen: bool) returns (healthy: bool)
      modifies this
      ensures healthy <==> old(connection).Some? && sessionMatches && processAlive && pipeOpen
      ensures healthy ==> View() == old(View())
      ensures !healthy ==> View() == if old(connection).Some? then Discarded(old(View()), old(connection).value) else old(View())
    {
      var held := connection;
      if held.None? {
        return false;
      }
      if processAlive && sessionMatches && pipeOpen {
        return true;
      }
      DiscardConnection(held.value);
      healthy := false;
    }

    method ApplyPreshutdownControl(control: Control, now: nat)
      modifies this
      ensures View() == ControlApplied(old(View()), control, now)
    {
      match control
      case PreshutdownCommitHandled => skipDeadline := Some(now + PRESHUTDOWN_SKIP_LIFETIME);
      case PreshutdownCommitRequired => skipDeadline := None;
    }

    /** The token is gone afterwards whether it was valid or not, so a second call finds none. */
    method ConsumePreshutdownCommitHandled(now: nat) returns (valid: bool)
      modifies this
      ensures valid == SkipTokenValid(old(View()), now)
      ensures View() == SkipTokenConsumed(old(View()))
    {
      if skipDeadline.None? {
        return false;
      }
      valid := now <= skipDeadline.value;
      skipDeadline := None;
    }

    /** The STOP case of `handleControl`; `threw` stands for its exception. */
    method HandleStop(scm: bool, ghost event: bool) returns (threw: bool, published: seq<Status>)
      modifies this
      ensures View() == HandlerCall(old(View()), StopControl, scm, event).0
      ensures published == HandlerCall(old(View()), StopControl, scm, event).1
      ensures threw == HandlerThrows(old(View()), StopControl, scm, event)
    {
      StopCall(View(), scm, event);
      threw, published := false, [];
      if !preshutdownStarted {
        var ok := Report(StopPendingAt(1), scm);
        if !ok {
          return true, [];
        }
        published := [status];
        stopEvent := true;
      }
    }

    /** The PRESHUTDOWN case of `handleControl`, with its rollback. */
    method HandlePreshutdown(scm: bool, event: bool) returns (threw: bool, published: seq<Status>)
      modifies this
      ensures View() == HandlerCall(old(View()), PreshutdownControl, scm, event).0
      ensures published == HandlerCall(old(View()), PreshutdownControl, scm, event).1
      ensures threw == HandlerThrows(old(View()), PreshutdownControl, scm, event)
    {
      PreshutdownCall(View(), scm, event);
      threw, published := false, [];
      if preshutdownStarted {
        return;
      }
      preshutdownStarted := true;
      var claimed := NextCheckpoint();
      var ok := Report(StopPendingAt(claimed), scm);
      if ok {
        published := [status];
        if event {
          preshutdownEvent := true;
        }
        ok := event;
      }
      if !ok {
        preshutdownStarted := false;
        threw := true;
      }
    }

    /** One handler call without interference: the composition of the handler steps, and the code it returns. */
    method HandleControl(control: ServiceControl, scm: bool, event: bool) returns (code: nat, published: seq<Status>)
      modifies this
      ensures View() == HandlerCall(old(View()), control, scm, event).0
      ensures published == HandlerCall(old(View()), control, scm, event).1
      ensures code == if control.OtherControl? then 120 else if HandlerThrows(old(View()), control, scm, event) then 1064 else 0
    {
      published := [];
      var threw := false;
      match control {
        case StopControl =>
          threw, published := HandleStop(scm, event);
        case PreshutdownControl =>
          threw, published := HandlePreshutdown(scm, event);
        case SessionChange(eventType) =>
          if SessionChangeRequiresAgent(eventType) {
            agentNeeded := true;
          }
        case Interrogate =>
          if scm {
            published := [status];
          }
          threw := !scm;
        case OtherControl =>
          return ERROR_CALL_NOT_IMPLEMENTED, published;
      }
      code := if threw then ERROR_EXCEPTION_IN_SERVICE else NO_ERROR;
    }

    /** The commit of PRESHUTDOWN; `ran` tells whether it was not skipped. */
    method RunPreshutdownCommit(now: nat, taken: seq<bool>) returns (ran: bool, published: seq<Status>)
      modifies this
      ensures ran <==> !SkipTokenValid(old(View()), now)
      ensures View() == CommitCall(old(View()), now, taken).0
      ensures published == CommitCall(old(View()), now, taken).1
    {
      published := [];
      var handled := ConsumePreshutdownCommitHandled(now);
      if handled {
        return false, published;
      }
      ran := true;
      ghost var start := View();
      UnderwayFrom(start, taken);
      var heartbeatAvailable := true;
      var elapsed := 0;
      while elapsed < |taken|
        invariant 0 <= elapsed <= |taken|
        invariant Underway(start, taken, elapsed, View(), published, heartbeatAvailable)
      {
        if heartbeatAvailable {
          UnderwayOn(start, taken, elapsed, View(), published);
          heartbeatAvailable := ReportRealProgress(taken[elapsed]);
          if heartbeatAvailable {
            published := published + [status];
          }
        }
        elapsed := elapsed + 1;
      }
    }
  }
}
