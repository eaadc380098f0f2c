/** The records that reach the SCM, spelled out. */
module PublishedRecords {
  import opened ServiceState
  import opened ServiceSystem
  import opened ServiceFrames

  /** START_PENDING, RUNNING with its three controls, STOP_PENDING with any checkpoint, or STOPPED. */
  predicate WellFormed(status: Status) {
    || status == Status(StartPending, 0, 0, 1, 60_000)
    || status == Status(Running, 0x1 + 0x80 + 0x100, 0, 0, 0)
    || status == Status(StopPending, 0, 0, status.checkpoint, 60_000)
    || status == Status(Stopped, 0, status.exitCode, 0, 0)
  }

  /** Every source publishes its own kind of record. */
  predicate AsExpected(p: Publication) {
    match p.source
    case FromStartup => p.status == Status(StartPending, 0, 0, 1, 60_000) || p.status == Status(Running, 0x1 + 0x80 + 0x100, 0, 0, 0)
    case FromStop => p.status == Status(StopPending, 0, 0, 1, 60_000)
    case FromPreshutdown => p.status == Status(StopPending, 0, 0, p.status.checkpoint, 60_000)
    case FromHeartbeat => p.status == Status(StopPending, 0, 0, p.status.checkpoint, 60_000)
    case FromTermination => p.status == Status(Stopped, 0, p.status.exitCode, 0, 0)
    case FromInterrogate => WellFormed(p.status)
  }

  ghost predicate RecordInv(s: State) {
    && WellFormed(s.shared.status)
    && forall i :: 0 <= i < |s.scm.published| ==> AsExpected(s.scm.published[i])
  }

  lemma RecordsSnoc(published: seq<Publication>, next: Publication)
    requires (forall i :: 0 <= i < |published| ==> AsExpected(published[i])) && AsExpected(next)
    ensures forall i :: 0 <= i < |published + [next]| ==> AsExpected((published + [next])[i])
  {
  }

  lemma MainKeepsRecords(s: State, ok: bool)
    requires RecordInv(s) && MainStep(s, ok).Some?
    ensures RecordInv(MainStep(s, ok).value)
  {
    if s.main.PublishStopped? {
      RecordsSnoc(s.scm.published, Publication(StoppedStatus(s.main.exitCode), FromTermination));
    } else if s.main.ReportRunning? {
      RecordsSnoc(s.scm.published, Publication(StatusOf(RUNNING), FromStartup));
    } else if s.main.PublishHeartbeat? {
      RecordsSnoc(s.scm.published, Publication(StatusOf(StopPendingAt(s.main.claimed)), FromHeartbeat));
    }
  }

  lemma TurnIsWellFormed(sh: Shared, pc: HandlerPc, ok: bool)
    requires WellFormed(sh.status) && !pc.Idle?
    ensures var turn := HandlerContinue(sh, pc, ok);
            && WellFormed(turn.shared.status)
            && (turn.published.Some? ==> AsExpected(Publication(turn.published.value, HandlerSource(pc))))
  {
  }

  lemma HandlerKeepsRecords(s: State, a: HandlerAction)
    requires RecordInv(s) && HandlerStep(s, a).Some?
    ensures RecordInv(HandlerStep(s, a).value)
  {
    match a
    case Receive(control, ok) =>
      HandlerEntryShares(s.shared, control, ok);
      RecordsSnoc(s.scm.published, Publication(s.shared.status, FromInterrogate));
    case Continue(ok) =>
      TurnIsWellFormed(s.shared, s.handler, ok);
      var turn := HandlerContinue(s.shared, s.handler, ok);
      if turn.published.Some? {
        RecordsSnoc(s.scm.published, Publication(turn.published.value, HandlerSource(s.handler)));
      }
  }

  lemma StepKeepsRecords(s: State, a: Action)
    requires RecordInv(s) && Step(s, a).Some?
    ensures RecordInv(Step(s, a).value)
  {
    match a
    case MainAction(ok) => MainKeepsRecords(s, ok);
    case HandlerActionOf(h) => HandlerKeepsRecords(s, h);
    case AcceptorAction(o) => AcceptorSharesStatus(s, o);
    case SupervisorAction(o) => SupervisorSharesStatus(s, o);
    case _ =>
  }

  /**
    In every run each record has the fields that belong to its kind: controls only while running, a wait hint of a minute
    while pending, an exit code only when stopped. A republished record is one of these kinds.
   */
  lemma RecordsAreWellFormed(t: State, i: nat)
    requires Reachable(t) && i < |t.scm.published|
    ensures AsExpected(t.scm.published[i])
  {
    forall u, a | Reachable(u) && RecordInv(u) && Step(u, a).Some?
      ensures RecordInv(Step(u, a).value)
    {
      StepKeepsRecords(u, a);
    }
    ReachableKeeps(RecordInv, t);
  }
}
