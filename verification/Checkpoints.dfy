/** Published checkpoints between an accepted PRESHUTDOWN and STOPPED. */
module Checkpoints {
  import opened Options
  import opened ServiceState
  import opened ServiceSystem
  import opened ServiceFrames
  import opened Preshutdown

  // ----- The counter -----

  /** The value of the 32-bit counter, which starts at one, after `claims` increments. */
  function CounterAfter(claims: nat): nat {
    (1 + claims) % DWORD_LIMIT
  }

  /** The counter has not wrapped around. */
  predicate NoWrap(claims: nat) {
    1 + claims < DWORD_LIMIT
  }

  /** A claimed value is the counter: no two claims are open at a time. */
  ghost predicate CounterInv(s: State) {
    && s.shared.checkpoint == CounterAfter(s.scm.claims)
    && (s.handler.PreshutdownReport? ==> s.handler.claimed == CounterAfter(s.scm.claims))
    && (s.main.PublishHeartbeat? ==> s.main.claimed == CounterAfter(s.scm.claims))
  }

  lemma MainKeepsCounter(s: State, ok: bool)
    requires CounterInv(s) && PreshutdownInv(s) && MainStep(s, ok).Some?
    ensures CounterInv(MainStep(s, ok).value)
  {
    MainShares(s.shared, s.main);
  }

  lemma HandlerKeepsCounter(s: State, a: HandlerAction)
    requires CounterInv(s) && PreshutdownInv(s) && HandlerStep(s, a).Some?
    ensures CounterInv(HandlerStep(s, a).value)
  {
    match a
    case Receive(control, ok) => HandlerEntryShares(s.shared, control, ok);
    case Continue(ok) =>
      assert s.handler.PreshutdownClaim? ==> !s.main.PublishHeartbeat?;
  }

  lemma StepKeepsCounter(s: State, a: Action)
    requires CounterInv(s) && PreshutdownInv(s) && Step(s, a).Some?
    ensures CounterInv(Step(s, a).value)
  {
    match a
    case MainAction(ok) => MainKeepsCounter(s, ok);
    case HandlerActionOf(h) => HandlerKeepsCounter(s, h);
    case AcceptorAction(o) => AcceptorSharesStatus(s, o);
    case SupervisorAction(o) => SupervisorSharesStatus(s, o);
    case _ =>
  }

  lemma CounterHolds(t: State)
    requires Reachable(t)
    ensures CounterInv(t)
  {
    forall u, a | Reachable(u) && CounterInv(u) && Step(u, a).Some?
      ensures CounterInv(Step(u, a).value)
    {
      PreshutdownHolds(u);
      StepKeepsCounter(u, a);
    }
    ReachableKeeps(CounterInv, t);
  }

  // ----- The published records -----

  /** A heartbeat that exceeds the earlier record, or a republished record that does not fall behind it. */
  predicate Succeeds(earlier: Publication, later: Publication) {
    && (later.source.FromHeartbeat? || later.source.FromInterrogate?)
    && earlier.status.checkpoint <= later.status.checkpoint
    && (later.source.FromHeartbeat? ==> earlier.status.checkpoint < later.status.checkpoint)
  }

  /**
    After record `from` and up to `limit` there are only heartbeats and republished records; checkpoints never go
    back, and every heartbeat exceeds all records before it.
   */
  ghost predicate Advancing(published: seq<Publication>, from: nat, limit: nat) {
    limit <= |published| && forall j, k :: from <= j < k < limit ==> Succeeds(published[j], published[k])
  }

  /** No record from `from` on exceeds `bound`. */
  ghost predicate Bounded(published: seq<Publication>, from: nat, bound: nat) {
    forall j :: from <= j < |published| ==> published[j].status.checkpoint <= bound
  }

  /** The records before STOPPED. */
  function LiveRecords(h: ScmHistory): nat {
    if h.terminatedAt.Some? && h.terminatedAt.value <= |h.published| then h.terminatedAt.value else |h.published|
  }

  /** The PRESHUTDOWN record that counts: the accepted one, or the one about to be. */
  function Window(s: State): Option<nat> {
    if s.scm.acceptedAt.Some? then s.scm.acceptedAt
    else if s.handler.PreshutdownSignal? then Some(s.scm.reportedAt)
    else None
  }

  ghost predicate WindowInv(s: State, from: nat) {
    && from < |s.scm.published|
    && s.scm.published[from].source.FromPreshutdown?
    && Advancing(s.scm.published, from, LiveRecords(s.scm))
    && (s.scm.terminatedAt.None? ==>
          && Bounded(s.scm.published, from, s.shared.status.checkpoint)
          && s.shared.status.checkpoint <= (if s.main.PublishHeartbeat? then s.scm.claims else 1 + s.scm.claims))
  }

  ghost predicate PublishInv(s: State) {
    && (s.scm.terminatedAt.Some? ==> s.scm.terminatedAt.value < |s.scm.published| && s.main.Finished?)
    && (NoWrap(s.scm.claims) && Window(s).Some? ==> WindowInv(s, Window(s).value))
  }

  lemma AdvancingSnoc(published: seq<Publication>, from: nat, next: Publication)
    requires from < |published| && Advancing(published, from, |published|)
    requires Bounded(published, from, next.status.checkpoint)
    requires next.source.FromHeartbeat? || next.source.FromInterrogate?
    requires next.source.FromHeartbeat? ==> 0 < next.status.checkpoint && Bounded(published, from, next.status.checkpoint - 1)
    ensures Advancing(published + [next], from, |published| + 1)
    ensures Bounded(published + [next], from, next.status.checkpoint)
  {
  }

  lemma AdvancingPrefix(published: seq<Publication>, from: nat, limit: nat, next: Publication)
    requires Advancing(published, from, limit)
    ensures Advancing(published + [next], from, limit)
  {
    var longer := published + [next];
    forall j, k | from <= j < k < limit
      ensures Succeeds(longer[j], longer[k])
    {
      assert longer[j] == published[j] && longer[k] == published[k];
    }
  }

  lemma HeartbeatKeepsWindow(s: State, from: nat, ok: bool)
    requires WindowInv(s, from) && s.main.PublishHeartbeat? && CounterInv(s) && NoWrap(s.scm.claims)
    requires s.scm.terminatedAt.None?
    ensures WindowInv(MainStep(s, ok).value, from)
  {
    var published, next := s.scm.published, Publication(StatusOf(StopPendingAt(s.main.claimed)), FromHeartbeat);
    assert s.main.claimed == 1 + s.scm.claims;
    assert Bounded(published, from, s.main.claimed - 1) && Bounded(published, from, s.main.claimed);
    AdvancingSnoc(published, from, next);
    var t := MainStep(s, ok).value;
    assert t.scm.published == if ok then published + [next] else published;
    assert t.scm.published[from] == published[from] && LiveRecords(t.scm) == |t.scm.published|;
    assert t.shared.status.checkpoint == s.main.claimed && !t.main.PublishHeartbeat? && t.scm.claims == s.scm.claims;
  }

  lemma TerminationKeepsWindow(s: State, from: nat, ok: bool)
    requires WindowInv(s, from) && s.main.PublishStopped? && s.scm.terminatedAt.None?
    ensures WindowInv(MainStep(s, ok).value, from)
  {
    var next := Publication(StoppedStatus(s.main.exitCode), FromTermination);
    AdvancingPrefix(s.scm.published, from, |s.scm.published|, next);
    var scm := MainStep(s, ok).value.scm;
    assert scm.published == s.scm.published + [next] && LiveRecords(scm) == |s.scm.published|;
    assert scm.published[from] == s.scm.published[from];
  }

  lemma OtherMainKeepsWindow(s: State, from: nat, ok: bool)
    requires WindowInv(s, from) && MainStep(s, ok).Some?
    requires !s.main.ReportRunning? && !s.main.PublishHeartbeat? && !s.main.PublishStopped?
    ensures WindowInv(MainStep(s, ok).value, from)
  {
    assert MainShared(s.shared, s.main).status == s.shared.status;
  }

  lemma MainKeepsPublish(s: State, ok: bool)
    requires PublishInv(s) && CounterInv(s) && PreshutdownInv(s) && RunningInv(s) && MainStep(s, ok).Some?
    ensures PublishInv(MainStep(s, ok).value)
  {
    var scm := MainScm(s.scm, s.main, ok);
    assert scm.acceptedAt == s.scm.acceptedAt && scm.reportedAt == s.scm.reportedAt && scm.claims >= s.scm.claims;
    if NoWrap(scm.claims) && Window(s).Some? {
      var from := Window(s).value;
      assert s.shared.preshutdownStarted;
      if s.main.PublishHeartbeat? {
        HeartbeatKeepsWindow(s, from, ok);
      } else if s.main.PublishStopped? {
        TerminationKeepsWindow(s, from, ok);
      } else {
        OtherMainKeepsWindow(s, from, ok);
      }
    }
  }

  /** A republished record carries the stored checkpoint, which bounds the window. */
  lemma RepublishKeepsWindow(s: State, from: nat, ok: bool)
    requires WindowInv(s, from) && HandlerStep(s, Receive(Interrogate, ok)).Some?
    ensures WindowInv(HandlerStep(s, Receive(Interrogate, ok)).value, from)
  {
    AdvancingSnoc(s.scm.published, from, Publication(s.shared.status, FromInterrogate));
  }

  lemma ReceiveKeepsPublish(s: State, control: ServiceControl, ok: bool)
    requires PublishInv(s) && PreshutdownInv(s) && HandlerStep(s, Receive(control, ok)).Some?
    ensures PublishInv(HandlerStep(s, Receive(control, ok)).value)
  {
    HandlerEntryShares(s.shared, control, ok);
    if NoWrap(s.scm.claims) && Window(s).Some? && control.Interrogate? {
      RepublishKeepsWindow(s, Window(s).value, ok);
    }
  }

  /** The record of PRESHUTDOWN opens the window, also where STOPPED has been published meanwhile. */
  lemma ReportOpensWindow(s: State)
    requires PublishInv(s) && CounterInv(s) && PreshutdownInv(s) && s.handler.PreshutdownReport?
    ensures PublishInv(HandlerStep(s, Continue(true)).value)
  {
    assert !s.main.PublishHeartbeat?;
  }

  lemma ContinueKeepsPublish(s: State, ok: bool)
    requires PublishInv(s) && CounterInv(s) && PreshutdownInv(s) && HandlerStep(s, Continue(ok)).Some?
    ensures PublishInv(HandlerStep(s, Continue(ok)).value)
  {
    if s.handler.PreshutdownReport? && ok {
      ReportOpensWindow(s);
    } else if s.handler.PreshutdownSignal? {
      assert Window(s) == Some(s.scm.reportedAt);
    }
  }

  lemma StepKeepsPublish(s: State, a: Action)
    requires PublishInv(s) && CounterInv(s) && PreshutdownInv(s) && RunningInv(s) && Step(s, a).Some?
    ensures PublishInv(Step(s, a).value)
  {
    match a
    case MainAction(ok) => MainKeepsPublish(s, ok);
    case HandlerActionOf(Receive(control, ok)) => ReceiveKeepsPublish(s, control, ok);
    case HandlerActionOf(Continue(ok)) => ContinueKeepsPublish(s, ok);
    case AcceptorAction(o) => AcceptorSharesStatus(s, o);
    case SupervisorAction(o) => SupervisorSharesStatus(s, o);
    case _ =>
  }

  lemma PublishHolds(t: State)
    requires Reachable(t)
    ensures PublishInv(t)
  {
    forall u, a | Reachable(u) && PublishInv(u) && Step(u, a).Some?
      ensures PublishInv(Step(u, a).value)
    {
      CounterHolds(u);
      PreshutdownHolds(u);
      RunningHolds(u);
      StepKeepsPublish(u, a);
    }
    ReachableKeeps(PublishInv, t);
  }

  /**
    After the record of an accepted PRESHUTDOWN and up to STOPPED only heartbeats and republished records reach the
    SCM; their checkpoints never go backwards and every heartbeat is strictly greater than all records before it,
    whatever STOP, PRESHUTDOWN and INTERROGATE controls interleave and whatever heartbeat is refused, as long as
    the 32-bit counter has not wrapped.
   */
  lemma CheckpointsAdvance(t: State)
    requires Reachable(t) && t.scm.acceptedAt.Some? && NoWrap(t.scm.claims)
    ensures RecordsAdvance(t)
  {
    PublishHolds(t);
  }

  /** The record of the accepted PRESHUTDOWN starts a row of advancing records that lasts to STOPPED. */
  ghost predicate RecordsAdvance(t: State)
    requires t.scm.acceptedAt.Some?
  {
    var from := t.scm.acceptedAt.value;
    && from < |t.scm.published| && t.scm.published[from].source.FromPreshutdown?
    && Advancing(t.scm.published, from, LiveRecords(t.scm))
  }

  /** The counter moves forward at a claim exactly when it does not wrap; at the wrap it falls to zero. */
  lemma ClaimAdvancesUnlessWrapping(t: State)
    requires Reachable(t)
    ensures CheckpointClaimed(t.shared).checkpoint > t.shared.checkpoint <==> (2 + t.scm.claims) % DWORD_LIMIT != 0
    ensures (2 + t.scm.claims) % DWORD_LIMIT == 0 ==> CheckpointClaimed(t.shared).checkpoint == 0
  {
    CounterHolds(t);
    CounterMoves(t.scm.claims);
  }

  lemma CounterMoves(claims: nat)
    ensures var next := (CounterAfter(claims) + 1) % DWORD_LIMIT;
            && next == CounterAfter(claims + 1)
            && (next > CounterAfter(claims) <==> next != 0)
  {
  }
}
