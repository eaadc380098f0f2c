/** How far the checkpoints of a shutdown advance: exactly until the 32-bit counter wraps around. */
module CheckpointWrap {
  import opened Options
  import opened ServiceState
  import opened ServiceSystem
  import opened Preshutdown
  import opened Checkpoints
  import opened CommitSteps
  import opened CommitRefinement

  // ----- From the accepted PRESHUTDOWN to the commit -----

  /** An accepted PRESHUTDOWN finds both infrastructure threads at their start. */
  lemma AcceptedReachable() returns (t: State)
    ensures Reachable(t) && t.main.AwaitShutdown? && !t.shared.stopEvent && t.shared.preshutdownEvent
    ensures t.acceptor.PrepareDescriptor? && t.supervisor.SupervisorTop? && t.threads == Threads(false, false, true, true)
    ensures t.shared.skipDeadline == None && Claimed(t, 1)
  {
    var s := WaitingReachable();
    NextValue(s);
    var reported := PreshutdownReported(s);
    t := PreshutdownSignalled(reported);
    FirstClaim(s.scm, t.scm);
  }

  /** The record of PRESHUTDOWN carries the first claimed value. */
  lemma FirstClaim(before: ScmHistory, after: ScmHistory)
    requires after.acceptedAt == Some(|before.published|) && after.claims == 1 && after.terminatedAt.None?
    requires |after.published| == |before.published| + 1
    requires after.published[|before.published|].status.checkpoint == CounterAfter(1)
    ensures AllPublished(after, 1)
  {
  }

  /** Two steps of service main lead it from the wait to the join of the supervisor. */
  lemma SupervisorStopRequested(s: State) returns (t: State)
    requires Reachable(s) && s.main.AwaitShutdown? && !s.shared.stopEvent && s.shared.preshutdownEvent && s.threads.supervisorJoinable
    ensures Reachable(t) && t.main == SignalSupervisorStop(CommitBranch)
    ensures t == s.(main := t.main, threads := s.threads.(supervisorStopRequested := true))
  {
    ReachableStep(s, MainAction(true));
    var t1 := Step(s, MainAction(true)).value;
    ReachableStep(t1, MainAction(true));
    t := Step(t1, MainAction(true)).value;
  }

  lemma SupervisorStops(s: State) returns (t: State)
    requires Reachable(s) && s.main == SignalSupervisorStop(CommitBranch)
    requires s.supervisor.SupervisorTop? && s.threads.supervisorStopRequested
    ensures Reachable(t) && t == s.(main := JoinSupervisor(CommitBranch), shared := StopSignalled(s.shared), supervisor := SupervisorDone)
  {
    var t1 := ReachedBy(s, MainAction(true));
    assert t1 == s.(main := JoinSupervisor(CommitBranch), shared := StopSignalled(s.shared));
    t := SupervisorEnds(t1);
  }

  lemma SupervisorEnds(s: State) returns (t: State)
    requires Reachable(s) && s.supervisor.SupervisorTop? && s.threads.supervisorStopRequested
    ensures Reachable(t) && t == s.(supervisor := SupervisorDone)
  {
    t := ReachedBy(s, SupervisorAction(Good));
  }

  lemma AcceptorStopRequested(s: State) returns (t: State)
    requires Reachable(s) && s.main == JoinSupervisor(CommitBranch) && s.supervisor.SupervisorDone? && s.threads.acceptorJoinable
    ensures Reachable(t) && t.main == SignalAcceptorStop(CommitBranch)
    ensures t == s.(main := t.main, threads := s.threads.(supervisorJoinable := false, acceptorStopRequested := true))
  {
    ReachableStep(s, MainAction(true));
    var t1 := Step(s, MainAction(true)).value;
    ReachableStep(t1, MainAction(true));
    t := Step(t1, MainAction(true)).value;
  }

  lemma AcceptorStops(s: State) returns (t: State)
    requires Reachable(s) && s.main == SignalAcceptorStop(CommitBranch) && s.acceptor.PrepareDescriptor?
    requires s.threads.acceptorStopRequested
    ensures Reachable(t) && t == s.(acceptor := AcceptorDone)
  {
    ReachableStep(s, AcceptorAction(Proceed));
    var t1 := Step(s, AcceptorAction(Proceed)).value;
    ReachableStep(t1, AcceptorAction(Proceed));
    t := Step(t1, AcceptorAction(Proceed)).value;
  }

  lemma AcceptorJoined(s: State) returns (t: State)
    requires Reachable(s) && s.main == SignalAcceptorStop(CommitBranch) && s.acceptor.AcceptorDone?
    ensures Reachable(t) && t.main.ConsumeSkipToken? && t.scm == s.scm && t.shared == StopSignalled(s.shared)
  {
    var t1 := ReachedBy(s, MainAction(true));
    assert t1.main == JoinAcceptor(CommitBranch) && t1.scm == s.scm && t1.shared == StopSignalled(s.shared) && t1.acceptor.AcceptorDone?;
    t := JoinedAcceptor(t1);
  }

  lemma JoinedAcceptor(s: State) returns (t: State)
    requires Reachable(s) && s.main == JoinAcceptor(CommitBranch) && s.acceptor.AcceptorDone?
    ensures Reachable(t) && t.main.ConsumeSkipToken? && t.scm == s.scm && t.shared == s.shared
  {
    t := ReachedBy(s, MainAction(true));
  }

  lemma CommitReachable() returns (t: State)
    ensures Reachable(t) && Awaiting(t) && Claimed(t, 1)
  {
    var t0 := AcceptedReachable();
    var t1 := SupervisorStopRequested(t0);
    var t2 := SupervisorStops(t1);
    var t3 := AcceptorStopRequested(t2);
    var t4 := AcceptorStops(t3);
    var t5 := AcceptorJoined(t4);
    t := WorkerStarted(t5);
    ReachableAlone(t5, t);
  }

  // ----- Heartbeats -----

  /** `n` values of the counter have been claimed since PRESHUTDOWN, and every one of them was published. */
  ghost predicate AllPublished(h: ScmHistory, n: nat) {
    && h.claims == n && h.acceptedAt.Some? && h.terminatedAt.None?
    && |h.published| == h.acceptedAt.value + n
    && forall k :: h.acceptedAt.value <= k < |h.published| ==> h.published[k].status.checkpoint == CounterAfter(k - h.acceptedAt.value + 1)
  }

  ghost predicate Claimed(s: State, n: nat) {
    AllPublished(s.scm, n)
  }

  lemma NextClaim(before: ScmHistory, n: nat, record: Publication, after: ScmHistory)
    requires AllPublished(before, n) && record.status.checkpoint == CounterAfter(n + 1)
    requires after == before.(published := before.published + [record], claims := before.claims + 1)
    ensures AllPublished(after, n + 1)
  {
  }

  lemma NextValue(s: State)
    requires Reachable(s)
    ensures CheckpointClaimed(s.shared).checkpoint == CounterAfter(s.scm.claims + 1)
  {
    CounterHolds(s);
    CounterMoves(s.scm.claims);
  }

  lemma HeartbeatRound(s: State) returns (t: State)
    requires Reachable(s) && Awaiting(s)
    ensures Reachable(t) && Awaiting(t)
    ensures t.scm == s.scm.(published := s.scm.published + [HeartbeatRecord(s.shared)], claims := s.scm.claims + 1)
  {
    AloneStart(s);
    t := HeartbeatTried(s, s, true);
    ReachableAlone(s, t);
  }

  lemma OneMoreHeartbeat(s: State, n: nat) returns (t: State)
    requires Reachable(s) && Awaiting(s) && Claimed(s, n)
    ensures Reachable(t) && Awaiting(t) && Claimed(t, n + 1)
  {
    NextValue(s);
    t := HeartbeatRound(s);
    NextClaim(s.scm, n, HeartbeatRecord(s.shared), t.scm);
  }

  /** A commit may take any time, so that any number of heartbeats is published. */
  lemma {:induction false} HeartbeatsGoOn(n: nat) returns (t: State)
    requires n > 0
    ensures Reachable(t) && Awaiting(t) && Claimed(t, n)
  {
    if n == 1 {
      t := CommitReachable();
    } else {
      var before := HeartbeatsGoOn(n - 1);
      t := OneMoreHeartbeat(before, n - 1);
    }
  }

  /** Once the counter has wrapped, a published zero falls behind the record of PRESHUTDOWN. */
  lemma WrappedFallsBack(t: State, n: nat)
    requires Claimed(t, n) && !NoWrap(n)
    ensures !RecordsAdvance(t)
  {
    var from := t.scm.acceptedAt.value;
    var k := from + (DWORD_LIMIT - 2);
    assert t.scm.published[from].status.checkpoint == CounterAfter(1) == 2;
    assert t.scm.published[k].status.checkpoint == CounterAfter(k - from + 1) == 0;
    assert !Succeeds(t.scm.published[from], t.scm.published[k]);
  }

  /**
    The records advance in every run with `n` claims of the counter exactly if the counter has not wrapped: the
    limit of `CheckpointsAdvance` cannot be raised.
   */
  lemma AdvanceIffNotWrapped(n: nat)
    ensures (forall t :: Reachable(t) && t.scm.acceptedAt.Some? && t.scm.claims == n ==> RecordsAdvance(t)) <==> NoWrap(n)
  {
    if NoWrap(n) {
      forall t | Reachable(t) && t.scm.acceptedAt.Some? && t.scm.claims == n
        ensures RecordsAdvance(t)
      {
        CheckpointsAdvance(t);
      }
    } else {
      var t := HeartbeatsGoOn(n);
      WrappedFallsBack(t, n);
    }
  }
}
