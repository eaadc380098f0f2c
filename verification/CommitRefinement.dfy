/**
  The commit of the runtime object and the transition system agree: every call of `RunPreshutdownCommit` is a run of service
  main, the worker and the clock alone, from the skip token to the exit code. `CommitRuns` has the converse.
 */
module CommitRefinement {
  import opened Options
  import opened ServiceState
  import opened ServiceSystem
  import opened ServiceRuntime
  import opened HandlerRefinement
  import opened CommitSteps

  predicate CommitAction(a: Action) {
    a.MainAction? || a.WorkerAction? || a.Tick?
  }

  ghost predicate OnlyCommit(run: seq<Action>) {
    forall i :: 0 <= i < |run| ==> CommitAction(run[i])
  }

  ghost predicate LeadsAlone(s: State, t: State) {
    exists run :: Leads(s, run, t) && OnlyCommit(run)
  }

  /** What service main, the worker and the clock reach from a reachable state is reachable. */
  lemma ReachableAlone(s: State, t: State)
    requires Reachable(s) && LeadsAlone(s, t)
    ensures Reachable(t)
  {
    var run :| Leads(s, run, t) && OnlyCommit(run);
    ReachableOn(s, run, t);
  }

  lemma AloneStart(s: State)
    ensures LeadsAlone(s, s)
  {
    assert Leads(s, [], s) && OnlyCommit([]);
  }

  lemma AloneStep(s: State, t: State, a: Action) returns (u: State)
    requires LeadsAlone(s, t) && CommitAction(a) && Step(t, a).Some?
    ensures LeadsAlone(s, u) && Step(t, a) == Some(u)
  {
    var run :| Leads(s, run, t) && OnlyCommit(run);
    u := Step(t, a).value;
    var longer := run + [a];
    assert longer[..|longer| - 1] == run;
    assert Leads(s, longer, u) && OnlyCommit(longer);
  }

  // ----- Every call is a run -----

  /** The worker ends and service main joins it. */
  lemma WorkerEnds(s: State, u: State) returns (t: State)
    requires LeadsAlone(s, u) && u.main.AwaitWorker? && u.worker.WorkerRunning?
    ensures LeadsAlone(s, t) && t.main == LoadExitCode(CommitBranch) && t.shared == u.shared && t.scm == u.scm
  {
    var t1 := AloneStep(s, u, WorkerAction);
    var t2 := AloneStep(s, t1, WorkerAction);
    assert t2 == u.(worker := WorkerExited);
    t := WorkerJoined(s, t2);
  }

  lemma WorkerJoined(s: State, u: State) returns (t: State)
    requires LeadsAlone(s, u) && u.main.AwaitWorker? && u.worker.WorkerExited?
    ensures LeadsAlone(s, t) && t.main == LoadExitCode(CommitBranch) && t.shared == u.shared && t.scm == u.scm
  {
    DoneStep(u);
    var t1 := AloneStep(s, u, MainAction(true));
    JoinStep(t1);
    t := AloneStep(s, t1, MainAction(true));
  }

  /** The interval elapses and a value of the counter is claimed. */
  lemma IntervalElapses(s: State, u: State) returns (t: State)
    requires LeadsAlone(s, u) && Awaiting(u)
    ensures LeadsAlone(s, t) && t.main == PublishHeartbeat(CheckpointClaimed(u.shared).checkpoint) && t.worker.WorkerRunning?
    ensures t.shared == CheckpointClaimed(u.shared) && t.scm == u.scm.(claims := u.scm.claims + 1)
  {
    var t1 := AloneStep(s, u, Tick(15_000));
    DueStep(t1);
    var t2 := AloneStep(s, t1, MainAction(true));
    ClaimStep(t2);
    t := AloneStep(s, t2, MainAction(true));
  }

  /** The record of the heartbeat after `sh`. */
  function HeartbeatRecord(sh: Shared): Publication {
    Publication(NextReport(sh).status, FromHeartbeat)
  }

  /** One heartbeat, which the SCM takes or refuses. */
  lemma HeartbeatTried(s: State, u: State, ok: bool) returns (t: State)
    requires LeadsAlone(s, u) && Awaiting(u)
    ensures LeadsAlone(s, t) && t.main.AwaitWorker? && t.worker.WorkerRunning? && (ok ==> Awaiting(t))
    ensures t.shared == NextReport(u.shared)
    ensures t.scm == u.scm.(claims := u.scm.claims + 1,
                            published := u.scm.published + if ok then [HeartbeatRecord(u.shared)] else [])
  {
    var t1 := IntervalElapses(s, u);
    PublishStep(t1, ok);
    t := AloneStep(s, t1, MainAction(ok));
  }

  lemma {:induction false} HeartbeatsAreRun(s: State, u: State, taken: seq<bool>) returns (t: State)
    requires LeadsAlone(s, u) && Awaiting(u)
    ensures LeadsAlone(s, t) && t.main == LoadExitCode(CommitBranch)
    ensures t.shared == Heartbeats(u.shared, taken).0
    ensures StatusesOf(t.scm.published) == StatusesOf(u.scm.published) + Heartbeats(u.shared, taken).1
    decreases |taken|
  {
    if taken == [] {
      t := WorkerEnds(s, u);
    } else {
      var next := HeartbeatTried(s, u, taken[0]);
      StatusesSnoc(u.scm.published, HeartbeatRecord(u.shared));
      HeartbeatsCons(u.shared, taken, StatusesOf(u.scm.published));
      if taken[0] {
        t := HeartbeatsAreRun(s, next, taken[1..]);
      } else {
        t := WorkerEnds(s, next);
      }
    }
  }

  /** Service main decides and starts the worker. */
  lemma WorkerStarted(s: State) returns (t: State)
    requires s.main.ConsumeSkipToken? && !SkipTokenValid(s.shared, s.now)
    ensures LeadsAlone(s, t) && Awaiting(t) && t.shared == SkipTokenConsumed(s.shared) && t.scm == s.scm
  {
    AloneStart(s);
    ConsumeStep(s);
    var t1 := AloneStep(s, s, MainAction(true));
    StartStep(t1);
    t := AloneStep(s, t1, MainAction(true));
  }

  lemma CommitSkipped(s: State) returns (t: State)
    requires s.main.ConsumeSkipToken? && SkipTokenValid(s.shared, s.now)
    ensures LeadsAlone(s, t) && t.main == LoadExitCode(CommitBranch) && t.shared == SkipTokenConsumed(s.shared) && t.scm == s.scm
  {
    AloneStart(s);
    ConsumeStep(s);
    t := AloneStep(s, s, MainAction(true));
  }

  /** Whatever heartbeats the SCM takes, the call is a run to the exit code, with the same fields and records. */
  lemma CommitIsRun(s: State, taken: seq<bool>)
    requires s.main.ConsumeSkipToken?
    ensures exists t ::
              && LeadsAlone(s, t) && t.main == LoadExitCode(CommitBranch)
              && t.shared == CommitCall(s.shared, s.now, taken).0
              && StatusesOf(t.scm.published) == StatusesOf(s.scm.published) + CommitCall(s.shared, s.now, taken).1
  {
    var t;
    if SkipTokenValid(s.shared, s.now) {
      t := CommitSkipped(s);
    } else {
      var u := WorkerStarted(s);
      t := HeartbeatsAreRun(s, u, taken);
    }
  }
}
