/** And every run of service main, the worker and the clock alone, from the skip token to the exit code, is a call. */
module CommitRuns {
  import opened ServiceState
  import opened ServiceSystem
  import opened ServiceThreads
  import opened ServiceRuntime
  import opened HandlerRefinement
  import opened CommitSteps
  import opened CommitRefinement

  ghost predicate AllTaken(taken: seq<bool>) {
    forall i :: 0 <= i < |taken| ==> taken[i]
  }

  /** One more attempt after heartbeats that were all taken. */
  lemma {:induction false} HeartbeatsSnoc(sh: Shared, taken: seq<bool>, ok: bool)
    requires AllTaken(taken)
    ensures Heartbeats(sh, taken + [ok]).0 == NextReport(Heartbeats(sh, taken).0)
    ensures Heartbeats(sh, taken + [ok]).1
         == Heartbeats(sh, taken).1 + if ok then [NextReport(Heartbeats(sh, taken).0).status] else []
    decreases |taken|
  {
    if taken == [] {
      assert [ok][1..] == [];
    } else {
      assert (taken + [ok])[1..] == taken[1..] + [ok];
      HeartbeatsSnoc(NextReport(sh), taken[1..], ok);
    }
  }

  /** Some heartbeats lead from `start` to `sh` and publish `records` after `before`; another may follow if all were taken. */
  ghost predicate Beaten(start: Shared, before: seq<Status>, sh: Shared, records: seq<Status>, available: bool) {
    exists taken ::
      && sh == Heartbeats(start, taken).0 && records == before + Heartbeats(start, taken).1
      && (available ==> AllTaken(taken))
  }

  lemma NotBeaten(start: Shared, before: seq<Status>)
    ensures Beaten(start, before, start, before, true)
  {
    assert start == Heartbeats(start, []).0 && before == before + Heartbeats(start, []).1 && AllTaken([]);
  }

  lemma BeatenOnce(start: Shared, before: seq<Status>, sh: Shared, records: seq<Status>, ok: bool)
    requires Beaten(start, before, sh, records, true)
    ensures Beaten(start, before, NextReport(sh), records + if ok then [NextReport(sh).status] else [], ok)
  {
    var taken :| sh == Heartbeats(start, taken).0 && records == before + Heartbeats(start, taken).1 && AllTaken(taken);
    HeartbeatsSnoc(start, taken, ok);
    var longer := taken + [ok];
    assert NextReport(sh) == Heartbeats(start, longer).0;
    assert records + (if ok then [NextReport(sh).status] else []) == before + Heartbeats(start, longer).1;
  }

  /** Service main stands between the skip token and the exit code of the PRESHUTDOWN branch. */
  predicate InCommit(pc: MainPc) {
    || pc.ConsumeSkipToken? || pc.StartWorker? || pc.AwaitWorker? || pc.ClaimHeartbeat? || pc.PublishHeartbeat? || pc.JoinWorker?
    || (pc.LoadExitCode? && pc.branch.CommitBranch?)
  }

  /** Service main has left for good: towards a failure, or behind the exit code. */
  predicate LeftCommit(pc: MainPc) {
    || pc.SignalFailure? || pc.PublishStopped? || pc.Finished?
    || ((StoppingSupervisor(pc) || StoppingAcceptor(pc)) && pc.branch.FailBranch?)
  }

  lemma LeavesOnce(s: State, ok: bool)
    requires MainNext(s, ok).Some?
    ensures InCommit(s.main) ==> InCommit(MainNext(s, ok).value) || LeftCommit(MainNext(s, ok).value)
    ensures LeftCommit(s.main) ==> LeftCommit(MainNext(s, ok).value)
  {
  }

  /** The decision was taken against the token of `s`. */
  predicate Decided(s: State, u: State) {
    u.commit.decision.Some? && u.commit.decision.value.skipped == SkipTokenValid(s.shared, u.commit.decision.value.at)
  }

  /** How far the commit begun in `s` has come in `u`. */
  ghost predicate Progress(s: State, u: State) {
    var start, before, records := SkipTokenConsumed(s.shared), StatusesOf(s.scm.published), StatusesOf(u.scm.published);
    && (u.main.ConsumeSkipToken? ==> u.shared == s.shared && records == before)
    && (InCommit(u.main) && !u.main.ConsumeSkipToken? ==> Decided(s, u))
    && (u.main.StartWorker? ==> u.shared == start && records == before)
    && (u.main.AwaitWorker? ==> Beaten(start, before, u.shared, records, u.main.heartbeatAvailable))
    && (u.main.ClaimHeartbeat? ==> Beaten(start, before, u.shared, records, true))
    && (u.main.PublishHeartbeat? ==>
          exists sh :: && Beaten(start, before, sh, records, true)
                       && u.shared == CheckpointClaimed(sh) && u.main.claimed == u.shared.checkpoint)
    && (u.main.JoinWorker? ==> Beaten(start, before, u.shared, records, false))
    && (InCommit(u.main) && !u.main.ConsumeSkipToken? && !u.main.LoadExitCode? ==> !u.commit.decision.value.skipped)
    && (u.main.LoadExitCode? && u.commit.decision.Some? ==>
          if u.commit.decision.value.skipped then u.shared == start && records == before
          else Beaten(start, before, u.shared, records, false))
  }

  /** Only the fields of a step of service main matter; the worker and the clock touch none of them. */
  lemma ProgressFrame(s: State, u: State, t: State)
    requires Progress(s, u) && t.main == u.main && t.shared == u.shared && t.scm == u.scm && t.commit == u.commit
    ensures Progress(s, t)
  {
  }

  lemma ConsumeKeepsProgress(s: State, u: State, ok: bool)
    requires Progress(s, u) && u.main.ConsumeSkipToken?
    ensures MainStep(u, ok).Some? && Progress(s, MainStep(u, ok).value)
  {
    assert MainStep(u, ok) == MainStep(u, true);
    ConsumeStep(u);
  }

  lemma StartKeepsProgress(s: State, u: State, ok: bool)
    requires Progress(s, u) && u.main.StartWorker?
    ensures MainStep(u, ok).Some? && Progress(s, MainStep(u, ok).value)
  {
    if ok {
      StartStep(u);
      NotBeaten(u.shared, StatusesOf(u.scm.published));
    } else {
      assert MainStep(u, ok).value.main.SignalFailure?;
    }
  }

  lemma AwaitKeepsProgress(s: State, u: State, ok: bool)
    requires Progress(s, u) && u.main.AwaitWorker? && MainStep(u, ok).Some?
    ensures Progress(s, MainStep(u, ok).value)
  {
    var t := MainStep(u, ok).value;
    assert t.shared == u.shared && t.scm == u.scm && t.commit == u.commit;
    assert t.main.JoinWorker? || (t.main.ClaimHeartbeat? && u.main.heartbeatAvailable)
      || (t.main.AwaitWorker? && t.main.heartbeatAvailable == u.main.heartbeatAvailable);
  }

  lemma ClaimKeepsProgress(s: State, u: State, ok: bool)
    requires Progress(s, u) && u.main.ClaimHeartbeat?
    ensures MainStep(u, ok).Some? && Progress(s, MainStep(u, ok).value)
  {
    assert MainStep(u, ok) == MainStep(u, true);
    ClaimStep(u);
  }

  lemma PublishKeepsProgress(s: State, u: State, ok: bool)
    requires Progress(s, u) && u.main.PublishHeartbeat?
    ensures MainStep(u, ok).Some? && Progress(s, MainStep(u, ok).value)
  {
    var start, before, records := SkipTokenConsumed(s.shared), StatusesOf(s.scm.published), StatusesOf(u.scm.published);
    var sh :| Beaten(start, before, sh, records, true) && u.shared == CheckpointClaimed(sh) && u.main.claimed == u.shared.checkpoint;
    PublishStep(u, ok);
    BeatenOnce(start, before, sh, records, ok);
    StatusesSnoc(u.scm.published, Publication(NextReport(sh).status, FromHeartbeat));
  }

  lemma JoinKeepsProgress(s: State, u: State, ok: bool)
    requires Progress(s, u) && u.main.JoinWorker? && MainStep(u, ok).Some?
    ensures Progress(s, MainStep(u, ok).value)
  {
    assert MainStep(u, ok) == MainStep(u, true);
    JoinStep(u);
  }

  ghost predicate CommitRun(s: State, u: State) {
    (InCommit(u.main) || LeftCommit(u.main)) && Progress(s, u)
  }

  lemma MainKeepsCommitRun(s: State, u: State, ok: bool)
    requires CommitRun(s, u) && MainStep(u, ok).Some?
    ensures CommitRun(s, MainStep(u, ok).value)
  {
    LeavesOnce(u, ok);
    if u.main.ConsumeSkipToken? {
      ConsumeKeepsProgress(s, u, ok);
    } else if u.main.StartWorker? {
      StartKeepsProgress(s, u, ok);
    } else if u.main.AwaitWorker? {
      AwaitKeepsProgress(s, u, ok);
    } else if u.main.ClaimHeartbeat? {
      ClaimKeepsProgress(s, u, ok);
    } else if u.main.PublishHeartbeat? {
      PublishKeepsProgress(s, u, ok);
    } else if u.main.JoinWorker? {
      JoinKeepsProgress(s, u, ok);
    } else {
      LeavesForGood(u, ok);
    }
  }

  lemma LeavesForGood(u: State, ok: bool)
    requires MainNext(u, ok).Some? && (LeftCommit(u.main) || u.main.LoadExitCode?)
    ensures LeftCommit(MainNext(u, ok).value)
  {
  }

  lemma {:induction false} CommitRunHolds(s: State, run: seq<Action>, t: State)
    requires s.main.ConsumeSkipToken? && Leads(s, run, t) && OnlyCommit(run)
    ensures CommitRun(s, t)
  {
    if run != [] {
      var u := Execute(s, run[..|run| - 1]).value;
      var a := run[|run| - 1];
      CommitRunHolds(s, run[..|run| - 1], u);
      if a.MainAction? {
        MainKeepsCommitRun(s, u, a.ok);
      } else {
        assert a.WorkerAction? || a.Tick?;
        ProgressFrame(s, u, t);
      }
    }
  }

  /**
    And every run of service main, the worker and the clock from the skip token to the exit code is a call: at the time
    of the recorded decision, with the heartbeats that the SCM took in that run.
   */
  lemma RunIsCommit(s: State, run: seq<Action>, t: State)
    requires s.main.ConsumeSkipToken? && Leads(s, run, t) && OnlyCommit(run) && t.main == LoadExitCode(CommitBranch)
    ensures t.commit.decision.Some?
    ensures exists taken :: var call := CommitCall(s.shared, t.commit.decision.value.at, taken);
              t.shared == call.0 && StatusesOf(t.scm.published) == StatusesOf(s.scm.published) + call.1
  {
    CommitRunHolds(s, run, t);
    var at := t.commit.decision.value.at;
    var start, before, records := SkipTokenConsumed(s.shared), StatusesOf(s.scm.published), StatusesOf(t.scm.published);
    if t.commit.decision.value.skipped {
      assert t.shared == CommitCall(s.shared, at, []).0 && records == before + CommitCall(s.shared, at, []).1;
    } else {
      var taken :| t.shared == Heartbeats(start, taken).0 && records == before + Heartbeats(start, taken).1;
      assert t.shared == CommitCall(s.shared, at, taken).0 && records == before + CommitCall(s.shared, at, taken).1;
    }
  }
}
