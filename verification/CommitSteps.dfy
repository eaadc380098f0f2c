/** The single steps of service main from the skip token to the end of the commit, with all that they change. */
module CommitSteps {
  import opened Options
  import opened ServiceState
  import opened ServiceSystem

  /** Between two heartbeats: the worker runs, and another heartbeat may be reported after the interval. */
  predicate Awaiting(s: State) {
    s.main.AwaitWorker? && s.main.heartbeatAvailable && s.main.wakeAt <= s.now + 15_000 && s.worker.WorkerRunning?
  }

  lemma ConsumeStep(s: State)
    requires s.main.ConsumeSkipToken?
    ensures MainStep(s, true)
         == Some(s.(main := if SkipTokenValid(s.shared, s.now) then LoadExitCode(CommitBranch) else StartWorker,
                    shared := SkipTokenConsumed(s.shared),
                    commit := s.commit.(decision := Some(SkipDecision(SkipTokenValid(s.shared, s.now), s.now)))))
  {
  }

  lemma StartStep(s: State)
    requires s.main.StartWorker?
    ensures MainStep(s, true)
         == Some(s.(main := AwaitWorker(s.now + HEARTBEAT_INTERVAL, true), worker := WorkerRunning,
                    commit := s.commit.(workerStarts := s.commit.workerStarts + 1)))
  {
  }

  lemma DueStep(s: State)
    requires s.main.AwaitWorker? && s.main.heartbeatAvailable && s.main.wakeAt <= s.now
    requires !s.worker.ResultReady? && !s.worker.WorkerExited?
    ensures MainStep(s, true) == Some(s.(main := ClaimHeartbeat))
  {
  }

  lemma ClaimStep(s: State)
    requires s.main.ClaimHeartbeat?
    ensures MainStep(s, true)
         == Some(s.(main := PublishHeartbeat(CheckpointClaimed(s.shared).checkpoint), shared := CheckpointClaimed(s.shared),
                    scm := s.scm.(claims := s.scm.claims + 1)))
  {
  }

  lemma PublishStep(s: State, ok: bool)
    requires s.main.PublishHeartbeat?
    ensures MainStep(s, ok)
         == Some(s.(main := AwaitWorker(s.now + HEARTBEAT_INTERVAL, ok), shared := Reported(s.shared, StopPendingAt(s.main.claimed)),
                    scm := if ok then Published(s.scm, StatusOf(StopPendingAt(s.main.claimed)), FromHeartbeat) else s.scm))
  {
  }

  lemma DoneStep(s: State)
    requires s.main.AwaitWorker? && (s.worker.ResultReady? || s.worker.WorkerExited?)
    ensures MainStep(s, true) == Some(s.(main := JoinWorker))
  {
  }

  lemma JoinStep(s: State)
    requires s.main.JoinWorker? && s.worker.WorkerExited?
    ensures MainStep(s, true) == Some(s.(main := LoadExitCode(CommitBranch)))
  {
  }
}
