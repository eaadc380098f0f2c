/** Heartbeats of a commit are fifteen seconds apart. */
module HeartbeatTiming {
  import opened ServiceSystem

  /** The next heartbeat is claimed no earlier than fifteen seconds after `from`. */
  ghost predicate NotBefore(s: State, from: nat) {
    && s.now >= from
    && (s.main.AwaitWorker? ==> s.main.wakeAt >= from + 15_000)
    && (s.main.ClaimHeartbeat? ==> s.now >= from + 15_000)
  }

  lemma StepKeepsNotBefore(s: State, a: Action, from: nat)
    requires NotBefore(s, from) && Step(s, a).Some?
    ensures NotBefore(Step(s, a).value, from)
  {
  }

  /**
    From the start of the worker, and from every published heartbeat, on: whatever run follows, a further heartbeat is
    claimed no earlier than fifteen seconds later.
   */
  lemma HeartbeatsAreSpaced(s: State, run: seq<Action>, t: State)
    requires s.main.StartWorker? || s.main.PublishHeartbeat?
    requires Leads(s, run, t) && t.main.ClaimHeartbeat?
    ensures t.now >= s.now + 15_000
  {
    var from := s.now;
    forall u, a | NotBefore(u, from) && Step(u, a).Some?
      ensures NotBefore(Step(u, a).value, from)
    {
      StepKeepsNotBefore(u, a, from);
    }
    RunKeeps((u: State) => NotBefore(u, from), s, run, t);
  }

  /**
    And no later than that: fifteen seconds after the start, or after a heartbeat that the SCM took, service main claims the
    next one if the worker still runs; after a refused one it only waits on.
   */
  lemma HeartbeatIsDue(s: State, ok: bool, again: bool)
    requires (s.main.StartWorker? && ok) || (s.main.PublishHeartbeat? && s.worker.WorkerRunning?)
    ensures MainStep(s, ok).Some?
    ensures var t := MainStep(s, ok).value;
            var later := t.(now := t.now + 15_000);
            && MainStep(later, again).Some?
            && (ok ==> MainStep(later, again).value.main.ClaimHeartbeat?)
            && (!ok ==> MainStep(later, again).value == later.(main := AwaitWorker(later.now + 15_000, false)))
  {
  }
}
