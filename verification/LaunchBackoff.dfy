/** The retry delay of the agent supervisor and the spacing of launch attempts. */
module LaunchBackoff {
  import opened Options
  import opened ServiceState
  import opened ServiceSystem
  import opened ServiceFrames
  import opened ServiceThreads
  import opened ConnectionSlot

  function Pow2(k: nat): nat {
    if k == 0 then 1 else 2 * Pow2(k - 1)
  }

  /** The closed form of the retry delay after `k` elapsed delays. */
  function DelayAfter(k: nat): nat {
    Min(AGENT_RETRY_INITIAL * Pow2(k), AGENT_RETRY_MAXIMUM)
  }

  lemma DelayDoubles(k: nat)
    ensures DelayAfter(k + 1) == Min(DelayAfter(k) * 2, AGENT_RETRY_MAXIMUM)
    ensures AGENT_RETRY_INITIAL <= DelayAfter(k)
  {
    PowPositive(k);
  }

  lemma {:induction false} PowPositive(k: nat)
    ensures Pow2(k) >= 1
  {
    if k > 0 {
      PowPositive(k - 1);
    }
  }

  // ----- The closed form -----

  ghost predicate BackoffInv(s: State) {
    s.backoff.retryDelay == DelayAfter(s.backoff.timeouts)
  }

  lemma SupervisorKeepsBackoff(s: State, o: SupervisorOutcome)
    requires BackoffInv(s)
    ensures SupervisorBackoff(s, o).retryDelay == DelayAfter(SupervisorBackoff(s, o).timeouts)
  {
    DelayDoubles(s.backoff.timeouts);
    assert Pow2(0) == 1;
  }

  lemma BackoffHolds(t: State)
    requires Reachable(t)
    ensures BackoffInv(t)
  {
    assert Pow2(0) == 1;
    forall u, a | Reachable(u) && BackoffInv(u) && Step(u, a).Some?
      ensures BackoffInv(Step(u, a).value)
    {
      if a.SupervisorAction? {
        SupervisorKeepsBackoff(u, a.supervisor);
      }
    }
    ReachableKeeps(BackoffInv, t);
  }

  /** After `timeouts` elapsed delays since the last reset the retry delay is min(5 * 2^timeouts, 60) seconds. */
  lemma RetryDelayClosedForm(t: State)
    requires Reachable(t)
    ensures t.backoff.retryDelay == Min(5_000 * Pow2(t.backoff.timeouts), 60_000)
  {
    BackoffHolds(t);
  }

  // ----- The spacing of launch attempts -----

  /** Nothing was pending at `launch`, and no connection was installed and no signal raised up to the given counts. */
  predicate QuietSince(launch: LaunchRecord, installs: nat, signals: nat) {
    launch.installs == installs && launch.signals == signals && !launch.needed && !launch.connected
  }

  /** Attempt `i` is followed by attempt `i + 1` with no connection and no signal in between. */
  predicate QuietBetween(launches: seq<LaunchRecord>, i: nat)
    requires i + 1 < |launches|
  {
    QuietSince(launches[i], launches[i + 1].installs, launches[i + 1].signals)
  }

  ghost predicate SpacedFrom(launches: seq<LaunchRecord>, i: nat)
    requires i + 1 < |launches|
  {
    QuietBetween(launches, i) ==>
      && launches[i + 1].at >= launches[i].at + DelayAfter(launches[i].timeouts)
      && launches[i + 1].timeouts == launches[i].timeouts + 1
  }

  ghost predicate Spaced(launches: seq<LaunchRecord>) {
    forall i :: 0 <= i < |launches| - 1 ==> SpacedFrom(launches, i)
  }

  predicate Observing(pc: SupervisorPc) {
    pc.Launching? || pc.ObserveTop? || pc.ObserveFetch? || pc.ObserveDeadline? || pc.ObserveWait?
  }

  /** Where the supervisor can stand while everything has been quiet since its last attempt `last`. */
  ghost predicate QuietPosition(s: State, last: LaunchRecord) {
    && s.shared.connection == None && !s.shared.agentNeeded && !s.shared.agentConnected
    && last.at <= s.now
    && (Observing(s.supervisor) ==> s.backoff.timeouts == last.timeouts)
    && (s.supervisor.SupervisorTop? || s.supervisor.RetainFetch? || s.supervisor.Decide? || s.supervisor.Delay? ==>
          s.backoff.delayBeforeLaunch && s.backoff.timeouts == last.timeouts)
    && (s.supervisor.Delay? ==> s.supervisor.wakeAt >= last.at + DelayAfter(last.timeouts))
    && (s.supervisor.Launch? ==> s.now >= last.at + DelayAfter(last.timeouts) && s.backoff.timeouts == last.timeouts + 1)
    && !Holding(s.supervisor) && !s.supervisor.Park? && !s.supervisor.ObserveSession?
  }

  ghost predicate SpacingInv(s: State) {
    && Spaced(s.agent.launches)
    && (s.supervisor.SupervisorNotStarted? ==> s.agent.launches == [])
    && (s.agent.launches != [] ==>
          var last := s.agent.launches[|s.agent.launches| - 1];
          && last.installs <= |s.pipes.installs| && last.signals <= |s.agent.signals|
          && (QuietSince(last, |s.pipes.installs|, |s.agent.signals|) ==> QuietPosition(s, last)))
  }

  /** The last attempt, while everything has been quiet since. */
  ghost predicate Quiet(s: State) {
    s.agent.launches != [] && QuietSince(s.agent.launches[|s.agent.launches| - 1], |s.pipes.installs|, |s.agent.signals|)
  }

  function Last(s: State): LaunchRecord
    requires s.agent.launches != []
  {
    s.agent.launches[|s.agent.launches| - 1]
  }

  /** In quiet the supervisor only observes the launch, waits the delay and launches again. */
  lemma QuietFlow(s: State, o: SupervisorOutcome)
    requires Quiet(s) && QuietPosition(s, Last(s)) && BackoffInv(s) && SupervisorNext(s, o).Some? && !s.supervisor.Launch?
    ensures var next, backoff := SupervisorNext(s, o).value, SupervisorBackoff(s, o);
            && (Observing(next) ==> backoff.timeouts == Last(s).timeouts)
            && (next.SupervisorTop? || next.RetainFetch? || next.Decide? || next.Delay? ==>
                  backoff.delayBeforeLaunch && backoff.timeouts == Last(s).timeouts)
            && !Holding(next) && !next.Park? && !next.ObserveSession?
  {
  }

  lemma QuietDelays(s: State, o: SupervisorOutcome)
    requires Quiet(s) && QuietPosition(s, Last(s)) && BackoffInv(s) && SupervisorNext(s, o).Some? && !s.supervisor.Launch?
    ensures var next := SupervisorNext(s, o).value;
            && (next.Delay? ==> next.wakeAt >= Last(s).at + DelayAfter(Last(s).timeouts))
            && (next.Launch? ==> s.now >= Last(s).at + DelayAfter(Last(s).timeouts)
                                 && SupervisorBackoff(s, o).timeouts == Last(s).timeouts + 1)
  {
  }

  lemma QuietShared(s: State, o: SupervisorOutcome)
    requires s.shared.connection == None && !s.shared.agentNeeded && !s.shared.agentConnected
    ensures var sh := SupervisorShared(s, o); sh.connection == None && !sh.agentNeeded && !sh.agentConnected
  {
  }

  lemma SupervisorKeepsQuiet(s: State, o: SupervisorOutcome)
    requires Quiet(s) && QuietPosition(s, Last(s)) && BackoffInv(s) && SupervisorStep(s, o).Some? && !s.supervisor.Launch?
    ensures QuietPosition(SupervisorStep(s, o).value, Last(s))
  {
    QuietFlow(s, o);
    QuietDelays(s, o);
    QuietShared(s, o);
  }

  lemma SpacedSnoc(launches: seq<LaunchRecord>, next: LaunchRecord)
    requires Spaced(launches) && (launches != [] ==> SpacedFrom([launches[|launches| - 1], next], 0))
    ensures Spaced(launches + [next])
  {
    var longer := launches + [next];
    forall i | 0 <= i < |longer| - 1
      ensures SpacedFrom(longer, i)
    {
      if i < |launches| - 1 {
        assert SpacedFrom(launches, i);
      }
    }
  }

  lemma LaunchKeepsSpacing(s: State, o: SupervisorOutcome)
    requires SpacingInv(s) && BackoffInv(s) && SlotInv(s) && s.supervisor.Launch?
    ensures SpacingInv(SupervisorStep(s, o).value)
  {
    var next := LaunchNow(s);
    SpacedSnoc(s.agent.launches, next);
    var t := SupervisorStep(s, o).value;
    assert t.agent.launches[|t.agent.launches| - 1] == next;
    assert t.shared == s.shared;
  }

  lemma SupervisorKeepsSpacing(s: State, o: SupervisorOutcome)
    requires SpacingInv(s) && BackoffInv(s) && SlotInv(s) && SupervisorStep(s, o).Some?
    ensures SpacingInv(SupervisorStep(s, o).value)
  {
    if s.supervisor.Launch? {
      LaunchKeepsSpacing(s, o);
    } else {
      assert SupervisorPipes(s).installs == s.pipes.installs;
      if Quiet(s) {
        SupervisorKeepsQuiet(s, o);
      }
    }
  }

  /** A thread that leaves the slot, the signals and the installs alone, or that ends the quiet. */
  lemma OtherKeepsSpacing(s: State, t: State)
    requires SpacingInv(s)
    requires t.agent.launches == s.agent.launches && t.supervisor == s.supervisor && t.backoff == s.backoff && t.now >= s.now
    requires |s.pipes.installs| <= |t.pipes.installs| && |s.agent.signals| <= |t.agent.signals|
    requires |s.pipes.installs| == |t.pipes.installs| && s.shared.connection == None && !s.shared.agentConnected ==>
               t.shared.connection == None && !t.shared.agentConnected
    requires |s.agent.signals| == |t.agent.signals| ==> t.shared.agentNeeded == s.shared.agentNeeded
    ensures SpacingInv(t)
  {
  }

  lemma MainKeepsSpacing(s: State, ok: bool)
    requires SpacingInv(s) && ThreadsInv(s) && MainStep(s, ok).Some?
    ensures SpacingInv(MainStep(s, ok).value)
  {
    MainShares(s.shared, s.main);
    if s.main.SpawnSupervisor? {
      assert s.agent.launches == [];
    } else {
      OtherKeepsSpacing(s, MainStep(s, ok).value);
    }
  }

  lemma AcceptorKeepsSpacing(s: State, o: AcceptorOutcome)
    requires SpacingInv(s) && AcceptorStep(s, o).Some?
    ensures SpacingInv(AcceptorStep(s, o).value)
  {
    AcceptorShares(s, o);
    AcceptorSharesSlot(s, o);
    OtherKeepsSpacing(s, AcceptorStep(s, o).value);
  }

  lemma HandlerKeepsSpacing(s: State, a: HandlerAction)
    requires SpacingInv(s) && HandlerStep(s, a).Some?
    ensures SpacingInv(HandlerStep(s, a).value)
  {
    match a
    case Receive(control, ok) => HandlerEntryShares(s.shared, control, ok);
    case Continue(ok) => HandlerContinueShares(s.shared, s.handler, ok);
    OtherKeepsSpacing(s, HandlerStep(s, a).value);
  }

  lemma StepKeepsSpacing(s: State, a: Action)
    requires SpacingInv(s) && BackoffInv(s) && SlotInv(s) && ThreadsInv(s) && Step(s, a).Some?
    ensures SpacingInv(Step(s, a).value)
  {
    match a
    case MainAction(ok) => MainKeepsSpacing(s, ok);
    case HandlerActionOf(h) => HandlerKeepsSpacing(s, h);
    case AcceptorAction(o) => AcceptorKeepsSpacing(s, o);
    case SupervisorAction(o) => SupervisorKeepsSpacing(s, o);
    case _ => OtherKeepsSpacing(s, Step(s, a).value);
  }

  lemma SpacingHolds(t: State)
    requires Reachable(t)
    ensures SpacingInv(t)
  {
    forall u, a | Reachable(u) && SpacingInv(u) && Step(u, a).Some?
      ensures SpacingInv(Step(u, a).value)
    {
      BackoffHolds(u);
      SlotHolds(u);
      ThreadsHold(u);
      StepKeepsSpacing(u, a);
    }
    ReachableKeeps(SpacingInv, t);
  }

  /**
    Two launch attempts with no connection, no agent-needed and no session-change signal pending or raised between
    them are separated by at least the delay in force at the first, and the second has one more elapsed delay.
   */
  lemma QuietLaunchesAreSpaced(t: State, i: nat)
    requires Reachable(t) && i + 1 < |t.agent.launches| && QuietBetween(t.agent.launches, i)
    ensures var first, second := t.agent.launches[i], t.agent.launches[i + 1];
            && second.at - first.at >= Min(5_000 * Pow2(first.timeouts), 60_000)
            && second.timeouts == first.timeouts + 1
  {
    SpacingHolds(t);
    assert SpacedFrom(t.agent.launches, i);
  }

  /** The delays after `timeouts`, `timeouts + 1`, ... elapsed delays, `n` of them in all. */
  function TotalDelay(timeouts: nat, n: nat): nat {
    if n == 0 then 0 else TotalDelay(timeouts, n - 1) + DelayAfter(timeouts + n - 1)
  }

  /**
    So a quiet streak of attempts is rate limited: the `n`-th attempt after attempt `i` comes no earlier than the
    sum of the `n` growing delays, which is at least five seconds each.
   */
  lemma {:induction false} QuietStreakIsRateLimited(t: State, i: nat, n: nat)
    requires Reachable(t) && i + n < |t.agent.launches|
    requires forall k :: i <= k < i + n ==> QuietBetween(t.agent.launches, k)
    ensures t.agent.launches[i + n].at >= t.agent.launches[i].at + TotalDelay(t.agent.launches[i].timeouts, n)
    ensures TotalDelay(t.agent.launches[i].timeouts, n) >= n * 5_000
    ensures t.agent.launches[i + n].timeouts == t.agent.launches[i].timeouts + n
  {
    if n > 0 {
      QuietStreakIsRateLimited(t, i, n - 1);
      QuietLaunchesAreSpaced(t, i + n - 1);
      DelayDoubles(t.agent.launches[i + n - 1].timeouts);
    }
  }
}
