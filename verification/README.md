# UWF Manager: service protocol, overlay writes, logs, exclusions and registry keys

This project models the parts of UWF Manager whose correctness does not show in any single function, and proves
what they promise.

**The enhanced-mode service** (`ServiceState`, `ServiceSystem` and the modules built on them). Service main, the control
handler, the pipe acceptor, the agent supervisor and the commit worker are one transition system: a program counter
per thread, the shared fields and events, a clock that advances by arbitrary amounts, and a history of what happened.
A step is one mutex-protected block, one atomic operation, one event or SCM call, or one wait; a wait returns the
lowest signalled object. Clients, session changes, SCM controls and the outcomes of operating-system calls are chosen
freely at every step, so a statement about `Reachable` states is a statement about every interleaving, and one about
`Leads(s, run, t)` is about every continuation. `ServiceRuntime` holds the object itself, with methods that update its fields
in place; each method for a single block is proved to compute the function that the transition system uses for that
block. For the two methods that take many steps, `HandlerRefinement` proves that the calls of `HandleControl` are
exactly the runs of the handler alone, and `CommitRefinement` and `CommitRuns` that the calls of `RunPreshutdownCommit` are exactly the
runs of service main, the worker and the clock. `ShutdownCompletion` proves that the shutdown as a whole comes to an end; `AcceptorService`
and `SupervisorService` state what the two infrastructure threads owe their clients and the user.

**The overlay write planner** (`OverlayWritePlan`), with an executor that follows the contract of
`src/core/OverlayWritePlan.h:16`: a dependent step runs only after its predecessor was confirmed, and an unconfirmed
write may or may not have taken effect.

**The log buffer** (`LogBuffer`), **exclusion lists** (`Exclusions`), **ASCII strings, registry keys and their classification**
(`StringUtil`, `RegistryPath`, `RegistryExclusionPolicy`, `TypedKeys`). Strings are sequences of bytes held as characters.

The methods named in the source as in-place or loop code are Dafny methods proved against specification functions; the
lemmas below say what those functions mean.

## What the proofs show about the code

- An accepted PRESHUTDOWN need not commit. If the stop event was already set when it is accepted, by STOP or by an
  infrastructure failure, the wait returns the stop event (the lower index) and no continuation commits
  (`Preshutdown.AcceptedPreshutdownMayNotCommit` and `Preshutdown.FailureMayDivertPreshutdown` give the runs). If it was
  clear, STOP can no longer divert service main (`Preshutdown.StopCannotPreemptAccepted`). An accepted PRESHUTDOWN can lead
  to a commit if and only if at its acceptance service main still waits and the stop event is clear
  (`Preshutdown.StopEventDecides`).
- `regkey::normalize` is not idempotent: `HKLM\a \` loses its trailing blank only the second time
  (`RegistryPath.NormalizeIsNotIdempotent`).
  `RegistryPath.NormalizeIdempotentIff` gives the exact condition: trimmed and without trailing backslashes, the key must
  not end in whitespace.
- The checkpoint counter has 32 bits. Published checkpoints advance for exactly as long as it has not wrapped around
  (`CheckpointWrap.AdvanceIffNotWrapped`).
- `report` stores a record before the SCM takes it. A refused heartbeat therefore stays stored, and a later INTERROGATE
  publishes it; the checkpoints still do not go backwards.

## Model

| member | source | states |
|---|---|---|
| ConnectionSlot.SlotMirrorsHistory | src/service/EnhancedModeServiceRuntime.cpp:513-518 | In every reachable state the connected event is signalled exactly when a connection is installed, and the installs so far are the teardowns so far followed by the installed connection, each one once |
| ConnectionSlot.InstallLandsOnEmptySlot | src/service/EnhancedModeServiceRuntime.cpp:513-536 | An install never overwrites a connection that is still in the slot |
| ConnectionSlot.StaleDiscardSparesNewer | src/service/EnhancedModeServiceRuntime.cpp:675-683 | A supervisor that discards a connection fetched earlier leaves a newer one and its event alone |
| ControlChannel.AppliedControlsAreGenuine | src/service/EnhancedModeServiceRuntime.cpp:498-532 | Every applied control was read from an installed, authenticated, handshaken connection and is what its frame decodes to |
| ControlChannel.EchoesFollowApplications | src/service/EnhancedModeServiceRuntime.cpp:523-535 | Per connection the frames echoed are a prefix of the frames applied, with at most one applied and not echoed, whatever fails |
| ControlChannel.EchoMeansApplied | src/service/EnhancedModeServiceRuntime.cpp:520-535 | A client that gets its frame back knows that the control in it took effect on its own connection |
| ControlChannel.EveryValidFrameIsApplied | src/service/EnhancedModeServiceRuntime.cpp:523-532 | Per connection the applied frames are exactly the valid frames read there, in order, but for the one about to be applied: neither control is ever dropped |
| AcceptorService.ValidFrameIsApplied | src/service/EnhancedModeServiceRuntime.cpp:527-532 | Any valid message, once read, is applied by the next step, with its control, its connection and the time; it arms the token for 300 seconds or disarms it |
| AcceptorService.ValidFrameIsEchoed | src/service/EnhancedModeServiceRuntime.cpp:532-535 | With the stop event clear the frame is echoed, and the acceptor then reads the next frame of the same client |
| AcceptorService.FailedClientIsCutOff | src/service/EnhancedModeServiceRuntime.cpp:526-537 | A frame that no valid message encodes to, a lost client or an incomplete echo empties the slot and applies nothing; the acceptor lets the next client in unless it is stopping |
| AcceptorService.AuthenticatedClientIsInstalled | src/service/EnhancedModeServiceRuntime.cpp:498-518 | A client that passes authentication and takes the handshake gets slot and event |
| AcceptorService.LostClientChangesNothing | src/service/EnhancedModeServiceRuntime.cpp:496-511 | A client that is refused or lost before its install changes nothing but the position of the acceptor |
| AcceptorService.NextClientIsServed | src/service/EnhancedModeServiceRuntime.cpp:478-538 | In every reachable state in which the acceptor is active and not asked to stop, steps of its own lead to another client in the slot |
| AcceptorService.RequestedStopEndsLoop | src/service/EnhancedModeServiceRuntime.cpp:478-497 | With its stop requested the acceptor ends wherever its loop looks at the token, even if a client has just connected |
| AcceptorService.NobodyAfterStopRequest | src/service/EnhancedModeServiceRuntime.cpp:492-501 | From the stop request on no continuation lets a further client through the authentication |
| AcceptorService.StopEventEndsOperations | src/service/EnhancedModeServiceRuntime.cpp:503-537 | With the stop event set no pipe operation is begun, and a served client is first given up |
| AcceptorService.FailedCallStopsService | src/service/EnhancedModeServiceRuntime.cpp:423-435 | Every call of the acceptor that throws is recorded with its code, sets the stop event and ends the acceptor |
| AcceptorService.EndLeavesNoConnection | src/service/EnhancedModeServiceRuntime.cpp:523-537 | In every run an acceptor that has ended leaves an empty slot and a clear event, unless a failure was recorded |
| EnhancedModeProtocol.DecodeExactlyEncodings | src/app/enhanced/EnhancedModeProtocol.h:34-60 | A frame decodes to a message exactly when it is that message's one encoding; encoding and decoding are inverse on valid messages |
| EnhancedModeProtocol.DecodeSpelledOut | src/app/enhanced/EnhancedModeProtocol.h:19-60 | The frame byte by byte: 1 is Handled, 2 is Required, the identifier is little-endian, and nothing else is valid |
| EnhancedModeProtocol.DecodedFits | src/app/enhanced/EnhancedModeProtocol.h:47-60 | A decoded request identifier is never zero and fits 64 bits |
| SkipToken.SkipDecisionRefinesHistory | src/service/EnhancedModeServiceRuntime.cpp:685-709 | The commit is skipped exactly when the last control applied in the whole run was Handled and at most five minutes old at the decision; nothing is applied afterwards |
| SkipToken.TokenFollowsLastControl | src/service/EnhancedModeServiceRuntime.cpp:685-703 | Until the decision the stored deadline is the one left by the last applied control of any connection |
| CommitPath.WorkerStartsOnceAfterJoins | src/service/EnhancedModeServiceRuntime.cpp:376-380 | Every run starts the commit worker at most once, only on the PRESHUTDOWN branch and only after both infrastructure threads are joined |
| CommitPath.StoppedOnlyAfterCommit | src/service/EnhancedModeServiceRuntime.cpp:705-742 | Before STOPPED is published on the PRESHUTDOWN branch either the worker has exited or the commit was skipped and no worker ran; the stop branch never raises the question |
| FirstFailure.ExitCodeIsFirstFailure | src/service/EnhancedModeServiceRuntime.cpp:660-673 | The STOPPED record carries a non-zero code exactly when an infrastructure thread recorded a failure, and then that of the first one, a zero code counting as general failure; an exception of service main yields the general failure |
| MainService.FailedCallCleansUp | src/service/EnhancedModeServiceRuntime.cpp:385-389 | Every call of service main that fails sets the stop event and leads to the stop and join of exactly the threads that were started |
| MainService.FailureIsPublished | src/service/EnhancedModeServiceRuntime.cpp:334-343 | Whatever follows such a failure, no commit is begun any more, and the record that ends the service is STOPPED with code 31 |
| Preshutdown.StartedMatchesEvent | src/service/EnhancedModeServiceRuntime.cpp:400-411 | Between handler calls the started flag equals the preshutdown event, also after a rollback, and the event is set exactly when PRESHUTDOWN was accepted |
| Preshutdown.StopCannotPreemptAccepted | src/service/EnhancedModeServiceRuntime.cpp:373-411 | With the stop event clear at the acceptance and no infrastructure failure, no continuation takes the stop branch and a waiting service main commits; with it set, by STOP or by a failure, no continuation commits |
| Preshutdown.StopEventDecides | src/service/EnhancedModeServiceRuntime.cpp:373-380 | An accepted PRESHUTDOWN can lead to a commit, in some continuation, if and only if at its acceptance service main still waits and the stop event is clear, whatever has failed before |
| Preshutdown.AcceptedPreshutdownMayNotCommit | src/service/EnhancedModeServiceRuntime.cpp:373-383 | There is a run without any failure in which an accepted PRESHUTDOWN ends on the stop branch |
| Preshutdown.FailureMayDivertPreshutdown | src/service/EnhancedModeServiceRuntime.cpp:373-383 | So does a run without any STOP, in which PRESHUTDOWN is accepted while the published RUNNING record accepts it and an infrastructure failure has set the stop event |
| Preshutdown.WaitingReachable | src/service/EnhancedModeServiceRuntime.cpp:366-374 | The start reaches the wait of service main with both threads started, the first agent asked for, and START_PENDING and RUNNING published |
| Checkpoints.CheckpointsAdvance | src/service/EnhancedModeServiceRuntime.cpp:437-468 | From the record of an accepted PRESHUTDOWN to STOPPED, and as long as the 32-bit counter has not wrapped, published checkpoints never go back and every heartbeat exceeds all records before it, whatever controls interleave and whatever heartbeat is refused |
| Checkpoints.ClaimAdvancesUnlessWrapping | src/service/EnhancedModeServiceRuntime.cpp:466 | A claim increases the counter exactly if it does not wrap around, where it falls to zero |
| CheckpointWrap.AdvanceIffNotWrapped | src/service/EnhancedModeServiceRuntime.cpp:721-733 | For every number of claims: all runs with that many claims have advancing records if and only if the counter has not wrapped; past the limit a concrete run falls back |
| HeartbeatTiming.HeartbeatsAreSpaced | src/service/EnhancedModeServiceRuntime.cpp:721-733 | In every run, from the start of the worker and from every published heartbeat on, a further one is claimed no earlier than 15 seconds later |
| HeartbeatTiming.HeartbeatIsDue | src/service/EnhancedModeServiceRuntime.cpp:721-733 | And no later, while the worker runs; after a refused heartbeat none is claimed |
| PublishedRecords.RecordsAreWellFormed | src/service/EnhancedModeServiceRuntime.cpp:437-464 | In every run each published record has exactly the fields of its kind: the three accepted controls only while running, a wait hint of 60 seconds while pending, an exit code only when stopped; a republished record is one of these |
| LaunchBackoff.RetryDelayClosedForm | src/service/EnhancedModeServiceRuntime.cpp:541-573 | After k elapsed delays since the last reset the retry delay is min(5 * 2^k, 60) seconds |
| LaunchBackoff.QuietLaunchesAreSpaced | src/service/EnhancedModeServiceRuntime.cpp:561-606 | Two launches with no connection and no signal between them are separated by at least the delay in force |
| LaunchBackoff.QuietStreakIsRateLimited | src/service/EnhancedModeServiceRuntime.cpp:541-607 | A streak of n quiet launches takes at least the sum of the n growing delays |
| SupervisorService.BackoffMoves | src/service/EnhancedModeServiceRuntime.cpp:541-599 | A healthy connection and a changed session reset the backoff to 5 seconds without delay; an elapsed delay doubles it up to 60 seconds; no other step moves it |
| SupervisorService.DelayFlagMoves | src/service/EnhancedModeServiceRuntime.cpp:561-605 | The delay flag is set exactly by a lost launch and cleared exactly by such a reset or by a signal or connection that ends a delay |
| SupervisorService.FreshLaunchIsPrompt | src/service/EnhancedModeServiceRuntime.cpp:545-579 | With an empty slot and no lost launch the supervisor launches without time passing |
| SupervisorService.SessionChangeLaunches | src/service/EnhancedModeServiceRuntime.cpp:588-592 | Once the session of the launched agent is no longer active, the next launch begins without time passing, whatever the backoff was |
| SupervisorService.SignalEndsDelay | src/service/EnhancedModeServiceRuntime.cpp:561-568 | A signal ends a delay of any length, and the launch begins without time passing |
| SupervisorService.ConnectionEndsDelay | src/service/EnhancedModeServiceRuntime.cpp:561-568 | An agent that connects during a delay ends it: the supervisor looks at the connection at once and parks on it if it is healthy |
| SupervisorService.DelayIsKept | src/service/EnhancedModeServiceRuntime.cpp:561-577 | Undisturbed, a launch after a lost one begins exactly from the retry delay on |
| SupervisorService.SignalWakesParked | src/service/EnhancedModeServiceRuntime.cpp:546-559 | From every reachable parked state a signal leads to a launch without time passing where the agent is gone or unhealthy |
| SupervisorService.NewSessionGetsAgent | src/service/EnhancedModeServiceRuntime.cpp:412-414 | So a logon, a console connect or a remote connect handled while the supervisor is parked gets the user an agent |
| SupervisorService.UnhealthyIsDiscarded | src/service/EnhancedModeServiceRuntime.cpp:609-622 | A connection that fails the health check leaves slot and event before the supervisor decides |
| SupervisorService.HealthyIsRetained | src/service/EnhancedModeServiceRuntime.cpp:546-552 | A healthy connection resets the backoff and parks the supervisor |
| SupervisorService.LaunchedAgentGetsThirtySeconds | src/service/EnhancedModeServiceRuntime.cpp:624-651 | Undisturbed, a launched agent is observed for 30 seconds, neither less nor more, and its launch is then lost |
| SupervisorService.ExitIsNoticed | src/service/EnhancedModeServiceRuntime.cpp:645-649 | An agent that exits first is noticed at once, and its launch is lost |
| SupervisorService.ConnectionIsObserved | src/service/EnhancedModeServiceRuntime.cpp:627-629 | A connection in the slot is checked: a healthy one ends the observation well, an unhealthy one leaves the slot and the observation goes on |
| SupervisorService.ConnectionWakesObservation | src/service/EnhancedModeServiceRuntime.cpp:644 | An installed connection wakes the observation before its deadline |
| SupervisorService.SignalComparesSessions | src/service/EnhancedModeServiceRuntime.cpp:638-643 | A signal is consumed and sessions compared; in the same session the observation goes on with its old deadline |
| SupervisorService.StopEndsWaits | src/service/EnhancedModeServiceRuntime.cpp:549-564 | A stop ends each of the three waits, whatever else is signalled |
| SupervisorService.FailedWait | src/service/EnhancedModeServiceRuntime.cpp:554-571 | A failed wait of the loop stops the service with its code; one of an observation only loses the launch |
| LaunchSafety.ParkedLaunchesNothing | src/service/EnhancedModeServiceRuntime.cpp:545-559 | Once the supervisor has parked on a healthy agent, no continuation launches one before another agent-needed signal is consumed |
| LaunchSafety.SignalsAreLegitimate | src/service/EnhancedModeServiceRuntime.cpp:125-129 | Agent-needed signals come only from the start, a logon, a console connect or a remote connect, and no more are consumed than raised |
| LaunchSafety.SessionChangeSignals | src/service/EnhancedModeServiceRuntime.cpp:125-129 | A session change raises a signal if and only if its type is 1, 3 or 5 |
| LaunchSafety.AtMostOneLaunchAfterStop | src/service/EnhancedModeServiceRuntime.cpp:744-749 | At most one launch begins after the supervisor's stop was requested |
| LaunchSafety.NoLaunchAfterJoin | src/service/EnhancedModeServiceRuntime.cpp:744-749 | No continuation launches an agent once the supervisor has been joined |
| AgentObservation.ObservationCannotSpin | src/service/EnhancedModeServiceRuntime.cpp:624-653 | The rounds of an observation are at most one, plus the connections in the slot at its start or installed since, plus the signals pending at its start or raised since |
| AgentObservation.ConnectedWakesAreDistinct | src/service/EnhancedModeServiceRuntime.cpp:626-644 | Every wake on the connected event is paid for by the teardown of a connection of its own before the next wait |
| ShutdownDrain.SupervisorJoinEnds | src/service/EnhancedModeServiceRuntime.cpp:744-749 | While service main joins the supervisor, every continuation lets it take at most 24 steps, and until it has ended it can take one |
| ShutdownDrain.AcceptorJoinEnds | src/service/EnhancedModeServiceRuntime.cpp:750-754 | The same for the acceptor with at most 11 steps, even under a client that keeps sending valid controls |
| ShutdownCompletion.ShutdownIsBounded | src/service/EnhancedModeServiceRuntime.cpp:376-389 | From the step at which service main leaves its wait, every run has at most 53 steps that work off the shutdown (of service main outside its wait for the running worker, of the thread it joins, of the worker), whatever interleaves and fails; once they are spent, STOPPED is published |
| ShutdownCompletion.ShutdownNeverStuck | src/service/EnhancedModeServiceRuntime.cpp:376-389 | In every reachable state from there to STOPPED such a step is possible: there is no deadlock among joins, waits and the worker |
| ShutdownCompletion.ShutdownCanFinish | src/service/EnhancedModeServiceRuntime.cpp:376-389 | From every such state a run of at most 53 steps publishes STOPPED |
| CommitRefinement.CommitIsRun | src/service/EnhancedModeServiceRuntime.cpp:705-742 | Whatever heartbeats the SCM takes, what `RunPreshutdownCommit` computes is the end of a run of service main, the worker and the clock alone, with the same fields and published records |
| CommitRuns.RunIsCommit | src/service/EnhancedModeServiceRuntime.cpp:705-742 | Every such run from the skip token to the exit code ends in what `RunPreshutdownCommit` computes for the recorded time of decision and the heartbeats taken in that run |
| HandlerRefinement.HandleControlIsRun | src/service/EnhancedModeServiceRuntime.cpp:392-421 | What the method `HandleControl` computes is the end of a run of the transition system in which only the handler moves, with the same published records |
| HandlerRefinement.RunIsHandleControl | src/service/EnhancedModeServiceRuntime.cpp:392-421 | Every run in which the handler alone receives a control and goes on until it is idle ends in what `HandleControl` computes for some answers of the SCM and of the event call |
| ServiceRuntime.StopCall | src/service/EnhancedModeServiceRuntime.cpp:394-399 | The steps of a STOP call compose to: nothing after PRESHUTDOWN, otherwise the record, then the event only if the record was taken |
| ServiceRuntime.PreshutdownCall | src/service/EnhancedModeServiceRuntime.cpp:400-411 | The steps of a PRESHUTDOWN call compose to: nothing if already started, both flag and event, or a rollback that keeps the claimed checkpoint |
| HandlerCalls.SessionChangeCall | src/service/EnhancedModeServiceRuntime.cpp:412-414 | A SESSIONCHANGE call sets the agent-needed event exactly for the types 1, 3 and 5, and nothing else |
| HandlerCalls.InterrogateCall | src/service/EnhancedModeServiceRuntime.cpp:415-419 | INTERROGATE publishes exactly the stored record, if the SCM takes it; other controls do nothing |
| ServiceRuntime.PreshutdownAllOrNothing | src/service/EnhancedModeServiceRuntime.cpp:401-409 | The call keeps flag and event equal, accepts exactly when both of its calls succeed, and throws exactly when it did not accept |
| HandlerCalls.WhenCallsThrow | src/service/EnhancedModeServiceRuntime.cpp:345-421 | A handler call throws exactly if an SCM or event call that it makes fails |
| ServiceRuntime.StopAfterPreshutdownIsIdle | src/service/EnhancedModeServiceRuntime.cpp:394-399 | STOP after an accepted PRESHUTDOWN changes and publishes nothing |
| ServiceRuntime.HeartbeatsAreConsecutive | src/service/EnhancedModeServiceRuntime.cpp:721-733 | The SCM sees exactly the heartbeats before the first refused one, with consecutive checkpoints, and none after it |
| ServiceRuntime.ServiceRuntime.HandleControl | src/service/EnhancedModeServiceRuntime.cpp:345-421 | The call composes the handler steps; it returns the exception code exactly if it throws, and the not-implemented code for unknown controls |
| ServiceRuntime.ServiceRuntime.HandleStop | src/service/EnhancedModeServiceRuntime.cpp:394-399 | The STOP case in place, with its record and its exception |
| ServiceRuntime.ServiceRuntime.HandlePreshutdown | src/service/EnhancedModeServiceRuntime.cpp:400-411 | The PRESHUTDOWN case in place, with rollback |
| ServiceRuntime.ServiceRuntime.Report | src/service/EnhancedModeServiceRuntime.cpp:437-447 | The record is stored even where the SCM refuses it |
| ServiceRuntime.ServiceRuntime.ReportStopped | src/service/EnhancedModeServiceRuntime.cpp:454-464 | Only the status record changes, to STOPPED with the exit code |
| ServiceRuntime.ServiceRuntime.NextCheckpoint | src/service/EnhancedModeServiceRuntime.cpp:466 | The returned value is the counter after its 32-bit increment |
| ServiceRuntime.ServiceRuntime.ReportRealProgress | src/service/EnhancedModeServiceRuntime.cpp:468 | Claims the next checkpoint and stores it in the record even where the SCM refuses the record |
| ServiceRuntime.ServiceRuntime.StopForInfrastructureFailure | src/service/EnhancedModeServiceRuntime.cpp:660-673 | Keeps an earlier failure, maps zero to the general failure, and sets the stop event |
| ServiceRuntime.ServiceRuntime.InstallConnection | src/service/EnhancedModeServiceRuntime.cpp:514-518 | Slot and event change together |
| ServiceRuntime.ServiceRuntime.DiscardConnection | src/service/EnhancedModeServiceRuntime.cpp:675-683 | Slot and event are cleared only for the connection given |
| ServiceRuntime.ServiceRuntime.RetainHealthyAgent | src/service/EnhancedModeServiceRuntime.cpp:609-622 | Healthy exactly if a connection passes all three checks; an unhealthy one is gone afterwards, a healthy one untouched |
| ServiceRuntime.ServiceRuntime.ApplyPreshutdownControl | src/service/EnhancedModeServiceRuntime.cpp:685-695 | Handled arms the token for five minutes, Required disarms it |
| ServiceRuntime.ServiceRuntime.ConsumePreshutdownCommitHandled | src/service/EnhancedModeServiceRuntime.cpp:697-703 | Valid up to and including the deadline, and gone afterwards in any case |
| ServiceRuntime.ServiceRuntime.RunPreshutdownCommit | src/service/EnhancedModeServiceRuntime.cpp:705-742 | Runs exactly without a valid token, which is consumed in any case; the loop leaves the fields and publishes the records of the call that `CommitRefinement` ties to the transition system |
| OverlayWritePlan.PlanOverlayWrites | src/core/OverlayWritePlan.cpp:7-41 | The imperative planner computes the plan that the following lemmas are about |
| OverlayWritePlan.PlanWritesChangesOnce | src/core/OverlayWritePlan.cpp:7-41 | The plan writes each changed field exactly once and no other, and a dependent step directly follows its pair partner |
| OverlayWritePlan.PlanIsSafe | src/core/OverlayWritePlan.cpp:7-41 | From any legal configuration with a legal target, every intermediate state is legal for every mix of confirmed, failed and unconfirmed writes; the target is kept, and reached when all writes are confirmed |
| OverlayWritePlan.AttemptsKeepTarget | src/core/OverlayWritePlan.h:16 | Any number of failed attempts, each planned afresh, leaves a legal configuration with the same target |
| OverlayWritePlan.RetriesConverge | src/core/OverlayWritePlan.h:16 | Planning again from whatever failed attempts left is safe in every state, and one full success reaches the target of the first attempt |
| OverlayWritePlan.OrderIsNeeded | src/core/OverlayWritePlan.cpp:24-34 | Wherever one threshold written first would break the order, the plan writes the other first and waits for its confirmation; one of the two can always go first |
| OverlayWritePlan.WhichThresholdGoesFirst | src/core/OverlayWritePlan.cpp:26-34 | On every input the critical threshold goes first exactly if the warning written alone would break the order, or is to be switched on together with a critical threshold above the present warning |
| OverlayWritePlan.AfterFailedWrite | src/core/OverlayWritePlan.cpp:9-34 | What still gets written when the first write of a pair fails: nothing, except a critical threshold above the warning that stays |
| OverlayWritePlan.ExecutionIsSafe | src/app/configuration/ConfigurationExecutor.cpp:232-307 | The executor's own order, thresholds before capacity and each from its own plan on its own baseline, keeps every state legal for every mix of outcomes, keeps the target, and reaches it when all writes are confirmed |
| LogBuffer.BufferIsLongestSuffix | src/shared/Log.cpp:43-60 | After any sequence of writes and clears the buffer is the longest suffix of the lines accepted since the last clear that fits 10 MiB, or the last line alone where that one exceeds it |
| LogBuffer.LongestSuffixIsUnique | src/shared/Log.cpp:55-59 | That description fits one buffer only |
| LogBuffer.KeptAbsorbs | src/shared/Log.cpp:53-59 | Evicting line by line keeps the same lines as evicting once at the end |
| LogBuffer.BytesSpelledOut | src/shared/Log.cpp:53-57 | Every line counts with its size |
| LogBuffer.ReplayIsKept | src/shared/Log.cpp:43-60 | The buffer is what one eviction leaves of the whole history since the last clear |
| LogBuffer.NewestLineIsKept | src/shared/Log.cpp:43-59 | The newest accepted line is kept whole; exactly the debug lines of release builds are dropped |
| LogBuffer.LogState.LogLine | src/shared/Log.cpp:43-60 | The write with its eviction loop performs one event of the history; the byte counter stays the sum of the line sizes |
| LogBuffer.LogState.Clear | src/shared/Log.cpp:90-95 | Empties the buffer and the counter |
| LogBuffer.LogState.RecentLines | src/shared/Log.cpp:62-66 | All kept lines, oldest first, and the buffer is left alone |
| LogBuffer.LogState.RecentLinesBounded | src/shared/Log.cpp:68-88 | The newest lines in order, each whole or cut to the limit |
| LogBuffer.TruncatedFits | src/shared/Log.cpp:75-85 | A cut line has exactly the allowed size and keeps its first bytes, followed by the marker where there is room for it; short lines are unchanged |
| Exclusions.IncomparableIsEqual | src/core/UwfModel.cpp:17-25 | Two entries that neither precede the other are exactly those that the removal of duplicates calls equal |
| Exclusions.EqualSpelledOut | src/core/UwfModel.cpp:12-25 | In character codes: entries are equal exactly if they agree at every position up to the case of an ASCII letter |
| Exclusions.LessSpelledOut | src/core/UwfModel.cpp:12-20 | In character codes: one entry precedes another exactly if, at the first place where they differ up to case, it ends or has the smaller lower-case code |
| Exclusions.UniqueOfSortedIsCanonical | src/core/UwfModel.cpp:29-34 | Whatever stable sort is used, the result is strictly ascending and holds for each folded class its earliest spelling and nothing else |
| Exclusions.CanonicalisedIsCanonical | src/core/UwfModel.cpp:29-34 | `sortExclusions` yields the canonical list, and it is the only canonical list of its input |
| Exclusions.CanonicalisedSpelledOut | src/core/UwfModel.cpp:29-34 | In character codes: the result is the one list that ascends, in which every entry is listed in some case, and which holds only earliest spellings |
| Exclusions.CanonicalisedIsIdempotent | src/core/UwfModel.cpp:29-34 | Sorting a sorted list changes nothing |
| Exclusions.CanonicalisedForgetsOrder | src/core/UwfModel.cpp:29-34 | Inputs equal up to order, duplicates and case give outputs equal up to case |
| Exclusions.StableSortIsStable | src/core/UwfModel.cpp:30 | The sort used here is ascending and keeps every class in its order, as a stable sort promises |
| Exclusions.ExclusionList.SortExclusions | src/core/UwfModel.cpp:29-34 | The list in place becomes the canonical form of what it was, also as spelled out in character codes |
| Exclusions.SortValues | src/core/UwfModel.cpp:37-38 | Every list of the map becomes canonical, and no key is added or lost |
| Exclusions.Snapshot.SortSnapshot | src/core/UwfModel.cpp:36-41 | All lists of both sessions become canonical |
| StringUtil.ToUpperAscii | src/shared/StringUtil.cpp:16-21 | The loop subtracts 32 from the codes 97 to 122 and leaves every other character |
| StringUtil.SameSpellingSameUpper | src/shared/StringUtil.cpp:16-21 | Two texts have one upper-case form exactly if they agree at every position up to the case of an ASCII letter |
| StringUtil.WhitespaceCodes | src/shared/StringUtil.cpp:7 | Whitespace is the code 32 and the codes 9 to 13 |
| StringUtil.TrimAscii | src/shared/StringUtil.cpp:23-29 | The two cursors cut what trimming on the left and then on the right cuts |
| StringUtil.TrimCutsWhitespace | src/shared/StringUtil.cpp:23-29 | Trimming cuts whitespace at both ends and nothing else, and leaves none there |
| StringUtil.TrimUpper | src/shared/StringUtil.cpp:16-29 | Trimming commutes with upper-casing |
| RegistryPath.NormalizeKey | src/shared/RegistryPath.cpp:9-23 | The loops compute the normal form that the lemmas are about |
| RegistryPath.FindHive | src/shared/RegistryPath.cpp:19-21 | The search returns the long form of the first matching entry |
| RegistryPath.KnownHive | src/shared/RegistryPath.h:13-15 | Every hive that is found has a long form that is its own long form: no entry shadows another |
| RegistryPath.HivesSpelledOut | src/shared/RegistryPath.h:13-15 | Each of the five hives is known by its two names in any case, with its own long form, and no other name is |
| RegistryPath.SpellingIsKept | src/shared/RegistryPath.cpp:9-23 | Keys that agree up to letter case have normal forms that agree up to letter case |
| RegistryPath.SameHive | src/shared/RegistryPath.cpp:14-21 | And the same hive, or both no known one |
| RegistryPath.StripCutsBackslashes | src/shared/RegistryPath.cpp:11 | Trailing backslashes are cut, all of them and nothing else |
| RegistryPath.NormalizeUpper | src/shared/RegistryPath.cpp:9-23 | Normalisation commutes with upper-casing on every key |
| RegistryPath.NormalizeIdempotentIff | src/shared/RegistryPath.cpp:9-23 | Normalising twice equals normalising once if and only if the trimmed key without trailing backslashes does not end in whitespace |
| RegistryPath.NormalizeIsNotIdempotent | src/shared/RegistryPath.cpp:9-23 | A key that normalisation changes twice, with both results |
| RegistryPath.ExpandHive | src/shared/RegistryPath.cpp:14-21 | The short and the long spelling of a hive expand to the same path |
| RegistryExclusionPolicy.ClassIgnoresCase | src/core/RegistryExclusionPolicy.cpp:13-18 | Keys equal up to ASCII case have the same class |
| RegistryExclusionPolicy.ClassIgnoresOuterWhitespace | src/core/RegistryExclusionPolicy.cpp:13-31 | Whitespace around any key does not change its class |
| RegistryExclusionPolicy.ClassIgnoresHiveSpelling | src/core/RegistryExclusionPolicy.cpp:13-31 | Any spelling of a known hive gives the class of its long form |
| RegistryExclusionPolicy.AppendStaysInside | src/core/RegistryExclusionPolicy.cpp:20-22 | Appending a backslash and any text to an allowed or machine-account key stays in those classes |
| RegistryExclusionPolicy.CutStaysInScope | src/core/RegistryExclusionPolicy.cpp:24-28 | Cutting such a key at any of its backslashes is never out of scope |
| RegistryExclusionPolicy.ContainersAreHiveAndRoots | src/core/UwfConstraints.h:62-65 | The containers are the local machine hive and its six roots, and nothing else |
| RegistryExclusionPolicy.ClassesByTree | src/core/RegistryExclusionPolicy.cpp:13-31 | The whole policy on all keys, read off the tree of roots instead of the prefix comparisons |
| TypedKeys.SpellingDoesNotMatter | src/core/RegistryExclusionPolicy.cpp:13-18 | Keys that agree at every position up to the case of an ASCII letter have the same class |
| TypedKeys.TypedKeyIsAllowed | src/core/RegistryExclusionPolicy.cpp:13-22 | Below each of the six roots, with either hive name and every letter in any case, a key is Allowed, except that the machine account below SECURITY is MachineAccount |
| TypedKeys.ContainersSpelledOut | src/core/RegistryExclusionPolicy.cpp:24-28 | The containers are the keys whose upper-case normal form is one of seven, given in full |

## Left out

- Checkpoints.CheckpointsAdvance: holds up to the wrap of the 32-bit counter; `CheckpointWrap.AdvanceIffNotWrapped` proves that this limit is exact.
- CommitRuns.RunIsCommit: is about runs in which no control handler call interferes; what holds when one does is stated by `CheckpointsAdvance` and the `CommitPath` and `SkipToken` rows.
- `superviseAgent`, `acceptAgents`, `observeLaunchedAgent` and `serviceMain` are program counters and not loops of a method, because other threads act between any two of their steps; their locals are part of the state value.
- `commitStagedFiles`: an action of any duration that returns or throws; what it commits is not part of this model.
- Registration of the handler, START_PENDING and the creation of the events: the model starts after them, so their failures are not covered.
- The stop-token checks at lines 492 and 497 of the service runtime are adjacent and are one step. A pipe operation is one look at the stop event and one completion; its fragments are not separate.
- SetEvent and ResetEvent always succeed, except for the preshutdown event, whose result the source looks at.
- Tokens, SIDs, processes, sessions and health checks are outcomes chosen freely; the client's identity is one of them.
- Clock: milliseconds, never going back; the source's steady clock is finer.
- SCM: it sends STOP, PRESHUTDOWN and session changes only after RUNNING, and begins no call after STOPPED. A call in progress at that moment may go on; claims about published records reach up to STOPPED. What SetServiceStatus answers in `reportStopped` is ignored, as in the source. The accepted-controls mask of the published record does not restrict the controls that arrive, so one sent before a STOP_PENDING record may arrive after it; `AcceptedPreshutdownMayNotCommit` is such a run, `FailureMayDivertPreshutdown` needs none.
- OverlayWritePlan.ExecutionIsSafe: the extra size check, a running filter and a failed read in `src/app/configuration/ConfigurationExecutor.cpp` count as failed writes; its journal, messages and provider calls are not part of this model.
- Exclusions.ExclusionList: a vector is a sequence field that is reassigned, and the library's stable sort is an insertion sort; `UniqueOfSortedIsCanonical` holds for any stable sort.
- `std::size_t` counters and sizes of the log are unbounded; the log line is the formatted text, so timestamps and formats are not modelled.
- Log levels are one character; the debug build is a parameter.
- What only the log tells apart is one: the exit of a launched agent and the end of its thirty seconds have the same effect.
- `PendingChanges`, `ByteFormat`, `DriveLetter`, `toLowerAscii`, the design compiler, WMI, Qt and the user interface: plumbing or easy members.
