# Verification of the gateway launcher and tunnel

Dafny models of the production launcher and of the WebSocket gateway, with proofs of what their protocols
promise. `dafny verify dfyconfig.toml` checks everything.

Five parts are modelled.

- **Memory credits** (`NumberText`, `MemoryPlan`, `TargetController`, `MemoryCoordinator`, `MemoryGovernor`, `CreditProtocol`).
  A primary hands byte credits to worker processes over IPC. `CreditProtocol` puts the two endpoints together with
  a network that may deliver any message ever sent late, twice, out of order or never, and with workers that
  disconnect and exit.
- **The cluster supervisor** (`ClusterSupervisor`, `SupervisorProofs`, `SupervisorResults`, `SupervisorOutcomes`,
  `SupervisorObject`).
  Per slot: fork, ready, error, time-outs, kill, synthetic exit, restart with back-off, crash loop; and the
  global shutdown. Timers are armed flags whose firing is an event.
- **The WebSocket tunnel** (`Tunnel`, `TunnelProofs`, `TunnelClosing`, `TunnelResults`, `TunnelOutcomes`,
  `TunnelObject`). One connection: the bounded inbound queue with one turn in flight, the bounded outbound queue
  with acknowledgement callbacks, and the settlement of the turn.
- **The SSE decoder** (`SseDecoder`, `SsePayload`), after sections 9.2.5 and 9.2.6 of the WHATWG HTML Living
  Standard, for LF and CRLF line ends and `data` fields. `SseTunnel` puts it into the tunnel: text in, frames out.
- **Configuration** (`CpuSet`, `Multicore`, `ListenPrefix`, `Strings`, `Integers`): CPU lists, the multicore plan and its
  integer budgets, and the listen prefixes.

Every stateful part has the same shape. A datatype holds the state, pure step functions specify the handlers, and a
run is any sequence of events in which an impossible event changes nothing; the main results hold for every
reachable state or every run. A class with the variables of the source then carries the handlers as methods, each
proved to take exactly the specified step. `Valid()` of the supervisor and the connection says that the object is in a
reachable state, so every result about reachable states holds for it between two events.

## Where the code does less than it promises

- A response that closes while it is marked complete, before `end` and without any terminal event, leaves its turn
  unsettled (server.js:944-949 and, for JSON, 782-789). `TunnelResults.CloseAbandonsExactly` gives the exact
  condition, `ACompleteCloseCanAbandonTheTurn` a run. From then on ordinary traffic never settles the turn and no
  further frame starts (`AbandonedTurnsOutlastOrdinaryTraffic`); the slot comes back only when the client is lost, the
  connection closes, or the request fails (`AbandonedTurnsKeepTheSlot`, `TunnelClosing.EveryCloseSettlesExactly`). The model takes
  the transport events in any order. On a live connection nothing in server.js raises this one: whatever destroys a
  response there (`abortCurrentInternalReq`, `destroyResponses`, the oversize path) closes, marks the connection
  closing, or queues a fatal error in the same step.
- A request failure marks the turn finished before its report is sent (server.js:968-972, 1019-1031,
  1045-1049). If the connection is closed, by the peer or by the server itself, before the report is acknowledged, the
  promise of the turn is never resolved. `TunnelClosing.EveryCloseSettlesExactly` gives the exact condition over every
  event, `OrphanedTurnsStay` the consequence, and `TunnelResults.ReportsArriveExactly` says which queues deliver the
  report. `ARequestFailureCanOrphanTheTurn` is a run in which the socket closes first. In
  `AnErrorReportCanOrphanTheTurn` the server does it alone: `sendErrorAndClose` (server.js:368-375) destroys the
  request without settling its turn and queues an error whose acknowledgement closes the connection; the report of the
  failed request is queued second. In `TunnelResults.AnOverTurnCanBeOrphaned` the response was over as well. The
  connection is closed then, so only its drain loop stays suspended.
- A worker that overdrew its credits while admission was off sends a heartbeat with a negative byte count, and the
  primary drops the whole message, including its release total: `CreditProtocol.OneSampleHealsLostReleases` holds
  if and only if the worker is not overdrawn or nothing had been lost, and `AnOverdrawnWorkerDoesNotHeal` is a run
  in which it fails.

## Model

| member | source | states |
|---|---|---|
| MemoryPlan.ResolveBudget | server-lib/memory-plan.js:9-16 | the variable is accepted exactly if it is missing, blank, `auto`, or spells a positive safe integer, which is then the budget |
| MemoryPlan.NumeralsAreBudgets | server-lib/memory-plan.js:9-16 | a decimal numeral, padded or not, is accepted exactly if it is between 1 and 2^53 - 1, and is then the budget; a negative one is refused |
| NumberText.NumeralsAreRead | server-lib/memory-plan.js:12-16 | numerals with or without a sign and with white space around them are read as what they say |
| NumberText.ScientificNumeralsAreRead | server-lib/memory-plan.js:12-16 | digits with an exponent are read as the number they say |
| MemoryPlan.CreateMemoryPlan | server-lib/memory-plan.js:6-22 | the hot budget is non-negative and covered both by the total budget and by physical memory, whatever swap adds |
| MemoryPlan.MoreMemoryNeverShrinksThePlan | server-lib/memory-plan.js:6-22 | more free memory or swap never lowers the headroom or the hot budget, although the reserve grows with it |
| MemoryPlan.AutomaticPlanIsExact | server-lib/memory-plan.js:7-20 | the automatic headroom, budget and hot budget in whole numbers, for every reading of RAM and swap |
| MemoryPlan.ExplicitHeadroomIsNineTenths | server-lib/memory-plan.js:9-20 | with an explicit budget exactly a tenth of the free memory stays untouched |
| TargetController.AdjustStaysSafe | server-lib/memory-coordinator.js:25-32 | one sample keeps the level between 0 and its ceiling and within use plus headroom; pressure cuts it by a fifth; without pressure it never drops below a safe level |
| TargetController.OneSampleMovesTheLevel | server-lib/memory-coordinator.js:23-32 | what one sample does in each of its four cases, exactly: the cut under pressure, the fall to the safe level, the count of calm samples, the one step after ten |
| TargetController.ClimbsAreSlow | server-lib/memory-governor.js:84-93 | n samples of any kind raise the level by at most one step for every ten of them |
| TargetController.CalmSamplesClimb | server-lib/memory-governor.js:84-93 | every ten calm samples buy one additive step, for any number of samples, until the level the samples allow |
| TargetController.RecoversWithin1010Samples | server-lib/memory-coordinator.js:22-32 | after 1010 calm samples the level is back to whatever the samples allow |
| MemoryCoordinator.OnlySamplesMoveTheTarget | server-lib/memory-coordinator.js:18-65 | over every run of messages, exits and samples the target is the one its samples alone produce |
| MemoryCoordinator.TargetRecovers | server-lib/memory-coordinator.js:18-34 | a run with 1010 samples that show no pressure and leave room for L bytes beside what was then granted brings the target to L, whatever messages come between them |
| MemoryCoordinator.LedgerAlwaysBalances | server-lib/memory-coordinator.js:35-75 | over every run and for arbitrary, even garbled, messages: `granted` is the sum of the per-worker bytes, each is non-negative, and together they fit the hot budget |
| MemoryCoordinator.GrantsBoundedUntilNextSample | server-lib/memory-coordinator.js:49-53 | between samples no sequence of messages raises `granted` above the target |
| MemoryCoordinator.GrantsCoveredByMeasuredHeadroom | server-lib/memory-coordinator.js:18-53 | after a sample, whatever messages follow, at most the headroom that sample measured is granted on top of what was granted |
| MemoryCoordinator.NothingGrantedBeforeBaseline | server-lib/memory-coordinator.js:10-15 | until the baseline reset no run grants a byte to any worker |
| MemoryCoordinator.BaselineIsResetOnce | server-lib/memory-coordinator.js:66-75 | a second reset, however much later, changes nothing, and the hot budget is fixed from then on |
| MemoryCoordinator.RepeatedMessageIsHarmless | server-lib/memory-coordinator.js:38-60 | a message delivered twice in a row changes the books once and gets the same answer twice |
| MemoryCoordinator.RetriedAcquireGetsTheFirstAnswer | server-lib/memory-coordinator.js:47-56 | a retried acquire is answered with the bytes of the first answer, exactly if it passes the guards, and grants nothing more |
| MemoryCoordinator.StaleAcquireIsNotAnswered | server-lib/memory-coordinator.js:42-48 | a late acquire with an older id is not answered, grants nothing, and leaves granted plus released of its worker as it was |
| MemoryCoordinator.NewAcquiresAreGrantedInFull | server-lib/memory-coordinator.js:38-56 | a new acquire is answered with all it asks for, or with whatever the target had left; the books grow by exactly that, less what was returned |
| MemoryCoordinator.MessagesCountExactly | server-lib/memory-coordinator.js:38-60 | when a message counts, when it is answered, and what it returns: exactly, for arbitrary messages; any other changes nothing |
| MemoryCoordinator.ExitReturnsEverything | server-lib/memory-coordinator.js:61-64 | an exit removes the worker with its bytes and nothing else |
| MemoryCoordinator.TheBaselineOpensTheHotBudget | server-lib/memory-coordinator.js:66-75 | the reset makes the hot budget of the plan then made the target |
| MemoryCoordinator.AttachedWorkersStartFresh | server-lib/memory-coordinator.js:35-37 | an attached worker holds nothing and has asked for nothing |
| MemoryCoordinator.ReceiveKeepsLedger | server-lib/memory-coordinator.js:38-60 | one message keeps the books balanced and no grant passes the target |
| MemoryCoordinator.ExitKeepsLedger | server-lib/memory-coordinator.js:61-64 | a worker that exits gives back exactly what it held |
| MemoryCoordinator.Coordinator.OnMessage | server-lib/memory-coordinator.js:38-60 | the message handler takes exactly the specified step and answers what it specifies; the books stay balanced |
| MemoryCoordinator.Coordinator.Sample | server-lib/memory-coordinator.js:18-34 | the sample handler takes the controller step, and leaves the target within granted plus measured headroom |
| MemoryCoordinator.Coordinator.AttachWorker | server-lib/memory-coordinator.js:35-37 | attaching starts an empty record |
| MemoryCoordinator.Coordinator.OnExit | server-lib/memory-coordinator.js:61-64 | the exit handler takes the specified step once |
| MemoryCoordinator.Coordinator.Reset | server-lib/memory-coordinator.js:66-75 | the baseline reset takes the specified step |
| MemoryGovernor.PerformKeepsAccounts | server-lib/memory-governor.js:69-238 | after any operation, enabled or not, `used` is the sum of the live leases, the peak bounds it, and the outstanding request is the newest one |
| MemoryGovernor.PerformKeepsAdmission | server-lib/memory-governor.js:182-205 | no operation but switching admission off lets the leases outgrow the credits |
| MemoryGovernor.ExcessIsTheWholeSurplus | server-lib/memory-governor.js:71-73 | what a sample returns is all of the credit of an idle worker, else the largest whole number of MiB that still covers the leases; it is negative exactly for an overdrawn worker |
| MemoryGovernor.LocalLeasesFitTheStartLimit | server-lib/memory-governor.js:81-93 | a worker without a coordinator never holds more than its start limit, over every run |
| MemoryGovernor.ReleaseIsIdempotent | server-lib/memory-governor.js:230-236 | a release gives back exactly the size of the lease, and afterwards release, grow and shrink of that lease do nothing, whatever happened in between |
| MemoryGovernor.LeaseThenReleaseRestores | server-lib/memory-governor.js:182-236 | a lease granted and released leaves every byte count as it was |
| MemoryGovernor.RequestCoversTheNeed | server-lib/memory-governor.js:139 | a request is the fewest whole MiB that cover the need, and at least one |
| MemoryGovernor.LeasesAreAdmittedExactly | server-lib/memory-governor.js:182-193 | a lease is granted if and only if admission is off or it fits the credits, or the limit without a coordinator, beside what is out; then it is new, and books change by its size; a denied one changes nothing |
| MemoryGovernor.GrowthIsAdmittedExactly | server-lib/memory-governor.js:194-206 | a lease grows if and only if it is out and admission is off or the growth fits; a growth that does not fit asks for what is missing |
| MemoryGovernor.ShrinkingReturnsTheDifference | server-lib/memory-governor.js:224-229 | shrinking returns the difference, and does nothing for a released lease or a larger target |
| MemoryGovernor.RequestsAskForTheNeed | server-lib/memory-governor.js:133-159 | credit is requested exactly if a primary can be asked and no request is out: a new id, the fewest whole MiB, the current release total |
| MemoryGovernor.RequestsEndExactly | server-lib/memory-governor.js:47-61 | retry, confirmed write, reply and disconnect: exactly when a request is repeated, credited or given up |
| MemoryGovernor.SamplesReturnTheSurplus | server-lib/memory-governor.js:69-80 | what a sample returns, when it says so, and that an overdrawn worker returns nothing |
| MemoryGovernor.LocalSamplesMoveTheLimit | server-lib/memory-governor.js:81-103 | without a coordinator a sample is one controller step beside the bytes in use; the switch changes admission only |
| MemoryGovernor.WorkerGovernor.SendCreditRequest | server-lib/memory-governor.js:133-159 | requests credit unless one request is already outstanding: exactly the specified step, books kept |
| MemoryGovernor.WorkerGovernor.RetryTimer | server-lib/memory-governor.js:142-156 | repeats the outstanding request with the same id and the current release total: exactly the specified step, books kept |
| MemoryGovernor.WorkerGovernor.OnSendCallback | server-lib/memory-governor.js:148-151 | allows the next retry: exactly the specified step, books kept |
| MemoryGovernor.WorkerGovernor.OnReplyMessage | server-lib/memory-governor.js:47-55 | credits the reply to the outstanding id, once: exactly the specified step, books kept |
| MemoryGovernor.WorkerGovernor.OnDisconnected | server-lib/memory-governor.js:56-61 | gives up the outstanding request: exactly the specified step, books kept |
| MemoryGovernor.WorkerGovernor.Sample | server-lib/memory-governor.js:69-94 | takes the coordinated or the local sample step: exactly the specified step, books kept |
| MemoryGovernor.WorkerGovernor.Toggle | server-lib/memory-governor.js:96-101 | switches admission: exactly the specified step, books kept |
| MemoryGovernor.WorkerGovernor.NewLease | server-lib/memory-governor.js:182-191 | admits or denies a lease: exactly the specified step, books kept |
| MemoryGovernor.WorkerGovernor.GrowLease | server-lib/memory-governor.js:192-208 | grows a lease, or asks for the missing credit: exactly the specified step, books kept |
| MemoryGovernor.WorkerGovernor.ShrinkLease | server-lib/memory-governor.js:224-229 | shrinks a lease: exactly the specified step, books kept |
| MemoryGovernor.WorkerGovernor.FreeLease | server-lib/memory-governor.js:230-236 | releases a lease once: exactly the specified step, books kept |
| CreditProtocol.CreditsNeverExceedTheBudget | server-lib/memory-coordinator.js:35-75 | in every reachable state of primary, workers and a network that loses, repeats and reorders: the credits of the attached workers sum to at most `granted`, which is the sum of the records and at most the hot budget |
| CreditProtocol.CreditIsExactlyOnce | server-lib/memory-governor.js:47-61 | the two sides of an attached worker differ by nothing, or by exactly the answer to its one outstanding request |
| CreditProtocol.ReplyIsCreditedAtMostOnce | server-lib/memory-governor.js:47-55 | a delivered reply credits exactly the bytes in transit and a second delivery nothing; any other reply changes nothing |
| CreditProtocol.HonestMessagesNeverOverRelease | server-lib/memory-coordinator.js:42-46 | no message a worker ever sent fails the over-release guard, however late it arrives |
| CreditProtocol.OneRetryCompletesTheRequest | server-lib/memory-governor.js:142-156 | whatever was lost, delivering one retry and its reply ends the wait with both sides equal; what was not granted before is granted in full, or the target is used up |
| CreditProtocol.ShortLeasesAreServed | server-lib/memory-governor.js:133-187 | progress: a lease that does not fit is admitted once its request and the reply are delivered, if the target has room for it |
| CreditProtocol.OneSampleHealsLostReleases | server-lib/memory-governor.js:69-80 | one delivered heartbeat makes the record equal what the worker holds plus any reply in transit, if and only if the worker is not overdrawn or nothing had been lost; afterwards an idle worker holds 0 and another less than used + 1 MiB |
| CreditProtocol.AnOverdrawnWorkerDoesNotHeal | server-lib/memory-governor.js:69-78 | a concrete run after which a delivered heartbeat leaves a lost mebibyte on the books: the promised healing fails |
| CreditProtocol.BytesInUseNeverExceedTheBudget | server-lib/memory-governor.js:182-238 | with admission on from the start, under every interleaving: each worker uses the sum of its leases and at most its credits, and all attached workers together at most the hot budget |
| CreditProtocol.DisabledAdmissionMayOverdraw | server-lib/memory-governor.js:30-31 | a run with admission off in which a worker uses more than its credits |
| CreditProtocol.AdmissionOpensWhenAllAreReady | cluster.js:97-106 | admission opens exactly at the step in which the last of the planned workers reports ready, and no credit exists before |
| CreditProtocol.NextKeepsInv | server-lib/memory-coordinator.js:35-65 | every action keeps the invariant that links each worker to its record, with all messages ever sent |
| CreditProtocol.RunKeepsInv | server-lib/memory-coordinator.js:35-65 | so does every run |
| SupervisorResults.SlotsAreConserved | server-lib/cluster-supervisor.js:188-258 | before shutdown a started slot is live or waiting for its restart, never both, and fork attempts equal recorded crashes plus the live worker |
| SupervisorResults.ForksAreInOrder | server-lib/cluster-supervisor.js:341-355 | slots above 0 are forked only after slot 0 was ready, and nothing is forked once shutdown began |
| SupervisorResults.CrashListIsTheRecentHistory | server-lib/cluster-supervisor.js:188-192 | the list pruned at every crash always equals the full crash history restricted to the window |
| SupervisorResults.NoWindowIsCrowded | server-lib/cluster-supervisor.js:188-211 | before shutdown no closed window holds as many crashes of a slot as the limit |
| SupervisorResults.RestartDelayGrows | server-lib/cluster-supervisor.js:213-218 | delays are positive, never exceed the maximum, and at least double with each failure until they reach it |
| SupervisorResults.EveryRecordIsHealthyOrTimed | server-lib/cluster-supervisor.js:260-314 | outside shutdown a record is ready without a reason and without timers, or has exactly one armed timer |
| SupervisorResults.ApplyLowersPotential | server-lib/cluster-supervisor.js:260-314 | no event raises the number of timers a worker may still need, and each of its timers lowers it |
| SupervisorResults.AtMostThreeTimersPerWorker | server-lib/cluster-supervisor.js:386-404 | over every run at most three timers of one worker fire, however events interleave |
| SupervisorResults.TimersAloneRemoveAFailedWorker | server-lib/cluster-supervisor.js:260-285 | if the worker never answers and `exit` never comes, its timers alone remove it, in at most three firings |
| SupervisorResults.TwoTimersEndAShutdown | server-lib/cluster-supervisor.js:144-186 | a shutdown under way has a live worker and exactly one armed timer, and two firings end it |
| SupervisorResults.ExitsOnceAndZeroMeansOrderly | server-lib/cluster-supervisor.js:110-122 | the process exits at most once, and with code 0 only if no crash loop, timeout or failed exit came before |
| SupervisorOutcomes.ExitCodeIsExact | server-lib/cluster-supervisor.js:110-151 | the code is 0 if and only if nobody asked for more and there was no crash loop, time-out or failed exit; else the largest requested one, or, after a time-out or failed exit, 1 unless a larger one was requested after it |
| SupervisorResults.ExitWaitsForEveryWorker | server-lib/cluster-supervisor.js:119-122 | exit happens when no worker lives and none is pending, or by force with code 1 |
| SupervisorOutcomes.ExitsAreCrashes | server-lib/cluster-supervisor.js:188-258 | before shutdown an exit, real or synthesised, is a crash: the group ends exactly if the window that ends now holds as many crashes as the limit, and else the slot restarts after the delay for that count |
| SupervisorOutcomes.ShutdownWaitsForExits | server-lib/cluster-supervisor.js:237-248 | in a shutdown exits are only counted out, failed ones noted, and the last one ends the process |
| SupervisorOutcomes.BackOffIsExact | server-lib/cluster-supervisor.js:213-218 | the first restart waits the base delay, each further one in the window twice as long, up to the maximum |
| SupervisorOutcomes.ForksHappenExactly | server-lib/cluster-supervisor.js:346-423 | the first start forks slot 0 and a restart timer its slot, as a new worker with its ready timer armed; a fork that throws is a crash |
| SupervisorOutcomes.ReadyIsAcceptedExactly | server-lib/cluster-supervisor.js:316-334 | a ready message is accepted exactly from a live worker that is starting and in time, which is then healthy; the first one of slot 0 starts the other slots |
| SupervisorOutcomes.FailingWorkersAreStoppedInSteps | server-lib/cluster-supervisor.js:260-314 | an error gives a grace once, a late start is asked to stop, a grace that ran out kills |
| SupervisorOutcomes.ShutdownsEndExactly | server-lib/cluster-supervisor.js:144-186 | a shutdown stops every worker and calls off every restart once; its time-out kills; the forced exit exits with 1 |
| SupervisorProofs.ApplyKeepsInv | server-lib/cluster-supervisor.js:144-412 | every event keeps the invariant of slots, timers, crash lists, history and shutdown |
| SupervisorProofs.RunKeepsInv | server-lib/cluster-supervisor.js:144-412 | so does every run, with a clock that never goes back |
| SupervisorObject.PrimarySupervisor.OnStart | server-lib/cluster-supervisor.js:414-422 | starts once, and reports a second start as an error: reads the clock once and takes exactly the specified timed step, which keeps slots and shutdown timers consistent |
| SupervisorObject.PrimarySupervisor.OnReadyMessage | server-lib/cluster-supervisor.js:316-344 | accepts a first, timely ready message: reads the clock once and takes exactly the specified timed step, which keeps slots and shutdown timers consistent |
| SupervisorObject.PrimarySupervisor.OnWorkerError | server-lib/cluster-supervisor.js:287-314 | gives a failed worker a short grace: reads the clock once and takes exactly the specified timed step, which keeps slots and shutdown timers consistent |
| SupervisorObject.PrimarySupervisor.OnReadyTimer | server-lib/cluster-supervisor.js:386-404 | terminates a worker that is not ready in time: reads the clock once and takes exactly the specified timed step, which keeps slots and shutdown timers consistent |
| SupervisorObject.PrimarySupervisor.OnTerminationTimer | server-lib/cluster-supervisor.js:260-270 | kills it: reads the clock once and takes exactly the specified timed step, which keeps slots and shutdown timers consistent |
| SupervisorObject.PrimarySupervisor.OnFallbackTimer | server-lib/cluster-supervisor.js:270-284 | synthesises its exit: reads the clock once and takes exactly the specified timed step, which keeps slots and shutdown timers consistent |
| SupervisorObject.PrimarySupervisor.OnRestartTimer | server-lib/cluster-supervisor.js:223-226 | forks again: reads the clock once and takes exactly the specified timed step, which keeps slots and shutdown timers consistent |
| SupervisorObject.PrimarySupervisor.OnShutdownTimer | server-lib/cluster-supervisor.js:171-184 | kills what is left: reads the clock once and takes exactly the specified timed step, which keeps slots and shutdown timers consistent |
| SupervisorObject.PrimarySupervisor.OnForceExitTimer | server-lib/cluster-supervisor.js:184 | exits with code 1: reads the clock once and takes exactly the specified timed step, which keeps slots and shutdown timers consistent |
| SupervisorObject.PrimarySupervisor.OnShutdownRequest | server-lib/cluster-supervisor.js:144-186 | asks for a shutdown: reads the clock once and takes exactly the specified timed step, which keeps slots and shutdown timers consistent |
| SupervisorObject.PrimarySupervisor.OnWorkerExit | server-lib/cluster-supervisor.js:385 | takes the exit event: reads the clock once and takes exactly the specified timed step, which keeps slots and shutdown timers consistent |
| TunnelResults.InboundIsBoundedAndInOrder | server.js:494-553 | in every reachable state at most 64 frames and 64 MiB wait, the byte count is exact, frames start in arrival order with none lost while frames are accepted, and a pending frame implies a frame in flight |
| TunnelResults.FramesStartInOrder | server.js:494-517 | a step starts no frame, or the one that waited longest, and only into a free slot of a connection that is neither closed nor closing |
| TunnelResults.FramesAreAcceptedExactly | server.js:519-545 | a frame is accepted exactly if it is text and within both limits; refusing one starts closing the connection |
| TunnelResults.NothingStartsAfterClosing | server.js:385-386 | once closed or closing, no run starts another frame |
| TunnelResults.OutboundIsBoundedAndInOrder | server.js:200-241 | pending bytes are exact and at most 1 MiB; frames reach ws.send in the order they were accepted, one at a time, and succeed in that order |
| TunnelResults.WaitingFramesHaveASendInFlight | server.js:149-198 | a non-empty queue or a paused response implies a send in flight with its deadline armed |
| TunnelResults.SendingPausesTheResponse | server.js:219-241 | back-pressure: an accepted send on behalf of a response leaves it paused, with a send in flight |
| TunnelResults.ResponsesResumeWhenTheQueueDrains | server.js:149-190 | responses stay paused while frames wait, and all run again when the last frame is acknowledged |
| TunnelResults.SendHistoryIsAppendOnly | server.js:149-241 | within one generation nothing accepted, sent or acknowledged is ever repeated, dropped or reordered |
| TunnelResults.StaleAnswersChangeNothing | server.js:112-129 | answers and deadlines of an invalidated generation change nothing, in any later state |
| TunnelResults.NoTurnSettlesEarly | server.js:670-682 | while the client can be reached and no close is pending, a turn gives up its slot only after its response body ended and its terminal frame was acknowledged |
| TunnelResults.OverTurnsAreSettling | server.js:666-714 | once the response has ended, errored or closed, the turn is settled, or a waiting frame settles it, or closing has begun: exactly unless it was abandoned |
| TunnelResults.CloseAbandonsExactly | server.js:944-955 | `close` abandons the turn exactly if the response is marked complete, no terminal event was sent, and neither a fatal error nor a request failure is being reported |
| TunnelResults.ACompleteCloseCanAbandonTheTurn | server.js:944-949 | a concrete run in which the turn keeps its slot with no frame waiting: the promised settlement fails |
| TunnelResults.AbandonedTurnsKeepTheSlot | server.js:944-949 | an abandoned turn keeps its slot and no frame starts, over every run without further events of its closed response or a failure of its request, until the client is lost or a close is pending |
| TunnelResults.AbandonedTurnsOutlastOrdinaryTraffic | server.js:944-949 | in runs of accepted frames and acknowledgements an abandoned turn is never settled and no later frame ever starts, unless a frame already waiting closes the connection |
| TunnelResults.EveryOverTurnSettles | server.js:666-714 | whatever mix of success, failure and time-out the waiting frames meet, a turn whose response is over is settled or the closing handshake has begun; acknowledgements alone settle it; a turn that no request failure had marked finished is resolved even where the connection closes |
| TunnelResults.ReportsArriveExactly | server.js:968-990 | when every waiting frame is acknowledged, a turn whose request failed is resolved if and only if no frame ahead of its report closes the connection first |
| TunnelResults.AnOverTurnCanBeOrphaned | server.js:368-374 | a concrete run in which a turn whose response is over is orphaned by the acknowledgement of the frame in flight |
| TunnelResults.TerminalEventThenCloseSettles | server.js:806-818 | after a terminal event, `close` or `error` of the transport never keeps the slot: the answers to the waiting frames settle the turn or begin the closing handshake, and acknowledgements resolve it unless its request had failed |
| TunnelClosing.EveryCloseSettlesExactly | server.js:326-366 | whatever step closes the connection, an unresolved turn is resolved by it if and only if no request failure had marked it finished, or the frame the step answers, or the next one when its hand-over fails, reports this failure or completes the response |
| TunnelClosing.SocketCloseSettlesExactly | server.js:326-335 | in particular `close` and `error` of the socket settle the turn if and only if no request failure had marked it finished |
| TunnelClosing.OrphanedTurnsStay | server.js:968-990 | a turn unresolved on a closed connection stays so for ever |
| TunnelClosing.ARequestFailureCanOrphanTheTurn | server.js:968-990 | a concrete run in which the promise of a turn is never resolved: the request fails and the socket closes before its report is acknowledged |
| TunnelClosing.AnErrorReportCanOrphanTheTurn | server.js:368-374 | a concrete run in which the server closes the connection itself: the acknowledged error of a refused frame drops the report queued behind it |
| TunnelResults.LateEventsOnlyTouchTheirTurn | server.js:403-418 | late events of a settled turn reach neither the client nor the queues |
| TunnelProofs.NextKeepsInv | server.js:112-553 | every event keeps the books of both queues, the flags of the turn, and the promise that what the turn owes is carried by a waiting frame |
| TunnelProofs.RunKeepsInv | server.js:112-553 | so does every run |
| TunnelProofs.SafeSendKeepsSound | server.js:200-241 | a send appends exactly one waiting frame, or the client can no longer be reached |
| TunnelOutcomes.SendsAreAcceptedExactly | server.js:200-241 | in every reachable state with an open client a frame is accepted if and only if it fits beside the pending bytes; then it is the last one waiting and nothing else changes, and the client is lost exactly if handing it over throws or it was refused |
| TunnelOutcomes.IdleConnectionsStartTheFrame | server.js:494-553 | a frame that an idle connection accepts gets the slot at once, with a turn of its kind |
| TunnelOutcomes.ResolvedTurnsFreeTheSlot | server.js:482-516 | a resolved turn frees its slot, which the oldest pending frame takes at once; an unresolved one keeps it |
| TunnelOutcomes.ResponsesAreListenedTo | server.js:684-720 | the first response of a request is listened to, or settled if it comes too late |
| TunnelOutcomes.JsonBodiesAreSent | server.js:735-772 | the end of a JSON body sends it as the terminal frame of the turn |
| TunnelOutcomes.StreamsEndExactly | server.js:913-936 | a stream that sent a terminal event settles as soon as that is acknowledged; one without, or with an oversize tail, ends in a fatal error |
| TunnelOutcomes.TransportEndsExactly | server.js:937-957 | after a terminal event `error` and `close` only end the body; before one `error` is fatal, and so is `close` of an incomplete response |
| TunnelOutcomes.OversizeIsFatal | server.js:809-829 | an oversize chunk is fatal after the events before it were forwarded |
| TunnelOutcomes.RequestsFailExactly | server.js:968-1067 | a request failure, an abandoned and an expired body are reported exactly if the turn was not finished, or the body not written |
| TunnelProofs.CloseNowKeepsInv | server.js:326-366 | closing settles the turn exactly if it was not already marked finished |
| TunnelObject.ClientConnection.OnSendResult | server.js:168-190 | takes the answer of ws.send: exactly the specified step, which keeps both queues within their limits and awake |
| TunnelObject.ClientConnection.OnSendDeadline | server.js:164-169 | takes the send deadline: exactly the specified step, which keeps both queues within their limits and awake |
| TunnelObject.ClientConnection.OnFrame | server.js:519-553 | queues or refuses a frame: exactly the specified step, which keeps both queues within their limits and awake |
| TunnelObject.ClientConnection.OnTurnResolved | server.js:482-516 | frees the slot: exactly the specified step, which keeps both queues within their limits and awake |
| TunnelObject.ClientConnection.OnPeerClosing | server.js:377 | takes the start of the closing handshake by the peer: exactly the specified step, which keeps both queues within their limits and awake |
| TunnelObject.ClientConnection.OnSocketClosed | server.js:377 | takes the close event: exactly the specified step, which keeps both queues within their limits and awake |
| TunnelObject.ClientConnection.OnSocketError | server.js:378-383 | takes the error event: exactly the specified step, which keeps both queues within their limits and awake |
| TunnelObject.ClientConnection.OnResponse | server.js:658-694 | registers the response: exactly the specified step, which keeps both queues within their limits and awake |
| TunnelObject.ClientConnection.OnData | server.js:908-912 | takes a chunk: exactly the specified step, which keeps both queues within their limits and awake |
| TunnelObject.ClientConnection.OnEnd | server.js:913-936 | takes the end of the body: exactly the specified step, which keeps both queues within their limits and awake |
| TunnelObject.ClientConnection.OnResponseError | server.js:937-943 | takes a response error: exactly the specified step, which keeps both queues within their limits and awake |
| TunnelObject.ClientConnection.OnResponseClose | server.js:944-955 | takes the close of the response: exactly the specified step, which keeps both queues within their limits and awake |
| TunnelObject.ClientConnection.OnRequestError | server.js:968-997 | takes a request error: exactly the specified step, which keeps both queues within their limits and awake |
| TunnelObject.ClientConnection.OnRequestBodyClosed | server.js:1019-1044 | takes a body closed early: exactly the specified step, which keeps both queues within their limits and awake |
| TunnelObject.ClientConnection.OnRequestBodyExpired | server.js:1045-1067 | takes the body deadline: exactly the specified step, which keeps both queues within their limits and awake |
| TunnelObject.ClientConnection.OnRequestBodyDrained | server.js:1013-1018 | takes the end of the body write: exactly the specified step, which keeps both queues within their limits and awake |
| SseDecoder.RescanFindsTheFirst | server.js:883-887 | rescanning the last three characters finds the same first delimiter as scanning everything |
| SseDecoder.ScanInTwoPieces | server.js:882-900 | scanning a text in two pieces gives the events and tail of one scan |
| SseDecoder.PushIsOneScan | server.js:882-912 | a chunk is accepted exactly if the text since the last event fits, and then passes on the events of one scan of it |
| SseDecoder.ChunkingDoesNotMatter | server.js:882-912 | for every chunking: accepted exactly if each text received so far fits, and then the events and the buffer are those of one scan of the whole text |
| SseDecoder.EveryChunkingSucceedsExactly | server.js:889-905 | the texts accepted under every chunking are exactly those in which each event with all but one character of its delimiter, and the tail, fit |
| SseDecoder.RoomForADelimiterSuffices | server.js:889-905 | events of at most the limit minus three characters are always accepted |
| SseDecoder.DecodingIsOneScan | server.js:908-921 | with the end flush: accepted exactly if the chunks are, and the events are those of one scan of the text, closed by an empty line if a tail remains |
| SseDecoder.EventsWithRoomAreDecoded | server.js:882-921 | events of at most the limit minus three characters and a tail within the limit are decoded as one scan under every chunking, end included |
| SseDecoder.ScanningIsLinear | server.js:882-899 | the flushes of K chunks with N characters try at most N + 3K buffer positions, and the end flush at most five |
| SseDecoder.SseStream.FlushEvents | server.js:882-906 | the scanning loop computes exactly the specified flush and tries exactly as many positions |
| SseDecoder.SseStream.OnData | server.js:908-912 | accepts a chunk exactly if it fits, passes on the events of one scan, and tries at most three positions more than it has characters |
| SseDecoder.SseStream.OnEnd | server.js:913-921 | closes a tail with an empty line and flushes it, trying at most five positions |
| SsePayload.RoundTrip | server.js:830-849 | any events with data, with or without the optional space, and other lines, under LF or CRLF and any accepted chunking, are decoded to exactly the data they were made of |
| SsePayload.ValuesOfBody | server.js:830-842 | the data lines of an event come out in order, without the one optional space and with everything else, other lines are ignored |
| SsePayload.ValuesAreSeparated | server.js:844 | a payload keeps its data values apart: splitting it at its line feeds gives them back |
| SseDecoder.DelimitersAreTwoLineEnds | server.js:801 | two line ends in a row, of one kind or of both, delimit events |
| SseTunnel.StreamsAreForwardedInFull | server.js:830-921 | over every run of chunks and other events: while the client can be reached and a response is being forwarded, the frames its turn had accepted are, in order, those of the non-ignored events of one scan of the text received so far; what follows is still buffered |
| SseTunnel.EncodedStreamsArriveInFull | server.js:830-921 | from an encoder to the queue: if what was received encodes some events, the accepted frames are those of their data, and the buffer is empty |
| SseTunnel.EventsForward | server.js:830-881 | each event of a chunk appends its frame, or none, as long as the client can be reached |
| SseTunnel.ChunksReachTheClient | server.js:830-912 | a chunk whose events fit the decoder and whose frames fit beside the pending bytes reaches the client whole: the response goes on, and every frame of it is accepted |
| SseTunnel.PayloadsBecomeFrames | server.js:844-880 | every event with data adds one frame, but for a `[DONE]`, however padded, after something terminal |
| SseTunnel.EventsLeaveStream | server.js:112-1067 | no event but a chunk or an end appends a frame to a response that goes on being forwarded |
| CpuSet.ParseCpuSet | server-lib/multicore.js:51-82 | nothing for a malformed list, else the number of distinct CPU ids in the union of its ranges, which is positive |
| CpuSet.CountMerged | server-lib/multicore.js:67-81 | the merge loop over sorted ranges counts exactly the union |
| CpuSet.ListsAreCounted | server-lib/multicore.js:51-82 | every list of CPUs and ranges, each with white space around it, leading zeros or equal ends as it likes, in any order, with overlaps, adjacency and repetition, is understood and the union counted |
| CpuSet.OnlySuchListsAreCounted | server-lib/multicore.js:51-64 | a text is counted if and only if it is such a list |
| CpuSet.NumbersAreItems | server-lib/multicore.js:58-62 | leading zeros, white space and a range with equal ends leave the numbers meant as they are |
| CpuSet.UnionIsASet | server-lib/multicore.js:67-81 | order and repetition do not matter |
| Multicore.SharesAreFair | server-lib/multicore.js:228-236 | shares sum to the total, differ by at most one, larger ones first |
| Multicore.SharesAreMonotone | server-lib/multicore.js:228-236 | a larger total gives no worker less |
| Multicore.CapacityIsExact | server-lib/multicore.js:339-345 | the capacity is the largest worker count for which every budget can be allocated; a reserve within its budget stays within it for every worker |
| Multicore.PlansAreSafe | server-lib/multicore.js:360-496 | every enabled plan has 2 to 32 workers whose memory fits beside the reserve, with shares that sum to the totals, meet the minimums and keep the reserve within the budget; the throws of the allocation are unreachable |
| Multicore.ExplicitCountIsExact | server-lib/multicore.js:412-421 | an explicit worker count is honoured exactly or refused, and refused exactly if invalidation is missing or memory or a budget cannot carry it |
| Multicore.OnIsExact | server-lib/multicore.js:421-433 | with readable variables mode `on` is refused exactly if invalidation is missing or memory or a budget cannot carry two workers, and else starts the most they carry up to half of the CPUs, at least two and at most 32 |
| Multicore.AutoIsConservative | server-lib/multicore.js:434-478 | with readable variables automatic mode never fails, enables workers exactly if two fit, and then starts the most that memory and budgets carry within half of the CPUs, 32, and four database connections each |
| Multicore.AutoSaysWhyNot | server-lib/multicore.js:434-478 | when automatic mode stays with one worker it gives the first thing that is missing as its reason |
| Multicore.OneWorkerOrProduction | server-lib/multicore.js:364-388 | one worker by request is no plan, and several are refused outside production |
| Multicore.SettingsAreReadExactly | server-lib/multicore.js:181-204 | a setting that is unset or blank has its default; a numeral, padded or not, is its value in range and refused outside it |
| Multicore.ModesAreReadExactly | server-lib/multicore.js:206-214 | the mode words are read in any case and with white space around them |
| Multicore.InvalidationNeedsRedis | server-lib/multicore.js:216-222 | invalidation needs a Redis URL that is not blank and rate limiting that is not switched off, in any spelling |
| Multicore.TotalsAreTheSettings | server-lib/multicore.js:238-307 | the totals resolve if and only if every setting does and the reserve is within its budget, and are those settings |
| Multicore.OffIgnoresEveryOtherVariable | server-lib/multicore.js:364-367 | with mode off, changing any other variable to any value leaves the plan as it is |
| Multicore.OnlyOffIgnoresABadWorkerCount | server-lib/multicore.js:364-372 | an unreadable worker count stops the launcher in every mode but off |
| Multicore.WorkersRecoverTheirShares | server-lib/multicore.js:498-519 | a worker that parses its environment gets exactly its share, in range |
| Multicore.OneBackgroundOwner | server-lib/multicore.js:504-509 | exactly one worker owns the background work |
| Multicore.WorkersKnowThemselves | server-lib/multicore.js:498-519 | a worker reads back its index, the number of workers, the resources and its role |
| Multicore.StreamGateIsHandedOnDemand | server-lib/multicore.js:511-516 | the stream gate share is handed on exactly if its total was set |
| Multicore.ResolveAggregateBudgets | server-lib/multicore.js:238-307 | the loop resolves every budget as specified, or fails with the first error |
| Multicore.BuildBudgetAllocations | server-lib/multicore.js:313-337 | the loops allocate as specified, or fail with the first error |
| Multicore.BuildWorkerEnvironment | server-lib/multicore.js:498-519 | the environment of a worker of the plan; errors exactly for a disabled plan or an index outside it |
| ListenPrefix.ParseListenPrefixes | server-lib/listen-prefix.js:81-144 | the parser returns the specified list or error, and any list it returns is accepted: valid prefixes that do not nest |
| ListenPrefix.AddedExactly | server-lib/listen-prefix.js:91-140 | an entry is added exactly if it is a valid prefix that clashes with none before it |
| ListenPrefix.ParsingIsStable | server-lib/listen-prefix.js:81-144 | parsing an accepted list, joined by commas, gives the same list |
| ListenPrefix.AtMostOneMatches | server-lib/listen-prefix.js:162-165 | at most one prefix of an accepted list lies above any path |
| ListenPrefix.OrderDoesNotMatter | server-lib/listen-prefix.js:157-176 | stripping does not depend on the order of the list |
| ListenPrefix.StripUndoesThePrefix | server-lib/listen-prefix.js:157-176 | a prefix put before a proxy path is stripped again |
| ListenPrefix.ProxyPathsAreNotStripped | server-lib/listen-prefix.js:26-64 | a proxy path is never stripped: its first segment is reserved |
| ListenPrefix.RewriteKeepsTheQuery | server-lib/listen-prefix.js:186-197 | rewriting gives back the path with its query untouched |
| ListenPrefix.RewritingHappensOnce | server-lib/listen-prefix.js:186-197 | rewriting the result of a rewrite does nothing |
| ListenPrefix.StrippedExactly | server-lib/listen-prefix.js:157-176 | a path strips to a rest if and only if it is an accepted prefix followed by that rest, a proxy path |
| ListenPrefix.RootsAreProxyPaths | server-lib/listen-prefix.js:26-37 | a root is a proxy path, alone and with anything under it |
| ListenPrefix.SlashesDoNotMatter | server-lib/listen-prefix.js:91-95 | a missing leading slash and trailing slashes make no difference |
| ListenPrefix.ErrorsAreTruthful | server-lib/listen-prefix.js:97-138 | an error says something true of the entry |
| ListenPrefix.StripListenPrefix | server-lib/listen-prefix.js:157-176 | the search loops find the specified remainder |
| ListenPrefix.NormalizeEntry | server-lib/listen-prefix.js:91-95 | the loop that drops trailing slashes |
| ListenPrefix.ParseEntry | server-lib/listen-prefix.js:88-140 | one entry is checked in the order of the source |
| ListenPrefix.FindBadSegment | server-lib/listen-prefix.js:104-118 | the first bad segment decides the error |
| ListenPrefix.FindClash | server-lib/listen-prefix.js:128-138 | the first clashing prefix decides the error |

## Left out

- The waiting loops `acquire`, `waitForCredits` and `tryGrowAsync`: their atomic steps (lease, grow, request, reply) are modelled, the polling and abort signals between them are not.
- Lease closures are entries of a map keyed by the order of the leases; tags, ages, stages and the diagnostic ledger are left out.
- Floating point and the 2^53 limit of the byte counters: integers are unbounded, 0.8, 0.1, 0.01, 0.5 and 0.6 are exact, and so is the number a budget text spells.
- Reading resource snapshots, cgroup files and CPU quotas: snapshots and the effective CPU and memory are inputs.
- Replies to a worker that the primary never sent: the primary is assumed to be the only sender.
- `resolveSupervisorSettings`: the settings are any positive numbers. The clock is read once per event and never goes back.
- `kill`, `ws.send` and destroying a request raise their events later, never from inside the call.
- Signal names, log lines, process ids and the `multicore_cluster_ready` message.
- Headers, JSON contents and error texts: an event is ignored, a delta, terminal or `[DONE]`, and a frame is its size and its callbacks; what JSON.parse makes of a payload is a parameter of `SseTunnel`.
- A throw inside `forwardToInternalHttp` before its promise exists, and the rejection path of `drain` it leads to.
- Late events of turns that already gave up their slot: `LateEventsOnlyTouchTheirTurn` covers them until the slot is released.
- Interruption of the SSE decoder by the settlement of its turn is modelled in `Tunnel.ProcessEvents`, not in `SseDecoder`.
- Characters are Dafny characters; the source counts UTF-16 code units.
- SupervisorObject.PrimarySupervisor.ForkSlot: does not model the environment passed to `cluster.fork`; `Multicore.BuildWorkerEnvironment` does.
- `normalizeStandaloneEnvironment` in cluster.js; its `readyWorkers` set is a field of `CreditProtocol.System`, on values.
- Case folding is ASCII; no other letter folds to one of the words compared with.
- `server-lib/spool-directory.js`, `server-lib/standalone-config.js`, the session clean-up of the tunnel and the upgrade handshake.
