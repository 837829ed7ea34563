# A verified model of eOVPN-Pro's connection logic

eOVPN-Pro is a desktop client for OpenVPN. This project models the parts of it that decide
something: the cascading auto-connect engine, the worker that runs native operations one at a
time, and the pipeline that imports, parses, measures, filters and restores configurations.
`dafny verify dfyconfig.toml` checks everything.

## How it is built

| file | what it holds |
|---|---|
| `Prelude.dfy` | options, `Last`, ASCII case and substring |
| `AttemptTiming.dfy`, `CandidateQueue.dfy`, `DisplayOrder.dfy` | the handshake budget, the candidate queue, and its agreement with the order on screen |
| `CascadeSpec.dfy` | the cascade as a value: one function per callback, from state to state |
| `CascadeInvariants.dfy`, `CascadeRuns.dfy`, `CascadeBounds.dfy`, `CascadeTheorems.dfy`, `CascadeOutcomes.dfy` | what every step keeps, what every run keeps, how long a run can last, the promises that follow, and what each step leaves behind for every answer |
| `CascadeController.dfy`, `CascadeMainLoop.dfy` | the controller as objects with fields, timers and mutable attempt records, each method proved to do what the function of the same step does; and the main loop that drives them, which inherits every promise |
| `WorkerProtocol.dfy`, `NativeConnect.dfy`, `CancelledConnect.dfy`, `NetworkManager.dfy` | the worker protocol as interleaved atomic steps, native connects and disconnects with a cancel at any moment, the two together in any interleaving, and both as objects |
| `OvpnParser.dfy`, `ServerFilter.dfy`, `SpeedTest.dfy` | the endpoint parser, the list filter, the measurement and what it makes of the queue |
| `FilteredList.dfy` | when the filters of the window make a difference to the queue |
| `ArchiveImport.dfy`, `ConfigSwap.dfy`, `ResetRestore.dfy` | bounded extraction, the directory swap with a failure at any step, reset and restore |

The cascade is driven by an adversary. `status()` answers anything, every backend call may
raise, the manager may be gone, the file may be missing, a dialog may be open, events come at
any time, and `connect` and `disconnect` may call back before they return. Answers are arguments
of the callbacks, so every theorem about a step or a run holds for all of them. A run is any
sequence of clock advances, timer dispatches, backend events, user requests and ends of a speed test.

## Assumptions

- Time is in whole milliseconds and the clock stands still inside one callback. Round-trip times
  are in tenths of a millisecond, the precision of the speed test; `round(x, 2)` is rounding to the
  nearest hundredth of a second, and no budget is ever a tie.
- Timer sources that are due are dispatched in the order in which they were added.
  `CascadeTheorems.DispatchOrderMatters` shows what would go wrong otherwise.
- A synchronous callback of `disconnect` is a disconnect without a text, as in the OpenVPN 3 backend; one of
  `connect` is any event. A call that calls back does not also raise.
- A native call either works, or reports failure or raises without having done anything. Deleting a profile does not
  by itself take down its tunnel. The tunnels of the model are those of profiles that the program manages, which are the ones
  that the native call without a uuid names.
- In `NativeConnect.dfy` the cancel flag of one connect rises at most once and does not fall; `CancelledConnect.dfy` does without that, with
  the flag of the worker protocol read at each check.
- Letters, digits and white space are the ASCII ones.

## Where the code and what is written about it differ

The model follows the code.

- A comment speaks of a 60-second budget per candidate (`eovpn/cascade_controller.py:301`), and a Persian one of a minute
  (`eovpn/auto_connect.py:72`); the constants give 30 to 45 seconds.
- The repository's README says that the cascade walks the sorted and filtered list (`README.md:45`); it walks the
  complete configuration list, whatever the window filters (`eovpn/cascade_controller.py:201-209`). `CascadeTheorems.RunsBegin` has the queue,
  `FilteredList.HiddenServerIsQueued` a server that is off screen and queued, and `FilteredList.WindowFilterMattersExactly` the exact condition
  under which the filters make no difference.
- The Persian docstring of `_dispatch_off_ui_thread` says that overlapping requests are ignored
  (`eovpn/connection_manager.py:416-417`); they are queued.
- The alert after a reset says that a restore undoes it (`eovpn/settings_window.py:883`). It does, except for a string key
  that was stored as empty (or as the legacy `null`) although its default is not: `ResetRestore.ResetThenRestore` gives the exact condition.
- The import is described as never destroying the existing set (`eovpn/eovpn_base.py:692`). One run does not; two can:
  `ConfigSwap.SwapIsSafeExactly` and `ConfigSwap.TwoRunsCanLose`.
- A cancel is described as cancelling the operation and suppressing stale callbacks (`eovpn/connection_manager.py:385`). The operation that is
  running is always reached (`WorkerProtocol.RunningIsReached`), but a worker that pops a queued operation between the raising of the flags and the clearing of
  the queue lowers both (`WorkerProtocol.CancelCanMiss`), and a connect that slips through can complete with its tunnel (`CancelledConnect.SlipsExactly`). Both flags hold, whatever the workers do, if and only if nothing is queued
  when the cancel is called or the queue has no worker (`WorkerProtocol.CancelHoldsExactly`).
- A backend takes down its own session, but a connect on top of a live tunnel can put that tunnel out of its reach; it cannot, whatever fails, if
  and only if no tunnel is up (`NativeConnect.ConnectIsSafeExactly`).

## Model

| member | source | states |
|---|---|---|
| AttemptTiming.ComputeAttemptTimeout | eovpn/auto_connect.py:109-131 | every budget lies in 30 to 45 seconds, for any round-trip time, unknown or negative included |
| AttemptTiming.TimeoutMonotone | eovpn/auto_connect.py:109-131 | a slower server never gets a shorter budget |
| AttemptTiming.TimeoutRoundsToNearest | eovpn/auto_connect.py:129-131 | the budget is 30 seconds plus eight times the round-trip time, at most 45 seconds, rounded to the strictly nearest hundredth of a second; there are no ties |
| AttemptTiming.UnknownGetsBase | eovpn/auto_connect.py:121-128 | without a usable measurement it is exactly 30 seconds |
| CandidateQueue.BuildCascadeQueue | eovpn/auto_connect.py:180-207 | the loop, the in-place sort, the cap and the fallback compute the queue of the specification |
| CandidateQueue.SortIsCorrect | eovpn/auto_connect.py:197-201 | sorting keeps exactly the entries and puts them in strict key order |
| CandidateQueue.RankedPositions | eovpn/auto_connect.py:187-201 | before the cap: exactly the positions that are not measured failures, each once, measured before unmeasured, faster first, ties in visual order |
| CandidateQueue.QueueOnAnyList | eovpn/auto_connect.py:157-207 | for any names and measurements: no position twice, promised order, nothing eligible left out that would come before a kept one, length min(cap, eligible), empty only without names |
| CandidateQueue.QueueShape | eovpn/auto_connect.py:157-207 | at most the cap, no empty name, empty exactly when no name is given |
| DisplayOrder.ComparatorIsAntisymmetric | eovpn/main_window.py:975-1000 | on distinct non-empty names exactly one comes first, whichever way round it is asked |
| DisplayOrder.ComparatorIsTransitive | eovpn/main_window.py:975-1000 | the window's comparator is transitive on distinct non-empty names |
| DisplayOrder.NamesAloneDecide | eovpn/main_window.py:983-984 | without sorting by speed the order is that of the names, whatever was measured |
| DisplayOrder.OnlyEmptyNamesTie | eovpn/main_window.py:980-981 | the comparator answers 0 exactly for a missing name |
| DisplayOrder.StringLessExactly | eovpn/main_window.py:984 | names are ordered by proper beginning or by the first character that differs |
| DisplayOrder.ArrangementIsUnique | eovpn/main_window.py:975-1000 | one set of names has only one arrangement in the comparator's order |
| DisplayOrder.TriedBeforeIsShownBefore | eovpn/auto_connect.py:197-199 | on the loaded list the queue's sort key and the window's comparator are the same order |
| DisplayOrder.DisplayExists | eovpn/eovpn_base.py:638-643 | every loaded list has an arrangement in the comparator's order |
| DisplayOrder.QueueRefinesDisplay | eovpn/auto_connect.py:180-207 | the queue is the list on screen under speed sorting, without the measured failures (or whole if nothing would remain), cut at the cap |
| CascadeInvariants.AdvanceKeeps | eovpn/cascade_controller.py:583-621 | leaving a candidate, with any answer of the backend, keeps all invariants, goes on to exactly the next one and waits for it |
| CascadeInvariants.FinishKeeps | eovpn/cascade_controller.py:623-695 | ending a run from any phase keeps all invariants and leaves nothing armed and no attempt open |
| CascadeInvariants.EventKeeps | eovpn/cascade_controller.py:263-309 | any backend event, at any time and with any nested callback, keeps all invariants |
| CascadeInvariants.HandshakeKeeps | eovpn/cascade_controller.py:434-465 | every way in which talking to the backend can go keeps all invariants, within three disconnect retries |
| CascadeInvariants.TryKeeps | eovpn/cascade_controller.py:400-465 | trying the next candidate keeps all invariants |
| CascadeInvariants.TimeoutKeeps | eovpn/cascade_controller.py:542-556 | a handshake timeout, postponed by a dialog or not, keeps all invariants |
| CascadeInvariants.TickKeeps | eovpn/cascade_controller.py:527-540 | a dispatched tick never ends an attempt: it re-arms itself and moves the deadline only while a dialog is open |
| CascadeInvariants.FireKeeps | eovpn/cascade_controller.py:510-581 | dispatching the next due source keeps all invariants |
| CascadeInvariants.BeginKeeps | eovpn/cascade_controller.py:349-398 | beginning a run from a state with nothing armed establishes all invariants in a new generation |
| CascadeInvariants.StartKeeps | eovpn/cascade_controller.py:171-209 | a start request keeps all invariants, whether it walks, prepares or does nothing |
| CascadeInvariants.CancelKeeps | eovpn/cascade_controller.py:247-261 | a cancel keeps all invariants and leaves nothing busy |
| CascadeInvariants.SpeedTestDoneKeeps | eovpn/main_window.py:1164-1196 | the end of a speed test keeps all invariants and leaves PREPARING |
| CascadeRuns.StepKeeps | eovpn/cascade_controller.py:164-712 | every action keeps the invariant; generations, runs, the clock and the ledger only grow; outside a walk no settle timer fires |
| CascadeRuns.RunKeeps | eovpn/cascade_controller.py:164-712 | the same over every run |
| CascadeRuns.NewWalk | eovpn/cascade_controller.py:349-358 | a controller that is not walking can only come to walk in a new generation and a new run |
| CascadeBounds.WalkingStep | eovpn/cascade_controller.py:400-621 | every action of a walking run ends it or goes on in the same generation within its settle budget and time horizon; the settles to come never grow, and each settle that fires uses one up |
| CascadeBounds.BoundedRun | eovpn/cascade_controller.py:349-465 | with n candidates, whatever the backend does: at most 4n + 1 settles; with timers fired when due and no dialog, over within 0.55 + 47.2 n seconds, under 40 minutes at the cap |
| CascadeTheorems.TimerOwnership | eovpn/cascade_controller.py:510-581 | the live sources are exactly the ids held, one of a kind, all of this generation; the timeout is due by the deadline and older than the tick; a controller that is not walking owns none |
| CascadeTheorems.NeverStuck | eovpn/cascade_controller.py:135-138 | busy is active; an active cascade waits for a running speed test or has a live timeout or settle of its generation |
| CascadeTheorems.SpeedTestEndsPreparing | eovpn/main_window.py:1164-1196 | the end of the speed test, whatever it measured, leaves PREPARING |
| CascadeTheorems.StartDuringSpeedTest | eovpn/main_window.py:1135-1139 | started while a first speed test runs, the cascade cancels the test and ends cancelled with it |
| CascadeTheorems.DispatchOrderMatters | eovpn/cascade_controller.py:527-556 | a tick dispatched before an overdue timeout would leave that timeout armed, and it would record the candidate again and step over the next |
| CascadeTheorems.QueueOrderWalk | eovpn/cascade_controller.py:400-621 | attempts follow the queue without skipping or going back, at most four records a candidate; the failure list names exactly the candidates left behind |
| CascadeTheorems.RecordsMatchFailures | eovpn/cascade_controller.py:596-606 | the closed records are the recorded failures, plus the one that ended the run |
| CascadeTheorems.ExhaustedOnlyAfterAll | eovpn/cascade_controller.py:211-465 | over all actions, a run is given up with a live manager only when every candidate has its failure record, or when the end of the speed test finds no configuration |
| CascadeTheorems.BeginExhausts | eovpn/cascade_controller.py:349-433 | a run that is given up in the step that begins it had no manager for its first candidate |
| CascadeTheorems.SummaryPartition | eovpn/cascade_controller.py:140-162 | the five buckets and the pending records make up the attempts; there is at most one success or cancellation, there is one exactly if the last record is it, and no other record is |
| CascadeTheorems.ClosedOnce | eovpn/cascade_controller.py:697-712 | over every run a record keeps its identity, and once closed never changes |
| CascadeTheorems.ConnectedMarks | eovpn/cascade_controller.py:275-279 | CONNECTED in a walking run ends it with nothing armed; a success record results if and only if a handshake timeout is live, also while a disconnect retry waits, and otherwise no record changes |
| CascadeTheorems.ConnectedWins | eovpn/cascade_controller.py:275-279 | CONNECTED during an attempt ends the run, marks that attempt alone and leaves nothing armed |
| CascadeTheorems.CancelEnds | eovpn/cascade_controller.py:247-261 | a cancel in any phase leaves nothing busy or armed, closes an open attempt as cancelled and changes no other record |
| CascadeTheorems.AuthMarkersNeverDecide | eovpn/cascade_controller.py:298-325 | two of the ten definitive markers decide nothing: any text with one of them is an authentication failure already |
| CascadeTheorems.SurroundedFailureIsTerminal | eovpn/cascade_controller.py:291-325 | more words around a terminal failure text never make it one that is waited out, and an authentication failure stays one |
| CascadeTheorems.DefinitivePhrases | eovpn/cascade_controller.py:298-325 | a text ends the attempt as definitive exactly if it has one of eight phrases, in any letter case, and is no authentication failure |
| CascadeTheorems.FailureMovesOn | eovpn/cascade_controller.py:291-307 | a terminal failure closes the attempt with its reason and message, records the candidate, disarms it and tries the next after 550 ms |
| CascadeTheorems.StaleEventAbsorbed | eovpn/cascade_controller.py:291-309 | between attempts, failures of the old session only end the expectation of a disconnect |
| CascadeTheorems.GenericFailureWaits | eovpn/cascade_controller.py:297-305 | a failure that proves nothing is remembered and nothing else changes |
| CascadeTheorems.FailureIsRemembered | eovpn/cascade_controller.py:297-305 | over any run of one attempt, what is remembered is the text of its last failure that was waited out |
| CascadeTheorems.WaitedOutFailureIsReported | eovpn/cascade_controller.py:550-556 | and that text is the message of the timeout that ends the attempt |
| CascadeTheorems.ConnectingAgain | eovpn/cascade_controller.py:400-421 | within a run, connecting again always takes a new record |
| CascadeTheorems.FullBudget | eovpn/cascade_controller.py:413-419 | no attempt is closed as timed out before its start plus its budget; elapsed time never exceeds the real one |
| CascadeTheorems.FrozenTick | eovpn/cascade_controller.py:527-534 | a tick under a dialog moves the deadline by exactly one tick; any other dispatched tick changes nothing |
| CascadeTheorems.RunsBegin | eovpn/cascade_controller.py:201-245 | every run, whatever started it, begins from a state that may begin, with the queue built from the complete list and the latencies known by then, of at most 50 candidates |
| CascadeOutcomes.SettleTries | eovpn/cascade_controller.py:400-465 | a settle timer with a candidate left, for every answer: with a connect that returns the attempt stays open with its whole budget; with any call that raises, a missing file or a session that stays after three requests it is closed with its reason, recorded and left; otherwise the old session is awaited; without a manager the run ends |
| CascadeOutcomes.SettleExhausts | eovpn/cascade_controller.py:400-405 | after the last candidate a settle timer ends the run with all records as they are |
| CascadeOutcomes.BeginLeadsTo | eovpn/cascade_controller.py:349-398 | a run begins by asking a live session to go, or, if there is none or it cannot be asked, by trying the first candidate at once, with the same cases |
| CascadeOutcomes.StartLeadsTo | eovpn/cascade_controller.py:171-245 | what a start request does in every state: nothing, wait for a speed test, nothing because the best server is already connected, or begin a run, also when another server is connected |
| CascadeOutcomes.TestEndLeadsTo | eovpn/main_window.py:1164-1196 | what the end of a speed test does in every state: which results hold, and how a waiting cascade goes on or ends |
| CascadeOutcomes.GraceIsGiven | eovpn/cascade_controller.py:546-549 | a timeout under a dialog moves the deadline to four seconds from now, re-arms the pair and changes nothing else |
| CascadeOutcomes.TimeoutMovesOn | eovpn/cascade_controller.py:550-556 | a timeout without one records the candidate and tries the next after the settle delay |
| CascadeOutcomes.OtherEventsChangeNothing | eovpn/cascade_controller.py:272-289 | events outside a walk, and progress, pause and resume in one, change nothing |
| CascadeOutcomes.ConsumedExactly | eovpn/cascade_controller.py:272-309 | which events the window must not handle itself |
| CascadeOutcomes.EndingRecords | eovpn/cascade_controller.py:643-712 | the whole record of an attempt that a success or a cancel ends, with its elapsed time |
| CascadeOutcomes.SummaryCounts | eovpn/cascade_controller.py:150-162 | each counter of the summary counts the records with its own outcomes |
| CascadeController.ConnectionAttempt.Close | eovpn/cascade_controller.py:708-712 | the record is closed in place with time, elapsed time, result and error, its identity kept |
| CascadeController.HostWindow.TriggerSpeedTest | eovpn/main_window.py:1128-1148 | a request during a test cancels it, a locked button ignores it, otherwise the test runs |
| CascadeController.CascadeController.DisarmTimers | eovpn/cascade_controller.py:517-525 | exactly the three held sources are removed and forgotten |
| CascadeController.CascadeController.ArmTimeoutAndTicks | eovpn/cascade_controller.py:510-515 | the pair is armed in order, the timeout after what is left of the deadline |
| CascadeController.CascadeController.ArmSettleTimer | eovpn/cascade_controller.py:568-581 | an old settle source is replaced by one of this generation |
| CascadeController.CascadeController.AttemptSummary | eovpn/cascade_controller.py:140-162 | the counting loop computes the summary of the ledger |
| CascadeController.CascadeController.CompleteActiveAttempt | eovpn/cascade_controller.py:697-712 | only the current attempt is closed, and only if it is open |
| CascadeController.CascadeController.Finish | eovpn/cascade_controller.py:623-695 | refines the ending step, with the disconnect of a cancelled run |
| CascadeController.CascadeController.OnConnectionEvent | eovpn/cascade_controller.py:263-309 | refines the event step, callbacks in callbacks included, and says which events the window must not handle |
| CascadeController.CascadeController.Advance | eovpn/cascade_controller.py:583-621 | refines leaving a candidate |
| CascadeController.CascadeController.OnTimeout | eovpn/cascade_controller.py:542-556 | refines the timeout step |
| CascadeController.CascadeController.UpdateConnectButtonTimer | eovpn/cascade_controller.py:498-508 | refines the countdown refresh, which can end an attempt |
| CascadeController.CascadeController.TryCurrentServer | eovpn/cascade_controller.py:400-465 | refines an attempt, with its new record |
| CascadeController.CascadeController.Begin | eovpn/cascade_controller.py:349-398 | refines the beginning of a run |
| CascadeController.CascadeController.ShowPreparing | eovpn/cascade_controller.py:331-337 | refines the wait for the speed test |
| CascadeController.CascadeController.StartFromVisibleList | eovpn/cascade_controller.py:211-245 | refines the start from the complete list |
| CascadeController.CascadeController.Start | eovpn/cascade_controller.py:171-199 | refines the start request |
| CascadeController.CascadeController.Toggle | eovpn/cascade_controller.py:164-169 | cancels when busy and starts otherwise |
| CascadeController.CascadeController.Cancel | eovpn/cascade_controller.py:247-261 | refines the cancel, and asks the backend to disconnect exactly when a walking cascade is cancelled and the backend is connected |
| CascadeController.CascadeController.OnTick | eovpn/cascade_controller.py:527-540 | refines the tick and says whether it asks to be called again |
| CascadeController.CascadeController.OnSettle | eovpn/cascade_controller.py:575-581 | refines the settle callback: a stale generation does nothing |
| CascadeController.CascadeController.Fire | eovpn/cascade_controller.py:510-581 | refines the dispatch of any source |
| CascadeController.CascadeController.OnSpeedTestComplete | eovpn/main_window.py:1164-1196 | refines the end of the speed test |
| CascadeMainLoop.Perform | eovpn/cascade_controller.py:164-712 | any action performed on the objects keeps the invariant, goes on from the old state and does exactly the step |
| CascadeMainLoop.Loop | eovpn/cascade_controller.py:164-712 | any run of the objects is a run of the cascade: it reaches only reachable states, in which the timer, liveness and queue-order promises hold of the fields |
| CascadeMainLoop.Session | eovpn/cascade_controller.py:95-127 | the same from the constructor on |
| CascadeMainLoop.ReachableIsDependable | eovpn/cascade_controller.py:510-621 | what the theorems say of a reachable state, read off the controller's fields and the scheduler's table |
| WorkerProtocol.RunKeeps | eovpn/connection_manager.py:384-456 | over every interleaving: slot, order and ledger invariants |
| WorkerProtocol.OneAtATime | eovpn/connection_manager.py:428-456 | at most one native operation runs at a time |
| WorkerProtocol.DispatchOrder | eovpn/connection_manager.py:407-438 | operations start in dispatch order, each at most once, and before everything still queued |
| WorkerProtocol.Ledger | eovpn/connection_manager.py:384-456 | every dispatched operation is in exactly one of finished, running, queued and dropped |
| WorkerProtocol.OnlyCancelDrops | eovpn/connection_manager.py:384-389 | only the locked part of a cancel drops, and it drops exactly the queue |
| WorkerProtocol.WorkHasWorker | eovpn/connection_manager.py:419-434 | waiting work has a live worker that has not decided to leave, exactly unless its thread was refused or killed |
| WorkerProtocol.DispatchRepairs | eovpn/connection_manager.py:419-426 | a dispatch that can start a thread repairs a stall |
| WorkerProtocol.ClearedNeverStarts | eovpn/connection_manager.py:388-389 | once a cancel has cleared the queue nothing dispatched before starts in any run |
| WorkerProtocol.FlagUpUntilPop | eovpn/connection_manager.py:384-438 | until it is raised again a raised flag is up exactly as long as nothing more has been popped |
| WorkerProtocol.CancelHoldsExactly | eovpn/connection_manager.py:384-389 | for every state in which a cancel can be called: each flag is up after it, whatever the workers do during it, if and only if nothing is queued or the queue has no worker |
| WorkerProtocol.PopLowersFlags | eovpn/connection_manager.py:431-438 | otherwise a worker can pop during the cancel, and the queued operation then runs with both flags down |
| WorkerProtocol.RunningIsReached | eovpn/connection_manager.py:384-441 | the operation that was running when the cancel was called has its flag up for as long as it runs: after each raise with any worker steps, and after the cancel with any run |
| WorkerProtocol.CancelCanMiss | eovpn/connection_manager.py:384-438 | a run in which an operation dispatched before the cancel runs after it with the flag down |
| WorkerProtocol.RaisedWhileRunning | eovpn/connection_manager.py:428-441 | a flag raised while an operation runs stays up until that operation ends |
| WorkerProtocol.LateSignalsDropped | eovpn/connection_manager.py:337-349 | after a cancel no native signal reaches the window before the next watch or pop |
| WorkerProtocol.DeliveryExactly | eovpn/connection_manager.py:337-349 | signals get through after a watch or a pop, not after the second raise of a cancel, and otherwise as before |
| WorkerProtocol.FlagExactly | eovpn/connection_manager.py:384-438 | the cancel flag is up after the first raise of a cancel, down after a pop, and otherwise as before |
| WorkerProtocol.WorkersDrain | eovpn/connection_manager.py:428-456 | every step of a worker uses up work, except the exit of one that has left |
| WorkerProtocol.WorkIsNeverStuck | eovpn/connection_manager.py:428-456 | while there is work and no stall the slot's thread can take a step |
| WorkerProtocol.DrainedIsIdle | eovpn/connection_manager.py:428-434 | without work everything dispatched is finished or dropped and no thread is undecided |
| NativeConnect.CompletesExactly | eovpn/connection_manager.py:458-528 | a connect completes exactly when every call works and the flag is down at the last check |
| NativeConnect.OutcomeExactly | eovpn/connection_manager.py:458-528 | the first obstacle decides: none, completed; a raised flag at one of the four checks, cancelled, unless taking a tunnel back raises; a call, failed |
| NativeConnect.UncancelledIsNotSilent | eovpn/connection_manager.py:440-456 | a connect that nobody cancels completes or is reported as failed |
| NativeConnect.SettingFollowsTunnel | eovpn/connection_manager.py:458-521 | the stored uuid is the activated one after a connect that completes and untouched after any other |
| NativeConnect.CancelLeavesNoTunnel | eovpn/connection_manager.py:497-521 | a connect that does not complete leaves a tunnel exactly when the last check cancelled it and the disconnect did not work |
| NativeConnect.ProfileLeftBehind | eovpn/connection_manager.py:497-520 | exactly when a new profile stays in the store without a tunnel |
| NativeConnect.NoCopyLeft | eovpn/connection_manager.py:482-528 | a private copy outlives the operation exactly when one was created and cannot be removed, whether writing it failed or something later did |
| NativeConnect.ConnectThenDisconnect | eovpn/connection_manager.py:458-554 | a connect and a disconnect that work give back the store |
| NativeConnect.LeftBehindStays | eovpn/connection_manager.py:548-554 | a disconnect does not remove a profile that was left behind |
| NativeConnect.ForeignTakesDown | eovpn/connection_manager.py:540-546 | without a remembered uuid each of the three rounds that works takes down exactly one tunnel, up to a round that raises, and nothing else changes |
| NativeConnect.DisconnectOutcomeExactly | eovpn/connection_manager.py:538-554 | a disconnect fails exactly when a call that is reached raises, in either branch |
| NativeConnect.OwnSessionExactly | eovpn/connection_manager.py:548-554 | what a disconnect of an owned session does to each part of the store |
| NativeConnect.ReachIsExact | eovpn/connection_manager.py:538-554 | a disconnect whose calls work leaves no tunnel exactly when all were within reach: the remembered one, or at most three if none is remembered |
| NativeConnect.DisconnectKeepsReach | eovpn/connection_manager.py:538-554 | no disconnect, whatever fails, puts a tunnel out of reach |
| NativeConnect.ConnectKeepsReach | eovpn/connection_manager.py:497-521 | exactly which connects put a tunnel out of reach: those that overwrite the uuid of a live one with another |
| NativeConnect.ConnectIsSafeExactly | eovpn/connection_manager.py:497-521 | a connect keeps every tunnel within reach, whatever it answers, if and only if no tunnel is up when it is called |
| NativeConnect.ReachOverRuns | eovpn/connection_manager.py:458-554 | over any operations, failing and cancelled anywhere, all tunnels stay within reach exactly when every connect spares them |
| NativeConnect.NoTunnelOutlives | eovpn/connection_manager.py:458-554 | then one last disconnect whose calls work leaves no tunnel |
| CancelledConnect.RunningConnectIsCancelled | eovpn/connection_manager.py:384-521 | a connect that is running when a cancel is called completes, over every interleaving, if and only if it had made all four checks; otherwise it leaves no tunnel of its own when the native disconnect works |
| CancelledConnect.SlipsExactly | eovpn/connection_manager.py:384-521 | of the other connects dispatched before a cancel exactly those that are queued can still get past all checks, and only if the queue has a worker |
| CancelledConnect.ThroughCompletes | eovpn/connection_manager.py:507-521 | past all checks a connect can complete, cannot do anything else, and leaves its tunnel |
| CancelledConnect.NeverRuns | eovpn/connection_manager.py:384-438 | a finished or dropped operation, and a queued one without a worker, never runs after the cancel |
| NetworkManager.OperationWorker.DispatchOffUiThread | eovpn/connection_manager.py:407-426 | refines the dispatch step |
| NetworkManager.OperationWorker.RaiseCancel | eovpn/connection_manager.py:386 | the cancel flag goes up before the lock is taken |
| NetworkManager.OperationWorker.RaiseSuppress | eovpn/connection_manager.py:387 | the suppress flag goes up before the lock is taken |
| NetworkManager.OperationWorker.ClearQueue | eovpn/connection_manager.py:388-389 | under the lock the queue is dropped and the flags stay |
| NetworkManager.OperationWorker.TakeNext | eovpn/connection_manager.py:431-438 | under the lock: leave on an empty queue, otherwise pop the first and lower both flags |
| NetworkManager.OperationWorker.OperationEnds | eovpn/connection_manager.py:440-456 | the thread goes on after an operation that returns or raises, and dies with one that kills it |
| NetworkManager.OperationWorker.Perform | eovpn/connection_manager.py:384-456 | any atomic step performed on the object keeps the protocol's invariant and does exactly that step |
| NetworkManager.OperationWorker.Interleave | eovpn/connection_manager.py:384-456 | any interleaving of steps is a run of the protocol, and in the object's own threads at most one is running an operation |
| NetworkManager.NativeBackend.ConnectBlocking | eovpn/connection_manager.py:458-528 | refines the connect, whatever fails and whenever the flag rises |
| NetworkManager.NativeBackend.DisconnectBlocking | eovpn/connection_manager.py:538-554 | refines the disconnect, of an owned session or without a remembered uuid |
| NetworkManager.NativeBackend.DisconnectForeign | eovpn/connection_manager.py:540-546 | the loop refines the rounds of the disconnect, whichever tunnels the store names and however each call goes |
| OvpnParser.ParseEndpoints | eovpn/ovpn_parser.py:38-84 | the loop, with its early end on a number that cannot be converted, computes the endpoints of the specification |
| OvpnParser.ConcatenationParses | eovpn/ovpn_parser.py:50-84 | parsing a concatenation is parsing the second part from the transport the first leaves |
| OvpnParser.CommentsMeanNothing | eovpn/ovpn_parser.py:54-56 | comment and blank lines mean nothing |
| OvpnParser.OtherLinesMeanNothing | eovpn/ovpn_parser.py:59-67 | every other directive, and a proto or remote line without a second word, means nothing |
| OvpnParser.InvisibleLine | eovpn/ovpn_parser.py:53-66 | a line that means nothing can be put between any two lines without changing the endpoints |
| OvpnParser.DecimalReadsBack | eovpn/ovpn_parser.py:70-71 | a printed port reads back as itself |
| OvpnParser.RenderReadsBack | eovpn/ovpn_parser.py:66-81 | full `remote host port proto` lines parse to exactly their endpoints, from any transport |
| OvpnParser.ReadIsPrintable | eovpn/ovpn_parser.py:66-81 | every parsed endpoint has a host without space and a port that can be printed |
| OvpnParser.NormalForm | eovpn/ovpn_parser.py:38-84 | rewriting any text as its full lines and parsing again gives the same endpoints |
| OvpnParser.StatementsRead | eovpn/ovpn_parser.py:50-81 | any sequence of proto and remote lines, keywords in any case and any words after those that count, reads as what it declares: udp until a proto line with a word that begins with tcp or udp, then that, until the next one; port 1194 without a port; a transport on the line for that line |
| OvpnParser.SpacingIsInvisible | eovpn/ovpn_parser.py:54-57 | only the words of a line matter |
| OvpnParser.SpaceSplits | eovpn/ovpn_parser.py:57 | any white space separates the words before it from those after it |
| OvpnParser.LineEnds | eovpn/ovpn_parser.py:52-53 | a line ends at a newline or a carriage return |
| OvpnParser.LongPortEndsReading | eovpn/ovpn_parser.py:70-83 | a port that cannot be converted ends the reading with what came before it |
| OvpnParser.ShownUnderItsProtocols | eovpn/utils.py:205 | a configuration is shown under a protocol filter exactly when it has a remote of that protocol |
| OvpnParser.RemoteIsVisible | eovpn/utils.py:205 | a configuration is shown under the TCP or the UDP filter exactly when it has a remote |
| ServerFilter.OnlineOrOffline | eovpn/utils.py:200-203 | online and offline split whatever the other filters show |
| ServerFilter.FiltersAreIndependent | eovpn/utils.py:195-205 | each filter shows exactly what it says, whatever the others are set to |
| ServerFilter.SomeProtocolShows | eovpn/utils.py:205 | the two protocol filters together show exactly the servers that declare a protocol |
| ServerFilter.ShorterSearchShowsMore | eovpn/utils.py:194-196 | shortening the search text never hides a server |
| SpeedTest.TestSingleOvpn | eovpn/speed_test.py:55-80 | the least answer of the first sixteen valid endpoints, None exactly when none answers; cancelled in time, nothing |
| SpeedTest.TestAllConfigs | eovpn/speed_test.py:83-128 | the batch stores the answers that arrived before a cancel, in their order |
| SpeedTest.ValidFilesExactly | eovpn/speed_test.py:101 | measured are the listed names that end in .ovpn, and no others |
| SpeedTest.OrderIsInvisible | eovpn/speed_test.py:115-126 | for distinct names the result does not depend on the order of arrival |
| SpeedTest.OrderIsInvisibleExactly | eovpn/speed_test.py:115-126 | the result is independent of the order of arrival, whatever the answers, if and only if no name is listed twice |
| SpeedTest.BatchIsComplete | eovpn/speed_test.py:101-128 | a batch over the loaded list measures every name, and nothing else |
| SpeedTest.SpeedTestSnapshot.Replace | eovpn/speed_state.py:76-90 | the snapshot is of the next generation, its latencies are the results, and its states say which were reached |
| SpeedTest.QueueIsOnlineSet | eovpn/auto_connect.py:180-207 | after a completed test the queue holds exactly what the online filter shows, if and only if at least one server and at most the cap were reachable |
| SpeedTest.BeginsFastest | eovpn/auto_connect.py:195-203 | if any server is online, the queue begins with an online one that none is faster than |
| SpeedTest.MeasureFiles | eovpn/speed_test.py:55-80 | parsing and measuring every file: a result exactly if one of its first sixteen valid endpoints answers, and then the least answer |
| SpeedTest.MeasureAndQueue | eovpn/speed_test.py:83-128 | from the files to the queue, with any order of arrival: a server is online exactly if an endpoint of its file answers, the queue is the online set exactly when it fits, and begins with a fastest |
| FilteredList.KeptReachable | eovpn/auto_connect.py:189-193 | dropping measured failures and dropping what is filtered out commute |
| FilteredList.FilterMattersExactly | eovpn/cascade_controller.py:201-215 | queueing the complete list and queueing what passes a filter agree exactly when the servers at the top of the sorted list, up to the cap and without the measured failures, all pass |
| FilteredList.WindowFilterMattersExactly | eovpn/cascade_controller.py:201-215 | the same for the search, mode and protocol filters of the window |
| FilteredList.HiddenServerIsQueued | eovpn/cascade_controller.py:201-215 | a server that is off screen and queued |
| ArchiveImport.ReadLimited | eovpn/utils.py:101-120 | the whole body or an error, and exactly when which; never more than a chunk over the limit is read |
| ArchiveImport.CopyStream | eovpn/utils.py:359-369 | the inner loop stops over the limit exactly when the content does not fit, at most one chunk late |
| ArchiveImport.ExtractEntry | eovpn/utils.py:358-384 | one entry becomes a whole file, or no file if its content raises |
| ArchiveImport.Extract | eovpn/utils.py:327-388 | the loop ends normally exactly when the opened entries fit the limit together; then files and certificates are those of the specification |
| ArchiveImport.ImportArchive | eovpn/utils.py:318-388 | the same for the archive's entries, configurations first, with the limit on their number |
| ArchiveImport.ImportedExactly | eovpn/utils.py:323-385 | told by the archive alone: after an import into an empty directory a name is a file exactly if its first entry, configurations before certificates, opens and does not raise, and holds that entry's content; it is returned exactly if it also looks like a certificate |
| ArchiveImport.TargetsExactly | eovpn/utils.py:323-325 | processed are all entries named like a configuration, then all named like a certificate, each group in archive order, and nothing else |
| ArchiveImport.BaseNameIsLastPart | eovpn/utils.py:336 | the base name is what follows the last slash |
| ArchiveImport.ConfigNameExactly | eovpn/utils.py:219-221 | which names are configurations, in any letter case |
| ArchiveImport.CertNameExactly | eovpn/utils.py:219-221 | which names are certificates, in any letter case |
| ArchiveImport.JoinedInOrder | eovpn/utils.py:360-365 | content is joined in the order in which its chunks are read |
| ArchiveImport.NextEntry | eovpn/utils.py:332-385 | what one more entry adds to the bytes written, the files and the certificates |
| ArchiveImport.FirstEntryWins | eovpn/utils.py:334-342 | an extracted file holds the content of the first entry of its name |
| ArchiveImport.OthersUntouched | eovpn/utils.py:334-356 | names without an opened entry keep what was there |
| ArchiveImport.FilesAreExtracted | eovpn/utils.py:327-384 | in a fresh directory the files are exactly the extracted entries |
| ArchiveImport.CertsAreExtracted | eovpn/utils.py:376-377 | the certificates returned are exactly the extracted names that match the pattern |
| ArchiveImport.CertsOnce | eovpn/utils.py:334-377 | no certificate is returned twice |
| ArchiveImport.ChunkingIsInvisible | eovpn/utils.py:360-369 | neither verdict nor result depends on how the content is cut into chunks |
| ConfigSwap.ConfigDirectory.Dispatch | eovpn/eovpn_base.py:746-784 | the disk goes through exactly the states of the trace |
| ConfigSwap.EveryStateSafe | eovpn/eovpn_base.py:749-781 | at every point and after every failure the old set is whole in place or in the backup, or the new one is in place |
| ConfigSwap.SwapIsSafeExactly | eovpn/eovpn_base.py:746-784 | a set survives every run, or is replaced by a whole one, if and only if it is in place at the start |
| ConfigSwap.FailedDownloadTouchesNothing | eovpn/eovpn_base.py:752-753 | a download that raises changes neither the directory nor the backup at any point |
| ConfigSwap.HowItEnds | eovpn/eovpn_base.py:746-781 | exactly where each ending leaves the old and the new set |
| ConfigSwap.CleanSwap | eovpn/eovpn_base.py:752-761 | a swap whose removals work leaves exactly the downloaded set |
| ConfigSwap.SucceedsExactly | eovpn/eovpn_base.py:752-760 | exactly when a run puts the new set in place |
| ConfigSwap.NewSetExactly | eovpn/eovpn_base.py:752-753 | the new set is the download over what an earlier run left behind |
| ConfigSwap.FailureCleansUp | eovpn/eovpn_base.py:780-782 | a run that does not succeed removes what it has staged |
| ConfigSwap.BackupOnlyRun | eovpn/eovpn_base.py:757-760 | when a set that is only in the backup outlives a run that fails |
| ConfigSwap.TwoRunsCanLose | eovpn/eovpn_base.py:757-760 | two failing runs can lose the set |
| ConfigSwap.RunKeepsExactly | eovpn/eovpn_base.py:746-784 | a run keeps the set in use exactly when it does not find it in the backup only, damage it there and then fail |
| ConfigSwap.RunsKeepExactly | eovpn/eovpn_base.py:746-784 | over any number of runs the set in use survives throughout exactly when no run is of that kind |
| ResetRestore.LatestResetBackup | eovpn/reset_backup.py:59-75 | a valid snapshot with the largest time, and None exactly when there is none |
| ResetRestore.FreeName | eovpn/reset_backup.py:30-35 | the suffix search ends, with the first name of the series that is free |
| ResetRestore.ResetWorkflow.ResetAllSettings | eovpn/eovpn_base.py:555-559 | every key goes back to its default |
| ResetRestore.ResetWorkflow.ApplySettings | eovpn/settings_window.py:926-928 | the manifest's known keys are written, an unset one goes back to its default |
| ResetRestore.ResetWorkflow.CreateResetBackup | eovpn/reset_backup.py:16-56 | a snapshot under a free name, or no change at all |
| ResetRestore.ResetWorkflow.ApplyReset | eovpn/settings_window.py:846-868 | nothing changes unless confirmed and backed up; then no configuration is left, every key reads as its default does, what lay beside the directory is as it was, and one new snapshot holds the old readings and configurations |
| ResetRestore.ResetWorkflow.ApplyRestore | eovpn/settings_window.py:909-928 | the configurations and readings of the chosen snapshot are back, or the restore stops at the modelled faults with the settings as they were; in either case what lay beside the directory stays, plus one safety snapshot of the old state |
| ResetRestore.WrittenReads | eovpn/eovpn_base.py:505-553 | a key reads as what was written, or as its default when unset or empty or the legacy null; no other key changes |
| ResetRestore.DefaultTexts | eovpn/eovpn_base.py:518-530 | the three texts with a default read as it, all others as not set |
| ResetRestore.SettingsReadBack | eovpn/eovpn_base.py:505-553 | all settings read the same after their readings are written back, if and only if no unset key has a default that is set |
| ResetRestore.ResetThenRestore | eovpn/settings_window.py:846-928 | reset, then restore of the latest snapshot, shows what was shown before, under exactly that condition |
| ResetRestore.RestoreTwiceToggles | eovpn/settings_window.py:909-928 | restoring the latest snapshot twice shows what was shown before the first restore, under exactly that condition |
| ResetRestore.FailedRestoreIsUndone | eovpn/settings_window.py:909-943 | a restore that stops half-way is undone by its safety snapshot, under exactly that condition |
| ResetRestore.FaithfulAfterwards | eovpn/settings_window.py:862-928 | reset and restore themselves always leave settings that meet the condition |
| ResetRestore.SnapshotsHoldReadings | eovpn/settings_window.py:851 | every snapshot holds readings of every key, as the previous line needs |
| ResetRestore.EmptyManagerIsNotRestored | eovpn/eovpn_base.py:518-530 | a state that the undo does not give back |

## Left out

- Widgets, labels, toasts, banners and the progress bar of the controller and the window; the 3 and 5 second banner timers only hide a banner.
- `manual_disconnect` and the auto-reconnect policy: a cancelled cascade may be followed by a reconnect, and nothing here says otherwise.
- `keep_settle`: no caller passes it.
- The fallback to the visible rows when the window has no complete list (`collect_visible_filenames`), and errors while reading that list.
- Two snapshots of equal modification time, and an unreadable one: which of them a restore takes is not fixed by the program.
- ResetRestore.ResetWorkflow.ApplyRestore: the managed directory is assumed to be removable and the settings store writable; a safety snapshot that fails ends in a second error in the handler of the first, which is not modelled beyond leaving everything unchanged.
- ResetRestore.ResetWorkflow.CreateResetBackup: links and permissions of the copied tree, the validation of a manifest's path, and the text form of the manifest are not modelled.
- ArchiveImport.Extract: the path check and the opening of an output file are answers, not computed.
- ArchiveImport.ReadLimited: a declared length that is not a number is the same as none.
- NativeConnect.CancelLeavesNoTunnel: says nothing about a native call that acts and raises all the same.
- OvpnParser.ParseEndpoints: a file that cannot be opened, and letters, digits or spaces outside ASCII.
- ConfigSwap.ConfigDirectory.Dispatch: the states inside the download, which touch only the staging directory, and the audit and certificate setting after the swap.
- The folder import and the download itself (addresses, redirects, TLS), the zip format, sockets, D-Bus, libnm, the secret service and GSettings transport.
- The interleaving of the cascade with the worker: the backend of the cascade is any backend.
- The directive audit, favourites, event normalisation, network-monitor rates, progress fractions and byte formatting: each is one small function.
