# Verified models of the device adapters' protocols

A Dafny model of the parts of the repository where a wrong interleaving, a crash at the wrong moment or an unlucky
chunk boundary would do harm, with proofs over every input, every run and every reachable state.

| file | what it models |
|---|---|
| `FireFence.dfy`, `FireConfirmation.dfy`, `FireHistory.dfy`, `FireOutcomes.dfy`, `FireRecovery.dfy` | the durable compare-and-swap record in front of a fire command, raced over by confirmations, cancellations, refreshes and recoveries of several processes, with store calls that throw before or after they commit |
| `NpcObservation.dfy`, `NpcVerdicts.dfy` | how device observations move an NPC Tank task and when they may end it |
| `ClimateStore.dfy`, `ClimateEngine.dfy`, `ClimateDecisions.dfy`, `ClimateConfirmation.dfy`, `ClimateRuns.dfy`, `ClimateRequests.dfy`, `ClimateProvider.dfy`, `ClimateServices.dfy` | the write-ahead dispatch protocol of the climate provider, its stable-window confirmation, its power guard, its crash recovery and the validator of its document |
| `PromiseLock.dfy` | the promise-chain locks of both providers |
| `TelemetryOutbox.dfy`, `Canonical.dfy` | the bounded telemetry queue, and the text that identifies an event |
| `SideEffectBudget.dfy`, `BudgetProcesses.dfy` | the budget of real-device side effects, and the processes that share its document through a lock file |
| `SseReader.dfy`, `SseFields.dfy`, `ChunkReader.dfy` | incremental framing of server-sent events, and reassembly of bytes a server hands out in pieces |
| `Wrappers.dfy`, `Utf16.dfy` | Option and Result; texts as UTF-16 code units |

Asynchronous code is a step function: one step per `await`, and one more where two durable writes share a stretch. The
durable state is kept apart from the local variables an invocation carries from one step to the next, and a run is any
sequence of steps of any invocations, crashes and store calls that throw included.
Code that runs without an await is a method of a class where the source updates an object, proved against the functions
the steps use.

Assumptions. The NPC store inserts a fence record only when there is none and replaces it only while it carries the
expected reason code. The clock of the climate provider does not run backwards, instants are whole milliseconds, and
Home Assistant time stamps parse. A rename replaces a file atomically.

Results that differ from what one might expect, or from what the code announces:

* The state of the event-stream reader is independent of chunk boundaries exactly when the stream has no CR CR LF
  (`ChunksDoNotMatterExactly`), and so are its frames if the stream ends with a complete one
  (`FramesDoNotMatterExactly`): the reader normalises its leftover text again with every chunk. Two messages with
  LF CR CR LF between them are read as two or as one, depending on where a chunk ends (`MessagesDependOnChunks`).
* The event-stream reader removes all white space at the start of a data line, where section 9.2.6 of the WHATWG HTML
  standard removes at most one space; the model follows the code.
* The text hashed into an event id identifies the event exactly when none of its provider, entity, time and type
  contains a newline (`PreimageIdentifiesExactlyOneLineFields`). Among events whose provider, entity and type are on
  one line, as the configuration and the constants of the provider make them, it always does
  (`OneLineNamesIdentify`).
* For a device that obeys the services it is sent, the power guard of the climate provider takes every dispatch that
  switches a reachable device for what it is, except one: setting the mode `off` on a device that is on is not a power
  intent, so it is neither spaced nor recorded (`GuardSeesSwitchExactly`).
* A new metric is evicted on arrival when the queue is full of other events (`NewestStaysUnless`).
* The derived default confirmation policy is accepted exactly for time-outs of at least 2 ms (`DefaultPolicyAccepted`).

## Model

| member | source | states |
|---|---|---|
| FireFence.StepKeepsDiscipline | apps/npc-tank-provider-adapter/src/runtime.ts:392-543 | Whatever the step, a claim is committed only on an absent fence, arming is left to the claimant, and the device is called only right after the own arming swap returned true |
| FireFence.SingleShotNext | apps/npc-tank-provider-adapter/src/runtime.ts:446-480 | Every move, crash included, keeps: one claim at most, armed only by its claimant, fired only by the armed |
| FireFence.FiresAtMostOnce | apps/npc-tank-provider-adapter/src/runtime.ts:392-543 | Over every run the device is called at most once, by the only claimant, whose own NOT_ARMED to UNCERTAIN swap returned true |
| FireFence.UpdateStepFits | apps/npc-tank-provider-adapter/src/runtime.ts:392-543 | A confirmation step moves the fence only along the legal edges and leaves its invocation with a program point that fits the fence; which answers get there is stated by `OnlyConfirmedFires` |
| FireFence.CancelStepFits | apps/npc-tank-provider-adapter/src/runtime.ts:1066-1142 | The same for a cancellation: it persists a cancellation only behind a fence that carries that very code |
| FireFence.AbortStepFits | apps/npc-tank-provider-adapter/src/runtime.ts:1156-1207 | The same for an abort, the UNCERTAIN to ABORTED path after an arming that committed but threw included |
| FireFence.RefreshStepFits | apps/npc-tank-provider-adapter/src/runtime.ts:1208-1250 | The same for refresh and recovery |
| FireFence.ExcludesNext | apps/npc-tank-provider-adapter/src/runtime.ts:1066-1250 | Every move keeps: after a persisted stand-down nobody is or can become armed |
| FireFence.FireAndStandDownExclude | apps/npc-tank-provider-adapter/src/runtime.ts:1066-1250 | In every run: a stand-down persisted at any moment means that no shot came before it and none follows, and the converse |
| FireHistory.FenceMovesForward | apps/npc-tank-provider-adapter/src/runtime.ts:1156-1250 | Between any two moments of a run the fence moves only along absent, NOT_ARMED, UNCERTAIN, final, and a final fence never changes again |
| FireHistory.FenceTellsShots | apps/npc-tank-provider-adapter/src/runtime.ts:446-543 | In every reachable state an absent, NOT_ARMED or stand-down fence means no shot, a recorded outcome exactly one, and behind a stand-down fence no shot can follow |
| FireHistory.OnlyConfirmedFires | apps/npc-tank-provider-adapter/src/runtime.ts:428-447 | In every run, who calls the device was asked to confirm, never an update that declined or answered invalidly, a cancellation, a refresh or a recovery; and only an execution read as WAITING_INPUT is claimed |
| FireHistory.EntriesStay | apps/npc-tank-provider-adapter/src/runtime.ts:388-392 | What an invocation was asked for stays what it was spawned with |
| FireConfirmation.Decide | apps/npc-tank-provider-adapter/src/runtime.ts:1741-1754 | The first response to the confirmation decides; it confirms only by accepting with a flag that says so, and declines by declining, cancelling or rejecting |
| FireHistory.RecoveryGoesOnOnlyPastNotArmed | apps/npc-tank-provider-adapter/src/runtime.ts:1208-1250 | Whatever races it, a recovery or refresh that does not stand the task down has read a fence that is absent or past NOT_ARMED and no stand-down, and one past NOT_ARMED is never NOT_ARMED again |
| FireOutcomes.ConfirmationFiresOnce | apps/npc-tank-provider-adapter/src/runtime.ts:446-543 | An undisturbed confirmation calls the device exactly once, and fence and execution say how the call ended |
| FireOutcomes.UpdateEnds | apps/npc-tank-provider-adapter/src/runtime.ts:392-543 | What an undisturbed update comes to for every fence, execution and answer: a confirmed one fires, a declined one cancels without a call, one behind a cancellation repeats it, and any other changes nothing |
| FireOutcomes.CancellationStandsDown | apps/npc-tank-provider-adapter/src/runtime.ts:1066-1142 | An undisturbed cancellation of a waiting task cancels it and closes the fence, whether or not a confirmation had claimed it |
| FireOutcomes.CancellationLeavesArmedFence | apps/npc-tank-provider-adapter/src/runtime.ts:1066-1128 | Behind an armed or settled fence a cancellation changes nothing |
| FireOutcomes.CancellationEnds | apps/npc-tank-provider-adapter/src/runtime.ts:337-350 | What an undisturbed cancellation comes to for every fence and execution |
| FireOutcomes.CancellationTakesCurrent | apps/npc-tank-provider-adapter/src/runtime.ts:1078-1106 | A cancellation that reloads its task cancels it as it is now |
| FireOutcomes.CancellationLeavesFinished | apps/npc-tank-provider-adapter/src/runtime.ts:1078-1106 | and leaves it alone if it is over |
| FireOutcomes.AbortStandsDown | apps/npc-tank-provider-adapter/src/runtime.ts:1156-1207 | An undisturbed abort leaves fence and execution ABORTED, also when the arming swap had committed |
| FireOutcomes.AbortFollowsWinner | apps/npc-tank-provider-adapter/src/runtime.ts:1188-1206 | An abort follows the fence that won: a cancellation cancels the task, an outcome leaves it alone, anything else fails it |
| FireOutcomes.AbortReadsWinner | apps/npc-tank-provider-adapter/src/runtime.ts:1163-1187 | An abort that finds the fence gone on reads it again |
| FireOutcomes.ArmedAbortReadsWinner | apps/npc-tank-provider-adapter/src/runtime.ts:1171-1187 | So does one that loses its swap on an armed fence |
| FireOutcomes.AbortLeavesFinished | apps/npc-tank-provider-adapter/src/runtime.ts:1188-1206 | An abort closes the fence but leaves a finished task alone |
| FireOutcomes.RefreshEnds | apps/npc-tank-provider-adapter/src/runtime.ts:745-792 | Behind an armed fence or an outcome a refresh takes what the device shows, if the task does not wait and has a mission |
| FireOutcomes.DisconnectedRecoveryMarks | apps/npc-tank-provider-adapter/src/runtime.ts:609-614 | Recovery without a connection marks a task that goes on as uncertain, and nothing else |
| FireRecovery.Store.RecoverPreDispatchFence | apps/npc-tank-provider-adapter/src/runtime.ts:1208-1250 | For every fence the caller may have read and every fence its swap then meets: true exactly when it stands the task down, with which code, and which fence it leaves; other tasks stay untouched |
| FireRecovery.Store.RecoverTask | apps/npc-tank-provider-adapter/src/runtime.ts:599-615 | One iteration, with a store that may throw at any call: what it makes of the fence and of the task, and that it touches no other |
| FireRecovery.Store.Recover | apps/npc-tank-provider-adapter/src/runtime.ts:598-616 | When recovery returns normally, every still active fire task has no fence or one past NOT_ARMED that never stands down, every other one was stood down as its fence says, and no other fence changed |
| FireRecovery.PassSettles | apps/npc-tank-provider-adapter/src/runtime.ts:598-616 | After a pass over all active tasks, what is still active has a settled fence |
| FireRecovery.RecoveringAgainChangesNothing | apps/npc-tank-provider-adapter/src/runtime.ts:598-616 | Recovering again, over tasks that were recovered before, changes no fence |
| FireRecovery.RecoveryAgreesWithSteps | apps/npc-tank-provider-adapter/src/runtime.ts:598-616 | The sequential recovery and the interleaved steps, run undisturbed, give the same fence and the same stand-down |
| NpcObservation.RefreshIsQuiescent | apps/npc-tank-provider-adapter/src/runtime.ts:745-850 | For every operation, refreshing again from an unchanged snapshot changes nothing |
| NpcObservation.TrackIsQuiescent | apps/npc-tank-provider-adapter/src/runtime.ts:1395-1449 | The same for one track observation, which also keeps operation and missions |
| NpcObservation.ReconIsQuiescent | apps/npc-tank-provider-adapter/src/runtime.ts:1464-1530 | The same for one reconnaissance observation |
| NpcObservation.RefreshMovesForward | apps/npc-tank-provider-adapter/src/runtime.ts:745-850 | A refresh changes nothing or raises the revision; it loses no mission and no progress and leaves terminal tasks alone |
| NpcObservation.RefreshArmsOnActivity | apps/npc-tank-provider-adapter/src/runtime.ts:1412-1415 | The activity mark is set only by a newer observation of the task's own mission in an active state |
| NpcObservation.RefreshVerdictNeedsMark | apps/npc-tank-provider-adapter/src/runtime.ts:1407-1438 | A device status ends a task only if the mark is set, the observation is newer and the task's own (in terms of the ids reported: `VerdictNamesOwnMission`), and then with the state it maps to |
| NpcObservation.NoVerdictWithoutActivity | apps/npc-tank-provider-adapter/src/runtime.ts:745-792 | Over every history of observations, missions, commands and baselines: a verdict has an earlier observation of activity under the same baseline, both of the task's own (`VerdictNamesOwnMission`), and for fire a mission known by then |
| NpcVerdicts.VerdictNamesOwnMission | apps/npc-tank-provider-adapter/src/runtime.ts:1542-1554 | Over every history: the observation that ends a task with missions names one of them, and so did the earlier observation of activity; reconnaissance alone may name none |
| NpcVerdicts.BelongsExactly | apps/npc-tank-provider-adapter/src/runtime.ts:1542-1554 | An observation is the task's own exactly if the task has no missions, if it names one of them, or if it names none and may |
| NpcVerdicts.ForeignReportKeepsState | apps/npc-tank-provider-adapter/src/runtime.ts:1402-1405 | A report that names another mission, or a malformed one, moves neither state nor progress |
| NpcVerdicts.OwnEndingEndsTask | apps/npc-tank-provider-adapter/src/runtime.ts:1421-1438 | A marked task whose own mission is newly reported in an ending state ends in that state, complete if it succeeded |
| NpcVerdicts.EndsOnlyWhenMarked | apps/npc-tank-provider-adapter/src/runtime.ts:1407-1438 | A task ends only if marked, on a newer readable observation, in the ending state reported, and fire only with a mission |
| NpcVerdicts.ClosedStays | apps/npc-tank-provider-adapter/src/runtime.ts:745-758 | A task that is over or waits for its confirmation is not touched |
| NpcVerdicts.TrackIsFollowed | apps/npc-tank-provider-adapter/src/runtime.ts:1412-1448 | An own newer report of a state that goes on is taken over with its progress, unless the task is stopping or resuming, and marks the task if it shows activity |
| NpcVerdicts.ReconIsFollowed | apps/npc-tank-provider-adapter/src/runtime.ts:1481-1529 | The same for reconnaissance, whose progress counts only if authoritative |
| NpcVerdicts.UnknownTrackIsUncertain | apps/npc-tank-provider-adapter/src/runtime.ts:1416-1419 | An own report of an unknown state leaves the task as it is, in doubt |
| NpcVerdicts.CameraFaultKeepsState | apps/npc-tank-provider-adapter/src/runtime.ts:1477-1480 | A camera fault leaves a reconnaissance as it is |
| NpcVerdicts.CursorChangesExactly | apps/npc-tank-provider-adapter/src/runtime.ts:1568-1594 | The cursor of a kind of task changes exactly with the news of the topics that kind listens to |
| NpcVerdicts.NothingNewNothingChanges | apps/npc-tank-provider-adapter/src/runtime.ts:1596-1613 | Without news since the baseline nothing changes |
| NpcVerdicts.LockDecides | apps/npc-tank-provider-adapter/src/runtime.ts:794-814 | A newer observation decides a target task: locked on its target it runs, and a running one without it fails |
| NpcVerdicts.MotionIsActivity | apps/npc-tank-provider-adapter/src/runtime.ts:1615-1617 | The statuses in which the vehicle moves are those that show a reconnaissance active, except READY |
| NpcVerdicts.StopSucceedsExactly | apps/npc-tank-provider-adapter/src/runtime.ts:815-832 | An emergency stop succeeds exactly on a newer observation of a vehicle at rest with every subsystem at rest |
| NpcObservation.MarkedTakesVerdict | apps/npc-tank-provider-adapter/src/runtime.ts:1421-1438 | A marked task takes the next own terminal status as its verdict |
| NpcObservation.ActivityThenTerminalIsVerdict | apps/npc-tank-provider-adapter/src/runtime.ts:1395-1530 | The converse: activity followed by an own terminal status is a verdict |
| NpcObservation.TablesAgree | packages/vehicle-provider-core/src/task-state-mapper.ts:36-102 | The state tables agree on every reconnaissance status, except that recovering and stopping are shown as running |
| PromiseLock.MutualExclusionInOrder | apps/home-assistant-climate-provider/src/execution.ts:514-529 | In every run two calls with one key never overlap, and a call runs only after all earlier ones of its key released |
| PromiseLock.FirstWaitingMayEnter | apps/npc-tank-provider-adapter/src/runtime.ts:1007-1014 | The first waiting call of a key may always enter once the calls before it were released, also when those threw |
| PromiseLock.EntryExactlyWhileInUse | apps/home-assistant-climate-provider/src/execution.ts:515-527 | The lock map has an entry for a key exactly while a call with that key runs or waits |
| PromiseLock.TaskLocks.Acquire | apps/home-assistant-climate-provider/src/execution.ts:515-521 | Chains the caller behind the tail of its key and makes it the tail |
| PromiseLock.TaskLocks.Start | apps/home-assistant-climate-provider/src/execution.ts:522-524 | The call that starts is the only one running with its key |
| PromiseLock.TaskLocks.Release | apps/home-assistant-climate-provider/src/execution.ts:525-527 | The map entry of the key survives exactly if a later call with the key arrived |
| ClimateStore.ValidEntityIsThePattern | apps/home-assistant-climate-provider/src/store.ts:180 | The left-to-right reading of an entity id accepts exactly the strings of the pattern |
| ClimateStore.JsonClimateStore.Get | apps/home-assistant-climate-provider/src/store.ts:41-43 | A document `valid` rejects cannot be read; otherwise the stored record or nothing is returned |
| ClimateStore.JsonClimateStore.Update | apps/home-assistant-climate-provider/src/store.ts:55-74 | The file becomes the updated document as a whole or stays as it was |
| ClimateStore.JsonClimateStore.Set | apps/home-assistant-climate-provider/src/store.ts:47-51 | One record is replaced, and a valid record keeps the document valid |
| ClimateEngine.DefaultPolicyAccepted | apps/home-assistant-climate-provider/src/execution.ts:60-73 | The derived policy passes validation exactly for time-outs of at least 2 ms |
| ClimateEngine.ObserveOk | apps/home-assistant-climate-provider/src/execution.ts:407-482 | An observation of a valid record yields a valid record, at most one revision later, with the dispatch fields untouched |
| ClimateEngine.StartStepOk | apps/home-assistant-climate-provider/src/execution.ts:80-154 | Starting writes a valid record, visible before its dispatch begins, or nothing, and calls nothing; what the record holds is stated by `StartAdmitsExactly` |
| ClimateEngine.MarkIntentOk | apps/home-assistant-climate-provider/src/execution.ts:292-335 | The atomic update leaves a valid record: marked with its intent, failed by the guard, or as it was |
| ClimateEngine.DispatchStepOk | apps/home-assistant-climate-provider/src/execution.ts:260-374 | Each stretch of a dispatch keeps the record valid and calls the service only for a record with a persisted intent |
| ClimateEngine.PollStepOk | apps/home-assistant-climate-provider/src/execution.ts:206-243 | Each stretch of a poll or an observation keeps the record valid and issues no call |
| ClimateEngine.RecoverStepOk | apps/home-assistant-climate-provider/src/execution.ts:156-200 | Each stretch of a recovery iteration keeps the record valid and issues no call itself |
| ClimateEngine.TaskStepOk | apps/home-assistant-climate-provider/src/execution.ts:80-482 | All of these: valid records that never regress, one call per task at most, and only behind its intent |
| ClimateEngine.UndisturbedDispatch | apps/home-assistant-climate-provider/src/execution.ts:245-374 | Undisturbed: intent persisted, then the service for the desired state called, then CONFIRMING with CALL_RETURNED, two revisions later |
| ClimateEngine.BlockedDispatch | apps/home-assistant-climate-provider/src/execution.ts:300-315 | An opposite power intent inside the interval fails the task without intent, call or change of the guard |
| ClimateDecisions.StartLockedExactly | apps/home-assistant-climate-provider/src/execution.ts:80-92 | A start goes on exactly for a new task, live, with open gates, on an enabled resource; a known task is returned, or refused for another identity |
| ClimateDecisions.StartAdmitsExactly | apps/home-assistant-climate-provider/src/execution.ts:93-154 | A start admits a record exactly if the device can take what it asks for, and the record holds just that: operation, resource, entity, context, desired value, deadline and policy |
| ClimateDecisions.PossibleExactly | apps/home-assistant-climate-provider/src/execution.ts:376-395 | Which modes and temperatures are possible, and which need the gate for power |
| ClimateDecisions.BlockedExactly | apps/home-assistant-climate-provider/src/execution.ts:300-335 | The guard blocks exactly an opposite intent within 300000 ms of the last one; any other is written with its guard |
| ClimateDecisions.AdvanceExactly | apps/home-assistant-climate-provider/src/execution.ts:622-631 | Only state, revision and time change, and nothing of a record that is over |
| ClimateDecisions.FailedCallConfirms | apps/home-assistant-climate-provider/src/execution.ts:358-365 | A call that throws leaves the task confirming, with no more than the intent recorded |
| ClimateDecisions.ShownIsNotCalled | apps/home-assistant-climate-provider/src/execution.ts:274-288 | A device that already shows the desired state is not called but observed |
| ClimateDecisions.ObservationIgnoredExactly | apps/home-assistant-climate-provider/src/execution.ts:408-433 | An observation leaves a record alone exactly if the task does not confirm, is not served, is another resource's, or if it is older than the dispatch or the last report |
| ClimateDecisions.ObservationTakenExactly | apps/home-assistant-climate-provider/src/execution.ts:419-481 | A taken observation is what the record remembers, starts or resets its window, and expires the task exactly at or after the deadline |
| ClimateDecisions.AcceptsExactly | apps/home-assistant-climate-provider/src/execution.ts:408-435 | Which observations are accepted, and which match: reachable, and showing the power, the mode, or the temperature within 0.1 |
| ClimateDecisions.PollObserves | apps/home-assistant-climate-provider/src/execution.ts:206-227 | A poll that nothing disturbs takes what the device reports as an observation of its task |
| ClimateDecisions.PollFailsUnserved | apps/home-assistant-climate-provider/src/execution.ts:213-217 | A poll fails a confirming task whose resource is no longer served, for that reason before the deadline |
| ClimateDecisions.LockedObservationObserves | apps/home-assistant-climate-provider/src/execution.ts:240-242 | An observation under the lock of its task is taken at once |
| ClimateDecisions.StoreFailureEnds | apps/home-assistant-climate-provider/src/execution.ts:218-231 | A store that throws ends an operation without a trace; only a poll goes on to look at the deadline |
| ClimateDecisions.RecoveryDecides | apps/home-assistant-climate-provider/src/execution.ts:156-200 | What recovery does with a record, by its fields: nothing, fail, dispatch, poll, or confirm |
| ClimateDecisions.RecoveryFailsFor | apps/home-assistant-climate-provider/src/execution.ts:159-197 | The reason a record fails for in recovery, the first that applies |
| ClimateDecisions.RecoveryPolls | apps/home-assistant-climate-provider/src/execution.ts:397-405 | Recovery of a task that may have had its effect goes on with a poll |
| ClimateDecisions.ValidExactly | apps/home-assistant-climate-provider/src/store.ts:127-245 | What the validator accepts of an execution, field by field |
| ClimateServices.ServiceBringsDesired | apps/home-assistant-climate-provider/src/execution.ts:347-357 | The service called for a desired state is the one after which a device shows it, for a device that obeys services as the function TextAfter assumes, which the source does not state |
| ClimateServices.GuardSeesSwitchExactly | apps/home-assistant-climate-provider/src/execution.ts:532-539 | Under the same assumption about the device, the power intent is the power the service switches it to, if any, exactly unless mode `off` is set on a device that is on |
| ClimateConfirmation.MatchingSuffixIsLongest | apps/home-assistant-climate-provider/src/execution.ts:435-467 | The reference: a suffix of the history, all of it matching, that cannot be extended to the left |
| ClimateConfirmation.ObserveRefines | apps/home-assistant-climate-provider/src/execution.ts:407-482 | One accepted observation keeps the stored window equal to the reference, and succeeds exactly if the reference now meets the policy |
| ClimateConfirmation.UnacceptedChangesNothing | apps/home-assistant-climate-provider/src/execution.ts:409-433 | Any other observation changes nothing, except that a passed deadline fails the task; one of the own, served resource before the deadline is then older than the dispatch or the last report |
| ClimateConfirmation.ConfirmationIsTheWindow | apps/home-assistant-climate-provider/src/execution.ts:407-482 | Over every history of accepted observations the window is the longest matching suffix, and success comes exactly when it first meets the frozen policy |
| ClimateRuns.GuardAfterStep | apps/home-assistant-climate-provider/src/execution.ts:300-321 | The guard changes only with a persisted power intent, records it, and was not blocking it |
| ClimateRuns.NextIsSound | apps/home-assistant-climate-provider/src/execution.ts:156-374 | Every move of the whole system keeps records valid, calls behind their records and records from regressing |
| ClimateRuns.StoreStaysValid | apps/home-assistant-climate-provider/src/store.ts:94-266 | Every document written in a run that started from one `valid` accepts is accepted, at every point where a process may crash or a store call throw |
| ClimateRuns.CalledAtMostOnceAndRecorded | apps/home-assistant-climate-provider/src/execution.ts:245-374 | In every interleaving with crashes and recoveries a task's service is called at most once, and once called the durable record says so |
| ClimateRuns.NoCallIsRepeated | apps/home-assistant-climate-provider/src/execution.ts:156-200 | Once the record says the side effect may have happened and nothing works on the task, no continuation, recovery and repeated start included, calls the service for it |
| ClimateRuns.CallIsTimelyAndFaithful | apps/home-assistant-climate-provider/src/execution.ts:341-359 | In every run a service is called before the deadline, for the stored entity and desired state |
| ClimateRequests.NewTasksWereAskedFor | apps/home-assistant-climate-provider/src/execution.ts:80-154 | A record created in a run is one a start of the run asked for, and stays so |
| ClimateRequests.CalledAsAsked | apps/home-assistant-climate-provider/src/execution.ts:347-359 | In every run the service called for a task admitted in it is the one its start asked for, `turn_on` exactly for power on, and likewise for the others, on the entity its resource stood for |
| ClimateRequests.CallsOnlyBehindOpenGates | apps/home-assistant-climate-provider/src/execution.ts:251-288 | In every run a service is called only with open gates, for a live task on a resource that is served, after the device reported itself reachable and not yet as desired |
| ClimateRequests.CallsAreWithinBounds | apps/home-assistant-climate-provider/src/execution.ts:376-395 | In every run a temperature set lies within the bounds of resource and device, and a mode set is allowed and offered |
| ClimateRequests.LastReportNeverFalls | apps/home-assistant-climate-provider/src/execution.ts:424-433 | Between any two points of a run the last report of a confirming task is not replaced by an older one |
| ClimateRequests.SuccessShowsDesired | apps/home-assistant-climate-provider/src/execution.ts:435-478 | In every run a task has succeeded only with a confirmed state of its resource that shows the desired one |
| ClimateRuns.RecordsNeverRegress | apps/home-assistant-climate-provider/src/execution.ts:622-631 | Between any two points of a run revisions never fall and terminal records never change |
| ClimateRuns.OppositePowerIsSpaced | apps/home-assistant-climate-provider/src/execution.ts:292-335 | Any two persisted power intents of opposite direction, adjacent or not, across tasks and restarts, are at least 300000 ms apart |
| ClimateRuns.ConfirmedExactlyByTheWindow | apps/home-assistant-climate-provider/src/execution.ts:407-482 | The confirmation result for every task admitted in a run of the whole system, at every moment and across restarts |
| ClimateRuns.RecoveryLeavesNothingPending | apps/home-assistant-climate-provider/src/execution.ts:156-200 | When recovery returns normally and serving starts, no execution is left in PENDING_SIDE_EFFECT |
| ClimateRuns.ExpiredPollIsTerminal | apps/home-assistant-climate-provider/src/execution.ts:209-231 | A poll step that looks at the clock at or after the deadline ends a confirming task with a time-out |
| ClimateRuns.LatePollEndsTask | apps/home-assistant-climate-provider/src/execution.ts:202-232 | Over every run: a poll begun at or after the deadline of a confirming task leaves the task terminal from its first step on, whatever interleaves, unless the process dies or the store throws |
| ClimateRuns.FinishedPollChecksDeadline | apps/home-assistant-climate-provider/src/execution.ts:206-232 | Every poll of a run that ends leaves its task confirming only if its last look at the clock was before the deadline |
| ClimateProvider.ClimateExecutionEngine.Fail | apps/home-assistant-climate-provider/src/execution.ts:488-499 | The stored record of the task fails, or the given one if none is stored, unless it is terminal; nothing else changes |
| ClimateProvider.ClimateExecutionEngine.ApplyObservation | apps/home-assistant-climate-provider/src/execution.ts:407-482 | The method with its early returns equals the function the confirmation proofs are about, for one task and no other, and leaves the record alone exactly in the cases spelled out by the stored stamps |
| ClimateProvider.ClimateExecutionEngine.ObserveAll | apps/home-assistant-climate-provider/src/execution.ts:234-243 | An observation reaches every task on its resource once and no other task |
| ClimateProvider.ClimateExecutionEngine.WriteIntent | apps/home-assistant-climate-provider/src/execution.ts:292-335 | Intent and guard are written together or not at all |
| ClimateProvider.ObservedDocumentIsValid | apps/home-assistant-climate-provider/src/store.ts:94-211 | `valid` accepts the document that an observation of all tasks leaves |
| TelemetryOutbox.Victim | apps/home-assistant-climate-provider/src/telemetry.ts:140-144 | The event given up is the oldest metric, or the oldest event if there is no metric |
| TelemetryOutbox.BackoffGrowsToCap | apps/home-assistant-climate-provider/src/telemetry.ts:173 | Waits at least double with each attempt until the cap of 30 s, reached exactly from the sixth attempt on |
| TelemetryOutbox.CoalescedKeeps | apps/home-assistant-climate-provider/src/telemetry.ts:129-137 | Exactly the older readings of the same metric leave the queue |
| TelemetryOutbox.SupersededExactly | apps/home-assistant-climate-provider/src/telemetry.ts:129-137 | In every run an enqueue supersedes exactly the queued readings of the same metric of the same resource |
| TelemetryOutbox.NewEventIsDue | apps/home-assistant-climate-provider/src/telemetry.ts:128-138 | A new event carries the next number, stands last, and is due at once |
| TelemetryOutbox.TrimmedKeeps | apps/home-assistant-climate-provider/src/telemetry.ts:139-145 | At most 1000 events remain, in order, and an event other than a metric is given up only if no metric remains |
| TelemetryOutbox.AcknowledgedKeeps | apps/home-assistant-climate-provider/src/telemetry.ts:162-167 | Exactly the events with an accepted id leave the queue |
| TelemetryOutbox.RetriedKeeps | apps/home-assistant-climate-provider/src/telemetry.ts:168-177 | A failed flush keeps every event, its order and its number |
| TelemetryOutbox.RetriedExactly | apps/home-assistant-climate-provider/src/telemetry.ts:168-177 | A failure postpones exactly the events of its batch, by 1, 2, 4, 8, 16 and then 30 s after each one's own clock reading |
| TelemetryOutbox.NextConserves | apps/home-assistant-climate-provider/src/telemetry.ts:126-178 | One enqueue, flush start, delivery or failure keeps the conservation invariant |
| TelemetryOutbox.OutboxConserves | apps/home-assistant-climate-provider/src/telemetry.ts:126-178 | With enqueues interleaved into flushes, every number issued is in exactly one of queued, acknowledged, superseded and evicted; the queue is ordered, bounded and holds one reading per metric |
| TelemetryOutbox.MetricsAreEvictedFirst | apps/home-assistant-climate-provider/src/telemetry.ts:139-145 | In every run an enqueue evicts an event other than a metric only when the queue is left without metrics |
| TelemetryOutbox.AtMostOneEvicted | apps/home-assistant-climate-provider/src/telemetry.ts:138-145 | An enqueue evicts one event at most, the victim of the queue that grew too long |
| TelemetryOutbox.NewestStaysUnless | apps/home-assistant-climate-provider/src/telemetry.ts:138-145 | In every run the new event is queued, exactly unless it is the only metric behind a full queue of other events |
| TelemetryOutbox.BatchIsOldestDue | apps/home-assistant-climate-provider/src/telemetry.ts:150-153 | A batch holds due events only and passes over a due event only for a hundred older ones |
| TelemetryOutbox.FailedEventsWait | apps/home-assistant-climate-provider/src/telemetry.ts:152-173 | Over every run with a clock that does not run backwards, an event of a failed batch is in no later batch before its back-off has passed, whatever was enqueued, delivered or failed in between |
| TelemetryOutbox.Outbox.Enqueue | apps/home-assistant-climate-provider/src/telemetry.ts:126-147 | The update of the stored queue and counter is the specified coalescing, numbering and trimming |
| TelemetryOutbox.Outbox.FindVictim | apps/home-assistant-climate-provider/src/telemetry.ts:141-143 | The search finds the specified victim |
| TelemetryOutbox.Outbox.BeginFlush | apps/home-assistant-climate-provider/src/telemetry.ts:150-154 | The batch is the first hundred of the events that are due |
| TelemetryOutbox.Outbox.Settle | apps/home-assistant-climate-provider/src/telemetry.ts:162-167 | The accepted ids leave the queue as it is when the answer arrives |
| TelemetryOutbox.Outbox.Retry | apps/home-assistant-climate-provider/src/telemetry.ts:168-177 | Exactly the events of the failed batch are postponed by the back-off, each from its own reading of the clock |
| Canonical.EscapedReadsBack | apps/home-assistant-climate-provider/src/telemetry.ts:230-232 | A quoted property name or string, lone surrogates and control characters included, can be read back whatever follows it |
| Canonical.EscapeExactly | apps/home-assistant-climate-provider/src/telemetry.ts:230-232 | Which units are escaped, and how: short forms, four lower-case digits for other controls and lone surrogates, and no other |
| Canonical.LessExactly | apps/home-assistant-climate-provider/src/telemetry.ts:229 | Keys are ordered by the first code unit that differs, a prefix first |
| Canonical.SortedIsCanonical | apps/home-assistant-climate-provider/src/telemetry.ts:228-229 | Two lists of keys sort to the same list exactly when they hold the same keys |
| Canonical.SameLinesSameObject | apps/home-assistant-climate-provider/src/telemetry.ts:227-231 | Two objects say the same exactly when their sorted properties agree one by one |
| Canonical.PrintsSeparate | apps/home-assistant-climate-provider/src/telemetry.ts:225-233 | A printed tree can be told apart from whatever delimiter follows it: none is a prefix of another |
| Canonical.CanonicalIsInjective | apps/home-assistant-climate-provider/src/telemetry.ts:225-233 | Two JSON trees print the same if and only if they say the same, whatever the order of their properties |
| Canonical.CanonicalIsOneLine | apps/home-assistant-climate-provider/src/telemetry.ts:225-233 | The printer writes no newline |
| Canonical.OneLineFieldsIdentify | apps/home-assistant-climate-provider/src/telemetry.ts:220-224 | An event with one-line fields shares its pre-image with another event exactly if all five components agree |
| Canonical.NewlineMakesTwin | apps/home-assistant-climate-provider/src/telemetry.ts:220-224 | An event with a newline in a field has a different event with the same pre-image |
| Canonical.PreimageIdentifiesExactlyOneLineFields | apps/home-assistant-climate-provider/src/telemetry.ts:220-224 | The pre-image identifies an event if and only if its four text fields have no newline |
| Canonical.OneLineNamesIdentify | apps/home-assistant-climate-provider/src/telemetry.ts:220-224 | Among events whose provider, entity and type are on one line, the pre-image identifies all five components, whatever the time field contains |
| SideEffectBudget.FreshGrantFits | scripts/real-device-side-effect-budget.ts:79-102 | A fresh grant writes a document `validDocument` accepts, within both limits, and returns that document's counts |
| SideEffectBudget.RecordedCounts | scripts/real-device-side-effect-budget.ts:84-100 | Recording raises the count of its own run and of its own scope, resource and kind by one, and no other count |
| SideEffectBudget.RetryIsRepeat | scripts/real-device-side-effect-budget.ts:69-78 | Asking again for a granted reservation repeats its counts and writes nothing |
| SideEffectBudget.KnownIdDecides | scripts/real-device-side-effect-budget.ts:69-78 | A known id is repeated exactly for the scope, resource and kind it was recorded with, with the counts of the document, and refused for any other |
| SideEffectBudget.NewIdDecides | scripts/real-device-side-effect-budget.ts:79-102 | A new id is refused for the limit of the run, then for its own, then for the clock, and granted otherwise |
| SideEffectBudget.UnfitIsRefusedExactly | scripts/real-device-side-effect-budget.ts:62-68 | A document is refused exactly if it is not a valid one, a run exactly if it was begun with another limit |
| SideEffectBudget.GrantRecordsRequest | scripts/real-device-side-effect-budget.ts:84-100 | A grant records exactly the request, under its own id and run |
| SideEffectBudget.WithKeyCounts | scripts/real-device-side-effect-budget.ts:130-137 | What is counted for a request: the reservations of its run with its scope, resource and kind |
| SideEffectBudget.ValidRequestExactly | scripts/real-device-side-effect-budget.ts:147-160 | Which requests are valid |
| SideEffectBudget.ValidDocumentExactly | scripts/real-device-side-effect-budget.ts:162-187 | Which documents are valid |
| SideEffectBudget.FreshExtends | scripts/real-device-side-effect-budget.ts:91-100 | Nothing recorded is lost or changed by a grant |
| SideEffectBudget.ReplayKeeps | scripts/real-device-side-effect-budget.ts:91-101 | Over a history of grants the document stays valid, and each run grows by exactly its grants |
| SideEffectBudget.GlobalBound | scripts/real-device-side-effect-budget.ts:80-82 | The grants of a run, with what it held before, never exceed the global limit each of them named |
| SideEffectBudget.GrantFoundFewer | scripts/real-device-side-effect-budget.ts:79-83 | Each grant found fewer reservations of its run, scope, resource and kind than its own limit |
| SideEffectBudget.KeyBound | scripts/real-device-side-effect-budget.ts:79-83 | If all requests for a scope, resource and kind carry at most the limit L, at most L are granted |
| SideEffectBudget.GrantsAreDistinct | scripts/real-device-side-effect-budget.ts:69-78 | No reservation is granted twice |
| BudgetProcesses.FileGrows | scripts/real-device-side-effect-budget.ts:91-101 | Renaming a fresh document into place extends the sequential history by one grant |
| BudgetProcesses.LockExcludes | scripts/real-device-side-effect-budget.ts:54-106 | At any time at most one process is between creating and removing the lock file |
| BudgetProcesses.BudgetIsSequential | scripts/real-device-side-effect-budget.ts:48-128 | Whatever processes, failures and crashes, the document is the original with the grants recorded one after the other; one `validDocument` rejects is never touched |
| BudgetProcesses.ReportedWithinGlobalLimit | scripts/real-device-side-effect-budget.ts:79-102 | The fresh successes reported for a run never exceed its global limit, and each was granted |
| BudgetProcesses.EachGrantWithinItsLimit | scripts/real-device-side-effect-budget.ts:69-83 | With concurrent processes and crashes each grant found fewer than its own limit, and none repeats another |
| BudgetProcesses.AnswersMatchDocument | scripts/real-device-side-effect-budget.ts:69-102 | Over all runs: whenever a call is about to return a grant, the document holds a reservation under its id with exactly its scope, resource and kind, and the counts returned are those of the document |
| BudgetProcesses.RepeatsAddNothing | scripts/real-device-side-effect-budget.ts:69-78 | A recorded reservation is never granted again in any continuation |
| BudgetProcesses.StepsAreOneCall | scripts/real-device-side-effect-budget.ts:48-107 | The steps of a process that nothing interrupts come to the same file, log and answer as one call |
| BudgetProcesses.BudgetFile.Reserve | scripts/real-device-side-effect-budget.ts:48-107 | One call alone, with any file operation throwing: what is returned, what the file becomes, that a known id for anything else is refused, and that the lock file is gone again unless it cannot be removed |
| BudgetProcesses.BudgetFile.ReserveLocked | scripts/real-device-side-effect-budget.ts:62-102 | The order of the checks under the lock gives the specified answer and file, also if the read or the write throws; a known id for anything else is refused |
| SseReader.EndOf | scripts/task-business/read-only-probe.ts:613 | The first blank line of a text, or none |
| SseReader.NormalisedTwice | scripts/task-business/read-only-probe.ts:610-611 | Normalising what has arrived before appending the next chunk changes nothing, for a text without CR CR LF |
| SseReader.SplitRejoins | scripts/task-business/read-only-probe.ts:613-616 | Frames and leftover, put together again, are the text |
| SseReader.OneMoreChunk | scripts/task-business/read-only-probe.ts:610-616 | Taking frames off before the next chunk arrives gives the frames of the whole |
| SseReader.ChunksDoNotMatterExactly | scripts/task-business/read-only-probe.ts:604-625 | Size checks aside, the state reached depends only on the stream and not on its chunks, if and only if it has no CR CR LF |
| SseReader.FramesDoNotMatterExactly | scripts/task-business/read-only-probe.ts:604-625 | For a stream that ends with a complete frame, its frames depend only on the stream if and only if it has no CR CR LF |
| SseReader.MessagesDependOnChunks | scripts/task-business/read-only-probe.ts:610-622 | Two messages with LF CR CR LF between them are read as two or as one, depending on where a chunk ends |
| SseReader.FedAllIsWhole | scripts/task-business/read-only-probe.ts:604-625 | With the size checks: any chunks of such a stream give the frames of the whole, if those and the leftover keep two units below the limit |
| SseReader.FedAllIsWholeExactly | scripts/task-business/read-only-probe.ts:604-625 | With the size checks: all chunkings of such a stream give the frames of the whole if and only if its frames, and what is left over at every moment of its arrival, are within the limit |
| SseReader.MessagesReadBack | scripts/task-business/read-only-probe.ts:604-625 | Messages written as data frames come back in order and complete, however the stream is cut |
| SseFields.FrameSaysItsData | scripts/task-business/read-only-probe.ts:617-622 | A frame of any fields says the values of its data fields, joined line by line |
| SseFields.MessageOfEach | scripts/task-business/read-only-probe.ts:622 | Frames without data are passed over, the others are handed on in order |
| SseFields.WhiteExactly | scripts/task-business/read-only-probe.ts:620 | What is trimmed: the white space and line terminators of ECMAScript |
| SseReader.SseMessages | scripts/task-business/read-only-probe.ts:590-640 | The two nested loops yield the messages of the specified reader, and fail exactly when it finds a frame or leftover too large |
| ChunkReader.SnapshotReadExactlyWhenServed | scripts/task-business/read-only-probe.ts:135-190 | Whatever the server answers, a read succeeds exactly when the object was handed out in order, without gap or overlap, in legal parts of the declared size that name its digest, and is JSON |
| ChunkReader.ReassemblyUndoesSlicing | scripts/task-business/read-only-probe.ts:135-190 | A server that slices an object with any legal lengths gives that object |
| ChunkReader.ReadSnapshotDescriptor | scripts/task-business/read-only-probe.ts:135-190 | The loop terminates for every server and returns the specified result or the specified failure |
| ChunkReader.SnapshotFailsExactly | scripts/task-business/read-only-probe.ts:140-189 | Which failure a read ends with: the size before anything is asked, the digest exactly when all parts came and named another, the JSON exactly when all came and are none |
| ChunkReader.Judge | scripts/task-business/read-only-probe.ts:345-414 | An accepted chunk stays within the referenced size, brings something unless it is the last, and keeps the reference |
| ChunkReader.RefusalExactly | scripts/task-business/read-only-probe.ts:345-395 | Why an answer is refused: for identity or revision, for another reference, or for missing content |
| ChunkReader.ArtifactDescribedExactly | scripts/task-business/read-only-probe.ts:366-378 | An artifact is described without content exactly when the first answer describes the one asked for, has its content elsewhere, and brings none |
| ChunkReader.ArtifactReadExactlyWhenServed | scripts/task-business/read-only-probe.ts:322-433 | Content is delivered exactly when all answers describe one revision and one reference, and their chunks are consecutive slices of content of the size and digest it names |
| ChunkReader.ArtifactReassemblyUndoesSlicing | scripts/task-business/read-only-probe.ts:322-433 | A server that slices content with any legal lengths, the empty content included, has it delivered |
| ChunkReader.ReadArtifact | scripts/task-business/read-only-probe.ts:322-433 | The loop terminates for every server and returns the specified report or the specified failure |

## Left out

- FireRecovery.Store.RecoverTask: runs while nothing else touches the store, between the two times it reads the fence included.
- FireRecovery.Store.Recover: runs while nothing else touches the store; what holds against other processes is stated over the runs of `FireFence` (`RecoveryGoesOnOnlyPastNotArmed`, `FireAndStandDownExclude`). It covers the fire tasks; for the other operations the same loop only restores the track arbiter and refreshes.
- ClimateProvider.ClimateExecutionEngine.ObserveAll: runs its iterations without anything in between, unlike `ClimateRuns`, where other steps interleave.
- SideEffectBudget.FreshGrantFits: a granted request passed `validateRequest`; limits are integers in the model, so the refusal of fractional ones does not appear.
- TelemetryOutbox.Outbox.BeginFlush: reads the clock once for a batch, where the source reads it for each event.
- Device control commands other than cancelling a fire task: pause, resume and cancel send device calls and are not restricted to tasks that are still active. The history of `NpcObservation` admits any command at any time.
- Track arbiter, operation tracks, device call planners, mission id parsing, and the emission of events and telemetry of the NPC adapter: not part of this model. Observed mission ids are canonical texts or malformed.
- Time stamps as text, the rendering of snapshots, results and evidence, and the fields that only feed them (`failureRetryable`, `externalExecutionId`, `argumentHash`, `commandAcks`): instants are integers, and the identity of a start request is one value.
- Command acknowledgements the climate server writes outside the task lock, the HTTP, WebSocket, MQTT and gRPC plumbing, and the light provider.
- The shape and type checks in `valid`, `validDocument` and the artifact schema: the model is typed, and a value of the wrong shape is one "unreadable" or "malformed" case. Temperatures are real numbers.
- ClimateServices.ServiceBringsDesired: what a service does to a device, and which state text the device reports then, is an assumption of this model (`TextAfter`) and not taken from the source.
- ClimateServices.GuardSeesSwitchExactly: rests on the same assumption.
- SHA-256, UUIDs, base64 and UTF-8: digests are a parameter, event identity is stated about pre-images, and text that is not canonical base64 is one case.
- Values JSON cannot hold (`undefined`, functions) in canonical printing, and property names every JavaScript object inherits in the budget document.
- Which results count as accepted in the telemetry receiver's answer: the set of accepted ids is arbitrary.
- The reducer, cursors, retries and deadline of the task-business probe, and `JSON.parse` of messages: a message is the text handed to it.
- Tearing of the climate document by several processes: one process owns it.
