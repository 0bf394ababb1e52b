# Verified models of reclient's concurrent core

reclient runs build actions remotely. Its long-lived proxy, `reproxy`, decides for every action whether to take a
cached result, execute remotely, execute locally or race the two; it also starts up asynchronously, protects the
machine it runs on, logs what it did and reports it. This project models the parts of it whose correctness depends on
every interleaving or on every input, and proves what they promise.

Protocols are state machines. A module has a `State`, a `Step` for each atomic action of each goroutine (environment
decisions are arguments of the step), `Enabled` and `Apply`, and `Run`, which gives the state after a trace of steps.
An inductive invariant is proved step by step (`...KeepsInv`), and the properties are stated about the end of any run,
where it matters in terms of the steps that were taken and the answers of the environment that they carry.
Where the source updates fields, a class has the same fields, and its methods are proved equal to the functions the
state machine is made of; only `WindowedCount.Counter` and `LocalResources.Manager` have contracts of their own,
beside their state machines. Progress is stated in two parts: whatever is unfinished has an enabled step, and a measure
bounds the length of every run.

Algorithms are methods with the loops of the source, proved against functions or predicates, about which the actual
properties are then proved.

| file | subject |
|---|---|
| `Race.dfy`, `RaceOutcome.dfy` | the race between remote and local execution of one action, and what it leaves behind |
| `SingleFlight.dfy` | compiler-info lookup with waiter lists in the goma include processor |
| `Startup.dfy` | asynchronous startup, the `started` gate, ownership of cleanup functions, drain |
| `FailBuild.dfy` | the fail-early flag and the sweep over active actions |
| `WindowedCount.dfy` | windowed counters, and fallbacks against actions |
| `LocalResources.dfy` | the two-stage CPU and RAM lock and the local pool that uses it |
| `LoggerLoop.dfy` | the logger's event loop and its open/close handshake |
| `Batching.dfy` | size-bounded batching, uploads with retry, upload counters |
| `Forecast.dfy` | the ring of latency samples and its percentiles |
| `Truncate.dfy` | cutting a response down to a byte budget |
| `TraceLanes.dfy` | first-fit lanes for trace intervals |
| `Compare.dfy`, `CompareMeaning.dfy`, `IgnoreMismatch.dfy` | comparison of reruns, what the report says of them, and rules that ignore mismatches |
| `DepsFile.dfy` | the `.deps` file printer and verifier |
| `Wrappers.dfy`, `GoInts.dfy`, `Sums.dfy`, `Lists.dfy`, `Strings.dfy` | options and traces, 32-bit integers, sums, duplicate-free lists, the order of strings |

## Where the code does not do what one might expect

Each of these is a lemma with a concrete run or input, beside one that says exactly when the expected property holds.

- A remote success can be discarded although the local side has no exit code: a local process that cannot be started
  and reports first hides it (`RaceOutcome.BrokenLocalHidesRemoteSuccess`), because a `canceled` winner is only ever replaced
  by a `local` message, although the comment in `race` says that it then waits for the real winner. A remote success is
  used exactly when the local side has no exit code and the remote message came first
  (`RaceOutcome.RemoteSuccessIsUsedExactly`).
- Once the caller's context has ended, `race` can return without any result, so the branch "racing did not produce a
  result" in the server is reachable (`RaceOutcome.ParentEndCanLeaveNoResult`, exactly when: `Race.NoResultExactly`), and a
  remote side that was only told to stop can be counted as a fallback (`RaceOutcome.StoppedRemoteCanCountAsFallback`, exactly
  when: `RaceOutcome.FallbackInAnyContext`).
- A command that got its go-ahead but has not registered when drain waits for the commands in flight is not waited
  for, so its work can meet cleanup (`Startup.LateCommandMeetsCleanup`). Cleanup is undisturbed by commands exactly
  when none registers that late (`Startup.UndisturbedExactly`).
- An action that registers while a sweep is under way may be missed by it (`FailBuild.UnregisteredIsNotCancelled`). A
  sweep is sure to catch an action exactly when the action was not still on its way to the table as the flag was set
  (`FailBuild.SweepCatchesExactly`); the others are stopped by the flag instead (`FailBuild.NoActionEscapes`).
- `percentile(100)` passes the argument check and then indexes past the end, and no other percentile does
  (`Forecast.OutOfRangeExactly`).
- A path with a colon after its first character is written to a `.deps` file that never verifies, and nothing else
  keeps a fresh file from verifying (`DepsFile.RoundTripExactly`). A file that is gone is accepted when the digest the
  store holds for the missing path is the recorded one, because the digest is compared without looking at the error
  (`DepsFile.GoneFileCanBeAccepted`, exactly when: `DepsFile.AcceptedExactly`). The comment on `GetDeps` says that `NA`
  stands for any failure to get a digest; the code writes it only for files that were not found and writes no line for
  other errors, and the model follows the code.
- A record that ends more than an instant before it starts can make records overlap in a lane
  (`TraceLanes.BackwardRecordBreaksLane`). A record is drawn soundly in every log of otherwise forward records exactly
  when it ends no earlier than the instant in front of its start (`TraceLanes.SoundExactly`).
- Two records out of start order can waste a lane (`TraceLanes.OrderMattersForLanes`). Whenever the records end, first
  fit has at no point of the log opened more lanes than necessary, exactly when the records come in start order
  (`TraceLanes.MinimalExactly`).

## Model

| member | source | states |
|---|---|---|
| Race.RunKeepsInv | internal/pkg/reproxy/action.go:290-373 | In every interleaving of the caller, the remote side, its hold-off timer and the local side: who has sent what, who may cancel, what the winner is and what the action's fields hold. |
| Race.MoveIsExclusive | internal/pkg/reproxy/action.go:327-353 | Once the remote outputs are being moved into the exec root, the local side has sent its only message, that message is not a local result, and no local step is possible any more; so no local run that ended with an exit code is ever overwritten. |
| Race.LocalExitIsFinal | internal/pkg/reproxy/action.go:477-517 | While the caller's context lives, the final result is a local exit code exactly when a local run ended with that code, whatever the remote side did, and then the local output is used and nothing is moved. |
| Race.NoResultExactly | internal/pkg/reproxy/action.go:309-373 | The race ends without a result exactly when it settled on a cancelled message that carries none, which takes the end of the caller's context. |
| RaceOutcome.ParentEndCanLeaveNoResult | internal/pkg/reproxy/server.go:895-898 | Such a run exists, so the "racing did not produce a result" branch can be taken. |
| RaceOutcome.FallbackExactly | internal/pkg/reproxy/action.go:327-346 | While the caller's context lives, one fallback is counted exactly when a step of the remote side failed, that side was the first to send, and the local process ended with an exit code; otherwise none is. |
| RaceOutcome.StoppedRemoteCanCountAsFallback | internal/pkg/reproxy/action.go:412-417 | Once the caller's context has ended, a fallback can be counted although no step of the remote side failed. |
| Race.FallbackAtMostOnce | internal/pkg/reproxy/action.go:332-335 | In any run, one race adds at most one fallback. |
| RaceOutcome.FallbackInAnyContext | internal/pkg/reproxy/action.go:327-346 | Whatever the contexts do, a race that has returned has counted one fallback exactly when it did not leave early, the remote side was the first to send and had no success, and the local process ended with an exit code. |
| Race.SendersNeverBlock | internal/pkg/reproxy/action.go:290-308 | The start signal is closed at most once in any run, and exactly once on every path of the remote side, by it or by the timer it left behind; and a side that is ready to report finds room in the two-slot channel. |
| Race.NeverStuck | internal/pkg/reproxy/action.go:290-346 | A race that is not over has an enabled step that does not depend on the caller's context ending; in particular both receives are served. |
| Race.StepDescends | internal/pkg/reproxy/action.go:290-373 | Every step of a reachable race lowers a rank. |
| Race.RunsAreBounded | internal/pkg/reproxy/action.go:290-373 | No run of a race is longer than 21 steps. |
| Race.RacingAction.Decide | internal/pkg/reproxy/action.go:309-373 | The choice of the winner and the assignments to the action, as a function of the two messages received, and when the child context is cancelled. |
| Race.RaceRefinesDecide | internal/pkg/reproxy/action.go:290-373 | In every run that ends while the caller's context lives, the concurrent race leaves in the action what that sequential choice yields for the messages in their order of arrival. |
| RaceOutcome.BrokenLocalHidesRemoteSuccess | internal/pkg/reproxy/action.go:502-505 | A run in which a successful download is discarded for a local error, with the caller's context alive. |
| RaceOutcome.RemoteSuccessIsUsedExactly | internal/pkg/reproxy/action.go:327-372 | While the caller's context lives, a successful download is published, or fails only in being moved, exactly when no local process ended with an exit code and the remote side was the first to send. |
| RaceOutcome.OutcomeExactly | internal/pkg/reproxy/action.go:309-373 | By the steps alone: what a race leaves as result and output is the exit code of a local process that had one, else the remote result if a complete download was reported first, else what was reported first; and it leaves some result. |
| RaceOutcome.MovedExactly | internal/pkg/reproxy/action.go:348-363 | Outputs are moved into the exec root exactly when a download succeeded, the remote side was the first to send, and no local process ended with an exit code. |
| RaceOutcome.StopSentExactly | internal/pkg/reproxy/action.go:311-319 | The other side is told to stop exactly when the first report is a result. |
| RaceOutcome.LeavingExactly | internal/pkg/reproxy/action.go:320-345 | A race that returns because the caller's context ended leaves that as its error, unless a local exit code comes later, and counts no fallback. |
| RaceOutcome.LocalIsHeldBack | internal/pkg/reproxy/action.go:301-308 | The local side starts only when there is no remote context, no cached result, or the hold-off is over; on a hit only the last. |
| RaceOutcome.SignalExactly | internal/pkg/reproxy/action.go:391-444 | The start signal is closed, once, exactly when there was such a step. |
| RaceOutcome.RunsAreTied | internal/pkg/reproxy/action.go:377-517 | In every run each side reports what the answers to its steps call for, the messages are in the order of the sends, and the ending is what main's steps say. |
| RaceOutcome.RemoteFactsAreSteps | internal/pkg/reproxy/action.go:391-474 | What these statements call failed or downloaded on the remote side is a step that was taken with that answer. |
| RaceOutcome.LocalFactsAreSteps | internal/pkg/reproxy/action.go:497-516 | The same for exit codes and failures of the local side. |
| RaceOutcome.StopsAreSteps | internal/pkg/reproxy/action.go:412-417 | The remote side counts as stopped only after a look that found a context ended by the caller or by main. |
| RaceOutcome.StartsAreSteps | internal/pkg/reproxy/action.go:391-444 | The steps that let the local side start, and no others. |
| SingleFlight.RunKeepsInv | internal/pkg/scandeps/goma_include_processor.cc:265-342 | For any number of requests: the table names exactly the leaders in flight, every waiter is in one list once, answers and cache agree. |
| SingleFlight.CallbackAtMostOnce | internal/pkg/scandeps/goma_include_processor.cc:331-341 | No callback runs twice, and it runs exactly when its request has its state. |
| SingleFlight.OneLookupInFlight | internal/pkg/scandeps/goma_include_processor.cc:276-325 | Two requests for one key that are between creating and taking away the waiter list are the same request, and the list is there when it is taken, so both CHECKs hold. |
| SingleFlight.FollowerGetsLeadersState | internal/pkg/scandeps/goma_include_processor.cc:335-341 | A request that joined a list is answered with its leader's state, for the same key, and not before the leader. |
| SingleFlight.BuiltOnceAndShared | internal/pkg/scandeps/goma_include_processor.cc:303-314 | As long as nothing is evicted, a key is built at most once and all its requests get the same state, including one that missed the cache before the store and registered after the erase. |
| SingleFlight.AnswersAreBuilt | internal/pkg/scandeps/goma_include_processor.cc:303-341 | With evictions too, each answer is a state that some build step of the run has built for the request's key. |
| SingleFlight.StatesAreBuilt | internal/pkg/scandeps/goma_include_processor.cc:303-341 | So is every cached state and every state that a request holds. |
| SingleFlight.BuildsAreCounted | internal/pkg/scandeps/goma_include_processor.cc:303-314 | As long as nothing is evicted, a run has at most one build step for each key. |
| SingleFlight.UncachedWhileBuilding | internal/pkg/scandeps/goma_include_processor.cc:303-314 | With evictions too, nothing is built for a key while it is in the cache. |
| SingleFlight.HitIsServedAtOnce | internal/pkg/scandeps/goma_include_processor.cc:269-275 | A request that finds its key in the cache is answered at once with the cached state and touches no list. |
| SingleFlight.UnansweredMeansProgress | internal/pkg/scandeps/goma_include_processor.cc:265-342 | A request without an answer can go on itself, or the request it follows can. |
| SingleFlight.SettledMeansAnswered | internal/pkg/scandeps/goma_include_processor.cc:265-342 | When no request can go on, every request has been answered, once; with the two lemmas below every callback runs exactly once in the end. |
| SingleFlight.StepDescends | internal/pkg/scandeps/goma_include_processor.cc:265-342 | Every step but an arrival lowers a rank. |
| SingleFlight.RunsAreBounded | internal/pkg/scandeps/goma_include_processor.cc:265-342 | With n requests a run has at most 10 n steps. |
| SingleFlight.WaiterTable.Register | internal/pkg/scandeps/goma_include_processor.cc:276-290 | The locked section that creates or joins a list. |
| SingleFlight.WaiterTable.Take | internal/pkg/scandeps/goma_include_processor.cc:316-326 | The locked section that takes a list out of the table, or fails its CHECK. |
| Startup.Server.SetInputProcessor | internal/pkg/reproxy/server.go:183-193 | The new fields: handed over and possibly unblocked, or cleaned up at once after an error. |
| Startup.Server.SetREClient | internal/pkg/reproxy/server.go:198-208 | The same for the client. |
| Startup.Server.SetStartupErr | internal/pkg/reproxy/server.go:211-219 | The first error is kept and unblocks startup; later ones change nothing. |
| Startup.Server.MaybeUnblockStartup | internal/pkg/reproxy/server.go:221-233 | `started` is closed if it is open and startup is decided. |
| Startup.Server.RunCleanups | internal/pkg/reproxy/server.go:352-359 | Every cleanup function of the list is called once, in order. |
| Startup.RunKeepsInv | internal/pkg/reproxy/server.go:183-233 | The invariant of startup, commands and drain, for every order of the two outcomes, waiting clients, registrations and drain. |
| Startup.ChannelsClosedOnce | internal/pkg/reproxy/server.go:221-233 | `started` and `drain` are closed at most once. |
| Startup.FrozenOnceStarted | internal/pkg/reproxy/server.go:334-361 | From the moment `started` is closed it stays closed, and neither the error nor the cleanup list changes any more. |
| Startup.NilAnswerMeansReady | internal/pkg/reproxy/server.go:389-396 | A caller that waited for startup gets nil exactly when both components are set. |
| Startup.FieldsBySteps | internal/pkg/reproxy/server.go:183-219 | The error is that of the first startup goroutine that failed; the components and the cleanup list are those provided before it, in order. |
| Startup.CommandsAreCounted | internal/pkg/reproxy/server.go:408-412 | Every nil answer lets one command register, and the commands in flight are those that registered less those that ended. |
| Startup.CleanupAtMostOnce | internal/pkg/reproxy/server.go:183-208 | At any time only functions that were handed over have been called, none twice. |
| Startup.DrainedMeansAllCleanedUp | internal/pkg/reproxy/server.go:334-361 | When drain is over every function handed over was called exactly once. |
| Startup.ErrorCleansUpAtOnce | internal/pkg/reproxy/server.go:183-219 | In every run after an error: each function handed over that was not on the cleanup list at the error has been called, without drain. |
| Startup.DrainNeverStuck | internal/pkg/reproxy/server.go:334-361 | Until it is over, drain has an enabled step, its own, of a startup goroutine or of a command in flight, that leaves less to do. |
| Startup.StepDescends | internal/pkg/reproxy/server.go:183-361 | Every step but another waiting client and a repeated call of drain lowers a rank. |
| Startup.RunsAreBounded | internal/pkg/reproxy/server.go:183-361 | In every schedule, with n waiting clients there are at most 3 n + 13 steps besides repeated calls of drain. |
| Startup.CleanupMeetsOnlyLateCommands | internal/pkg/reproxy/server.go:346-359 | While drain cleans up and after, the commands in flight are no more than those that registered after it had waited. |
| Startup.LateCommandMeetsCleanup | internal/pkg/reproxy/server.go:408-412 | A command can register after drain has waited, and then run during cleanup. |
| Startup.UndisturbedExactly | internal/pkg/reproxy/server.go:346-359 | In any run, no command is in flight at any point after drain has waited, exactly when none registers after that. |
| FailBuild.Switch.CheckFailBuild | internal/pkg/reproxy/server.go:277-299 | The build is failed, and a sweep due, for more than seven timeouts, with their number; otherwise when there are enough actions and fallbacks reach the given share of them, with that share; without actions only if none are asked for and there are fallbacks. |
| FailBuild.TripsExactly | internal/pkg/reproxy/server.go:277-285 | The same condition for the checks of the state machine. |
| FailBuild.NoActionEscapes | internal/pkg/reproxy/server.go:277-305 | When the flag is set and no sweep is under way, every running action has been cancelled, and one that has yet to read the flag will be rejected with the stored error. |
| FailBuild.NoFalseAlarm | internal/pkg/reproxy/server.go:680-688 | Before the flag is set no action is rejected or cancelled. |
| FailBuild.FlagStays | internal/pkg/reproxy/server.go:285-289 | The flag is never taken back and always has an error. |
| FailBuild.ErrorsAreExplained | internal/pkg/reproxy/server.go:285-294 | The flag is set exactly when a check has tripped, with the error of the latest; every cancelled or rejected action has the error of a check that tripped. |
| FailBuild.PhasesBySteps | internal/pkg/reproxy/server.go:523-526 | By the steps alone: an action is registered once it was stored and until it reads the flag, and gone exactly when it has left. |
| FailBuild.SweepMakesProgress | internal/pkg/reproxy/server.go:291-296 | A sweep can end or visit an action, and each visit shortens it. |
| FailBuild.RunKeepsInv | internal/pkg/reproxy/server.go:277-305 | The invariant behind these. |
| FailBuild.UnregisteredIsNotCancelled | internal/pkg/reproxy/server.go:523-532 | An action can register while a sweep is under way and be uncancelled when the sweep ends. |
| FailBuild.SweepCatchesExactly | internal/pkg/reproxy/server.go:285-296 | Over all ways in which a sweep can go on and end, an action is sure to be cancelled or gone exactly when it had registered, or left, before the flag was set. |
| WindowedCount.Counter.Add | internal/pkg/reproxy/server.go:264-271 | The counter after an increment, which becomes live. |
| WindowedCount.Counter.Expire | internal/pkg/reproxy/server.go:267-269 | The counter after the timer of one live increment. |
| WindowedCount.Counter.Load | internal/pkg/reproxy/server.go:273-275 | The count is the sum of the live increments, and not negative if they are not. |
| WindowedCount.RunKeepsInv | internal/pkg/reproxy/server.go:259-275 | In every run of actions, timers and time, both counters are the sums of their unexpired increments, and each action records its fallback no later than itself. |
| WindowedCount.CountersNotNegative | internal/pkg/reproxy/server.go:264-275 | Neither counter is ever negative. |
| WindowedCount.CountersMeasureWindow | internal/pkg/reproxy/server.go:259-275 | When the due timers have fired, each counter is the number of increments made within the window. |
| WindowedCount.FallbacksBelowActions | internal/pkg/reproxy/server.go:688-737 | Then fallbacks never exceed actions plus actions in flight. |
| LocalResources.UnitsAreConserved | internal/pkg/localresources/manager.go:52-82 | In every run, CPU and RAM in use are the sums over the calls that hold them, CPUs held while waiting for RAM included, and stay within the totals. |
| LocalResources.AllGivenBack | internal/pkg/localresources/manager.go:74-81 | When no call is outstanding nothing is in use. |
| LocalResources.NeverDeadlocked | internal/pkg/localresources/manager.go:62-82 | While a call is outstanding, some grant or release is enabled without any context ending. |
| LocalResources.AmountsAreAsked | internal/pkg/localresources/manager.go:66-77 | While it is outstanding a call stands for exactly the amounts it asked for, capped at the totals. |
| LocalResources.HoldingMeansGranted | internal/pkg/localresources/manager.go:71-81 | Units are held only after both grants. |
| LocalResources.NoOvertaking | internal/pkg/localresources/manager.go:71-77 | No call is granted CPUs or RAM while an earlier one waits for them. |
| LocalResources.RunsAreBounded | internal/pkg/localresources/manager.go:62-82 | A run with n calls has at most 4 n steps. |
| LocalResources.Manager.constructor | internal/pkg/localresources/manager.go:52-59 | The totals are at least one. |
| LocalResources.Manager.Lock | internal/pkg/localresources/manager.go:62-82 | Whatever other calls do while this one waits, the semaphores change besides by the capped amounts it takes, or not at all if one of the two waits fails; a nil manager grants everything and holds nothing. |
| LocalResources.Manager.CanAlwaysBeServed | internal/pkg/localresources/manager.go:66-77 | A capped request can be served from every state, once others have given back enough, so the waits that Lock admits exclude no call. |
| LocalResources.Manager.Unlock | internal/pkg/localresources/manager.go:78-81 | The closure gives back what was taken. |
| LocalResources.LocalPool.Run | internal/pkg/reproxy/localexec.go:71-100 | On every path, and whatever other calls do meanwhile, this call has given back what it took; the command runs exactly when both resources were granted, with the capped requirements of its labels in use, and what exit code and error are returned. |
| LocalResources.RequirementsExactly | internal/pkg/reproxy/localexec.go:37-47 | Which labels need eight CPUs, which most memory, and the defaults. |
| LoggerLoop.Logger.ApplyStart | internal/pkg/logger/logger.go:116-127 | The counters after a start event, which does nothing for an open record. |
| LoggerLoop.Logger.ApplyEnd | internal/pkg/logger/logger.go:141-177 | The counters after an end event, which does nothing for a record that is not open. |
| LoggerLoop.RunKeepsInv | internal/pkg/logger/logger.go:569-637 | The invariant of clients, event loop and closer. |
| LoggerLoop.NoSendAfterClose | internal/pkg/logger/logger.go:569-611 | In every interleaving nothing is sent on the event channel after it is closed, and it is closed at most once. |
| LoggerLoop.AcceptedMeansCounted | internal/pkg/logger/logger.go:584-595 | As many events are accepted as clients that got one in. |
| LoggerLoop.AcceptedIsDelivered | internal/pkg/logger/logger.go:569-595 | The accepted events are those of the calls that were delivered, in that order. |
| LoggerLoop.TurnedAwayOnlyAfterClose | internal/pkg/logger/logger.go:569-611 | A call is turned away only after the close, and let in exactly when it was delivered. |
| LoggerLoop.AggregateSeesEverything | internal/pkg/logger/logger.go:600-626 | The aggregate is taken after every accepted event was applied, in order. |
| LoggerLoop.CountersBalance | internal/pkg/logger/logger.go:112-177 | At all times running actions are the open records, no more than the peak, and completions, QPS count and statistics records agree. |
| LoggerLoop.OpenedIsRunningPlusCompleted | internal/pkg/logger/logger.go:112-177 | For every sequence of events, actions opened are actions running plus actions completed. |
| LoggerLoop.OpenExactly | internal/pkg/logger/logger.go:116-158 | After any events, the open records are those whose last start or end event is a start. |
| LoggerLoop.CompletedExactly | internal/pkg/logger/logger.go:141-158 | The completions of a status are the end events with it that came while their record was open. |
| LoggerLoop.PeakExactly | internal/pkg/logger/logger.go:125-126 | The peak is the largest number of records that were open at once. |
| LoggerLoop.NeverStuck | internal/pkg/logger/logger.go:569-637 | While a call or the close is under way, somebody can go on. |
| LoggerLoop.RunsAreBounded | internal/pkg/logger/logger.go:569-637 | With n calls and one close a run has at most 5 n + 5 steps. |
| Batching.Batch | internal/pkg/bigquery/bigquery.go:111-147 | The batches in order are exactly the accepted records; each fits the cap, none is empty unless nothing was accepted, and no batch could have taken the first record of the next. |
| Batching.AcceptedExactly | internal/pkg/bigquery/bigquery.go:128-137 | Accepted are the records that marshal to at most the cap, each as often as it came. |
| Batching.AcceptedInOrder | internal/pkg/bigquery/bigquery.go:128-137 | And in the order of the stream. |
| Batching.CapExactly | internal/pkg/bigquery/bigquery.go:113-116 | The cap is the configured number of megabytes, but at most eight. |
| Batching.TakeRecord | internal/pkg/bigquery/bigquery.go:128-144 | One round of the loop: the record is dropped, buffered, or starts a new buffer. |
| Batching.RecordTaken | internal/pkg/bigquery/bigquery.go:128-144 | Each round keeps the relation between the stream so far and the batches. |
| Batching.GreedyWithinTwiceOptimal | internal/pkg/bigquery/bigquery.go:138-144 | If the accepted records fit in m batches in any order and grouping, there are at most 2m - 1 batches. |
| Batching.UploadWithRetry | internal/pkg/bigquery/bigquery.go:197-219 | A batch succeeds exactly when its first attempt that is not retryable, among at most four within the deadline, succeeds; a fatal error is recorded exactly when that attempt is fatal; after three retryable attempts the fourth decides. |
| Batching.Upload | internal/pkg/bigquery/bigquery.go:150-169 | Workers finishing in any order leave the two 32-bit counters at the sums over their batches, up to wrap-around. |
| Batching.TallyTotals | internal/pkg/bigquery/bigquery.go:211-215 | The counters add up to the number of records modulo 2^32, and exactly below 2^31. |
| Batching.LogRecordsToBigQuery | internal/pkg/bigquery/bigquery.go:222-240 | The stream is cut into greedy batches; successful is the number of records in the batches whose upload succeeded and failed that of the others, modulo 2^32; below 2^31 together all accepted records. |
| Forecast.Dataset.Insert | internal/pkg/reproxy/forecast.go:121-130 | The ring holds the samples with one more, and the sorted copy is unchanged. |
| Forecast.Dataset.LiveIsLatest | internal/pkg/reproxy/forecast.go:121-130 | The live part of the ring holds, as a multiset, exactly the latest samples, up to its capacity. |
| Forecast.HoldsAfter | internal/pkg/reproxy/forecast.go:121-130 | One insertion into a ring that holds the latest samples, full or not, wrapping or not. |
| Forecast.Dataset.Sort | internal/pkg/reproxy/forecast.go:132-143 | The sorted copy is a sorted rearrangement of the latest samples, or unchanged if there are too few. |
| Forecast.SortIntsSorts | internal/pkg/reproxy/forecast.go:142 | Sorting yields the same samples in ascending order. |
| Forecast.Dataset.Percentile | internal/pkg/reproxy/forecast.go:145-155 | The outcome for any argument: a value, an error, or an index out of range. |
| Forecast.PercentileIsOrderStatistic | internal/pkg/reproxy/forecast.go:145-155 | For 0 <= p < 100 the value is a sample; at most floor(k p / 100) samples are below it, and more than that are not above it. |
| Forecast.PercentileIsMonotone | internal/pkg/reproxy/forecast.go:145-155 | A higher percentile is not smaller. |
| Forecast.OutOfRangeExactly | internal/pkg/reproxy/forecast.go:146-154 | There is an error exactly outside of 0 to 100 and without data; otherwise the index is past the end exactly for p = 100. |
| TraceLanes.Claim | cmd/rpl2trace/rpl2trace.go:191-202 | The lane a record gets is the first one that is free, or a new one. |
| TraceLanes.AssignPids | cmd/rpl2trace/rpl2trace.go:186-207 | The loop computes the first-fit assignment. |
| TraceLanes.LanesAreDisjoint | cmd/rpl2trace/rpl2trace.go:192-197 | When no record ends before the instant in front of its start: of two records in one lane, the earlier one in the log ends before the later one starts. |
| TraceLanes.FirstFitDraws | cmd/rpl2trace/rpl2trace.go:186-207 | For such logs every record gets a lane, and lanes hold pairwise disjoint intervals. |
| TraceLanes.LanesAtLeastOverlap | cmd/rpl2trace/rpl2trace.go:186-207 | Any drawing with disjoint lanes has as many lanes as records share any point. |
| TraceLanes.FirstFitIsOptimal | cmd/rpl2trace/rpl2trace.go:186-207 | In start order, the number of lanes is the largest number of records that share a point, and no drawing has fewer. |
| TraceLanes.OrderMattersForLanes | cmd/rpl2trace/rpl2trace.go:189-202 | For any two records out of start order, wherever they are, there are ends for which a lane is opened that another drawing does without. |
| TraceLanes.MinimalExactly | cmd/rpl2trace/rpl2trace.go:186-207 | For any starts: first fit uses the fewest lanes possible at every point of the log and for all ends, exactly when the starts are in order. |
| TraceLanes.BackwardRecordBreaksLane | cmd/rpl2trace/rpl2trace.go:189-202 | Any record that ends earlier than the instant in front of its start stands in some log of three records between two that overlap in its lane. |
| TraceLanes.SoundExactly | cmd/rpl2trace/rpl2trace.go:186-207 | A record is drawn soundly among all forward records before and after it exactly when it is forward itself. |
| Truncate.RunResponse.TruncateResponse | internal/pkg/interceptors/truncate.go:52-92 | The response after the call, as a function of the one before. |
| Truncate.RunResponse.Cut | internal/pkg/interceptors/truncate.go:71-74 | One field's turn; every slice index is in range. |
| Truncate.TruncFieldLenInRange | internal/pkg/interceptors/truncate.go:112-118 | Prefix and kept part together are the larger of the minimum and the length less the excess, which is shorter than the field, so every slice is in range. |
| Truncate.FitsOrMinimal | internal/pkg/interceptors/truncate.go:52-92 | The encoded result fits the budget, or stderr, stdout and the message, if present, are all at most the minimum length. |
| Truncate.LengthsExactly | internal/pkg/interceptors/truncate.go:65-91 | The exact length of each field afterwards: on its turn it gives up the whole excess, but no more than leaves the larger of 1024 and the length of the prefix. |
| Truncate.VarintExactly | internal/pkg/interceptors/truncate.go:53-54 | The size of a length prefix is the fewest groups of seven bits that hold the length. |
| Truncate.VarintReadsBack | internal/pkg/interceptors/truncate.go:53-54 | That size is the length of an encoding from which the number is read back. |
| Truncate.SizeIsLength | internal/pkg/interceptors/truncate.go:53-54 | The size of a response is the length of its encoding, field by field. |
| Truncate.OnlyCuts | internal/pkg/interceptors/truncate.go:71-91 | Every field is unchanged, or strictly shorter and the prefix followed by a suffix of the original; nothing else changes. |
| Truncate.CutsInOrder | internal/pkg/interceptors/truncate.go:71-91 | A response within the budget is untouched; stdout is cut only when stderr is at its minimum, and the message only when both are. |
| Truncate.CutsAreAnnounced | internal/pkg/interceptors/truncate.go:57-63 | A field that was cut begins by saying so, and names the file with the full response if there is one. |
| Truncate.RoomyBudgetIsMet | internal/pkg/interceptors/truncate.go:52-92 | A budget with room for the fixed part and three minimal fields is met. |
| Compare.Dedup | internal/pkg/reproxy/server.go:1024-1039 | Each value once, in an arbitrary order. |
| Compare.DedupExitCodes | internal/pkg/reproxy/compare.go:177-189 | Each exit code once, in order of first appearance. |
| Compare.FirstOccurrencesGrow | internal/pkg/reproxy/compare.go:177-189 | More exit codes leave those found so far in their places. |
| Compare.OutcomeOfSets | internal/pkg/reproxy/compare.go:99-146 | Status and logging depend on the sets of values only, and are those of a definition by what each side saw. |
| Compare.QuietExactly | internal/pkg/reproxy/compare.go:111-118 | For any values and counts, nothing is logged exactly when there is one value on all sides and each side asked has it, or when a side that was not asked has another value and there were at most two reruns. |
| Compare.UnaskedSideCanHideDifference | internal/pkg/reproxy/compare.go:111-118 | Of the comparison on its own, as reruns happen only where asked: two different values pass exactly when a side was not asked and there were at most two reruns. |
| Compare.FindMismatches | internal/pkg/reproxy/compare.go:148-175 | A rerun's digests, directories taking precedence over files, are added to their normalised paths on one side; the count is that of new paths. |
| Compare.CollectSide | internal/pkg/reproxy/compare.go:34-44 | All reruns of a side are collected, with their exit codes. |
| Compare.Classify | internal/pkg/reproxy/compare.go:49-77 | A path is dropped exactly when neither digests nor exit codes are worth logging; otherwise the entry holds what is, and the overall status. |
| Compare.MismatchesToProto | internal/pkg/reproxy/compare.go:82-96 | All entries, in ascending order of their paths, and the totals, the first in 32 bits. |
| Compare.CompareAction | internal/pkg/reproxy/compare.go:25-80 | The report: exactly the paths worth logging, in order, each with its digests, exit codes and status; the number of verified paths is that of distinct paths. |
| CompareMeaning.DroppedExactly | internal/pkg/reproxy/compare.go:49-65 | With reruns only where asked, a path is left out exactly when all digests that the reruns have for it are the same, all reruns have the same exit code, and each side asked to rerun has a digest for it; all said of the reruns themselves. |
| CompareMeaning.CollectedExactly | internal/pkg/reproxy/compare.go:148-175 | The digests collected for a path are those that some rerun has under a name that normalises to it, directories before files. |
| CompareMeaning.PathsExactly | internal/pkg/reproxy/compare.go:161-167 | The verified paths are those for which some rerun has a digest. |
| CompareMeaning.EntryDigestsExactly | internal/pkg/reproxy/compare.go:57-65 | An entry holds exactly the digests that the reruns of each side have for its path, or none if all agree. |
| CompareMeaning.EntryCodesExactly | internal/pkg/reproxy/compare.go:46-65 | It holds exactly the exit codes of the reruns of each side, or none if all agree. |
| CompareMeaning.EntryStatusExactly | internal/pkg/reproxy/compare.go:67-76 | Its status: unknown if digests or codes are unclear, else only remote not deterministic if one of them varies remotely alone, else deterministic exactly if neither varies. |
| CompareMeaning.StatusMeans | internal/pkg/reproxy/compare.go:99-121 | The status of one kind of value, by which sides vary and which have none. |
| CompareMeaning.ReportIsDetermined | internal/pkg/reproxy/compare.go:25-96 | Two reports on the same reruns are equal up to the order of digests in an entry, so map order does not matter. |
| IgnoreMismatch.ShouldIgnore | internal/pkg/ignoremismatch/ignoremismatch.go:92-104 | True exactly when some rule says so; failing rules are skipped. |
| IgnoreMismatch.VerificationRecord.ProcessLogRecord | internal/pkg/ignoremismatch/ignoremismatch.go:48-66 | The mismatches and the ignored count, in 32 bits, afterwards; the totals are untouched. |
| IgnoreMismatch.KeptExactly | internal/pkg/ignoremismatch/ignoremismatch.go:57-63 | Each mismatch is kept as often as it was there, or not at all if a rule ignores it. |
| IgnoreMismatch.KeptOfConcat | internal/pkg/ignoremismatch/ignoremismatch.go:57-63 | Filtering keeps the order. |
| IgnoreMismatch.TotalIsKeptPlusIgnored | internal/pkg/ignoremismatch/ignoremismatch.go:64-65 | For any report, the total of mismatches is kept plus ignored after the rules, modulo 2^32, and exactly below 2^31 mismatches. |
| IgnoreMismatch.SecondPassExactly | internal/pkg/ignoremismatch/ignoremismatch.go:53-65 | Were a record processed twice, which the logger does not do, the same mismatches would be kept, and the total would still add up exactly when the first time ignored nothing or everything. |
| DepsFile.GetDeps | internal/pkg/deps/parser.go:168-183 | The text is the one ascending enumeration of the lines for the dependencies, joined. |
| DepsFile.LinesExactly | internal/pkg/deps/parser.go:153-163 | The lines are exactly path, colon, hash, slash and size for the files found, and path, colon and NA for those not found. |
| DepsFile.JoinExactly | internal/pkg/deps/parser.go:182 | The text is the lines one after the other. |
| Strings.BeforeExactly | internal/pkg/deps/parser.go:181 | The order of lines: at the first difference the smaller character comes first, and a prefix before what it begins. |
| Strings.SortAscends | internal/pkg/deps/parser.go:181 | Sorting puts the distinct lines into that order and loses none. |
| DepsFile.TextDependsOnSet | internal/pkg/deps/parser.go:173-182 | The text depends on the set of dependencies only. |
| DepsFile.VerifyDepsFile | internal/pkg/deps/parser.go:77-112 | Accepted, rejected or failed according to the first entry that does not pass. |
| DepsFile.VerdictsExactly | internal/pkg/deps/parser.go:88-111 | Accepted if every entry passes; otherwise failed if the first that does not is neither the marker nor a digest, and rejected if it is. |
| DepsFile.MatchLineIsMatch | internal/pkg/deps/parser.go:44-45 | What is matched on a line is a path without inner colon, a colon, and a value of at least two characters up to the end of the line. |
| DepsFile.MatchLineIsOnly | internal/pkg/deps/parser.go:44-45 | It is the only such match, and there is none if none is found. |
| DepsFile.MatchHereExactly | internal/pkg/deps/parser.go:44-45 | As much leading white space is skipped as leaves a match; without a match nothing that could be skipped leaves one. |
| DepsFile.FindAllExactly | internal/pkg/deps/parser.go:87 | The matches are the leftmost ones, each searched from where the one before ended. |
| DepsFile.ReadDigestIsValid | internal/pkg/deps/parser.go:100-104 | Only a valid hash and size behind one slash are read as a digest. |
| DepsFile.ParseIntReadsOnly | internal/pkg/deps/parser.go:100-104 | Only digits behind an optional sign are read as a size, with their value, and only within 64 bits. |
| DepsFile.ParseIntReads | internal/pkg/deps/parser.go:100-104 | And all of those are read. |
| DepsFile.DigestReadsBack | internal/pkg/deps/parser.go:100-104 | Every valid digest is parsed back from its text. |
| DepsFile.MatchPrinted | internal/pkg/deps/parser.go:44-45 | The pattern splits a printed line at the first colon after its first character and ends with the line. |
| DepsFile.ReadLineByLine | internal/pkg/deps/parser.go:87-109 | A printed file is accepted exactly when each of its lines is. |
| DepsFile.AcceptedExactly | internal/pkg/deps/parser.go:77-112 | A file written from one store is accepted against another exactly when no recorded path has a colon after its first character, every recorded digest is the store's and every recorded absence still holds; it fails to parse only because of such a colon. |
| DepsFile.RoundTripExactly | internal/pkg/deps/parser.go:153-183 | A file just written is accepted against the same store exactly when no recorded path has such a colon. |
| DepsFile.GoneFileCanBeAccepted | internal/pkg/deps/parser.go:92-108 | A file that is not found passes as recorded if the store's digest for it is the recorded one. |

## Left out

- The remote-execution SDK, gRPC, protobuf marshalling, process execution, the file system, clocks and randomness: their outcomes are arguments of steps and methods. The SDK is not part of this model; `ParseDigest` in `DepsFile` follows its documented digest format.
- Data races on the fields of an action's log record in `race`: each step is taken as atomic.
- The file names behind the exec root, mtime restoration and output filters in `race`: only when outputs are moved is modelled.
- The weighted semaphore is modelled by its documented rules (first come, first served); its implementation is not part of this model.
- LocalResources.Manager.Lock: that a waiting call is served in the end, and in which order, is in the state machine of the same module; the method takes what other calls do meanwhile as arguments.
- LocalResources.LocalPool.Run: queue and execution times are left out.
- WindowedCount.FallbacksBelowActions: for timers that fire at their deadlines; a late timer can leave a fallback counted longer than its action.
- The retry back-off times in `uploadWithRetry`: the number of attempts that start within the minute is an argument.
- Batching.Batch: the product of the configured batch size and 1000 * 1000 is not wrapped at 64 bits.
- Goroutines and channels between batching and uploading: the batches are a list, and only the order in which workers finish is arbitrary.
- Truncate.RunResponse.TruncateResponse: fields are sequences of characters standing for bytes, so a cut inside a multi-byte character of the message is not seen; the dump file is only the outcome of writing it.
- TraceLanes.AssignPids: the final sort of the events by timestamp is left out, and how a record's interval is computed from its events.
- SingleFlight.RunKeepsInv: a key is the string under which waiters are kept; cache keys that differ while this string is the same are not modelled.
- The second call of `CloseAndAggregate`, which closes the BigQuery item channel again, the status reply channel and uploads from the logger: BigQuery is off in `LoggerLoop`.
- LoggerLoop.Logger.ApplyEnd: QPS rates, durations, the 32-bit width of the counters and writing the record to the log file are left out; only the counts are kept.
- Startup.DrainNeverStuck: startup goroutines and commands in flight are taken to end; clients whose own context ends while they wait, and the cancellation of commands by drain, are left out.
- Compare.Dedup: `filepath.Clean` as the key is taken as the identity, which it is on digests.
- IgnoreMismatch.ShouldIgnore: regular expressions are left out; a rule is any function from mismatches to a verdict or a failure.
- DepsFile.GetDeps: reading the `.d` file is left out, and `filepath.Clean` of its paths; the store is a function of the cleaned path. Paths are captured without ASCII white space, as the `.d` file pattern does.
- DepsFile.MatchPrinted: the one pattern of the `.deps` parser is modelled, not regular expressions in general, on characters rather than UTF-8 bytes.
- Execution strategies other than racing, reruns themselves, input processing, path translation, authentication, monitoring, statistics and flags: they would add members, but no harder properties.
