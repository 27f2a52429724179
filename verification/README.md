# EdgeSentinel reliability engine

A Dafny model of the parts of EdgeSentinel that decide what survives a fault: the write-ahead journal of
durable operations and its startup replay, the persisted circuit breaker, retries with backoff, the process
supervisor, incident reconstruction, the lifecycle state machine and the monitors that drive it.

Components that change state in place are classes (`DurableRuntime`, `IntentJournal`, `Database`,
`CircuitBreaker`, `Supervisor`, `IncidentBuilder`, `IncidentTracker`, `StateMachine`, `LifecycleManager`,
`EdgeSentinel`, `NetworkMonitor`, `StorageMonitor`). Their methods are proved against functions on values, and
the theorems are about those functions and about whole runs of the three concurrent protocols:

- `CrashRecovery`, `CrashTheorems`, `CrashReplays`, `CrashLimits`, `CrashScenarios`: live calls and replay as
  executors whose journal reads and writes interleave, with cancellation, failing writes, pruning and a crash
  between any two steps.
- `BreakerRuns`, `BreakerRestarts`: admissions and completions of concurrent callers on a non-decreasing clock,
  with cancellation and restarts from the stored record.
- `LifecycleRaces`: subsystems that read the state and set it later, alongside `start()` and `stop()`.

`dafny verify dfyconfig.toml` checks the whole project.

## Where the code and its documentation differ

The model follows the code.

- `max_attempts` is documented as the total number of attempts after which an intent is marked failed
  (`src/edgesentinel/core/runtime.py:304-309`). Only `except Exception` compares attempts with the limit
  (`src/edgesentinel/durability/operations.py:95-98`), so an attempt cut short by a crash, a cancellation or a
  failing journal write is counted but never given up on. `PoisonIntentIsNeverGivenUp` builds runs with any
  number of attempts at `max_attempts = 1`; `PastTheLimitIff` says exactly in which runs the limit is exceeded,
  `AttemptsAreBounded` by how much, and `ExecutionsAreBounded` what the limit does bound.
- `src/edgesentinel/durability/journal.py:168-169` speaks of another live retry of a pending intent. No code
  does that; only the startup replay takes intents up again: `NoLiveRetry`.
- `src/edgesentinel/resilience/circuit_breaker.py:14-17` promises one trial at a time. A call admitted while
  CLOSED that fails during HALF_OPEN clears the flag and reopens the circuit, and after the timeout a second
  trial runs beside the first. `OvertakenRun` is such a run and `TrialIsExclusiveIff` the exact condition;
  `OneTrialPerEpisode` and `RateLimitWhileNotClosed` are what always holds.
- A cancelled call tells the breaker nothing (`src/edgesentinel/resilience/circuit_breaker.py:157`). If it was
  the trial and no other call is left, the breaker rejects everything until the process restarts:
  `CancelledTrialWedges`, `WedgedRun`, `RestedAdmitsIff`. Restarting then changes what the breaker does:
  `RestartIsTransparentIff`.
- A subsystem that escalates to FAILED while the runtime initializes makes `start()` raise even though on_init
  succeeded: `BecomesHealthyIff`.
- `src/edgesentinel/core/runtime.py:503` says that `start()` makes the runtime HEALTHY. It does, but subsystems
  already run while the change is published and the state saved, so one may have brought the runtime to FAILED by
  the time `start()` returns: `StartReturnsFailed` is such a run, and by `StartReturnsIff` it happens exactly if an
  escalation is carried out between the two.
- `src/edgesentinel/core/runtime.py:537` calls `stop()` idempotent. If saving the final state raises, the runtime is
  STOPPED but not marked so, and every later `stop()` raises: `StopRefused` is such a run, and `StopIsIdempotentIff`
  says that calling `stop()` again is harmless exactly if the save succeeded.
- `src/edgesentinel/durability/operations.py:165-172` promises that a stuck operation cannot brick the device at its
  next boot. That holds for whatever a body or a journal write raises as an Exception. A body that ends in
  CancelledError ends the replay and the boot: by `PassReachesAllIff` a replay reaches every intent exactly if no
  body but the last is cancelled, by `CancelledBodyBlocksTheRest` later intents are never reached if that happens at
  every boot, and `BlockedForever` is such a table.

## Model

| member | source | states |
|---|---|---|
| CrashTheorems.NoIntentIsLost | src/edgesentinel/durability/operations.py:79-151 | In every interleaving of live calls, replay, journal reads and writes, pruning and crashes, each recorded intent is COMPLETED with its body having returned, FAILED with its attempts at the limit, in the replay set, or pruned after having completed |
| CrashTheorems.SettledForGood | src/edgesentinel/durability/operations.py:79-134 | Once COMPLETED or FAILED a row never changes again (a completed one may be pruned) and its body is never called again, in this process or a later one |
| CrashTheorems.RecordedForGood | src/edgesentinel/durability/journal.py:113-132 | What was recorded for an intent is fixed for ever |
| CrashTheorems.SameArgumentsEveryTime | src/edgesentinel/durability/operations.py:94 | The live call and every replay in every process run the body with the arguments that were recorded |
| CrashTheorems.AttemptsAreAccountedFor | src/edgesentinel/durability/operations.py:79-125 | Conservation: attempts on a row are its caught failures, completions and interruptions plus the one under way; body starts never exceed attempts, a completion happens at most once, and a body returns again only after an interruption |
| CrashTheorems.AttemptsAreBounded | src/edgesentinel/durability/operations.py:96-100 | With max_attempts fixed, a PENDING intent has attempts to spare and attempts never exceed max_attempts plus the interrupted ones |
| CrashTheorems.EveryEnabledStepContinues | src/edgesentinel/durability/operations.py:79-203 | The runs quantified over are not truncated: every enabled step extends any run |
| CrashRecovery.StepKeepsInv | src/edgesentinel/durability/operations.py:79-203 | Every step of the protocol, with a crash or a cancellation between any two database operations, keeps the invariant tying rows, executors, replay queue and history |
| CrashRecovery.AdvanceKeepsLocal | src/edgesentinel/durability/operations.py:79-134 | A step of execute that writes what it read earlier is consistent with the row it overwrites |
| CrashRecovery.InvAfterCrash | src/edgesentinel/durability/operations.py:158-203 | A crash loses the process and keeps the table, and leaves nothing that the next boot cannot account for |
| CrashRecovery.InvAfterPrune | src/edgesentinel/persistence/database.py:262-281 | Pruning removes only completed intents that nothing is executing |
| CrashScenarios.InterleavingIsInvisible | src/edgesentinel/durability/operations.py:79-134 | From the call of execute to its last write, an execution that is not cut short calls its body exactly once and moves its row as if it ran alone with the outcome that call had: the step-by-step protocol refines the atomic one |
| CrashScenarios.PoisonIntentIsNeverGivenUp | src/edgesentinel/core/runtime.py:304-309 | Counterexample to the documented limit: with max_attempts = 1, for every n there is a run in which a body that kills the process has been started n times and its intent is still in the replay set |
| CrashLimits.PastTheLimitIff | src/edgesentinel/durability/operations.py:80-96 | Over whole runs with max_attempts fixed at m: a row has more than m attempts exactly when attempt number m was cut short by a crash or an interruption and the intent was started again later |
| CrashReplays.ExecutionsAreBounded | src/edgesentinel/durability/operations.py:96-125 | In every run, executions that come to their last journal write number at most max_attempts, the one that makes them that many leaves the intent COMPLETED or FAILED, and an unfinished intent has some left |
| CrashLimits.ExecutionsLeft | src/edgesentinel/durability/operations.py:79-125 | The measure in every run: counted from any moment, at most max_attempts - attempts further executions come to their last journal write, and while the intent is unfinished some are left (one, once interruptions have taken it to the limit) |
| CrashReplays.ReplayIsComplete | src/edgesentinel/durability/operations.py:174-203 | In every run, a replay that finishes has taken each intent that was unfinished when it began, once and oldest first, and started exactly those that have a handler, whichever bodies and journal operations failed meanwhile |
| CrashReplays.AbandonedForGood | src/edgesentinel/durability/operations.py:194-203 | In every run, a replay that is cancelled takes no further intent, and its process never gets to serve a call |
| CrashReplays.OnlyReplayNextLaunches | src/edgesentinel/durability/operations.py:174-203 | During a replay an intent gets an executor only by its turn in the queue, one at a time and with nothing else running |
| CrashReplays.NoLiveRetry | src/edgesentinel/durability/journal.py:165-177 | Once a process serves, an unfinished intent that nothing executes keeps its row, and its body is not called, until the process ends |
| CrashReplays.ServesIff | src/edgesentinel/core/runtime.py:557-578 | In every run, live calls are served exactly once the replay has finished or recovery was switched off, until the process crashes |
| DurableOperations.ExecutionSettles | src/edgesentinel/durability/operations.py:93-134 | An execution leaves the replay set exactly when the body returned, or raised with attempts at the limit, and the journal write that says so succeeded; the attempt counts from the first write on, and the request is kept |
| DurableOperations.DurableRuntime.Register | src/edgesentinel/durability/operations.py:70-75 | Registration fails for max_attempts below 1 and for a name already taken, and changes nothing then |
| DurableOperations.DurableRuntime.Execute | src/edgesentinel/durability/operations.py:79-134 | Row, events, body calls and answer of one execution for a body that returns, raises or is cancelled and for either journal write raising: the caller gets the result exactly if the row is COMPLETED, the body's error exactly if it is PENDING with that error, exhaustion exactly if it is FAILED, and the last event says the same; an unknown intent runs nothing |
| DurableOperations.AnswerMatchesRow | src/edgesentinel/durability/operations.py:93-134 | The same of the answer and the events on values |
| DurableOperations.DurableRuntime.Invoke | src/edgesentinel/durability/operations.py:142-151 | Before the start, or when the insert raises, nothing is recorded or run; otherwise the row exists before the body runs, and the answer is that of the row it leaves |
| DurableOperations.DurableRuntime.ReplayIntent | src/edgesentinel/durability/operations.py:174-203 | An intent without a handler is reported and left alone; any other is executed once |
| DurableOperations.DurableRuntime.ReplayEach | src/edgesentinel/durability/operations.py:174-203 | The replay loop goes on after a body or a journal write that raises and stops at a cancellation |
| DurableOperations.DurableRuntime.ReplayPending | src/edgesentinel/durability/operations.py:158-203 | A pass goes through the unfinished intents in insertion order and has the effect of the reference pass on table, handler calls, body calls and events |
| DurableOperations.ReplayElsewhere | src/edgesentinel/durability/operations.py:174-203 | A row that no replayed intent names is untouched |
| DurableOperations.ReplayAt | src/edgesentinel/durability/operations.py:174-203 | Each replayed intent is executed once, on the row it had when the pass began |
| ReplayPasses.PassCallsEachRegisteredOnce | src/edgesentinel/durability/operations.py:158-203 | A pass calls the handler of each registered unfinished intent exactly once, oldest first, up to a cancellation; the body follows with the recorded arguments unless the first journal write raises |
| ReplayPasses.PassReachesAllIff | src/edgesentinel/durability/operations.py:165-203 | A pass reaches every unfinished intent exactly if no body but the last one is cancelled; what raises does not count |
| ReplayPasses.CancelledBodyBlocksTheRest | src/edgesentinel/durability/operations.py:165-203 | If the body of a due intent is cancelled at every boot, no pass ever reaches an intent recorded after it, which stays as it was |
| ReplayPasses.BlockedForever | src/edgesentinel/durability/operations.py:165-172 | Two intents, the second of which no boot ever reaches, for any number of boots |
| ReplayPasses.PassIsPointwise | src/edgesentinel/durability/operations.py:174-203 | Each row after a pass depends on that row before it and on whether the pass got that far; order and keys are kept |
| ReplayPasses.ReplaySetAfterPass | src/edgesentinel/durability/operations.py:158-203 | After an uninterrupted pass the replay set is exactly the unregistered intents, those whose journal write raised and those that raised with attempts left, in their old order; unregistered rows are as they were |
| ReplayPasses.SettledWithinLimit | src/edgesentinel/durability/operations.py:96-125 | A registered intent is COMPLETED or FAILED after at most max_attempts - attempts passes without cancellation or raising journal write (one, if crashes used them up), for good |
| Intents.SelectUnfinished | src/edgesentinel/persistence/database.py:246-260 | pending() lists exactly the PENDING and IN_PROGRESS intents, each once, in rowid order |
| Intents.Table.Insert | src/edgesentinel/persistence/database.py:218-230 | A new row gets a rowid above all those in use, also after pruning has freed the largest ones |
| Intents.Table.Prune | src/edgesentinel/persistence/database.py:262-281 | Deletes exactly the completed rows older than the cutoff and keeps the order of the rest |
| Intents.Database.InsertIntent | src/edgesentinel/persistence/database.py:218-230 | A second insert of an id fails and leaves the table alone |
| Intents.Database.UpdateIntent | src/edgesentinel/persistence/database.py:232-240 | An unknown id changes nothing; otherwise one row gets the new status, attempts, error and update time and keeps request and rowid, and every other row and the order stay |
| Intents.Database.LoadIntent | src/edgesentinel/persistence/database.py:242-244 | The row of an id, if there is one |
| Intents.Database.LoadIntentsByStatus | src/edgesentinel/persistence/database.py:246-260 | Every row with one of the statuses and no other, each once and in rowid order |
| Intents.SelectLists | src/edgesentinel/persistence/database.py:246-260 | The same of the selection on values |
| Intents.Database.PruneCompletedIntents | src/edgesentinel/persistence/database.py:262-281 | Exactly the completed rows last updated before the cutoff go, the others and their order stay, the replay set is what it was, and the count is the difference |
| Intents.PruneSparesTheRest | src/edgesentinel/persistence/database.py:275-281 | The same of pruning on values |
| Intents.IntentJournal.Record | src/edgesentinel/durability/journal.py:113-132 | The row exists, PENDING with no attempts, before the caller gets the intent |
| Intents.IntentJournal.Require | src/edgesentinel/durability/journal.py:214-218 | The intent, or an error for an unknown id |
| Intents.IntentJournal.MarkInProgress | src/edgesentinel/durability/journal.py:139-153 | Counts one attempt and keeps the last error; unknown ids change nothing |
| Intents.IntentJournal.MarkCompleted | src/edgesentinel/durability/journal.py:155-163 | COMPLETED, error cleared, attempts and request kept |
| Intents.IntentJournal.MarkPendingForRetry | src/edgesentinel/durability/journal.py:165-177 | PENDING with the error, attempts and request kept |
| Intents.IntentJournal.MarkFailed | src/edgesentinel/durability/journal.py:179-191 | FAILED with the error, attempts and request kept |
| Intents.IntentJournal.PendingIntents | src/edgesentinel/durability/journal.py:193-202 | The replay set, complete and oldest first |
| Intents.IntentJournal.PruneCompleted | src/edgesentinel/durability/journal.py:204-212 | What was completed longer ago than the age given goes, and nothing a replay could still need |
| BreakerRuns.StateIsAFunctionOfHistory | src/edgesentinel/resilience/circuit_breaker.py:179-207 | Over every interleaving of callers, cancellations and restarts, failure_count is the trailing run of failures in completion order and the breaker is CLOSED iff that run is shorter than the threshold |
| BreakerRuns.StoreHoldsOpenOrClosed | src/edgesentinel/resilience/circuit_breaker.py:179-207 | The store never holds half_open, and holds opened_at exactly when it holds open |
| BreakerRuns.OpenedAtTheLastFailure | src/edgesentinel/resilience/circuit_breaker.py:188-197 | Over every interleaving, a circuit that opened in this process opened at the moment of the last failure, and the record holds that moment on the wall clock |
| BreakerRuns.AdmittedIff | src/edgesentinel/resilience/circuit_breaker.py:164-177 | With no call in flight, the answer to the next call can be read off the steps alone, restarts included: it is admitted exactly if the trailing failures are short of the threshold, or recovery_timeout has passed since the last completion and no trial was cancelled undecided |
| BreakerRuns.OneTrialPerEpisode | src/edgesentinel/resilience/circuit_breaker.py:164-177 | A half-open episode admits at most one call, and none while its trial is in flight |
| BreakerRuns.FlagMeansTrialRunning | src/edgesentinel/resilience/circuit_breaker.py:164-197 | When calls end by returning or raising, the in-flight flag implies HALF_OPEN with that trial still running |
| BreakerRuns.RestedAdmitsIff | src/edgesentinel/resilience/circuit_breaker.py:146-177 | With no call in flight and recovery_timeout passed since the last completion the next call is admitted, exactly unless a trial was cancelled and since its admission no call has completed and the process has not restarted |
| BreakerRuns.NeverWedged | src/edgesentinel/resilience/circuit_breaker.py:146-197 | When calls end by returning or raising, a rested breaker always admits the next call |
| BreakerRuns.CancelledTrialWedges | src/edgesentinel/resilience/circuit_breaker.py:157-162 | After a cancelled trial with no other call left, every call of the process is rejected from then on |
| BreakerRuns.WedgedRun | src/edgesentinel/resilience/circuit_breaker.py:154-177 | A run of four steps that gets there |
| BreakerRuns.TrialIsExclusiveIff | src/edgesentinel/resilience/circuit_breaker.py:14-17 | The documented single trial holds exactly when no other call is in flight: otherwise some continuation has two trials running at once |
| BreakerRuns.OvertakenRun | src/edgesentinel/resilience/circuit_breaker.py:182-196 | A run of six steps, without cancellation or restart, with two trials running at once |
| BreakerRuns.RateLimitWhileNotClosed | src/edgesentinel/resilience/circuit_breaker.py:164-197 | In a stretch of length L in one process in which the breaker is never CLOSED, at most 1 + L / recovery_timeout calls are admitted, late finishers included |
| BreakerRuns.StepKeepsInv | src/edgesentinel/resilience/circuit_breaker.py:121-207 | Each admission, completion, cancellation and restart keeps the invariant relating breaker, record, flag and history |
| BreakerRestarts.RestartIsTransparentIff | src/edgesentinel/resilience/circuit_breaker.py:121-144 | With no call in flight and clocks in step, a restored breaker admits, rejects, counts and stores exactly as the one that never restarted, for every later sequence of calls and times, if and only if no cancelled trial has left the in-flight flag set |
| BreakerRestarts.HeldFlagShows | src/edgesentinel/resilience/circuit_breaker.py:121-177 | With the flag left set, the very next call tells the two apart |
| BreakerRestarts.HeldFlagHappens | src/edgesentinel/resilience/circuit_breaker.py:146-177 | A life of a device that ends that way |
| BreakerRestarts.StepKeepsAlike | src/edgesentinel/resilience/circuit_breaker.py:121-197 | The simulation behind it: same decision and same record after every step, also where one is already HALF_OPEN and the other OPEN with its timeout elapsed |
| CircuitBreakers.CircuitBreaker.constructor | src/edgesentinel/resilience/circuit_breaker.py:85-112 | A new breaker is closed with no failures |
| CircuitBreakers.CircuitBreaker.Restore | src/edgesentinel/resilience/circuit_breaker.py:121-144 | Count from the record; open with the elapsed time carried over, half-open once the timeout has elapsed on the wall clock, closed otherwise |
| CircuitBreakers.CircuitBreaker.BeforeCall | src/edgesentinel/resilience/circuit_breaker.py:164-177 | Admits by state, timeout and flag; a rejection changes nothing |
| CircuitBreakers.CircuitBreaker.OnSuccess | src/edgesentinel/resilience/circuit_breaker.py:179-186 | Back to a fresh breaker, and stored |
| CircuitBreakers.CircuitBreaker.OnFailure | src/edgesentinel/resilience/circuit_breaker.py:188-197 | Counts, clears the flag, opens at this very moment on both clocks if the threshold is reached or the circuit was half-open, and stores |
| CircuitBreakers.RestoreUndoesPersist | src/edgesentinel/resilience/circuit_breaker.py:121-144 | Round trip of one breaker through its record: same count, same decision on a call at any later time, and the same breaker while the timeout runs |
| CircuitBreakers.CircuitBreaker.Call | src/edgesentinel/resilience/circuit_breaker.py:146-162 | One outcome per admitted call, none for a rejected one |
| Reliability.RunWithRetry | src/edgesentinel/resilience/retry.py:84-127 | Goes on exactly after a retryable failure whose wait is not cancelled, up to max_attempts; the caller gets a result exactly if the last invocation succeeded, an error exactly if it failed and no wait after it was cancelled; the retry events carry the backoff delays of their attempts, and the time slept is their sum |
| Reliability.CallReliably | src/edgesentinel/resilience/policy.py:85-141 | A rejected call runs nothing; any other makes 1 to max_attempts invocations and sleeps no longer than the backoff bases of max_attempts - 1 waits. After a result the breaker is as new and the last event is a success; after an error the breaker has counted one failure and the last event is a failure; a cancelled call gives no outcome and no final event; before it come exactly the retry events |
| Reliability.TotalDelayBound | src/edgesentinel/resilience/retry.py:108-124 | With or without jitter the waits add up to no more than their bases |
| Backoff.DelayBounds | src/edgesentinel/resilience/backoff.py:44-76 | A delay never exceeds the base, nor the base the cap, for each algorithm and any jitter draw |
| Backoff.DelayIsExact | src/edgesentinel/resilience/backoff.py:44-76 | The delay after each attempt is the one the algorithm asks for at that attempt, each from the one before it, capped, and the drawn fraction of that |
| Backoff.DelayLaws | src/edgesentinel/resilience/backoff.py:22-34 | Without jitter: the first delay is the initial one, fixed delays stay, linear ones are multiples of the initial one, exponential ones double, all capped |
| Backoff.TotalExponential | src/edgesentinel/resilience/backoff.py:30-34 | n exponential waits take at most initial_delay * (2^n - 1) and at most n * max_delay |
| Supervision.Supervisor.RegisterFailure | src/edgesentinel/process/supervisor.py:194-229 | The deque ends up as exactly the failures within the window of now, and the supervisor gives up iff the last max_crashes failures fit in the window, with exactly max_crashes entries |
| Supervision.Supervisor.Evict | src/edgesentinel/process/supervisor.py:199-200 | Only failures older than the window leave, from the front |
| Supervision.Supervisor.Run | src/edgesentinel/process/supervisor.py:151-192 | The loop ends at the first failure that trips the limit and at no other; each wait is the backoff delay after as many attempts as there have been lives, each failure comes one such wait, one delay and one life after the one before, and the events show each end and each wait |
| Supervision.Supervisor.Start | src/edgesentinel/process/supervisor.py:132-139 | A no-op while running, otherwise a clean slate |
| Supervision.EvictionIsExact | src/edgesentinel/process/supervisor.py:199-200 | For a non-decreasing clock, evicting from the front equals keeping every failure of the last window seconds |
| Supervision.TripsIff | src/edgesentinel/process/supervisor.py:201-202 | Counting the deque against max_crashes equals asking whether the last max_crashes failures span at most the window |
| Supervision.RestartRate | src/edgesentinel/process/supervisor.py:151-229 | Within one start() the body is started at most max_crashes times in any closed interval of length window |
| Supervision.GivesUpAtTheLimit | src/edgesentinel/process/supervisor.py:151-229 | If (max_crashes - 1) lives, waits and delays before the restarts fit in the window, the supervisor gives up at exactly crash number max_crashes |
| Incidents.IncidentBuilder.FeedEvent | src/edgesentinel/diagnostics/incidents.py:97-109 | Raises exactly for a state change that names no state, and updates the builder as the reference step does even then |
| Incidents.IncidentTracker.OnEvent | src/edgesentinel/diagnostics/incidents.py:173-177 | One event, then exactly the oldest closed incidents beyond max_history are dropped |
| Incidents.BuildIncidents | src/edgesentinel/diagnostics/incidents.py:180-198 | Fails exactly when some event is a state change that names no state, otherwise returns the rebuild that BuildListsStretches describes |
| Incidents.WhichStatesCount | src/edgesentinel/diagnostics/incidents.py:27-30 | The incident states are those other than HEALTHY from which the runtime can be stopped, and which events enter and leave them |
| IncidentHistories.BuilderSegments | src/edgesentinel/diagnostics/incidents.py:97-117 | The streaming builder computes the declarative segmentation: the slices from each change into an unhealthy state to the next change out of it, in order, the last one open iff the history ends unhealthy |
| IncidentHistories.BuildListsStretches | src/edgesentinel/diagnostics/incidents.py:66-117 | Field by field: each listed incident starts when its first event happened, ends when its last one did, and holds exactly the events and unhealthy states of the stretch between; an incident without an end is listed as not ended, through the end of the history |
| IncidentHistories.StartsAndEndsAlternate | src/edgesentinel/diagnostics/incidents.py:97-109 | Starts and ends alternate beginning with a start, so slices are disjoint and ordered |
| IncidentHistories.EndsAtFirstWayOut | src/edgesentinel/diagnostics/incidents.py:107-109 | A closed incident ends at the first change out of the unhealthy states after its start |
| IncidentHistories.StatesAreComplete | src/edgesentinel/diagnostics/incidents.py:103-106 | The states of the incidents, concatenated, are the unhealthy targets of all state changes, in order |
| IncidentHistories.TrackerShowsTheLatest | src/edgesentinel/diagnostics/incidents.py:164-177 | The live tracker shows the last max_history closed incidents of the offline rebuild and the same open one |
| IncidentHistories.LastOfIsLatest | src/edgesentinel/diagnostics/incidents.py:175-177 | What is kept is the end of the list, as long as the bound allows |
| IncidentHistories.DowntimeWithinHistory | src/edgesentinel/diagnostics/report.py:54-60 | For non-decreasing timestamps the summed downtime lies between zero and the time the history spans |
| IncidentHistories.SummaryIsExact | src/edgesentinel/diagnostics/report.py:54-60 | The report counts the ended incidents, the open one, and as downtime exactly the time from each start to its end |
| IncidentPruning.CutWhileHealthy | src/edgesentinel/diagnostics/incidents.py:97-109 | With no incident open at the cut, rebuilding the whole is rebuilding the two parts |
| IncidentPruning.CutDuringIncident | src/edgesentinel/diagnostics/incidents.py:97-109 | With one open, dropping the prefix leaves every later incident identical; of the open one a suffix of its states and events survives exactly if the rest names an unhealthy state again before leaving them, and otherwise nothing |
| LifecycleRaces.FailureAndShutdownPrevail | src/edgesentinel/core/state.py:38-123 | Whatever the interleaving: after FAILED only STOPPING and STOPPED follow, after STOPPING only STOPPED, and RECOVERING is never reached |
| LifecycleRaces.TrajectoryIsAPath | src/edgesentinel/core/state.py:105-123 | The states visited form a path in the transition graph |
| LifecycleRaces.RequestsArrive | src/edgesentinel/network/monitor.py:236-241 | Left alone, what a subsystem decides is what the runtime ends in |
| LifecycleRaces.StopIsNeverRefused | src/edgesentinel/core/runtime.py:534-555 | Between a returned start() and stop() the state is one from which STOPPING is legal; the shutdown always ends in STOPPED |
| LifecycleRaces.StopIsIdempotentIff | src/edgesentinel/core/runtime.py:534-555 | A stop() called after a completed teardown changes nothing and raises exactly if the final state could not be saved |
| LifecycleRaces.EndsForGood | src/edgesentinel/core/runtime.py:545-554 | After a completed teardown the runtime stays STOPPED and as it was marked, whatever is called |
| LifecycleRaces.StopRefused | src/edgesentinel/core/runtime.py:545-554 | A run in which stop() raises because an earlier one could not save the final state |
| LifecycleRaces.BecomesHealthyIff | src/edgesentinel/core/lifecycle.py:85-91 | Initialization ends in HEALTHY exactly when on_init did not raise and no subsystem had escalated to FAILED by then; otherwise start() raises with the runtime FAILED |
| LifecycleRaces.StartReturnsIff | src/edgesentinel/core/runtime.py:513-531 | start() returns exactly when the state could be saved after initialization ended in HEALTHY; the runtime is FAILED at the return exactly if an escalation was carried out in between, and can be stopped in any case |
| LifecycleRaces.FailedWhileSaving | src/edgesentinel/core/runtime.py:521-531 | The same at every moment between the two |
| LifecycleRaces.StartReturnsFailed | src/edgesentinel/core/runtime.py:521-531 | A run in which start() returns normally with the runtime already FAILED |
| LifecycleRaces.StepKeepsInv | src/edgesentinel/core/runtime.py:502-592 | Each decision and delayed set_state of a subsystem and each step of start() and stop() keeps which states go with which phase |
| RuntimeStates.StateMachine.Transition | src/edgesentinel/core/state.py:105-123 | Moves along an edge or stays put; anything else is refused without effect |
| RuntimeStates.WhatLeadsTo | src/edgesentinel/core/state.py:38-82 | The transition graph read the other way round: from which states each state can be entered |
| Lifecycle.LifecycleManager.SetState | src/edgesentinel/core/lifecycle.py:43-73 | One published change per actual change, and the published changes always form a path to the present state |
| Lifecycle.LifecycleManager.Boot | src/edgesentinel/core/lifecycle.py:75-91 | Succeeds only into HEALTHY; from BOOTING it succeeds exactly when on_init does not raise and HEALTHY is still reachable afterwards, and a raising hook leads to FAILED |
| Lifecycle.LifecycleManager.Shutdown | src/edgesentinel/core/lifecycle.py:93-105 | Reaches STOPPED also when the hook raises, whatever subsystems ask for meanwhile |
| Lifecycle.StoppingHolds | src/edgesentinel/core/state.py:38-82 | No list of subsystem requests moves the runtime out of STOPPING |
| Lifecycle.EscalationDuringInit | src/edgesentinel/core/lifecycle.py:85-91 | An escalation during initialization is honoured and nothing a subsystem asks for undoes it |
| Lifecycle.EdgeSentinel.Start | src/edgesentinel/core/runtime.py:502-532 | Refused exactly while started and not stopped; otherwise returns exactly when the database opens, initialization ends in HEALTHY and the state is saved, with the gate open, and FAILED exactly if a subsystem escalated since; any failure leaves the flags alone |
| Lifecycle.FailedIffEscalated | src/edgesentinel/core/state.py:38-82 | Whatever else subsystems ask for, a running runtime ends up FAILED exactly if one escalated |
| Lifecycle.RunningStatesHold | src/edgesentinel/core/state.py:38-82 | From HEALTHY, whatever subsystems ask for leads to states from which STOPPING is legal |
| Lifecycle.EdgeSentinel.Stop | src/edgesentinel/core/runtime.py:534-555 | Refused when never started, a no-op when already stopped, otherwise STOPPED; the gate closes exactly when nothing raised and the final state was saved |
| Lifecycle.NoWayBackToBooting | src/edgesentinel/core/state.py:38-82 | No state leads back to BOOTING, so a runtime object cannot be booted again after leaving it |
| NetworkMonitors.NetworkMonitor.CheckOnce | src/edgesentinel/network/monitor.py:147-172 | reachable is the longest passing prefix of the configured layers: a layer is reachable exactly if it and every configured layer below it pass; an event is published exactly when the status changed, and the last event tells the furthest reachable layer and whether everything passes; from a managed state the runtime ends where the status dictates by the stated hops |
| NetworkMonitors.NetworkMonitor.OnChange | src/edgesentinel/network/monitor.py:204-220 | One event, and the runtime follows if the monitor drives it |
| NetworkMonitors.ReachableByLevel | src/edgesentinel/network/monitor.py:40-47 | In terms of link, gateway, DNS and internet: which layers a poll finds reachable, and which of them is the highest |
| NetworkMonitors.NetworkMonitor.Reach | src/edgesentinel/network/monitor.py:154-166 | Checks bottom-up, skipping layers that are not configured, and stops at the first that fails or raises |
| NetworkMonitors.NetworkMonitor.ApplyToRuntime | src/edgesentinel/network/monitor.py:222-249 | Moves a managed runtime to the dictated state and leaves any other alone |
| NetworkMonitors.PassingPrefixIsUnique | src/edgesentinel/network/monitor.py:147-168 | The description of a poll result admits only one result |
| NetworkMonitors.HighestLayerDeterminesStatus | src/edgesentinel/network/monitor.py:170 | Comparing the highest reachable layer detects every change of status and no other |
| NetworkMonitors.EveryLayerIsConfigured | src/edgesentinel/network/monitor.py:142-145 | Counting configured checks equals counting configured layers in check order, each of which is polled |
| NetworkMonitors.DictatedByLayers | src/edgesentinel/network/monitor.py:228-233 | HEALTHY iff every configured layer passes, OFFLINE iff the lowest one fails |
| NetworkMonitors.HopsAreLegal | src/edgesentinel/network/monitor.py:236-241 | The hops are a path in the graph; two are needed exactly out of an outage into HEALTHY |
| StorageMonitors.StorageMonitor.CheckOnce | src/edgesentinel/storage/monitor.py:150-164 | Final reading, cleanup actions run, events and runtime state of one poll for any readings, including a usage check that raises at the start or between cleanup actions: low is reported exactly when the first reading turns low, exhaustion exactly when that reading and the ones after every cleanup action are low, recovery exactly when the last one is not |
| StorageMonitors.EnoughRoomIff | src/edgesentinel/storage/monitor.py:141-148 | There is enough room exactly if neither mark is undercut; an inode count that is not configured or not reported does not matter |
| StorageMonitors.StorageMonitor.RunCleanup | src/edgesentinel/storage/monitor.py:188-197 | The actions run are a prefix of the configured list that stops at the first reading no longer low |
| StorageMonitors.StorageMonitor.OnLow | src/edgesentinel/storage/monitor.py:166-186 | Low is published first, then recovery or, if cleanup was configured and ran out, exhaustion |
| StorageMonitors.StorageMonitor.OnRecovered | src/edgesentinel/storage/monitor.py:219-229 | One recovery event, and DEGRADED becomes HEALTHY |
| StorageMonitors.StorageMonitor.Escalate | src/edgesentinel/storage/monitor.py:276-289 | FAILED, except during a shutdown |
| StorageMonitors.LowsMinusRecoveries | src/edgesentinel/storage/monitor.py:150-229 | For the events of any sequence of polls, lows minus recoveries is 1 inside an episode and 0 outside |
| StorageMonitors.ExhaustedOncePerEpisode | src/edgesentinel/storage/monitor.py:180-186 | Between two exhaustion reports there is a recovery and a new low |
| StorageMonitors.EventsDriveTheRuntime | src/edgesentinel/storage/monitor.py:259-289 | Left alone by others, a runtime that was HEALTHY is DEGRADED during an episode, HEALTHY between episodes and FAILED for good once cleanup ran out; each move is legal and no failure or shutdown is undone |

## Left out

- BreakerRuns.RateLimitWhileNotClosed: speaks of one process; a restarted process whose timeout has elapsed on the wall clock admits its first call at once.
- BreakerRuns.StateIsAFunctionOfHistory: assumes the same threshold in every process and store writes that succeed; a failing write leaves the older record.
- BreakerRuns.WedgedRun: is built at failure_threshold 1, as is OvertakenRun; a higher threshold takes more failing calls first.
- BreakerRuns.NeverWedged: assumes calls end by returning or raising; `RestedAdmitsIff` covers cancellation.
- CrashTheorems.AttemptsAreBounded: assumes that every process registers the operation with the same max_attempts.
- DurableOperations.DurableRuntime.Execute: nothing else runs meanwhile; CrashRecovery has the interleaving. A journal write that raises is taken not to have happened.
- ReplayPasses.SettledWithinLimit: speaks of whole passes one after the other; CrashLimits.ExecutionsLeft is the statement for arbitrary runs.
- CrashReplays.ReplayIsComplete: which intents are started is stated for a registry that does not change during the replay; what is taken from the queue does not depend on it.
- Supervision.Supervisor.RegisterFailure: the set_state call of an escalation is a step of LifecycleRaces instead; publishing events does not fail.
- Reliability.RunWithRetry: a wait that is cancelled adds nothing to the time slept.
- Reliability.CallReliably: no other caller uses the breaker during the call; BreakerRuns has the interleaving.
- Backoff.TotalExponential: over real numbers; the overflow of `2.0 ** (attempt - 1)` beyond 1024 attempts is not modelled.
- IncidentHistories.TrackerShowsTheLatest: the events reach tracker and rebuild in the same order, and name a state whenever they are state changes.
- NetworkMonitors.NetworkMonitor.CheckOnce: nothing else sets the state between its two hops; the races are in LifecycleRaces. That the runtime state mirrors the connectivity at other times is not claimed: polls during initialization are not applied, and the two monitors overwrite each other's DEGRADED and HEALTHY.
- StorageMonitors.StorageMonitor.CheckOnce: as for the network monitor; what cleanup actions do to the disk shows in the readings only.
- SQLite, SQL text, threads, WAL and migrations: a database call is one atomic durable step. The created_at column is not modelled.
- JSON encoding of payloads, signature binding and the refusal of variadic parameters: a payload is an opaque value.
- Raising state-change handlers: assumed to return, as `src/edgesentinel/core/runtime.py:184-186` says they do; the loop at `src/edgesentinel/core/lifecycle.py:49-50` would let the exception through after the state has moved.
- Fresh intent ids: uuid4 is assumed never to repeat an id.
- asyncio task creation, stop() of supervisor and monitors, polling loops, real sleeps and timeouts: a timeout is an exception like any other, a negative sleep takes no time.
- Two processes on one database file: EdgeSentinel assumes one process per device.
- The event bus, log lines and event metadata that repeats configuration; publishing is assumed not to raise.
- The hardware metrics monitor (the storage monitor with the comparison turned round) and the watchdog (the supervisor's escalation rule and a flag).
- Publishers, command line, text formatting, probes, event log queries: input and output.
