# Looper: verification

Looper is a daemon that runs coding agents as supervised processes. This project models
its stateful core in Dafny and proves properties of it over all inputs, all runs and all
patterns of failure. `dafny verify dfyconfig.toml` checks the whole project.

- `Observations`, `ObservationRuns`: output callbacks, status changes and the terminal write
  of one execution, racing for its durable row.
- `LeaseLifecycle`: process handle, supervisor lease and terminal row across start, run and
  the native-resume fallback.
- `WaitLoop`: the select loop that decides exit, timeout or kill.
- `Runes`, `LogCursor`, `LogFollow`: UTF-8 boundaries (section 4 of RFC 3629), the log
  cursor, and whole runs of a log follow.
- `SpawnGate`, `LoopControl`, `GateRuns`: the refcounted spawn gate, the operations that stop
  and restart a loop, and all their interleavings.
- `Targets`, `LoopStore`: target keys, their stored form, and the transactions that keep one
  live loop per target.
- `ActiveRunViews`, `StopAll`: the projection of active runs, and stop-all's candidates and
  accounting.
- `FoldKey`, `StrictJson`: case-fold keys (section 3.13 of the Unicode Standard) and the
  strict walk over JSON tokens (section 4 of RFC 8259).
- `ShellQuote`, `CodexFold`, `CliArgs`, `BootstrapCodes`: a printer against a shell lexer
  (sections 2.2 and 2.3 of the POSIX.1-2017 Shell Command Language), an event fold with an
  index, two argument parsers that must agree, and a one-shot code store.
- `LockOrder`, `GuardRegistry`: the order of the per-loop and per-target locks, and the
  reclaimed keyed mutexes behind them.
- `Texts`, `Wrappers`, `LoopStatuses`, `QueueItems`: blanks and letter case, Option, and the
  records that several parts share.

Code that changes fields in place is a class whose methods are proved equal to functions of
the old state; the properties are lemmas about those functions. Concurrency is a step
system whose events are the critical sections of the code, so a lemma over runs is a lemma
over interleavings. What each operation answers is also stated from its inputs and events
alone, without the functions that model it. Calls into storage, processes, clocks and
randomness are inputs of the events and methods, and may fail in any pattern.

## Where the code differs from what it promises

- `internal/agent/spawn_owner.go:61-66` says that a handle refused by `BindHandle` is drained.
  `killUnowned` (`internal/runtime/active_executions.go:563-587`) can fail to do that, and
  `Start` then releases the lease over a live process. `ReleasedWhileLiveIff` gives the exact
  condition, `RefusedHandleCanLoseItsLease` a run, and `ContractGivesLeaseSafety` what the
  promise would give.
- The native-resume fallback replaces the bound handle without confirming the first one dead;
  the old group can outlive the lease (`ReplacedHandleCanOutliveTheLease`), and
  `OnlyReplacedHandlesOutlive` says exactly which processes do.
- `markExecutionCancelling` writes the row outside the execution's lock. A callback in flight
  or the fallback's ownership write can put running over its cancelling, and its own write
  back can lower the heartbeat count and bring older output back (`MarkerCanBeOverwritten`,
  `MarkerCanLowerTheCount`). The ownership write stores no heartbeat and lowers the count too
  (`OwnershipWriteLowersIff`). `StatusStepsBackIff` and `CountStepsBackIff` give the exact
  condition for one step of any writer, `StatusIsOneWay` and `LiveRunsOnlyGrow` over runs.
- The hand-over from inline text to the file repeats text when the file is behind what was
  shown (`HandOverIsExactIff`, `CaughtUpIsTheCondition`); over runs
  `DeliveryIsContiguous` gives the exact condition.
- Start and retry differ when nothing is published: a retry then closes the gate again, a
  start whose transaction commits does not (`UnproductiveReactivationKeepsGateIff`).
- Stops take no lock, so one that falls between a start's or a publishing retry's clear and
  its commit leaves a live loop that may not spawn (`ReactivatedLoopCanStayClosed`);
  `ReactivatedButClosedIff` is the exact condition over every such run.
- Start checks uniqueness with `LoopTargetKey` of `internal/domain/domain.go:222-232`, which
  keeps the spelling of the repository, while the other paths fold it. `StartKeepsInvIff` is
  the exact condition for one start, `UniqueOverEveryHistory` over histories, and
  `StartCanDuplicateAFixer` a case.

## Model

| member | source | states |
|---|---|---|
| Observations.AgentExecutions.Upsert | internal/storage/repositories.go:2353-2398 | One storage write: a terminal row takes only its own status again, a refused write is reported as a conflict and changes nothing, and a failing write changes nothing. |
| Observations.AgentExecutions.UpsertRetrying | internal/agent/executor.go:2278-2291 | At most one retry, only after a busy report, and none once the context has ended. |
| Observations.WriteAnswers | internal/storage/repositories.go:2353-2398 | A write is stored exactly when it reaches storage and the row is not terminal with another status; each other answer has its exact cause and changes nothing. |
| Observations.AppendTail | internal/agent/executor.go:3394-3400 | The kept output is a suffix of everything appended, never above the bound, and everything when that fits. |
| Observations.LiveStatus | internal/agent/executor.go:2399-2418 | A live observation is only ever running or cancelling, and cancelling exactly for cancelling, timeout and killed. |
| Observations.Execution.TakeOutputLocked | internal/agent/executor.go:1948-1984 | The locked part of an output callback: counts the beat, appends to the right stream, and the returned snapshot is the memory it leaves. |
| Observations.Execution.LiveObservationStatus | internal/agent/executor.go:2404-2418 | The status sample agrees with LiveStatus. |
| Observations.Execution.PersistStatus | internal/agent/executor.go:2106-2188 | A live write drops stale observations, keeps cancelling one-way, stores at most one record and remembers it only when it was stored. |
| Observations.Execution.PersistFinal | internal/agent/executor.go:2192-2274 | The terminal write closes the gate when it is stored or when a terminal row already won, and not when storage failed. |
| Observations.Execution.OnOutput | internal/agent/executor.go:1948-2000 | A callback run alone: its snapshot, its sample and its write, in that order. |
| ObservationRuns.StepPreserves | internal/agent/executor.go:1948-2274 | Every critical section of every writer, in any state, keeps the invariant that ties row, writer and history together. |
| ObservationRuns.ReachableInv | internal/agent/executor.go:1948-2274 | The invariant holds over every interleaving and every pattern of write failures. |
| ObservationRuns.CallbackStoresItsSnapshot | internal/agent/executor.go:2106-2188 | From every reachable state a callback that reaches storage over a live row and is not stale leaves exactly its count, time and output, cancelling exactly if it or the last write was; a stale one only brings a first cancelling. |
| ObservationRuns.OwnershipAndTerminalWritesLand | internal/agent/executor.go:2192-2274 | A terminal write that reaches storage over a live row leaves exactly its record and closes the gate; an ownership write leaves a row without beats. |
| ObservationRuns.FailedWritesChangeNothing | internal/agent/executor.go:2106-2274 | A write that does not reach storage changes neither the row nor what the writer remembers. |
| ObservationRuns.LiveRowIsTheFreshest | internal/agent/executor.go:2106-2188 | Over every run without a lowering step the live row's count is exactly the largest that a callback brought to storage. |
| ObservationRuns.StreamsAreKeptApart | internal/agent/executor.go:1948-1984 | Over every run each stream in memory is the bounded tail of exactly its own chunks since the last reset, and the count is that of all beats. |
| ObservationRuns.LiveWriteNeverLowers | internal/agent/executor.go:2106-2188 | From every reachable state one live write never lowers the durable heartbeat count, leaves exactly the output of the row's own count, and never touches a terminal row. |
| ObservationRuns.LiveRunsOnlyGrow | internal/agent/executor.go:1948-2188 | Over every run of all writers the live row never loses beats exactly when no step is an ownership write over beats or a marker that read the row before it grew; its output is always that of its own count. |
| ObservationRuns.TerminalIsForever | internal/agent/executor.go:2192-2274 | Once the terminal observation is recorded no live, ownership or marker write changes the row, and no other terminal write changes its status. |
| ObservationRuns.StatusIsOneWay | internal/agent/executor.go:2106-2274 | Over every run of all writers the durable status moves only running, cancelling, terminal, exactly when no step of the run reopens a row that the stop path marked. |
| ObservationRuns.WithoutMarkerNothingReopens | internal/agent/executor.go:2106-2188 | In a run without the stop path's marker no step reopens, whatever the other writers do. |
| ObservationRuns.StatusStepsBackIff | internal/agent/executor.go:2106-2188 | A step of any writer moves the durable status backward exactly when it says running, reaches storage, and the row was marked cancelling while this execution never persisted that itself. |
| ObservationRuns.CountStepsBackIff | internal/agent/executor.go:2106-2188 | A step of any writer lowers a live row's count exactly when it is a stored ownership write over beats or the write back of a marker that read fewer beats. |
| ObservationRuns.CancellingLands | internal/agent/executor.go:2106-2188 | A sampled cancelling that reaches storage is recorded however stale its snapshot is, without lowering the count. |
| ObservationRuns.OwnershipWriteLowersIff | internal/agent/executor.go:1734-1736 | The ownership write lowers the count exactly when it reaches storage over a live row that already counts beats. |
| ObservationRuns.LiveWriteReopensIff | internal/agent/executor.go:2106-2188 | A callback turns a marked row back to running exactly when this execution never persisted cancelling itself and the callback sampled running, is fresh enough and reaches storage. |
| ObservationRuns.OwnershipWriteReopensIff | internal/agent/executor.go:1734-1736 | The fallback's ownership write does so exactly when it reaches storage over such a row. |
| ObservationRuns.MarkerLowersCountIff | cmd/looperd/main.go:1317-1339 | The marker's write back lowers the count exactly when it is stored over a live row that gained beats since the marker read it. |
| ObservationRuns.MarkerCanBeOverwritten | cmd/looperd/main.go:1317-1339 | Such runs exist: marked cancelling, then running again by a callback in flight or by an ownership write. |
| ObservationRuns.MarkerCanLowerTheCount | cmd/looperd/main.go:1317-1339 | And one in which the marker takes a stored beat and its output away. |
| LeaseLifecycle.Handle.Drain | internal/agent/executor.go:2371-2391 | A drain confirms death or fails; a confirmed handle is not signalled again. |
| LeaseLifecycle.Owner.ReleaseLease | internal/agent/executor.go:1078-1095 | An owned lease is released only when no bound handle may still be live. |
| LeaseLifecycle.Owner.EnsureConfirmedDeadBeforeTerminal | internal/agent/executor.go:2371-2391 | Says yes exactly when the bound handle is confirmed dead, after one drain at most. |
| LeaseLifecycle.Owner.ReapOnOwnershipPersistFailure | internal/agent/executor.go:919-947 | After a failed ownership write the new process is killed, and Start keeps its lease out of the deferred release when that is not confirmed. |
| LeaseLifecycle.StepPreserves | internal/agent/executor.go:698-947 | Every step of Start, run and the native-resume fallback, with any outcome of what it calls, keeps the invariant. |
| LeaseLifecycle.LeaseAndTerminalRowAreSafe | internal/agent/executor.go:1382-1396 | In every reachable state a terminal row means a dead bound handle; a released lease leaves a live one exactly when Start failed after a refusal of the handle that did not drain it and nothing has killed it since. |
| LeaseLifecycle.TerminalWriteNeedsConfirmedDeath | internal/agent/executor.go:1382-1396 | The terminal row can only be written with the bound handle confirmed dead. |
| LeaseLifecycle.ReleasedWhileLiveIff | internal/agent/executor.go:1078-1095 | Once Start or run is over, the lease is gone from a live handle exactly when a refused bind left it undrained. |
| LeaseLifecycle.ContractGivesLeaseSafety | internal/agent/spawn_owner.go:61-66 | When a refused bind always drains, as the lease contract says, no lease is ever released over a live bound handle. |
| LeaseLifecycle.KeptOnlyOverLiveHandle | internal/agent/executor.go:2342-2366 | A lease is kept, or orphaned by Start, only over a handle that is live at that moment. |
| LeaseLifecycle.LiveProcessesIff | internal/agent/executor.go:1587-1737 | In every reachable state the live processes are the bound one and those that the fallback replaced alive and nothing has killed since. |
| LeaseLifecycle.OnlyReplacedHandlesOutlive | internal/agent/executor.go:1587-1737 | After a finished run released its lease, a process is live exactly when the fallback replaced it while it was not confirmed dead and nothing has killed it since. |
| LeaseLifecycle.TerminalRowIff | internal/agent/executor.go:1382-1396 | Over every run the row is terminal exactly when a terminal write was stored. |
| LeaseLifecycle.ConfirmPassesIff | internal/agent/executor.go:2371-2391 | The check before the terminal write passes exactly when the bound handle was dead or the drain confirms it. |
| LeaseLifecycle.RunGivesUpIff | internal/agent/executor.go:1299-1396 | A run ends without a terminal write exactly when the bound handle stays live, the rebind is restricted, or the fallback's ownership write failed. |
| LeaseLifecycle.StartFailsIff | internal/agent/executor.go:698-918 | What makes Start fail, step by step, and that a failed ownership write leads to the kill. |
| LeaseLifecycle.FallsBackIff | internal/agent/executor.go:1587-1612 | The fallback is entered only by an exit that calls for it and never once cancelled; its process is killed exactly when its ownership write fails. |
| LeaseLifecycle.NoLeaseIsForgotten | internal/agent/executor.go:2342-2366 | At its end Start has released its lease, never had one, or orphaned it after a kill that was not confirmed; a run has released or keeps it. |
| LeaseLifecycle.CancelStopsNewProcesses | internal/agent/executor.go:1587-1600 | Over every run after a cancellation no new process is bound, apart from one whose spawn was under way. |
| LeaseLifecycle.RefusedHandleCanLoseItsLease | internal/runtime/active_executions.go:377-440 | A run in which the bind is refused, the kill is not confirmed, and Start drops the lease over a live handle. |
| LeaseLifecycle.ReplacedHandleCanOutliveTheLease | internal/agent/executor.go:1587-1737 | A run in which the first group outlives its leader, is replaced by the fallback and is live after the lease is gone. |
| WaitLoop.Runner.TerminateSignal | internal/agent/executor.go:1140-1161 | SIGTERM, the grace timer and their bookkeeping happen at most once. |
| WaitLoop.Runner.OnDeadline | internal/agent/executor.go:1179-1218 | The runtime deadline looks for exit, kill, cancellation and exit again before it decides a timeout. |
| WaitLoop.Runner.OnIdleTick | internal/agent/executor.go:1219-1263 | The idle tick does the same, and also looks at the idle time twice. |
| WaitLoop.Runner.Select | internal/agent/executor.go:1176-1287 | One choice of the select, with everything it changes. |
| WaitLoop.Runner.Wait | internal/agent/executor.go:1129-1287 | The whole loop: its effects and its final status for every sequence of choices. |
| WaitLoop.OutcomeFollowsTheChoices | internal/agent/executor.go:2426-2443 | From the choices alone: when the loop is over, and that it answers timeout if a timer decided, else killed if a kill came before the exit was seen, else completed or failed by the exit code. |
| WaitLoop.SignalsFollowTheChoices | internal/agent/executor.go:1140-1161 | From the choices alone: SIGTERM, the grace timer and the group kills are sent exactly after a decision, by what SIGTERM reported and whether the grace timer ran out. |
| WaitLoop.TimeoutIffTimerDecides | internal/agent/executor.go:1176-1287 | For every order of events the run is timed out exactly when a ready timer found no exit, kill or cancellation and none was seen before. |
| WaitLoop.LaterKillsDoNotMatter | internal/agent/executor.go:2426-2443 | Whatever comes after a timeout or a kill, the final status stays. |
| WaitLoop.SignalsAreBounded | internal/agent/executor.go:1129-1287 | At most one SIGTERM and one grace timer right after it; no group kill before SIGTERM, and one after every SIGTERM that did not find the group gone. |
| Runes.FullRuneIff | internal/api/loop_logs_stream.go:550-568 | Go's FullRune and the RFC 3629 grammar agree: not full means empty or the start of a rune. |
| Runes.Utf8ChunkBoundary | internal/api/loop_logs_stream.go:550-568 | The boundary scan finds where the unfinished rune at the end begins, for any bytes. |
| Runes.HeldBackIsShort | internal/api/loop_logs_stream.go:550-568 | At most three bytes are held back, and they start a rune. |
| Runes.BoundaryKeepsRunesWhole | internal/api/loop_logs_stream.go:550-568 | On a growing UTF-8 log what is left of the boundary is whole runes. |
| Runes.AlignedPrefixEndsBeforeBoundary | internal/api/loop_logs_stream.go:550-568 | Every rune-aligned prefix ends at or before the boundary. |
| Runes.LeadByteIsBoundary | internal/api/loop_logs_stream.go:543-548 | In a growing UTF-8 log every byte that is not a continuation starts a rune. |
| Runes.TrimIncompletePrefix | internal/api/loop_logs_stream.go:543-548 | Drops exactly the leading continuation bytes. |
| Runes.TrimFindsBoundary | internal/api/loop_logs_stream.go:543-548 | A tail cut anywhere, once trimmed, starts between runes and has lost at most three bytes. |
| Runes.SplitChunk | internal/api/loop_logs_stream.go:439-450 | The two parts are the content, the first is non-empty and bounded, and valid text stays whole runes on both sides. |
| Runes.WriteChunks | internal/api/loop_logs_stream.go:414-437 | The pieces put on the wire are the content, each non-empty, bounded, and whole runes for valid text. |
| LogCursor.CutWhole | internal/api/loop_logs_stream.go:504-511 | What is kept of a read ends at the last whole rune. |
| LogCursor.ReadSnapshot | internal/api/loop_logs_stream.go:513-541 | The snapshot is the end of the file, trimmed at its front when it was cut. |
| LogCursor.FileCursor.Open | internal/api/loop_logs_stream.go:270-297 | A new cursor holds the snapshot and stands at its end, or keeps only the inline text when there is no file. |
| LogCursor.FileCursor.ReadNext | internal/api/loop_logs_stream.go:452-511 | One read: a lost file resets the cursor, a replaced or shorter file is read from the start, and each failure leaves the position alone. |
| LogCursor.FileCursor.Drain | internal/api/loop_logs_stream.go:246-268 | The drain stops, and gives the chunks of repeated reads even while the file changes under it. |
| LogCursor.FileCursor.UpdateSingle | internal/api/loop_logs_stream.go:202-244 | A state refresh: which text it emits and what becomes of the cursor, in all its branches. |
| LogCursor.ReadMakesProgress | internal/api/loop_logs_stream.go:246-268 | A read that gave text leaves strictly less to read. |
| LogCursor.ReadNextSays | internal/api/loop_logs_stream.go:452-511 | What one read gives and where the cursor then stands: no path, a lost file, a replaced or shorter one, any other, and each failure. |
| LogFollow.DrainDeliversTheFile | internal/api/loop_logs_stream.go:246-268 | For any bytes at all a drain delivers the file from the old offset to the new one in bounded pieces and leaves at most three bytes, the start of a rune. |
| LogFollow.DrainKeepsRunesWhole | internal/api/loop_logs_stream.go:452-511 | On a UTF-8 file every drained chunk is whole runes and the new offset is again between runes. |
| LogFollow.StartInv | internal/api/loop_logs_stream.go:183-200 | The first event is one segment of the stream, begun between runes, that ends where the cursor stands. |
| LogFollow.StartShowsTheTail | internal/api/loop_logs_stream.go:270-297 | A new follow shows all that fits the snapshot bound but for a few bytes of cut runes, of the file when there is one, and stands at its end. |
| LogFollow.InlineEmits | internal/api/loop_logs_stream.go:233-237 | Without a file a refresh emits exactly the inline text that is new. |
| LogFollow.SwitchDeliversTheOldRest | internal/api/loop_logs_stream.go:209-223 | When another log takes over, the rest of the old file comes first, then what the new log or inline text adds. |
| LogFollow.StepKeepsInvIff | internal/api/loop_logs_stream.go:202-297 | Growth, refreshes, reads and drains each extend that one segment; a hand-over does so exactly when it meets its condition. |
| LogFollow.DeliveryIsContiguous | internal/api/handler_loop_routes.go:160-270 | Over every run snapshot and chunks stay one segment of the stream ending at the cursor, with nothing lost, repeated or cut inside a rune, exactly when every hand-over meets its condition. |
| LogFollow.TerminalDrainDeliversAll | internal/api/handler_loop_routes.go:230-262 | After a run whose hand-overs meet the condition, a terminal drain leaves only an unfinished rune of the file, and all delivered text is UTF-8. |
| LogFollow.EveryChunkIsBoundedRunes | internal/api/loop_logs_stream.go:452-511 | Every chunk read on the way is whole runes within the wire bound. |
| LogFollow.HandOverIsExactIff | internal/api/loop_logs_stream.go:224-232 | The hand-over from inline text to the file continues the segment exactly when the shown text starts a snapshot of the whole file or the snapshot starts where it ended. |
| LogFollow.CaughtUpIsTheCondition | internal/api/loop_logs_stream.go:577-588 | Within the snapshot bound that is exactly when the file is not behind the inline text. |
| SpawnGate.HoldThenDrop | internal/runtime/active_executions.go:893-925 | A hold given back leaves the gate as found. |
| SpawnGate.RetiredReleaseIsInert | internal/runtime/active_executions.go:945-962 | A release taken before a clear does nothing to a later gate. |
| SpawnGate.ActiveExecutionRegistry.IncLoopStop | internal/runtime/active_executions.go:937-945 | One more hold of the live generation, or the first of a new one; other loops' gates stay. |
| SpawnGate.ActiveExecutionRegistry.BeginLoopStop | internal/runtime/active_executions.go:893-925 | Closes the loop's gate and hands out a release for exactly that generation. |
| SpawnGate.ActiveExecutionRegistry.ClearLoopStop | internal/runtime/active_executions.go:963-977 | Opens the gate and says whether it was closed. |
| SpawnGate.ActiveExecutionRegistry.RestoreLoopStop | internal/runtime/active_executions.go:992-1006 | Adds a hold that nothing gives back. |
| SpawnGate.StopRelease.Run | internal/runtime/active_executions.go:906-924 | Drops its hold once, and only in its own generation. |
| LoopControl.HaltSucceedsIff | cmd/looperd/main.go:603-787 | A halt succeeds exactly when everything it tried succeeded and no live process was left unowned. |
| LoopControl.SignaledIff | cmd/looperd/main.go:690-787 | It reports a signal exactly when a live agent was killed or signalled and marked. |
| LoopControl.AnswersDecideTheOutcome | cmd/looperd/main.go:603-787 | From the answers alone: whether a halt succeeds, and exactly when it says signalled, already finished, already stopping or only paused. |
| LoopControl.LiveExecutionIsStopped | cmd/looperd/main.go:683-787 | A halt that succeeds over a live execution asked the registry to kill it and marked what was killed; without a registry it signalled and marked it when its PID was confirmed. |
| LoopControl.GateComesFirst | cmd/looperd/main.go:655-682 | With a registry the gate closes once and before anything else. |
| LoopControl.TerminateIsLast | cmd/looperd/main.go:604-618 | Only a close terminates, as its last effect, and whenever it succeeds. |
| LoopControl.NothingIrreversibleBeforePark | cmd/looperd/main.go:603-650 | In a stop or takeover no lease cancel, kill or signal comes before the durable pause or hold, and no read after it. |
| LoopControl.CloseReadsFirst | cmd/looperd/main.go:561-602 | A close does nothing irreversible before its preflight reads have succeeded. |
| LoopControl.UnproductiveReactivationKeepsGateIff | internal/api/handler_loop_retry.go:180-191 | A retry without new work leaves the gate as found; a start does so exactly when it failed or the gate was open. |
| LoopControl.LoopController.Halt | cmd/looperd/main.go:603-787 | A stop keeps its hold whatever happens next; a close keeps it just when it succeeds. |
| LoopControl.LoopController.Stop | cmd/looperd/main.go:434-436 | A stop past its pause leaves the loop paused and the gate closed, whatever fails afterwards. |
| LoopControl.LoopController.Close | cmd/looperd/main.go:438-440 | A successful close leaves the gate closed; a failed one leaves status and gate as found. |
| LoopControl.LoopController.Takeover | cmd/looperd/main.go:447-560 | A takeover past its hold leaves the loop with the human and the gate closed, whatever fails afterwards. |
| LoopControl.LoopController.Retry | internal/api/handler_loop_retry.go:160-360 | Run alone, a retry that publishes work leaves the gate open; any other leaves status and gate as found, closed or open. |
| LoopControl.LoopController.Start | internal/api/handler.go:3193-3284 | Run alone, a start whose transaction commits leaves the gate open; a failed one leaves it as closed or open as it was. |
| GateRuns.CountPreserved | internal/runtime/active_executions.go:893-1006 | Over every interleaved step the refcount is the number of outstanding holds of the live generation. |
| GateRuns.StepPreserves | cmd/looperd/main.go:447-787 | Every step of every operation keeps the gate invariant. |
| GateRuns.ReachableInv | cmd/looperd/main.go:447-787 | It holds over every interleaving and every pattern of failures. |
| GateRuns.ClosedUntilCleared | internal/runtime/active_executions.go:868-880 | A kept hold keeps admission closed over every run without a clear. |
| GateRuns.StickyStepsCloseTheGate | cmd/looperd/main.go:655-682 | A stop past its park, the planner's stop of a work graph and a failed reactivation's restore close the gate for good. |
| GateRuns.CloseKeepsTheGateClosed | internal/api/handler.go:2247-2253 | So does a successful close, because it holds the loop lock. |
| GateRuns.WindowOpensGateIff | cmd/looperd/main.go:1218-1229 | A failed close or an ended kill window opens the gate exactly when its hold was the last of the live generation. |
| GateRuns.FencedLoopAdmitsNoSpawn | internal/runtime/active_executions.go:945-1006 | A loop that a stop or takeover closed while parked, and that nothing unparked since, admits no spawn, whatever raced with it, except while a retry or start is under way. |
| GateRuns.ClosedIff | internal/runtime/active_executions.go:893-945 | The gate is closed exactly when a hold taken since the last clear is outstanding: one kept for good, or that of an open window. |
| GateRuns.CommitLeavesClosedIff | internal/api/handler_loop_retry.go:180-191 | A start that commits, or a retry that publishes, leaves the gate closed exactly when a hold taken since its clear is outstanding. |
| GateRuns.ReactivatedButClosedIff | internal/api/handler.go:3193-3284 | Over every run between a start's or retry's clear and its commit, the reactivated loop may not spawn exactly when it was stopped for good in between or a window opened in between is still open. |
| GateRuns.ReactivatedLoopCanStayClosed | internal/api/handler.go:3193-3284 | Such a run exists for a start, which leaves the loop running, and for a retry, which leaves it queued. |
| Targets.NormalizeProject | internal/api/handler.go:3904-3910 | The prefix loop ends with no prefix left and agrees with the reference. |
| Targets.StrippedIs | internal/api/handler.go:3904-3910 | Normalizing takes off prefixes and nothing else. |
| Targets.ScanOfDecimal | internal/api/handler.go:3891-3893 | A printed 64-bit issue number scans back to itself. |
| Targets.KeyIffSameTarget | internal/api/handler.go:3814-3825 | Two targets have one key exactly when they have the same kind, project or repository, and number, up to the folds of that kind. |
| Targets.IssueRoundTrip | internal/api/handler.go:3874-3902 | An issue record gives back the target it was built from. |
| Targets.ParsedKey | internal/api/handler.go:3854-3902 | A written record parses, and unless it is a project's it has its target's key. |
| LoopStore.AssertUniqueActive | internal/api/handler.go:3827-3852 | The scan reports a conflict exactly when another live loop of that project, type and key exists, project workers aside. |
| LoopStore.FindReusable | internal/api/handler_loop_create.go:844-865 | The first live worker on the issue or its effective target, unless an unreadable one comes first. |
| LoopStore.ReuseIsNeverBroken | internal/api/handler_loop_create.go:844-865 | Over written records the reuse scan never fails, and finding nothing means there is nothing. |
| LoopStore.Store.CreateLoop | internal/api/handler_loop_create.go:177-256 | Creates the loop in its candidate status or changes nothing, and keeps the invariant. |
| LoopStore.Store.CreateWorker | internal/api/handler_loop_create.go:539-667 | Reuses, creates or refuses; keeps the invariant; a reuse adds no loop. |
| LoopStore.Store.CreatePlanner | internal/api/handler_loop_create.go:1182-1240 | Creates the planner loop or changes nothing, and keeps the invariant. |
| LoopStore.Store.Retry | internal/api/handler_loop_retry.go:195-338 | Queues the loop or changes nothing, and keeps the invariant. |
| LoopStore.CreateCommitsIff | internal/api/handler_loop_create.go:177-256 | A create commits exactly when storage does, its target can be asked for, and no live loop of that project and type works on it; it appends just that loop. |
| LoopStore.PlannerCommitsIff | internal/api/handler_loop_create.go:1182-1240 | The same for a planner on an issue, which starts running. |
| LoopStore.NewWorkerCommitsIff | internal/api/handler_loop_create.go:539-667 | The same for a worker request that no live worker serves; it appends a queued worker on its pull request, the planned one, its issue or its project. |
| LoopStore.ReuseCommitsIff | internal/api/handler_loop_create.go:867-891 | A request that live workers serve takes the first, commits unless it forces a running one, and queues it only if it was idle or paused. |
| LoopStore.RetryCommitsIff | internal/api/handler_loop_retry.go:195-338 | A retry commits exactly when storage does, the loop was not stopped, terminated or completed, and no other live loop works on its target. |
| LoopStore.StartCommitsIff | internal/loops/reactivation.go:147-182 | A start commits exactly when storage does and no other live loop has its target in the same spelling. |
| LoopStore.SettlingKeepsInv | internal/domain/domain.go:198-215 | Moving between live statuses, or out of them, keeps the invariant. |
| LoopStore.UniqueOverEveryHistory | internal/api/handler.go:3827-3852 | Over every history of creations, retries, starts and settlings, two live loops of one project, type and key are project workers in every state, exactly when no start commits over a live loop that spells its pull request differently. |
| LoopStore.StartKeepsInvIff | internal/loops/reactivation.go:147-182 | A start keeps that invariant exactly when no live loop names the same pull request in another spelling. |
| LoopStore.StartCanDuplicateAFixer | internal/loops/reactivation.go:147-182 | Two spellings of one pull request let a start make a second fixer live. |
| ActiveRunViews.RunningRuns | internal/api/handler.go:2368-2403 | The pass over runs shows each loop with a plausibly live latest run once. |
| ActiveRunViews.LoopPass | internal/api/handler.go:2405-2541 | Each pass over the loops shows exactly the loops it wants, once. |
| ActiveRunViews.Exclude | internal/api/handler.go:2553-2569 | Keeps exactly the views of loops not shown before. |
| ActiveRunViews.BuildActiveRunViews | internal/api/handler.go:2338-2551 | The list has exactly the one expected view of every loop that should be shown and builds, or fails exactly when such a loop's target fails. |
| ActiveRunViews.ExpectedSays | internal/api/handler.go:2338-2551 | On the inputs alone: whether a loop is to be shown as a running run, a running loop, queued or inactive, and with which run. |
| ActiveRunViews.EachLoopIsShownAsItIs | internal/api/handler.go:2338-2551 | In the finished list a loop that builds has exactly that view, and any other loop none. |
| ActiveRunViews.OneLiveRun | internal/api/handler.go:2877-2888 | A loop has at most one plausibly live run. |
| ActiveRunViews.AllLoopsAreShownOnce | internal/api/handler.go:2477-2551 | In the all-loops mode every loop that builds is shown exactly once, whatever else was read. |
| StopAll.CollectCandidates | cmd/looperd/main.go:1001-1099 | The candidates are exactly the stored loops with a running run, a live status, a live queue item or an active execution, each once, by sequence and id. |
| StopAll.WhoIsStopped | cmd/looperd/main.go:1001-1099 | On what is stored: a loop is a candidate exactly when it is queued, running or waiting, has a running run, a live queue item, or an active execution of its own or of its run. |
| StopAll.CandidatesAreBySequence | cmd/looperd/main.go:1091-1097 | Candidates come by sequence number, then by id as text. |
| StopAll.BestRunIs | cmd/looperd/main.go:1022-1031 | A candidate carries the first running run of its loop, or else its first run. |
| StopAll.ExecutionsAre | cmd/looperd/main.go:1033-1048 | It carries exactly its loop's executions, in stored order. |
| StopAll.IndexExecutions | cmd/looperd/main.go:1033-1048 | Executions are grouped under their own loop or else their run's. |
| StopAll.ClassifyCandidate | cmd/looperd/main.go:1162-1193 | Classifies by running executions first, then cancelling ones, then a finished run. |
| StopAll.ClassifyIff | cmd/looperd/main.go:1162-1193 | A candidate is passed over exactly when no agent runs, the loop is not queued, running or waiting, no queue item is live, and it is cancelling or its run is over. |
| StopAll.FoldExecutions | cmd/looperd/main.go:900-916 | The loop over a candidate's executions is the fold of their answers. |
| StopAll.FailureIsNeverMasked | cmd/looperd/main.go:948-999 | The item fails exactly when some execution did, with the first message that is not empty. |
| StopAll.WorstOutcomeWins | cmd/looperd/main.go:948-999 | Without a failure the worst outcome wins: only paused, then signalled, then already stopping, then finished. |
| StopAll.ItemReports | cmd/looperd/main.go:859-926 | What a candidate's item says: passed over only if nothing of it is busy, else its stop's worst answer, what failed, or what the reread found. |
| StopAll.ExecutionFailureReachesTheItem | cmd/looperd/main.go:898-925 | An execution that could not be stopped makes the loop's item a failure to the end. |
| StopAll.StopCandidate | cmd/looperd/main.go:859-926 | One candidate's item in all branches of the stop, its fallback and the rereads. |
| StopAll.Summarize | cmd/looperd/main.go:928-945 | Each counter counts its result, and the five add up to the total. |
| StopAll.StopAllLoops | cmd/looperd/main.go:836-946 | One item per candidate, in order, all accounted for. |
| FoldKey.OrbitSym | internal/api/request_decode.go:193-208 | With finite orbits reachability under folding is symmetric. |
| FoldKey.FoldRune | internal/api/request_decode.go:198-205 | The inner loop ends and finds the least rune of the orbit. |
| FoldKey.FieldFoldKey | internal/api/request_decode.go:195-208 | The key is the name with every rune so replaced. |
| FoldKey.KeyIffFoldEqual | internal/api/request_decode.go:184-208 | Two names have one key exactly when they are fold-equal rune by rune. |
| StrictJson.Decoder.CanonicalName | internal/api/request_decode.go:184-191 | Finds a fold-equal field exactly when there is one. |
| StrictJson.Decoder.SkipToken | internal/api/request_decode.go:217-230 | Skips the rest of exactly one balanced value. |
| StrictJson.Decoder.SkipValue | internal/api/request_decode.go:210-215 | Skips exactly one value. |
| StrictJson.Decoder.WalkToken | internal/api/request_decode.go:101-178 | Accepts exactly when every schema-owned object has fold-distinct names in canonical spelling, and then has read exactly this value. |
| StrictJson.AcceptsIff | internal/api/request_decode.go:101-178 | The check accepts exactly when every object that the schema owns, however deep, has fold-distinct names in canonical spelling. |
| StrictJson.StripIs | internal/api/request_decode.go:107-110 | Stripping takes off all pointers. |
| StrictJson.Decoder.WalkValue | internal/api/request_decode.go:93-99 | The same from the value's first token. |
| StrictJson.Decoder.WalkFields | internal/api/request_decode.go:118-149 | The one-pass check with the seen map agrees with comparing all pairs of names. |
| StrictJson.Decoder.WalkMap | internal/api/request_decode.go:150-162 | A map's values are checked, its keys are free. |
| StrictJson.Decoder.WalkSlice | internal/api/request_decode.go:163-174 | Every element is checked. |
| ShellQuote.QuotingRoundTrip | internal/agent/executor.go:2636-2644 | For every string, lexing its quoted form gives exactly one word, that string, which the shell will not expand. |
| ShellQuote.QuotedOnlyIfNeeded | internal/agent/executor.go:2636-2644 | A string is left as it is exactly when it is not empty and has no special character. |
| ShellQuote.QuotedStringStartsAWord | internal/agent/executor.go:2636-2644 | In any context a quoted string is read literally. |
| ShellQuote.BlankSeparates | internal/agent/executor.go:2626-2630 | A text that lexes on its own, a blank and more lex to both in turn. |
| ShellQuote.WordsOfArguments | internal/agent/adapter.go:38-58 | The resume arguments lex to exactly the intended words. |
| ShellQuote.TakeoverLineIff | internal/agent/executor.go:2616-2634 | There is a line exactly for a vendor with takeover and a session id that is not blank. |
| ShellQuote.TakeoverLineRoundTrip | internal/agent/executor.go:2616-2634 | The takeover line, read by the shell, changes to the directory, then gives the command's own lexemes and the resume words, with directory and session id unchanged and unexpanded. |
| CodexFold.Translator.UpsertTool | internal/agent/codex_jsonl.go:108-122 | Updating through the index is updating by linear scan; each id occurs once and the index maps it to its place. |
| CodexFold.Translator.IngestLine | internal/agent/codex_jsonl.go:48-104 | One line is one step of the fold, and lines that are not objects change nothing. |
| CodexFold.Translator.IngestAll | internal/agent/codex_jsonl.go:176-181 | A blob is its lines in order. |
| CodexFold.IncrementalAgrees | internal/agent/codex_jsonl.go:176-181 | Ingesting two pieces joined by a newline is ingesting one and then the other. |
| CodexFold.ToolsTellTheCommands | internal/agent/codex_jsonl.go:106-122 | An id is listed exactly when an event mentioned it, with the last command that was not blank. |
| CodexFold.ToolsTellTheEvents | internal/agent/codex_jsonl.go:48-122 | The tool list has one entry per id in order of first mention, with the status and output of its last event, and one per completion without an id. |
| CodexFold.RestTellsTheEvents | internal/agent/codex_jsonl.go:48-104 | Thread, final text and error are the last ones given, and the run is over exactly when a turn completed or failed. |
| CodexFold.CommandIsNeverBlanked | internal/agent/codex_jsonl.go:106-122 | A recorded command that is not blank stays so, at its place, over any further lines. |
| CliArgs.SplitGlobalFlags | cmd/looper/main.go:250-300 | The index loop agrees with the routing of the argument list. |
| CliArgs.RouterAnswers | cmd/looper/main.go:250-300 | The router accepts exactly when every global flag has a value, there is a verb, and flags stand where they may; it gives verb, operands and global flags in order. |
| CliArgs.GlobalsAre | cmd/looper/main.go:239-300 | The global flags are the three names, with the value behind the first equals sign or in the next argument. |
| CliArgs.SplitRetryArgs | cmd/looper/retry.go:106-165 | The index loop agrees with the scan of the retry arguments. |
| CliArgs.ParsersAgree | cmd/looper/retry.go:104-165 | Whenever the retry parser accepts, the router accepts with the verb retry, the same global flags in order, and operands that reduce to the same selector. |
| CliArgs.RetryAcceptsIff | cmd/looper/retry.go:106-165 | The retry parser accepts exactly the lines that the router accepts with retry as first word, only known flags before --, and one loop id that is not blank; it gives that id, each flag exactly when it is there, and all global flags. |
| CliArgs.GlobalFlagsMoveFreely | cmd/looper/main.go:239-300 | Removing all global flags before -- changes neither verb nor operands, and the router kept exactly those flags in order. |
| BootstrapCodes.Store.PurgeExpired | internal/api/bootstrap_codes.go:96-102 | Exactly the unexpired codes stay. |
| BootstrapCodes.Store.Mint | internal/api/bootstrap_codes.go:44-67 | Purges, refuses when full, and otherwise stores the code with its expiry. |
| BootstrapCodes.MintSucceedsIff | internal/api/bootstrap_codes.go:44-67 | A mint succeeds exactly when a code was drawn and fewer than the capacity are held unexpired; the store then holds those and the new one. |
| BootstrapCodes.Store.Exchange | internal/api/bootstrap_codes.go:71-94 | Consumes an unexpired code, once. |
| BootstrapCodes.TrimBootstrapCode | internal/api/bootstrap_codes.go:104-117 | The two trimming loops agree with the reference. |
| BootstrapCodes.TrimmedCode | internal/api/bootstrap_codes.go:104-117 | Trimming takes off exactly the blanks at both ends. |
| BootstrapCodes.StoreIsTheLog | internal/api/bootstrap_codes.go:44-102 | The store holds exactly the minted, unspent codes that no purge has seen expired. |
| BootstrapCodes.OneExchangePerMint | internal/api/bootstrap_codes.go:44-102 | With any clock a code is exchanged at most as often as it was minted, and the store stays within its capacity. |
| BootstrapCodes.ExchangeSucceedsIff | internal/api/bootstrap_codes.go:71-102 | With any clock an exchange succeeds exactly for an unspent code that neither it nor an earlier purge finds expired. |
| BootstrapCodes.PurgingIsInvisible | internal/api/bootstrap_codes.go:71-102 | With a clock that never goes back it succeeds exactly when the latest mint is unexpired and unspent. |
| LockOrder.ScriptsAreOrdered | internal/loops/requeue_guard.go:73-88 | Every request takes the loop lock holding nothing, the target lock holding no target, and ends holding nothing. |
| LockOrder.WorkIsLocked | internal/loops/requeue_guard.go:73-88 | Which requests work under both locks, under the loop's or under the target's. |
| LockOrder.ExclusionOverRuns | internal/loops/requeue_guard.go:31-60 | Over every run no two requests hold one lock. |
| LockOrder.SomeRequestCanProceed | internal/api/handler.go:241-263 | While any request is unfinished some request can take its next step. |
| LockOrder.EveryRequestCanFinish | internal/api/handler.go:241-263 | From every state all requests can be brought to their end. |
| LockOrder.RunsAreBounded | internal/api/handler.go:241-263 | Every run is bounded by what is left to do. |
| GuardRegistry.StepKeepsInv | internal/loops/requeue_guard.go:14-60 | Every critical section of lock and unlock keeps counts, entries and mutexes in step. |
| GuardRegistry.OneHolderPerKey | internal/loops/requeue_guard.go:14-60 | Over every run at most one caller holds a key's lock, although entries come and go. |
| GuardRegistry.AcquiresIff | internal/loops/requeue_guard.go:14-60 | A waiting caller can take its key's lock exactly when nobody holds it. |
| GuardRegistry.SomeCallerCanProceed | internal/loops/requeue_guard.go:14-60 | While callers are left one of them can go on. |
| GuardRegistry.RegistryIsReclaimed | internal/loops/requeue_guard.go:14-60 | When every caller has left, no entry stays behind. |

## Left out

- HTTP transport, event encoding, request authentication, dashboards, CLI output, service installation.
- SQLite, git, forge lookups and operating-system processes: only their answers and failures appear.
- Progress callbacks, run heartbeats, session-id extraction and log-file writes inside an output callback.
- The fallback's own wait loop, whose terminate step has no once guard; WaitLoop is about run's loop.
- Whether a select can in fact choose an event: WaitLoop takes every order of choices and lets unready ones change nothing.
- Errors other than a missing file while a log is opened; they end the follow.
- The combined stdout and stderr cursor: it runs the single cursor's refresh and reads once per stream.
- Files that vanish in mid-stream and path or execution changes during a follow: the cursor methods model them, the delivery lemmas exclude them.
- The registry's memory of drained executions and the draining itself, apart from whether it succeeded.
- The skip reasons and ids in the answers of stop, takeover, close and stop-all.
- The gate during worker reuse, whose scans before and inside the transaction may pick different loops.
- Discarding worktree changes before a retry, and the queue rows and metadata that transactions write besides the loop.
- Scheduler and HITL paths that move a waiting loop back to a live status; LoopStore's Settle event does not make a loop live.
- Non-ASCII letters and blanks in repository names, ids and shell words.
- Rendering, decoration and sorting of active-run views.
- The sort of stop-all candidates is modelled by placing each one in order.
- How reflection collects a Go struct's field names; StrictJson takes the resulting map.
- Token errors of a JSON text that did not decode; the walk only runs on text that was decoded before.
- JSON decoding of Codex lines, and the rendering of tool calls.
- Shell substitutions, braced expansions, here-documents and comments: ShellQuote's lexer gives no answer for a configured command that uses them.
