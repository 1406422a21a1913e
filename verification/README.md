# A verified model of SUSM's lifecycle, replication and codecs

SUSM runs workloads on Windows: a controller keeps intent and durable state, and one supervisor
process per execution runs attempts and reports observations. This project models the parts whose
correctness is hard to see from one function and proves them in Dafny 4.11.

Check the whole project with `dafny verify dfyconfig.toml`.

## Parts

| files | what they model |
|---|---|
| `RuntimeJournal`, `ControllerLink`, `Storage`, `SupervisorRpc` | the supervisor's journal object, one attachment of its link, the controller's transactions and its attachment loop, as classes and methods with loops |
| `Replication`, `ReplicationProofs`, `ReplicationTheorems`, `ReplicationCatchUp` | the same protocol as a transition system over both processes, every attachment ever opened and all messages in flight; the invariant; what holds of every run; exactly what a controller can still come to apply |
| `RuntimeFrames` | the runtime journal's frames as bytes, written and read |
| `Restart`, `Execution`, `ExecutionProofs`, `ExecutionStops` | durations, deadlines, backoff; the typed execution machine, what its runs keep and how stops escalate |
| `BackoffWait`, `Runner`, `RunnerConditions`, `RunnerRecovery` | the supervisor's attempt loop on flat settings and its refinement of the machine; exactly when the waits agree; how a replacing supervisor takes the loop up again |
| `ServiceControl`, `JobControl`, `SupervisorBinding` | service intent, job activity and the supervisor launch budget |
| `Manager` | the controller's lock sections on its `active` map and their interleavings |
| `CommandLine`, `Canonical`, `OutputJournal`, `MalformedRecord`, `Decimal`, `Endian` | Windows command lines, the stream behind configuration hashes, the journal of captured output |
| `DiagnosticQueue`, `Retention` | the lock-free diagnostic queue and the retention loops |
| `Base` | integer bounds, options, results, bytes |

Conventions: a step or event that is refused leaves a run's state as it is; `Run(s, steps)` is the
state after a list of steps, and a statement about `Run(Init(...), steps)` is about every reachable
state. Code that updates things in place is a method proved against a function of the old state, and
the theorems are about those functions. Counters have Rust's widths, and every checked, saturating or
wrapping operation is written out.

## What is assumed

- Protobuf and CRC-32C are function values: decoding an encoding gives the message back, and nothing
  is assumed of the checksum. SHA-256 is left out: the theorems are about the bytes it is fed.
- The lossy conversion to UTF-8 keeps ASCII; nothing else is known of it.
- A SQLite transaction is one atomic step. A failed append ends the supervisor process, because the
  recorder has already advanced its counter (crates/supervisor/src/runner.rs:495-508). In the replication
  model an append is whole or not there; what a torn one does is the subject of `RuntimeFrames`.
- Execution identifiers are never reused, and service commands carry fresh, increasing revisions.
- Clocks, file times, results of I/O and the order in which tasks run are inputs: every value and
  every order is covered.
- Captured output is encoded for identifiers without a newline, which crates/domain/src/ids.rs:13-42
  ensures for workloads and the UUID format for executions.

## Where code and documentation differ

The model follows the code.

- docs/supervisor-runtime.md describes a journal file header, a checksum of each length, and an
  `IncarnationStarted` record; the code writes none of them (crates/supervisor/src/journal.rs:443-461).
- docs/supervisor-runtime.md says an incomplete tail is ignored on recovery. It is, but it is also left in
  the file. The reader then never comes to the place where the next frame is appended, which is read
  together with the tail instead; it comes there if and only if the end is intact
  (`RuntimeFrames.AppendVisited`, `RuntimeFrames.ReadThenMore`; `RuntimeFrames.TornEndHidesFrame` is an
  example where the frame is not read).
- docs/supervisor-runtime.md has the journal hold every observation not yet safe to discard, and
  docs/protocol.md has a resumed supervisor replay every later one. The code admits attachments only while
  the execution is active, and launches a supervisor only if in addition it has seen no result file. The
  execution stops being active when its supervisor fails for the eighth time, or is killed some time after a
  cancel (crates/controller/src/manager.rs:1141-1166, 1247-1257); the runner writes the result before its
  link has delivered everything (crates/supervisor/src/runner.rs:1064-1081). Observations that the
  controller does not have when a supervisor is lost after either stay in an open journal for ever:
  `ReplicationCatchUp.LostObservation` and `ReplicationCatchUp.LostAfterResult` are such runs, and
  `ReplicationCatchUp.CatchUpExactly` says exactly when the controller can still get them.
- A supervisor gives its link 5 s after the last attempt (crates/supervisor/src/main.rs:97-107) and then
  finalizes the journal with whatever is uncommitted; `ReplicationCatchUp.MissedAtFinalization` says what
  the controller misses then.
- docs/logging.md has the reader reject a malformed complete record, and lists the fields of an output
  record. The code returns every complete record that has a message: with fields missing, repeated or not
  of their kind, for which it takes a default or the last one, and also where no newline closes the
  message, when everything after it is dropped. The promise is kept if and only if the reader comes to no
  such record (`MalformedRecords.PromiseKeptExactly`), as in every journal of entries the supervisor wrote
  (`MalformedRecords.WrittenIsOutput`).
- The time field is SUSM_TIMESTAMP_UNIX_MS, not the SUSM_TIMESTAMP of docs/logging.md, and the gap records
  described there are not written.
- docs/state-machines.md:276 has an exit judged by the current success codes. During a pending retry the
  loop keeps its verdict, where the typed machine judges anew: `BackoffWaits.WaitsAgreeExactly`.
- docs/state-machines.md:279 has a stable run reset the retry count. A replacing supervisor restores the
  count from the attempt number, which forgets such resets: `RunnerRecovery.RestoredExactly`.
- The millisecond fields of a snapshot do not carry every duration a policy can hold, so the
  supervisor's delays equal the typed ones only under the condition of `Restart.DelaysAgreeExactly`.
- A path that needs quoting and ends in a backslash, or contains a quote, does not survive as the
  program name (`CommandLines.RoundTrip`).

## Model

| member | source | states |
|---|---|---|
| ReplicationTheorems.ExactlyOnceInOrder | crates/controller/src/storage.rs:379-454 | In every run with disconnects, crashes of either process and overlapping attachments, what the controller applied is exactly the first `committed` observations of the journal: each once, in order, none skipped |
| ReplicationTheorems.AttachmentsInOrder | crates/supervisor/src/controller_link.rs:74-139 | On every attachment ever opened the link sends committed+1, committed+2, ... without gap or repeat across the switch from replay to live, and no observation is ever refused as out of order |
| ReplicationTheorems.AcknowledgementsBounded | crates/supervisor/src/journal.rs:345-382 | Every acknowledgement in flight or in the journal, and the recovered committed sequence, is at most the controller's cursor, which is at most the last journaled sequence |
| ReplicationTheorems.CompletedMeansApplied | crates/supervisor/src/controller_link.rs:108-115 | The link returns only after a terminal observation of the journal has been committed and applied |
| ReplicationTheorems.DrainedMeansCommitted | crates/supervisor/src/controller_link.rs:117-139 | Once the attached link has drained the queue and the controller has read everything sent, the controller has applied the whole journal |
| ReplicationTheorems.NothingTakenBack | crates/supervisor/src/journal.rs:443-461 | Along every run, from every state, what was journaled stays journaled and what was applied stays applied |
| ReplicationCatchUp.CatchUpExactly | crates/controller/src/manager.rs:540-670 | From every reachable state, some continuation brings the controller to the first m observations of the journal if and only if it has them, or they are acceptable and one of these holds: the execution is active, its journal open, and a launch decided or no result file written; the execution is active and the link of its present supervisor still tries; the link has a served attachment; they are in flight on one |
| ReplicationCatchUp.MissedAtFinalization | crates/supervisor/src/main.rs:90-110 | Once the journal is finalized, what a controller can still come to apply is exactly what is in flight on a served attachment; the rest is missed for good |
| ReplicationCatchUp.LostObservation | crates/controller/src/manager.rs:1141-1166 | A run in which an observation stays uncommitted in an open journal: the supervisor is lost and the execution ends before a relaunch, and no continuation moves the cursor |
| ReplicationCatchUp.LostAfterResult | crates/controller/src/manager.rs:1169-1171 | Another one: the supervisor is lost after its runner wrote the result, while it waits for its link; the execution is still active, but nothing is launched for it again |
| ReplicationCatchUp.SealedForEver | crates/controller/src/manager.rs:1247-1257 | When nobody can be relaunched or connect again and nobody who is still heard can reach m, no continuation of any length moves the cursor to m |
| ReplicationProofs.NextKeeps | crates/controller/src/supervisor_rpc.rs:82-149 | Every step of runner, link, controller task, crash and restart keeps the invariant that ties the journal, the live queue, the messages in flight and the durable cursor together |
| ReplicationProofs.ServerCommitKeeps | crates/controller/src/storage.rs:392-404 | A transaction for the next message of any attachment, old or new, keeps the invariant: it applies the next number or acknowledges a duplicate |
| ControllerLinks.Replay | crates/supervisor/src/controller_link.rs:78-86 | The replay loop sends exactly the observations after the controller's cursor and tracks the newest terminal among them |
| ControllerLinks.Turn | crates/supervisor/src/controller_link.rs:89-139 | One turn of the attached loop: what it sends, journals and tracks for each thing that becomes ready, and when it returns |
| ControllerLinks.RunAttachment | crates/supervisor/src/controller_link.rs:74-143 | One attachment on the real journal object sends consecutive numbers whatever earlier attachments consumed, acknowledges nothing beyond the controller's cursor, and returns only on an acknowledged terminal |
| SupervisorRpc.Serve | crates/controller/src/supervisor_rpc.rs:82-149 | Each acknowledged number is durable, other executions are untouched, and a gapless stream starting at or below the cursor is committed and acknowledged to its end |
| SupervisorRpc.ProgressOf | crates/controller/src/manager.rs:1609-1676 | Which observation kinds update the row as progress and which do not |
| SupervisorRpc.UpdateOf | crates/controller/src/manager.rs:711-752 | A terminal update is written exactly for a terminal kind of an adopted execution |
| Storages.Decide | crates/controller/src/storage.rs:379-404 | Exactly the next sequence is applied, exactly the numbers up to the cursor are duplicates, everything else is refused |
| Storages.Storage.CommitObservation | crates/controller/src/storage.rs:379-454 | The whole new state of rows and workloads for every outcome; a refused or duplicate observation changes nothing |
| Storages.Storage.InsertEnabledJobExecution | crates/controller/src/storage.rs:329-348 | The automatic execution is inserted and the session recorded in one transaction exactly when the job claims the session |
| Storages.Storage.FinishExecution | crates/controller/src/storage.rs:350-377 | Terminalizing an execution keeps every cursor and records the workload's outcome |
| Storages.DeliverAppliesConsecutively | crates/controller/src/storage.rs:392-404 | Whatever numbers are offered in whatever order, the applied ones are committed+1, committed+2, ... once each |
| Storages.DeliverReaches | crates/controller/src/storage.rs:392-404 | An offer containing a range as a subsequence, in any company, gets the cursor through the range |
| Storages.OneExecutionPerSession | crates/controller/src/storage.rs:329-348 | In one manager session every enabled job gets at most one automatic execution, and only an enabled job does |
| RuntimeJournals.RuntimeJournal.Acknowledge | crates/supervisor/src/journal.rs:406-413 | An acknowledgement adds a record, leaves the observations alone and raises the committed sequence to the maximum |
| RuntimeJournals.RuntimeJournal.AppendObservation | crates/supervisor/src/journal.rs:399-404 | An append extends the observations by one and keeps the committed sequence; a finalized journal refuses it |
| RuntimeJournals.LastSequence | crates/supervisor/src/journal.rs:354-362 | The recovered last sequence is the maximum over the observations, 0 without any |
| RuntimeJournals.CommittedSequence | crates/supervisor/src/journal.rs:363-376 | The recovered committed sequence is the maximum over acknowledgements and checkpoints, 0 without any |
| RuntimeJournals.LatestCheckpoint | crates/supervisor/src/journal.rs:347-353 | The recovered checkpoint is the last one in the journal |
| RuntimeJournals.ContiguousAfter | crates/supervisor/src/journal.rs:415-430 | In a contiguous journal the observations after n are those from position n on |
| RuntimeFrames.ReadRuntimeFrames | crates/supervisor/src/journal.rs:464-527 | The offset loop computes the recursive reading of the file, with the same error for every malformed frame |
| RuntimeFrames.PrefixRecovered | crates/supervisor/src/journal.rs:443-527 | Reading any byte prefix of appended frames gives exactly the frames wholly inside it |
| RuntimeFrames.AcceptedIsFramed | crates/supervisor/src/journal.rs:464-527 | Whatever bytes are accepted, framing the payloads again gives them back up to an incomplete tail, and the frames are those payloads decoded |
| RuntimeFrames.CutsAccepted | crates/supervisor/src/journal.rs:475-525 | Accepted bytes stay accepted when cut anywhere, and a cut never shows a frame that was not there |
| RuntimeFrames.CrashDuringAppend | crates/supervisor/src/journal.rs:455-459 | A crash in the middle of an append loses that frame and nothing else |
| RuntimeFrames.AppendedAreRead | crates/supervisor/src/journal.rs:332-343 | Any frames appended to accepted bytes with an intact end are read back after the earlier ones, and the end is intact again |
| RuntimeFrames.AppendVisited | crates/supervisor/src/journal.rs:475-502 | Whatever is appended to accepted bytes, the reader comes to the offset where it begins if and only if those bytes do not end in an incomplete frame |
| RuntimeFrames.ReadThenMore | crates/supervisor/src/journal.rs:475-525 | What is appended to any accepted bytes is read together with the incomplete end that is left in place |
| RuntimeFrames.VisitedDivides | crates/supervisor/src/journal.rs:475-525 | An offset the reader comes to divides the bytes into whole frames and a rest that is read on its own |
| RuntimeFrames.TornEndHidesFrame | crates/supervisor/src/journal.rs:336-337 | A witness: behind a single leftover zero byte, any one frame with a payload is not read |
| RuntimeFrames.JournalFile.Append | crates/supervisor/src/journal.rs:443-461 | Bytes and frames in memory grow by the same frame, or nothing changes and the error says why |
| RuntimeFrames.WholeIsWhole | crates/supervisor/src/journal.rs:475-502 | The count of frames wholly inside a prefix is the largest one that fits |
| ExecutionProofs.NextKeeps | crates/domain/src/execution.rs:279-311 | Helper for the theorems of its module: every event keeps an execution well formed: policy of its kind, a pending retry that is the next attempt and permitted, a stop cause of its kind, a kill plan only when killing |
| ExecutionProofs.StateInvariants | crates/domain/src/execution.rs:395-568 | Over every event list a waiting or graceful stop never holds a kill plan, a pending retry is always permitted by the policy and codes of the moment, an unknown outcome belongs to a job, and the next event is refused for the kind of a policy exactly if it brings one of the wrong kind |
| ExecutionProofs.AttemptsConsecutive | crates/domain/src/execution.rs:590-640 | Over every event list the launched attempts are consecutive numbers |
| ExecutionProofs.PendingRetryKept | crates/domain/src/execution.rs:472-568 | Over every event list a pending retry keeps its attempt, ordinal and deadline until it fires or the execution ends; nothing is launched before its own deadline is reported, and it is not pending any more once that is |
| ExecutionProofs.OutcomePublishedOnce | crates/domain/src/execution.rs:735-764 | The outcome is published exactly when the execution ends, once, and never changes afterwards |
| ExecutionProofs.FirstStopDecides | crates/domain/src/execution.rs:395-470 | In any run a live execution accepts a stop if and only if the cause is of its kind and the stop deadline can be represented; after an accepted one nothing is launched or scheduled again, and any outcome is Stopped or Cancelled with that first cause |
| ExecutionProofs.BoundedAttempts | crates/domain/src/execution.rs:642-676 | A job whose policies never allow more than M restarts launches at most M+1 attempts, whatever happens |
| ExecutionStops.StopEscalates | crates/domain/src/execution.rs:395-531 | Over every event list a process is asked to stop at most once, as its plan says and only once it runs, is terminated at most once, after that request or instead of it, and is never signalled without a stop |
| ExecutionStops.ForcedExactly | crates/domain/src/execution.rs:349-393 | Over every event list a stopped execution counts as forced if and only if it ended by the exit of a process that had been ordered to terminate, or by the loss of its supervisor |
| ExecutionStops.TerminatedAtDeadline | crates/domain/src/execution.rs:395-531 | Whatever follows a graceful stop, the process is ordered to terminate only if the deadline armed at the stop was reported, and once it was reported the order was given or the execution has ended |
| Restart.CheckedAddIsFirstTick | crates/domain/src/time.rs:28-33 | A deadline is the first 100 ns tick by which the duration has passed, and overflow is the only failure |
| Restart.NewBackoff | crates/domain/src/restart.rs:43-57 | A backoff is refused exactly when its maximum is below its initial delay |
| Restart.DelayFor | crates/domain/src/restart.rs:71-88 | The loop with its early exits computes min(initial * multiplier^(r-1), maximum) for every r, including when the product overflows |
| Restart.DelayMonotone | crates/domain/src/restart.rs:71-88 | Delays never shrink and stay between the initial delay and the maximum |
| Restart.ReachesMaximum | crates/domain/src/restart.rs:71-88 | A growing delay is at its maximum by the 101st retry |
| Restart.RetryDelay | crates/supervisor/src/runner.rs:988-996 | The supervisor's saturating loop computes the capped power of its millisecond fields |
| Restart.DelaysAgreeExactly | crates/controller/src/manager.rs:1483-1490 | The supervisor waits exactly `delay_for` on every retry if and only if the policy's durations are whole milliseconds (the maximum only when the delay grows) |
| Restart.SupervisorDelayIsDefaultPolicy | crates/controller/src/manager.rs:1552-1555 | The shift-based supervisor delay is `delay_for` of the default supervisor policy for every failure count |
| Runner.AttemptLoop | crates/supervisor/src/runner.rs:253-411 | From any state its counters and settings stand for, the attempt loop over flat settings refines the typed machine: same attempt numbers, retry ordinals and kind of outcome, and every wait, from the same instant, lasts as long, under updates of policy, success codes and stop settings and under stops |
| Runner.OneAttempt | crates/supervisor/src/runner.rs:253-411 | One turn of the loop takes the machine's actions, with waits that last as long, and ends in the machine's state |
| Runner.RunAttempt | crates/supervisor/src/runner.rs:253-360 | Which settings an attempt ends with after updates before and during it, and whether it was stopped, forced, successful or stable |
| Runner.EndAttempt | crates/supervisor/src/runner.rs:300-400 | The end of an attempt, with stable-run reset, verdict, saturating counters and delay, is the machine's end of the same attempt; the machine's deadline is the loop's delay after the instant of the end, and the recorded one that delay after the Unix time of the end |
| Runner.WaitTurn | crates/supervisor/src/runner.rs:376-409 | The wait and what follows it: launch, stop or the end of a denied retry under the codes of the moment, as the machine in a steady wait |
| Runner.ResetAgrees | crates/supervisor/src/runner.rs:350-356 | Helper for the theorems of its module: the stable-run test on wall-clock milliseconds resets the retries exactly when the machine does |
| Runner.BackoffAgrees | crates/controller/src/manager.rs:1450-1490 | Helper for the theorems of its module: the two backoff implementations give the same delay for a translated policy |
| Runner.VerdictAgrees | crates/domain/src/execution.rs:590-676 | What the loop decides at the end of an attempt, and how long it waits from that instant, is what the machine decides |
| BackoffWaits.WaitBackoff | crates/supervisor/src/runner.rs:900-963 | The wait loop comes to what its inputs come to, reconsidering the verdict at every update |
| BackoffWaits.PermitsIsShouldRetry | crates/supervisor/src/runner.rs:982-986 | Helper for the theorems of its module: the string-and-counter verdict agrees with the typed policy through the translation |
| BackoffWaits.WaitsAgreeExactly | crates/supervisor/src/runner.rs:900-963 | While a retry is pending, the loop, which keeps its verdict on the exit, and the machine, which judges the exit anew, have come to the same thing after every input if and only if no update that is reached reclassifies the exit where the verdict depends on that |
| RunnerConditions.NothingOverflows | crates/supervisor/src/runner.rs:253-411 | A caller-checkable condition (room on the clock, fewer attempts than the counter holds) under which the machine meets no overflow on the script |
| RunnerConditions.SteadyTraceWhenCodesStay | crates/supervisor/src/runner.rs:376-409 | Scripts whose updates leave the success codes alone have only steady waits |
| RunnerRecovery.RestoredExactly | crates/supervisor/src/runner.rs:104-112 | Over every event list, while the execution lasts, the retry count a replacing supervisor restores from the attempt number is the machine's if and only if no stable run has reset it |
| RunnerRecovery.LagMatters | crates/supervisor/src/runner.rs:982-986 | The verdict on a lost attempt under the restored count is the machine's for every possible policy if and only if the count is not behind |
| RunnerRecovery.Recover | crates/supervisor/src/runner.rs:104-251 | Taking the loop up again after a lost supervisor does what the machine does on the loss, or on its pending retry, and goes on as the loop from the machine's state, where the restored count is not behind and the wait for a pending retry is steady |
| RunnerRecovery.RecoveriesAgreeExactly | crates/supervisor/src/runner.rs:213-251 | A replacing supervisor takes the exit before a pending retry for a failure; it has come to the same thing as the machine after every input, whatever that exit was, if and only if the wait is steady for a failure and no update denies the retry while it calls the exit a success |
| ServiceControls.AtMostOneLive | crates/domain/src/controller.rs:207-373 | Over all interleavings of commands, late allocations and terminations at most one execution is live, and it is the one the control state holds |
| ServiceControls.EachRevisionOnce | crates/domain/src/controller.rs:207-332 | Revisions ask for and take up allocations in increasing order, each at most once; only requested ones are taken up, each by its own execution |
| ServiceControls.TakenUpExactly | crates/domain/src/controller.rs:311-332 | An allocation is accepted if and only if it answers the newest request, for the first time, while the service is wanted |
| ServiceControls.LiveExecutionsOnly | crates/domain/src/controller.rs:334-373 | A termination is refused exactly when its execution is not live, and stops are only sent to live executions |
| ServiceControls.CommandsObeyed | crates/domain/src/controller.rs:207-309 | Helper for the theorems of its module: what an accepted start, restart or stop guarantees about what is wanted, held, stopped and allocated, and when it is refused |
| ServiceControls.DrainingCoalesces | crates/domain/src/controller.rs:228-270 | Any commands and late allocations while an execution drains lead to one replacement with the revision wanted by then, or to none |
| ServiceControls.RestartsCollapse | crates/domain/src/controller.rs:239-281 | Any number of restarts of an active service is one stop and one replacement, for the newest revision |
| JobControls.OneAfterAnother | crates/domain/src/controller.rs:376-488 | Executions of a job never overlap: each starts only once its predecessor has ended, none starts or ends twice |
| JobControls.RerunsCoalesce | crates/domain/src/controller.rs:403-488 | Whatever is requested during an execution, nothing starts until it ends, and its end is accepted exactly with the disposition that fits what is still wanted |
| JobControls.RerunsCancelOnce | crates/domain/src/controller.rs:403-438 | Any number of rerun requests cancels the execution in progress once |
| SupervisorBindings.LaunchBudget | crates/domain/src/supervisor_binding.rs:414-491 | Under a policy of N failures every bound state has incarnation failures+1 with failures < N; relaunches are consecutive incarnations, at most N-1; the N-th failure, and only it, reports the supervisor unavailable |
| SupervisorBindings.FailureHandled | crates/domain/src/supervisor_binding.rs:414-465 | Each failure of the current process ends the binding, schedules the next incarnation after the delay of its ordinal, or overflows the clock: exactly which, from the number of failures so far |
| SupervisorBindings.CountersNeverOverflow | crates/domain/src/supervisor_binding.rs:438-452 | The failure-count and incarnation overflow errors are unreachable, and events about any other incarnation are refused |
| SupervisorBindings.BudgetCanBeSpent | crates/domain/src/supervisor_binding.rs:414-491 | The bound is tight: every relaunch the budget allows can happen |
| Managers.Manager.Start | crates/controller/src/manager.rs:894-1007 | Every refusal in its order; nothing stays active unless the storage insert succeeded |
| Managers.Manager.Cancel | crates/controller/src/manager.rs:1009-1041 | A cancel marks the entry and remembers a wanted replacement, also across later stops |
| Managers.Manager.EndSession | crates/controller/src/manager.rs:497-513 | The loop cancels every active execution and drops every pending replacement, once |
| Managers.Manager.CompleteExecution | crates/controller/src/manager.rs:1247-1268 | Removes only the entry of that execution and decides the replacement from the same locked state |
| Managers.Manager.RecordTerminal | crates/controller/src/manager.rs:757-776 | The section after a committed terminal observation removes only that execution's entry |
| Managers.Manager.SupervisorTerminal | crates/controller/src/manager.rs:825-870 | A recovered result removes only an adopted execution's entry and names its outcome |
| Managers.Manager.StartReplacement | crates/controller/src/manager.rs:872-892 | A replacement is a start of the workload's own kind, exclusive for jobs |
| Managers.LeavesOnceReplacedOnce | crates/controller/src/manager.rs:757-870 | Over every interleaving of lock sections an execution leaves `active` at most once and causes at most one replacement; before the session ends it causes one exactly when a restart was asked for while it was active |
| Managers.OnlyItsOwn | crates/controller/src/manager.rs:1247-1265 | A section about an execution takes away that execution and nothing else, and every other section takes nothing away |
| Managers.QuiescenceIsPermanent | crates/controller/src/manager.rs:497-522 | After `end_session` nothing enters `active` and nothing is replaced any more, and whoever is still active at any later time was active at the end of the session, has been cancelled and told so |
| Managers.ReplacementEnters | crates/controller/src/manager.rs:872-1007 | However many sections about others come between the end of an execution and the start of its replacement, the replacement finds the workload free and enters as a new execution |
| CommandLines.QuoteWindowsArgument | crates/supervisor/src/process.rs:265-293 | The loop with its backslash counter writes the quoted form of the argument |
| CommandLines.EncodeCommandLine | crates/supervisor/src/process.rs:224-240 | The quoted executable and arguments, or the error for a path that is not Unicode or a line over 32 767 UTF-16 code units |
| CommandLines.ArgumentSurvives | crates/supervisor/src/process.rs:265-293 | Every argument, empty, quoted or ending in backslashes, is read back whole by the C runtime's rules, in front of anything |
| CommandLines.RoundTrip | crates/supervisor/src/process.rs:224-240 | Parsing the command line gives back the executable and the arguments if and only if the path has no quote and does not need quoting while ending in a backslash |
| CommandLines.ArgumentsAlwaysSurvive | crates/supervisor/src/process.rs:228-232 | The arguments come back unchanged for every path without a quote |
| CommandLines.ProgramDoubled | crates/supervisor/src/process.rs:265-293 | What the runtime reads instead of a path that needs quoting and ends in backslashes: they come back doubled |
| Canonical.GenerationDeterminesMap | crates/config/src/canonical.rs:22-32 | Two sets of definitions feed the hash the same bytes if and only if they are the same map |
| Canonical.ConfigDetermined | crates/config/src/canonical.rs:22-170 | The stream determines every id, process, exit-code set, restart, stop and logging value |
| Canonical.ProcessDetermined | crates/config/src/canonical.rs:16-20 | The stream of a process determines the whole process definition |
| Canonical.DomainsSeparated | crates/config/src/canonical.rs:175-180 | No process and no set of definitions feed the same bytes |
| Canonical.DefinitionInjective | crates/config/src/canonical.rs:34-49 | A definition can be read back from the front of any stream |
| Canonical.RestartInjective | crates/config/src/canonical.rs:70-98 | So can a restart policy, of any kind and with any limit |
| Canonical.CollectionsByContent | crates/config/src/canonical.rs:41-67 | The ordered listing of exit codes, names or variables is determined by their content |
| Canonical.ConfigGeneration | crates/config/src/canonical.rs:22-49 | The writer's nested loops produce exactly the stream of the definitions |
| Canonical.ProcessHash | crates/config/src/canonical.rs:16-20 | The writer produces exactly the stream of the process |
| Canonical.WriteProcess | crates/config/src/canonical.rs:51-68 | The loops over arguments and environment append exactly the process encoding |
| OutputJournals.EncodeEntry | crates/supervisor/src/journal.rs:213-243 | The buffer built line by line is the entry |
| OutputJournals.DecodeJournal | crates/controller/src/rpc.rs:406-481 | The nested cursor loops compute the recursive reading of any bytes, with every index in bounds and always ending |
| OutputJournals.DecodeRecord | crates/controller/src/rpc.rs:415-464 | One record always moves the cursor, so the guard against standing still never fires |
| OutputJournals.RoundTrip | crates/supervisor/src/journal.rs:213-236 | Reading a journal of any chunks gives back every chunk unchanged |
| OutputJournals.CutJournalIsPrefix | crates/controller/src/rpc.rs:406-481 | A journal cut anywhere is read as its first records: all entries within the cut (the last may lack its final byte) and none that is not |
| OutputJournals.RecordsAreChunks | crates/controller/src/rpc.rs:468-478 | The records are one for each chunk, in order |
| MalformedRecords.CarriesMessageExactly | crates/controller/src/rpc.rs:420-449 | Whatever the bytes are, their first record carries a message if and only if it has a MESSAGE line followed by a length, that much content and one more byte |
| MalformedRecords.MessageFound | crates/controller/src/rpc.rs:415-428 | For any header lines, a MESSAGE line and any bytes after it, those lines and bytes are what is found |
| MalformedRecords.MessageIsReadOrNot | crates/controller/src/rpc.rs:424-449 | After any header lines: without room there is no message and nothing is left; with a wrong closing byte the message is kept and nothing is left; otherwise reading goes on behind it |
| MalformedRecords.RecordEnds | crates/controller/src/rpc.rs:415-464 | What a record leaves to read, by how it ends: the rest only after a blank line, nothing after a message that no newline closes, and such a record always has a message |
| MalformedRecords.PromiseKeptExactly | crates/controller/src/rpc.rs:406-481 | Reading any bytes gives the output records among the complete ones, each with the values its fields have, and what there is of an unfinished last one, if and only if the reader comes to no complete record with a message whose fields are missing, repeated or not of their kind, or whose message no newline closes |
| MalformedRecords.PartsAreTaken | crates/controller/src/rpc.rs:415-464 | For any bytes the reader takes of their first record the last value of each field, zero for a number it cannot read, and the last message, and nothing else |
| MalformedRecords.WrittenIsOutput | crates/supervisor/src/journal.rs:213-243 | Every entry the supervisor writes is an output record and stands for its chunk, in front of anything |
| MalformedRecords.EachIsOneTooMany | crates/controller/src/rpc.rs:406-481 | Every malformed record the reader comes to is exactly one returned record more than that, and without one nothing else is returned |
| MalformedRecords.HeaderlessIsReturned | crates/controller/src/rpc.rs:415-478 | A witness: a record of nothing but a message is returned, with sequence and time zero and no stream |
| MalformedRecords.MalformedIsReturned | crates/controller/src/rpc.rs:444-449 | A witness for any header lines: a message that no newline closes is the last record returned |
| Decimal.U64RoundTrip | crates/controller/src/rpc.rs:459-459 | A printed u64 parses back to itself |
| Decimal.I64RoundTrip | crates/controller/src/rpc.rs:460-460 | A printed i64 parses back to itself, negative or not |
| DiagnosticQueues.BytesConserved | crates/diagnostics/src/lib.rs:190-226 | In every interleaving of load, compare-exchange, send, subtract and receive the byte counter is exactly what is in the channel, reserved or received and not released; it never exceeds 1 MiB or underflows |
| DiagnosticQueues.DropsConserved | crates/diagnostics/src/lib.rs:191-204 | Every drop is counted, in the writer's hands or reported unless a write failed; every accepted message was sent, dropped or is on its way |
| DiagnosticQueues.TakenInOrder | crates/diagnostics/src/lib.rs:273-320 | The writer takes the sent messages in order, each once |
| DiagnosticQueues.AtRest | crates/diagnostics/src/lib.rs:183-226 | When nobody is in the middle of anything the counter is the channel's content and every drop is counted or reported |
| Retention.ApplyRetention | crates/supervisor/src/journal.rs:245-282 | The two passes leave exactly the longest newest run of files within the age and size limits; a failed deletion stops short of it and never touches that run |
| Retention.RemoveOld | crates/diagnostics/src/lib.rs:473-479 | The age pass removes exactly the files that are too old, which come first |
| Retention.RemoveExcess | crates/diagnostics/src/lib.rs:480-494 | The size pass removes from the oldest on until the rest is small enough |
| Retention.KeptIsLongest | crates/supervisor/src/journal.rs:253-281 | A run of newest files fits the limits if and only if it is within the kept one |

## Left out

- Named pipes, gRPC, Win32 process, job, token and console calls, the registry, the service control
  manager, tracing, command-line tables and TOML parsing: I/O or libraries.
- Database migrations and history queries.
- The installer and the host launcher: mostly file checks with little state.
- Rotation and Zstandard compression of segments; only retention is modelled.
- Commands to an attached supervisor (stop, policy update): they do not affect replication.
- Identity fields and timestamps of checkpoints and observations: copied through.
- Finalizing a journal ends it; a relaunch on a finalized path would start an empty journal, which no
  run here does.
- ReplicationCatchUp.CatchUpExactly: models one supervisor at a time. A restarted controller may replace a
  supervisor that has been out of reach for 3 s while it is still running
  (crates/controller/src/manager.rs:576-600), and the two then append to the same journal.
- ControllerLinks.RunAttachment: models one attachment that was welcomed; the reconnect loop around it
  and the 250 ms sleeps appear as steps of `Replication`.
- SupervisorRpc.Serve: models observations only, not the command stream multiplexed with them.
- Runner.AttemptLoop: requires that the machine meets no overflow on the script, for which
  `RunnerConditions.NothingOverflows` gives a condition on the inputs: the loop saturates where the machine
  reports an error. It also requires steady waits, the exact condition of `BackoffWaits.WaitsAgreeExactly`.
- Runner.OneAttempt: as for `Runner.AttemptLoop`, for one attempt.
- Runner.EndAttempt: does not model a failing wait on the process, nor the session-end cap on the stop
  timeout.
- Runner.VerdictAgrees: the loop counts its waits in milliseconds of its own clocks and the machine in ticks
  since boot; the two are compared by the time from the same instant, not by what the clocks show.
- RunnerRecovery.Recover: requires that the settings the replacing supervisor loads are those in force. It
  loads the ones its execution was started with, and the controller resends an update only while it has not
  been reported as applied (crates/controller/src/manager.rs:675-683, 783-791), so that an update applied
  before the loss is forgotten.
- RunnerRecovery.Recover: does not model a stop that was already requested when the replacing supervisor
  starts, whose result the loop does not mark as forced.
- Runner.ResetAgrees: durations are those `DelaysAgreeExactly` admits; sub-millisecond ones are truncated
  by the translation.
- Managers.LeavesOnceReplacedOnce: sections that only rewrite what clients see (attach, disconnect,
  progress, adoption, reload) are one step that changes those fields arbitrarily, not methods of their own.
- Managers.Manager.Start: preparation of the build and the storage insert are inputs of the request.
- Managers.LeavesOnceReplacedOnce: the manager is not shown to refine `ServiceState`, because a cancel keeps
  a pending replacement through a later stop (crates/controller/src/manager.rs:1025) where the typed machine
  drops it (crates/domain/src/controller.rs:282-297).
- ServiceControls.AtMostOneLive: definition hashes and enablement are carried but play no part.
- CommandLines.RoundTrip: arguments with a NUL character are not excluded here; the call that passes the
  line to Windows refuses them.
- DiagnosticQueues.BytesConserved: atomics are sequentially consistent steps on one counter; memory orderings
  between different variables are not modelled, and the drop counter is unbounded.
- Retention.ApplyRetention: the sort is the library's, and the sizes of all files together are assumed to
  fit u64.
- Canonical.ConfigGeneration: the model checks of a definition (kind against restart policy, bounds) are not
  needed for injectivity and are not modelled.
- OutputJournals.DecodeJournal: files are read whole; filtering by execution and attempt, following and
  duplicate suppression are not modelled.
