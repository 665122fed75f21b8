# Stutter: a Dafny model of its tracer protocols, crash-safe runner and data paths

This project models the parts of Stutter whose correctness depends on many steps fitting
together, and proves what those steps keep over every run.

## What is modelled

**Scheduler tracing.** `Tracer` is the eBPF side as a class: the wakeup maps, the reverse
index of runnable tasks, the two per-CPU counter arrays, the drop counters, and the four
handlers with every early return. Each tracepoint read, map insert and ring-buffer reserve is
a value supplied by the environment, so each may fail at any time; CPU numbers may be out of
range and the target set may change between handlers. Handlers run one at a time. A ghost
`Model` is moved by exactly one step of `SchedModel` per handler; `WakeupStore` records every
accepted wakeup with the fate it met. `SchedRuns` and `SchedLaws` prove what holds after every
event sequence, against definitions that look at the bare sequence only (`AwaitsSwitch`, `Ended`,
`AcceptedCount`, `CountedOn`, `Numbered`). `WakeupRace` models record and consume for one TID again, as single map
operations interleaved freely between one wakeup handler and any number of switch handlers.

**Validation runner.** `RunnerState` is the state file on a disk that may fail any step of a
save or lose power between any two; `RunnerServer` serves requests around it;
`RunnerInstall` narrows the authorization that the server later obeys. Requests are serialised.

**Data paths.** `Sha256` (FIPS 180-4 against the two-phase implementation, with the constants of
the standard derived in `Sha256Constants` and its example worked in `Sha256Example`), `LatencyMax` (the
compare-exchange maximum), `StartDone` and `IntervalTracers` (IRQ, KMS and fence matching),
`LogTailer`, `ShellQuote` and `ProveFix` (against sections 2.2.1, 2.2.2 and 2.3 of the POSIX.1-2017 Shell
Command Language) and `SliceSampler`.

## Where the code falls short of the obvious claim

Each of these has a concrete input and the exact condition under which the claim holds.

- `TARGET_PENDING_WAKEUPS` falls below the number of pending wakeups after a failed
  `RUNNABLE_TASK_CPU` insert: the later decrement is charged to another task
  (`FailedInsertUndercounts`). It counts exactly throughout a run if and only if no accepted
  wakeup takes the branch that skips the increment for an in-range CPU (`AlwaysExactIff`). Failed
  migrations and failed inserts on a replacement aimed at the same CPU do no harm.
- With handlers interleaved at single map operations, one wakeup can be consumed twice, because
  `record_wakeup` clears the cursor after it inserts the record (`ConsumedTwice`). None is if and
  only if no consumer passes its cursor check for a record that is already consumed, or that
  another consumer is about to mark (`ConsumedOnceIff`).
- An exit restarts the sequence numbers, so a consumer left over from before it can hide a
  record of the reused TID that has the same time stamp, CPU and waker
  (`ExitLetsOldConsumerHide`). An unconsumed record is hidden in a run if and only if a consumer
  marks a different record of equal value, or the writer stores a record equal in value to the
  cursor (`HiddenIffObscured`); neither happens while accepted records differ in value
  (`DistinctValuesNeverHide`).
- A log line that ends in a carriage return reaches the parser with or without it, depending on
  where the read stopped (`CrDependsOnSplit`). A batch, and a whole sequence of reads, is exact if
  and only if every such line is the last complete one of a text that goes on after it
  (`ExactIffCrSafe`, `Follow`).
- A quoted command is read back by the shell as its own arguments if and only if no argument
  consists of unquoted characters only and contains `<` or `>` (`RoundTripsIff`). The baseline
  and tuning commands depend on the user's labels, paths and profile only; the comparison command
  always carries placeholders and never is a list of words (`BuildWorkflow`).
- Without a boot adapter the installer keeps the staged boot fields, so the original entry need
  not be allowed (`OriginalMayBeMissing`); it is if and only if there is an adapter or it was
  allowed as staged (`Install`).
- The slice sampler reports a difference across a change of counter source
  (`SourceChangeIsReported`), exactly when the two sightings differ in source
  (`MixesSourcesIff`).

## Model

| member | source | states |
|---|---|---|
| `Counting.CountAfterPut` | stutter-ebpf/src/runnable_depth.rs:54-72 | Moving one TID in the reverse index changes the per-CPU cardinalities by exactly one out and one in |
| `Counting.TotalIsSize` | stutter-ebpf/src/runnable_depth.rs:18-35 | The per-CPU cardinalities add up to the number of TIDs on in-range CPUs |
| `WakeupStore.AcceptKeepsInv` | stutter-ebpf/src/wakeup_data.rs:78-105 | Installing a record keeps one stored record per TID, the youngest accepted one, and adds exactly that TID to the pending set |
| `WakeupStore.FinishKeepsInv` | stutter-ebpf/src/wakeup_data.rs:108-164 | Consuming, dropping or discarding a pending record removes exactly that TID from the pending set |
| `WakeupStore.FatesPartition` | stutter-ebpf/src/wakeup_data.rs:3-17 | Every accepted wakeup has exactly one of the eight fates |
| `SchedModel.WakeupKeepsInv` | stutter-ebpf/src/scheduler.rs:36-107 | The wakeup handler keeps the whole invariant (stored records, runnable within pending, counters never above the cardinality, events tied to wakeups) |
| `SchedModel.SwitchKeepsInv` | stutter-ebpf/src/scheduler.rs:110-243 | So does the switch handler on every path |
| `SchedModel.MigrateKeepsInv` | stutter-ebpf/src/scheduler.rs:246-296 | So does migration, which never changes which TIDs are counted |
| `SchedModel.ExitKeepsInv` | stutter-ebpf/src/process_lifecycle.rs:40-51 | So does exit |
| `SchedModel.StepKeepsInv` | stutter-ebpf/src/scheduler.rs:36-296 | Any handler, and any change of the target set, keeps the invariant |
| `SchedRuns.AwaitsSwitchMeans` | stutter-ebpf/src/wakeup_data.rs:3-17 | A TID awaits a switch exactly when some event accepted a wakeup for it and none since switched it in or ended it |
| `SchedRuns.PendingIsHistory` | stutter-ebpf/src/wakeup_data.rs:3-17 | In every reachable state the pending set is the set of TIDs awaiting a switch in the event sequence |
| `SchedRuns.LogCountsAccepted` | stutter-ebpf/src/scheduler.rs:63-80 | The log has one entry per accepted wakeup of the event sequence |
| `SchedRuns.LogCountsEnded` | stutter-ebpf/src/scheduler.rs:63-240 | For every fate, as many logged wakeups met it as the event sequence says ended that way |
| `SchedRuns.Conservation` | stutter-ebpf/src/scheduler.rs:63-240 | Over every run: accepted = pending + replaced + discarded at exit + dropped on cursor failure + consumed, and consumed = emitted events + stale + read-failed + ring-full, each counted by its own condition on the event sequence |
| `SchedRuns.LossesAreHistory` | stutter-ebpf/src/scheduler.rs:63-80 | Refused records, cursor failures and lost migration events are counted exactly as the event sequence has them |
| `SchedLaws.EmitsIff` | stutter-ebpf/src/scheduler.rs:110-240 | A switch emits an event if and only if the task awaits a switch, the cursor was set, the task is a target, all four fields were read and the ring buffer has room |
| `SchedLaws.LossesIff` | stutter-ebpf/src/scheduler.rs:122-240 | A taken wakeup is lost as stale, read-failed or ring-full, and a pending one dropped on a cursor failure, each exactly under its own condition |
| `SchedLaws.OnlySwitches` | stutter-ebpf/src/scheduler.rs:36-296 | No other event emits or loses a taken wakeup |
| `SchedRuns.FateIsFinal` | stutter-ebpf/src/wakeup_data.rs:108-126 | Once a wakeup met a fate no continuation of the run changes it, so none is consumed twice |
| `SchedRuns.NoWakeupReportedTwice` | stutter-ebpf/src/scheduler.rs:168-240 | Distinct emitted events report distinct accepted wakeups |
| `SchedRuns.PendingCountBound` | stutter-ebpf/src/runnable_depth.rs:104-123 | On any run the pending counter of a CPU never exceeds the number of pending wakeups aimed at it |
| `SchedRuns.PendingCountExact` | stutter-ebpf/src/scheduler.rs:76-104 | It equals that number on every run in which no event loses a count |
| `SchedRuns.StepExactIff` | stutter-ebpf/src/scheduler.rs:86-96 | From an exact state an event keeps the counter exact if and only if it is not an accepted wakeup for an in-range CPU that could not be tracked and replaces none aimed there |
| `SchedRuns.AlwaysExactIff` | stutter-ebpf/src/scheduler.rs:76-104 | The counter is exact throughout a run if and only if no event of the run is of that kind |
| `SchedRuns.SuccessfulInsertsLoseNothing` | stutter-ebpf/src/runnable_depth.rs:38-74 | No event is while the reverse-index inserts of wakeups succeed, whatever migrations fail |
| `SchedRuns.CountFits` | stutter-ebpf/src/runnable_depth.rs:104-123 | Pending wakeups are too few for the 32-bit counter to saturate |
| `SchedRuns.CountedImpliesPending` | stutter-ebpf/src/scheduler.rs:122-142 | Every TID in the reverse index awaits a switch and sits on an in-range CPU, so returning early on nothing to consume leaks no count |
| `SchedRuns.CountedIffPending` | stutter-ebpf/src/scheduler.rs:176-189 | On runs whose wakeups are in range and counted, the two sets coincide |
| `SchedRuns.TotalDepthIsTotalPending` | stutter-ebpf/src/scheduler.rs:270-277 | There total depth over all CPUs equals total pending, whatever migrated where |
| `SchedLaws.CountedIsRunnable` | stutter-ebpf/src/runnable_depth.rs:38-102 | After every run the reverse index maps each task to exactly the CPU the event sequence says it is counted on |
| `SchedLaws.CountedOnMeans` | stutter-ebpf/src/runnable_depth.rs:38-102 | That CPU is the one named by the last accepted wakeup, or move of the counted task, that was in range and stored, unless the task ran or ended since |
| `SchedLaws.MigrationMovesOne` | stutter-ebpf/src/scheduler.rs:270-277 | A move takes one from the CPU the task was counted on and adds one to its destination |
| `SchedLaws.UntrackedIsHistory` | stutter-ebpf/src/runnable_depth.rs:38-74 | The untracked counter counts exactly the accepted wakeups and moves of counted tasks after which the task is not counted on the CPU they were for |
| `SchedLaws.MigrationReported` | stutter-ebpf/src/scheduler.rs:246-296 | A migration is reported if and only if it is a target's, was read and found room, with its CPU numbers modulo 2^32 |
| `SchedLaws.SeqIsCount` | stutter-ebpf/src/wakeup_data.rs:55-67 | The sequence number of a task is the count of numbers it was given since it last ended, modulo 2^32 |
| `SchedLaws.RecordIsNumbered` | stutter-ebpf/src/scheduler.rs:63-76 | A stored record carries the number its wakeup was given |
| `SchedRuns.EmittedEvent` | stutter-ebpf/src/scheduler.rs:168-240 | A switch emits at most one event; it carries the youngest accepted wakeup of the task and the fields read at the switch, and its depth counts exactly the other tasks still counted on an in-range CPU |
| `SchedRuns.PendingRecordIsLast` | stutter-ebpf/src/scheduler.rs:69-76 | The stored record of a pending TID holds time, CPU and waker of its last accepted wakeup in the event sequence |
| `SchedRuns.EmittedEventOnTrace` | stutter-ebpf/src/scheduler.rs:168-240 | An emitted event carries time, target CPU and waker of the last accepted wakeup of its task in the event sequence, which nothing switched in or ended since |
| `SchedRuns.EmittedPendingCount` | stutter-ebpf/src/scheduler.rs:184-240 | Its pending count is at most, and exactly on runs that lose no count, the number of other pending wakeups aimed at the switching CPU |
| `SchedRuns.LatencyIsExact` | stutter-ebpf/src/scheduler.rs:190-240 | Under a clock that does not go back every reported latency is switch time minus wakeup time |
| `SchedRuns.FailedInsertUndercounts` | stutter-ebpf/src/runnable_depth.rs:54-72 | A concrete run after whose failed reverse-index insert the counter is 0 while a wakeup is pending |
| `Tracer.Tracer.constructor` | stutter-ebpf/src/wakeup_data.rs:41-51 | Empty maps and zeroed counters are the initial model |
| `Tracer.Tracer.NextWakeupSeq` | stutter-ebpf/src/wakeup_data.rs:55-67 | The next number, wrapping at 32 bits and starting at 1; nothing stored if the insert fails |
| `Tracer.Tracer.RecordWakeup` | stutter-ebpf/src/wakeup_data.rs:78-105 | New record stored and cursor cleared, or nothing changed; the result tells new, replaced on the same CPU, or replaced and moved |
| `Tracer.Tracer.ConsumePendingWakeup` | stutter-ebpf/src/wakeup_data.rs:108-126 | Exactly a pending record is consumed, by setting the cursor to it |
| `Tracer.Tracer.DropPendingWakeupAfterCursorFailure` | stutter-ebpf/src/wakeup_data.rs:129-149 | Removed exactly when still pending and equal to the expected record |
| `Tracer.Tracer.RemoveForExit` | stutter-ebpf/src/wakeup_data.rs:152-164 | All three entries of the TID are gone; says whether a pending record was among them |
| `Tracer.Tracer.IncrementCpuRunnableDepth` | stutter-ebpf/src/runnable_depth.rs:18-25 | Saturating increment of one in-range slot only |
| `Tracer.Tracer.DecrementCpuRunnableDepth` | stutter-ebpf/src/runnable_depth.rs:28-35 | Saturating decrement of one in-range slot only |
| `Tracer.Tracer.IncrementTargetPending` | stutter-ebpf/src/runnable_depth.rs:104-113 | The same for the pending counter, and an out-of-range CPU is counted as untracked |
| `Tracer.Tracer.DecrementTargetPending` | stutter-ebpf/src/runnable_depth.rs:115-123 | The same for the decrement |
| `Tracer.DepthAfterPlace` | stutter-ebpf/src/runnable_depth.rs:54-72 | Decrement and increment of the array match a move in the index for every CPU; neither saturates |
| `Tracer.DepthAfterRemove` | stutter-ebpf/src/runnable_depth.rs:77-102 | One decrement matches a removal from the index |
| `Tracer.Tracer.MarkTaskRunnable` | stutter-ebpf/src/runnable_depth.rs:38-74 | The depth array stays the cardinality of the index on every path; tells whether the task is now counted on the CPU |
| `Tracer.Tracer.MarkTaskRunning` | stutter-ebpf/src/runnable_depth.rs:77-91 | The task is counted nowhere and the array stays exact |
| `Tracer.Tracer.RemoveRunnableTaskIfPresent` | stutter-ebpf/src/runnable_depth.rs:94-102 | The same |
| `Tracer.Tracer.AccountWakeup` | stutter-ebpf/src/scheduler.rs:76-104 | New state of index, both arrays and drop counters for each kind of recorded wakeup |
| `Tracer.Tracer.ReportConsumed` | stutter-ebpf/src/scheduler.rs:144-243 | Every path takes the wakeup out of both per-CPU accounts exactly once and emits an event or counts the loss |
| `Tracer.Tracer.TrySchedWakeup` | stutter-ebpf/src/scheduler.rs:36-107 | Moves the model by exactly one wakeup step; return code |
| `Tracer.Tracer.TrySchedSwitch` | stutter-ebpf/src/scheduler.rs:110-243 | Moves the model by exactly one switch step; return code |
| `Tracer.Tracer.TrySchedMigrateTask` | stutter-ebpf/src/scheduler.rs:246-296 | Moves the model by exactly one migration step; return code |
| `Tracer.Tracer.TrySchedProcessExit` | stutter-ebpf/src/process_lifecycle.rs:40-51 | Moves the model by exactly one exit step |
| `Tracer.Tracer.SetTargets` | stutter-ebpf/src/target_filter.rs:15-30 | Userspace may replace the target set without disturbing the accounting |
| `Tracer.HoldsAccept` | stutter-ebpf/src/wakeup_data.rs:78-105 | Storing a record and clearing the cursor is accepting a wakeup in the history |
| `Tracer.HoldsFinish` | stutter-ebpf/src/wakeup_data.rs:108-149 | Setting the cursor is consuming; removing both entries is dropping |
| `Tracer.CoupledSwitched` | stutter-ebpf/src/scheduler.rs:122-189 | The maps after a consuming switch represent the model after it |
| `Tracer.CoupledAccepted` | stutter-ebpf/src/scheduler.rs:76-104 | The maps after an accepted wakeup represent the model after it |
| `Tracer.Replay` | stutter-ebpf/src/scheduler.rs:36-296 | After any event sequence: every task is counted where the event sequence says, depth of every CPU is the number of tasks counted there, pending counters, events and migrations are those of the run, and every drop counter equals the losses it stands for |
| `WakeupRace.NextKeepsInv` | stutter-ebpf/src/wakeup_data.rs:55-126 | Every single map operation keeps: what is stored, marked or in flight was accepted, and sequence numbers are tags modulo 2^32 |
| `WakeupRace.RunKeepsInv` | stutter-ebpf/src/wakeup_data.rs:55-164 | So in every interleaving, exits included |
| `WakeupRace.RecordAlone` | stutter-ebpf/src/wakeup_data.rs:55-105 | From any state an uninterrupted wakeup handler whose inserts succeed leaves the new record stored, counted as accepted, and the cursor clear, whatever was stored before |
| `WakeupRace.ConsumeAlone` | stutter-ebpf/src/wakeup_data.rs:108-126 | An uninterrupted switch handler consumes exactly an unhidden record and changes nothing else |
| `WakeupRace.ExitAlone` | stutter-ebpf/src/wakeup_data.rs:152-164 | An uninterrupted exit forgets record, cursor and sequence |
| `WakeupRace.SecondIsStored` | stutter-ebpf/src/wakeup_data.rs:78-105 | A run without exit in which a second wakeup replaces a consumed first one and is not hidden |
| `WakeupRace.NewerWakeupIsNeverHidden` | stutter-ebpf/src/wakeup_data.rs:55-126 | In every interleaving without exit and below 2^32 wakeups the cursor equals the stored record only if a consumer consumed exactly that record |
| `WakeupRace.DistinctValuesNeverHide` | stutter-ebpf/src/wakeup_data.rs:167-180 | While accepted records differ in value neither exits nor wrap-around hide an unconsumed record |
| `WakeupRace.HiddenByStep` | stutter-ebpf/src/wakeup_data.rs:86-126 | An operation hides an unconsumed record if and only if it marks another record of equal value or stores one equal to the cursor |
| `WakeupRace.HiddenIffObscured` | stutter-ebpf/src/wakeup_data.rs:55-164 | Over every run: one is hidden at some moment if and only if some operation is of these two kinds |
| `WakeupRace.ConsumedTwice` | stutter-ebpf/src/wakeup_data.rs:92-104 | A concrete interleaving in which one wakeup is consumed twice |
| `WakeupRace.DoubledStep` | stutter-ebpf/src/wakeup_data.rs:108-126 | An operation makes a double consumption unavoidable if and only if it is a cursor check that passes for a record already consumed or about to be |
| `WakeupRace.ConsumedOnceIff` | stutter-ebpf/src/wakeup_data.rs:78-164 | Over every run, exits included, with no consumer left about to mark: no wakeup is consumed twice if and only if no cursor check passed that way |
| `WakeupRace.ExclusiveConsumesOnce` | stutter-ebpf/src/wakeup_data.rs:78-126 | In particular when consuming excludes other consumers and the insert-and-clear section and the task does not exit |
| `WakeupRace.ExitLetsOldConsumerHide` | stutter-ebpf/src/wakeup_data.rs:152-164 | A concrete run with an exit in which an unconsumed record is hidden |
| `RunnerAuthorization.Authorize` | stutter-validation-runner/src/authorization.rs:119-303 | A request is admitted exactly when peer, schema, campaign, manifest, identifiers and grant agree, every argument is in range and a boot entry is an allowed one |
| `RunnerAuthorization.DenialsMean` | stutter-validation-runner/src/authorization.rs:119-174 | Which denial is given for which first fault |
| `RunnerAuthorization.GrantsMean` | stutter-validation-runner/src/model.rs:255-279 | Each request is admitted only under the grant of its own action, suite and task |
| `RunnerAuthorization.IdentifiersAreSafe` | stutter-validation-runner/src/authorization.rs:20-44 | Accepted identifiers are single path components, accepted boot entries single words that are not options |
| `RunnerAuthorization.CheckJob` | stutter-validation-runner/src/authorization.rs:176-282 | The ordered checks deny exactly the jobs with a number out of range or an option its suite does not take |
| `RunnerState.StateDir.constructor` | stutter-validation-runner/src/state.rs:59-80 | The state file starts as whatever was found, settled on disk |
| `RunnerState.LoadMeans` | stutter-validation-runner/src/state.rs:59-80 | A load gives back what a save wrote, an unused state for a missing file, and refuses everything else |
| `RunnerState.StateDir.AtomicWrite` | stutter-validation-runner/src/state.rs:103-118 | Whatever step fails or is cut off, the file is wholly the old or wholly the new one; success means the new one is durable, and which faults end it how |
| `RunnerState.StateDir.Save` | stutter-validation-runner/src/state.rs:82-86 | The same with the time stamp set |
| `RunnerState.StateDir.PowerLoss` | stutter-validation-runner/src/state.rs:103-118 | What a power loss leaves: the durable file, or an unsynced rename that happened to survive |
| `RunnerServer.Server.constructor` | stutter-validation-runner/src/server.rs:41-56 | The invariant holds from any state file |
| `RunnerServer.Server.Handle` | stutter-validation-runner/src/server.rs:58-68 | Denied requests change nothing; others get the answer their effect and saves deserve, Ok only with the effect done and the prescribed state durable, keeping the invariant and any durable cancel |
| `RunnerServer.RequestMeans` | stutter-validation-runner/src/server.rs:112-226 | What each request does to each field of the state |
| `RunnerServer.Server.Dispatch` | stutter-validation-runner/src/server.rs:98-138 | Corrupt state stops everything; a cancelled campaign answers status and cancel only |
| `RunnerServer.Server.Act` | stutter-validation-runner/src/server.rs:112-230 | The answer under any fault; without faults exactly the next state and effects prescribed |
| `RunnerServer.Server.Cancel` | stutter-validation-runner/src/server.rs:118-126 | An acknowledged cancel is durable and leaves no boot selection |
| `RunnerServer.Server.Resume` | stutter-validation-runner/src/server.rs:222-226 | Resume flag and boot entry durably cleared when answered with Ok |
| `RunnerServer.Server.Persist` | stutter-validation-runner/src/server.rs:140-149 | Acknowledged means durable; a durable cancel survives a failed save |
| `RunnerServer.Server.SelectNextBoot` | stutter-validation-runner/src/server.rs:180-188 | State changes only after the boot loader accepted an allowed entry; Unsupported if it refused |
| `RunnerServer.Server.RebootNow` | stutter-validation-runner/src/server.rs:189-221 | Exhausted budget changes nothing; otherwise charge, call, and roll back on failure, keeping the budget invariant through faults |
| `RunnerServer.Server.CallReboot` | stutter-validation-runner/src/server.rs:208-220 | The call happens with budget and resume flag already durable; Ok exactly when it succeeded, Unsupported after a rollback that neither underflows nor undercounts |
| `RunnerServer.Server.LosePower` | stutter-validation-runner/src/state.rs:103-118 | Power loss between requests keeps the invariant and a durable cancel |
| `RunnerServer.Campaign` | stutter-validation-runner/src/server.rs:98-231 | Over every run from any state file, at every moment and for what a power loss leaves: reboots so far plus those charged before are within the recorded count, and that within the cap; the file is whole; every reboot call found the resume flag on disk; once a cancel is durable, answered or not, nothing reboots, selects an entry or clears it; the reboot requests answered with Ok are exactly as many as the successful reboot calls |
| `RunnerServer.ResumeAll` | stutter-validation-runner/src/resume.rs:102-145 | A campaign is restarted exactly when its state has a reboot in flight and is not cancelled |
| `RunnerServer.ShouldResumeMeans` | stutter-validation-runner/src/resume.rs:128-138 | The restart rule in terms of the file on disk |
| `RunnerServer.RestartAfter` | stutter-validation-runner/src/resume.rs:102-145 | After the power loss that ends a run the controller is started if and only if the file it left is whole, of this campaign, not cancelled and has a reboot in flight; so never once cancelled at any moment |
| `RunnerInstall.DistinctCandidates` | stutter-validation-runner/src/boot/mod.rs:83-97 | The seen-set loop yields the first entry of each identity |
| `RunnerInstall.DistinctCovers` | stutter-validation-runner/src/boot/mod.rs:83-97 | Exactly the identities of the entries are represented |
| `RunnerInstall.DistinctOnce` | stutter-validation-runner/src/boot/mod.rs:83-97 | Each once, and by one of the entries |
| `RunnerInstall.DistinctFirst` | stutter-validation-runner/src/boot/mod.rs:83-97 | The first entry of each identity is kept, in order |
| `RunnerInstall.IdentityMeans` | stutter-validation-runner/src/boot/mod.rs:83-97 | Entries are one candidate exactly when they share the image, or lacking images the version, or lacking both the id |
| `RunnerInstall.ApplyBootDiscovery` | stutter-validation-runner/src/install.rs:382-407 | The cap is lowered, never raised; exactly the candidates and the original entry are allowed; exactly when it refuses |
| `RunnerInstall.Install` | stutter-validation-runner/src/install.rs:230-304 | The cap is the least of what was staged and what candidates and slack allow, none for a transient install, and the original entry is allowed if and only if there is a boot adapter or it was as staged |
| `RunnerInstall.OriginalMayBeMissing` | stutter-validation-runner/src/main.rs:75-110 | A staged authorization that is installed without a boot adapter although its original entry is not allowed |
| `RunnerInstall.InstalledCampaign` | stutter-validation-runner/src/main.rs:75-110 | From installer to server, from any state file: any run reboots at most as often as the staged cap and the candidates allow, never after a transient install, and selects allowed entries only; a fresh campaign's file, live or durable, is at every moment whole, within the cap, and names allowed entries only |
| `Sha256.Rotations` | stutter-core/src/hash.rs:16-55 | The rotation mixes are the four functions of section 4.1.2 of FIPS 180-4 |
| `Sha256.ChMeans` | stutter-core/src/hash.rs:16-55 | Ch takes each bit from the second or third word as the first says |
| `Sha256.MajMeans` | stutter-core/src/hash.rs:16-55 | Maj takes each bit as two of the three words agree |
| `Sha256.BigEndianWordMeans` | stutter-core/src/hash.rs:18-20 | A word is its bytes times powers of 256, first byte highest |
| `Sha256.LengthFieldMeans` | stutter-core/src/hash.rs:69-70 | The length field decodes to the number of bits |
| `Sha256Constants.FirstPrimes` | stutter-core/src/hash.rs:5-14 | The table the constants are taken from holds the first 64 primes and leaves none out |
| `Sha256Constants.KIsCubeFraction` | stutter-core/src/hash.rs:5-14 | Every round constant is the first 32 bits of the fraction of the cube root of its prime |
| `Sha256Constants.InitialIsSquareFraction` | stutter-core/src/hash.rs:59-62 | The initial value is made of the square roots of the first eight primes |
| `Sha256.Schedule` | stutter-core/src/hash.rs:17-29 | The schedule filled in place is the recursive W_t |
| `Sha256.CompressBlock` | stutter-core/src/hash.rs:16-55 | Updates the state in place to the next hash value of section 6.2.2 |
| `Sha256.CompressChunks` | stutter-core/src/hash.rs:58-77 | Hashing whole chunks continues the fold over the padded message |
| `Sha256.HashOfPrefix` | stutter-core/src/hash.rs:58-64 | The first n blocks depend on the first 64 n bytes only |
| `Sha256.PaddedTail` | stutter-core/src/hash.rs:63-75 | The padding loop ends, the tail is one or two blocks, and front plus tail is the section 5.1.1 padding |
| `Sha256.PadMeans` | stutter-core/src/hash.rs:63-75 | Padding is a whole number of blocks that starts with the message and ends with its bit length |
| `Sha256.ZeroCountIsLeast` | stutter-core/src/hash.rs:66-68 | No shorter run of zeros reaches the block boundary |
| `Sha256.PadInjective` | stutter-core/src/hash.rs:63-75 | Messages with equal padded forms are equal |
| `Sha256.Sha256Hex` | stutter-core/src/hash.rs:58-77 | The result is the lower-case hex of the FIPS 180-4 fold over the padding of the whole message (from 2^61 bytes on, where FIPS 180-4 defines nothing, the length field wraps) |
| `Sha256.HexBack` | stutter-core/src/hash.rs:76 | The 64 lower-case digits read back, eight to a word, as the digest |
| `Sha256Example.AbcText` | stutter-core/src/hash.rs:84-92 | The digest of the message abc is the published text |
| `LatencyMax.StepIsSafe` | stutter/src/prometheus.rs:44-58 | No atomic step lowers the register; a genuine compare-exchange failure has seen it rise |
| `LatencyMax.FinishesAlone` | stutter/src/prometheus.rs:44-58 | An undisturbed observer is done after a load and one genuine compare-exchange, the register raised to its value if that was more |
| `LatencyMax.RetryMeans` | stutter/src/prometheus.rs:50-57 | What a compare-exchange does, against a changed or unchanged register, spurious or not |
| `LatencyMax.RunIsSafe` | stutter/src/prometheus.rs:44-58 | The invariant holds in every interleaving, spurious failures included |
| `LatencyMax.NeverDecreases` | stutter/src/prometheus.rs:44-58 | The stored maximum never decreases along any run |
| `LatencyMax.FinalMaximum` | stutter/src/prometheus.rs:44-58 | When all observers are done it is the maximum of the initial value and all observations |
| `StartDone.OpenIsMatching` | stutter-ebpf/src/irq.rs:40-87 | A map of open starts holds a key exactly when the history has an unmatched recorded start for it, with the value of the last |
| `StartDone.LastOpenMeans` | stutter-ebpf/src/kms.rs:106-209 | A completion finds a value exactly when a recorded start with the identical key precedes it with no completion and no newer recorded start between |
| `IntervalTracers.IrqKeyBits` | stutter-ebpf/src/irq.rs:32-37 | Shifting and or-ing keeps both halves and equals product and sum |
| `IntervalTracers.IrqKeyInjective` | stutter-ebpf/src/irq.rs:32-37 | The packed key tells every pair of IRQ and CPU apart |
| `IntervalTracers.IrqCoupledStep` | stutter-ebpf/src/irq.rs:40-87 | Keeping starts under packed keys is keeping them under pairs |
| `IntervalTracers.IrqTracer.HandlerEntry` | stutter-ebpf/src/irq.rs:40-61 | A watched entry adds one start to the history, recorded unless the insert failed |
| `IntervalTracers.IrqTracer.HandlerExit` | stutter-ebpf/src/irq.rs:64-103 | An event is emitted exactly for a matched start of the same IRQ and CPU, with its duration |
| `IntervalTracers.PackUnpacks` | stutter-ebpf/src/kms_emit.rs:40-41 | Provider and event kind are recovered from the packed word |
| `IntervalTracers.FlagsMean` | stutter-ebpf/src/kms_emit.rs:29-38 | Each flag bit is set exactly when its field is present |
| `IntervalTracers.KeysAgree` | stutter-ebpf/src/kms.rs:308-336 | Two flip events share a key if and only if provider, card, CRTC and pipe agree; without CRTC and pipe there is none |
| `IntervalTracers.SequenceMeans` | stutter-ebpf/src/kms.rs:255-305 | Of the known completions only the i915 vblank has no sequence |
| `IntervalTracers.FlipMeans` | stutter-ebpf/src/kms_emit.rs:14-68 | A matched flip is an interval whose request time plus duration is its completion time on a forward clock |
| `IntervalTracers.KmsTracer.FlipRequest` | stutter-ebpf/src/kms.rs:106-144 | A request is recorded exactly when it and its completion can name the card |
| `IntervalTracers.KmsTracer.FlipDone` | stutter-ebpf/src/kms.rs:147-209 | The event pairs the completion with the last open request of the identical key; without a known card it never has a duration |
| `IntervalTracers.UnmatchedHasNoDuration` | stutter-ebpf/src/kms_emit.rs:23-66 | A completion that matched no request sets neither duration nor request time and keeps its own kind |
| `IntervalTracers.FenceTracer.WaitStart` | stutter-ebpf/src/drm_fence.rs:29-59 | A wait start with an identity is added to the history |
| `IntervalTracers.FenceFlagsMean` | stutter-ebpf/src/drm_fence.rs:87-141 | Each flag of a completed wait is set exactly when its part was found |
| `IntervalTracers.FencesAgree` | stutter-ebpf/src/drm_fence.rs:232-272 | Two events are about one fence if and only if context, or a timeline standing in for it, and sequence number agree |
| `IntervalTracers.WaitMeans` | stutter-ebpf/src/drm_fence.rs:87-166 | A matched wait starts where its start says and its duration ends it now on a forward clock; what else comes from start and signal |
| `IntervalTracers.SignalMeans` | stutter-ebpf/src/drm_fence.rs:203-226 | What a signal event says |
| `IntervalTracers.FenceTracer.WaitDone` | stutter-ebpf/src/drm_fence.rs:62-168 | The whole event is built from the last open start and the last open signal of the fence; a missing start is counted |
| `IntervalTracers.FenceTracer.Signal` | stutter-ebpf/src/drm_fence.rs:171-229 | A signal is remembered for the next completed wait of the fence |
| `LogTailer.LastNewline` | stutter/src/dmabuf_log.rs:73-75 | Splits at the last newline, if any |
| `LogTailer.LinesRejoin` | stutter/src/dmabuf_log.rs:71-82 | The complete lines with their newlines and the unfinished rest are the text again |
| `LogTailer.ParseAllMeans` | stutter/src/dmabuf_log.rs:81-86 | A batch parses if and only if every line does, with one event per line in order |
| `LogTailer.LogReader.ReadNewEvents` | stutter/src/dmabuf_log.rs:44-86 | New offset, pending text and parsed batch for a missing, unopenable, shrunk, unreadable or grown file; one malformed line loses its batch |
| `LogTailer.Appended` | stutter/src/dmabuf_log.rs:66-79 | Complete lines and rest of a longer file follow from the rest of the shorter one |
| `LogTailer.BatchIsLines` | stutter/src/dmabuf_log.rs:71-86 | One batch is the non-blank complete lines of pending text and chunk, up to a trailing carriage return |
| `LogTailer.BatchIsStripped` | stutter/src/dmabuf_log.rs:71-86 | A batch is the non-blank complete lines without trailing carriage returns, except that the last keeps its own if the text goes on |
| `LogTailer.ExactIffCrSafe` | stutter/src/dmabuf_log.rs:71-86 | A batch equals the non-blank complete lines if and only if each one ending in a carriage return is the last of a text that goes on |
| `LogTailer.Follow` | stutter/src/dmabuf_log.rs:44-86 | However an append-only log is split into reads, some failing, the batches together are its non-blank complete lines up to a trailing carriage return, to the letter if and only if every text read is safe, and the pending text is what follows the last newline |
| `LogTailer.CrDependsOnSplit` | stutter/src/dmabuf_log.rs:71-86 | Every line that ends in one, after whatever lines, is handed over differently for two places to stop reading |
| `ShellQuote.ShellQuoteValue` | stutter/src/prove_fix.rs:268-295 | The quoting loop computes the quoted form |
| `ShellQuote.RoundTrip` | stutter/src/prove_fix.rs:68-115 | Tokenising joined quoted arguments gives back the exact argument list |
| `ShellQuote.PlaceholderBreaks` | stutter/src/prove_fix.rs:289-295 | With a bare placeholder anywhere the command is not a list of words |
| `ShellQuote.RoundTripsIff` | stutter/src/prove_fix.rs:268-295 | The round trip holds if and only if no argument is a bare placeholder |
| `ShellQuote.SpecialNeedsQuoting` | stutter/src/prove_fix.rs:289-295 | No character that POSIX says needs quoting is read as a word of its own |
| `ProveFix.NormalizedMeans` | stutter/src/scenario/identity.rs:1-6 | A label is the text between surrounding white space, absent if there is none |
| `ProveFix.DecimalBack` | stutter/src/prove_fix.rs:70-77 | A printed number reads back as itself |
| `ProveFix.SanitizeRunLabel` | stutter/src/prove_fix.rs:249-262 | The loop yields lower-case letters, digits and single dashes that neither lead nor trail |
| `ProveFix.SanitizedKeepsLabels` | stutter/src/prove_fix.rs:249-262 | Sanitising such a label leaves it alone |
| `ProveFix.SanitizedLetters` | stutter/src/prove_fix.rs:249-262 | Sanitising keeps every letter and digit in order, up to case |
| `ProveFix.RunPrefixMeans` | stutter/src/prove_fix.rs:234-247 | A scenario with a letter or digit names the runs, otherwise the plan's last part does |
| `ProveFix.PrefixIsFlag` | stutter/src/prove_fix.rs:234-247 | A run prefix, from scenario or plan, is never empty and needs no quoting |
| `ProveFix.PushOptional` | stutter/src/prove_fix.rs:226-232 | A blank or absent label adds nothing, another its name and its trimmed, quoted value |
| `ProveFix.BaselineCommand` | stutter/src/prove_fix.rs:68-83 | A shell reads the command as the intended arguments if and only if neither workload nor route label is a bare placeholder |
| `ProveFix.TuneCommand` | stutter/src/prove_fix.rs:85-97 | The same, with the profiles path and the baseline profile |
| `ProveFix.ValidateCommand` | stutter/src/prove_fix.rs:99-115 | Always carries placeholders, so it is never a list of words |
| `ProveFix.BuildWorkflow` | stutter/src/prove_fix.rs:43-126 | Refused exactly for a bad scenario name; otherwise all of the above for every command of the workflow, at least one baseline among them |
| `SliceSampler.RuntimeSliceSampler.Collect` | stutter/src/runtime_slices.rs:70-123 | Records, remembered snapshots and counts of one round |
| `SliceSampler.RecordsPair` | stutter/src/runtime_slices.rs:132-228 | With distinct TIDs a task has at most one record per round, the difference to what was known of it before |
| `SliceSampler.HeldIsLastRound` | stutter/src/runtime_slices.rs:110-123 | Only the round just before is remembered |
| `SliceSampler.RecordsPairConsecutiveRounds` | stutter/src/runtime_slices.rs:70-152 | A task has a record exactly when it was read in this round and the one before under the same identity: none spans a gap, read error, task-cap exclusion or known identity change |
| `SliceSampler.RecordMeans` | stutter/src/runtime_slices.rs:70-260 | In full: a record exists if and only if the task was read twice in a row with the same process and no known start time changed, and every delta and average in it is what the two readings say |
| `SliceSampler.SeenMeans` | stutter/src/runtime_slices.rs:84-100 | With distinct TIDs a task is seen as its one reading |
| `SliceSampler.MixesSourcesIff` | stutter/src/runtime_slices.rs:94-118 | A record compares counters of different sources if and only if the two sightings behind it have different sources |
| `SliceSampler.SourceChangeIsReported` | stutter/src/runtime_slices.rs:94-118 | Two rounds, the second from the fallback source, whose difference is reported |
| `SliceSampler.StreakAddsUp` | stutter/src/runtime_slices.rs:204-228 | A streak of n reads yields n - 1 records whose runtime deltas add up to last minus first |
| `SliceSampler.Sample` | stutter/src/runtime_slices.rs:70-123 | The sampler fed round after round reports exactly those records |

## Left out

- Tracepoint offsets and ring-buffer memory: each read, insert and reserve is a success or a failure given from outside; removing a present key always succeeds.
- Drop counters: the per-CPU split, and saturation at 2^64; a counter is one natural number.
- Fault counters: `PREV_FAULTS` and the fault fields of scheduler events.
- Map capacity and eviction: a full map is a failed insert. `map_limits` comments speak of LRU eviction where the scheduler maps are plain hash maps; the code is followed.
- Racing per-CPU counters: the counters are plain read-modify-write, so their exactness is for handlers that run one at a time.
- `WakeupRace.NextKeepsInv`: the cleanup after a failed cursor insert is not interleaved; it is covered with handlers that run one at a time.
- `IntervalTracers.IrqKeyInjective`: keys are integers; the step from bit-vectors to integers is not stated beyond `IrqKeyBits`.
- `RunnerServer.Server.Handle`: concurrent requests and the busy lock, receipts, status data, and what launched actions do.
- `RunnerInstall.Install`: detection of the install mode, file, repository and digest checks, systemd units.
- State file bytes: a file holds one whole state or something unreadable; JSON is not part of the model.
- `LogTailer.LogReader.ReadNewEvents`: the file is a sequence of characters, so byte offsets inside a UTF-8 sequence are not modelled; undecodable bytes are a failed read.
- Shell expansions, globs, comments and double quotes: the tokenizer refuses words that use them unquoted; the quoter never leaves them unquoted.
- `ProveFix.BuildWorkflow`: loading the plan file, and paths that are not text.
- `SliceSampler.RuntimeSliceSampler.Collect`: floating-point ratios, task class and command names in a record, and the parsing of `/proc`.
- Exec, stat-wait and CPU-frequency events, each one read and one emit; block I/O correlation, whose map may evict and whose fallback keys may collide.
- Display topology, configuration, capability tiers, reports, HTTP servers, command line and terminal interface.
