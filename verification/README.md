# A verified model of the block monitor

This project models three parts of the monitor and proves what they promise.

**The block watcher.** Per network, a watcher job moves a persisted cursor towards the confirmed
tip. It requests a bounded window of blocks, records holes in the answer in a ledger of missed
blocks, lets the blocks pass through concurrent handlers that return them in any order, and puts
them back in order before the trigger handler sees them. A tracker classifies every block handed
over. A second job works off the ledger, oldest block first, a bounded batch per run.

- `Window`, `Tracker`, `Gaps`, `ReorderBuffer`, `Ledger`, `Recovery`, `Watcher` model the code: the
  tracker and the storage are classes whose methods change their fields, the jobs are methods with
  loops, and each method is proved against a function of its inputs and of the old state.
- `Protocol` is the same protocol as a state machine whose steps are single storage and trigger
  operations of the two jobs, interleaved in any order; storage writes may fail, runs may end early
  and the process may die between any two steps. `Refinement` proves that the jobs as sequential
  code are paths of this machine. `NoLoss`, `ExactlyOnce`, `JointDelivery`, `CrashSafety`,
  `LedgerStatus` and `Progress` prove properties of all its runs. `Alarms` says when a run reports blocks
  out of order, and `RecoveryProgress` what one recovery run costs.

**Message texts.** `Escaper` models the MarkdownV2 escaping (Telegram Bot API, "Formatting options",
section "MarkdownV2 style"), and `EscapeCases` says case by case what it does to a message. `Template`,
`MatchReasons` and `Formatter` model the template formatter. `Flatten`, `FlattenPaths` and
`MatchVariables` model the way from a match to its template variables. `MatchReport` joins all of
these: what the message about a match says.

**Client pools.** `ClientPool` models get-or-create with double-checked locking, as sequential code
and as interleaved steps of any number of callers.

`Basics`, `Sorting` and `Decimal` are shared vocabulary.

## Findings

Each is stated with the condition under which it holds exactly.

- **Templates.** The loop of global replacements is a single simultaneous substitution, and does not
  depend on the order of the hash map, exactly for the templates that `Template.SafeTemplate`
  describes: no unfinished placeholder may run into a placeholder. It is not enough that the
  variables are harmless (names without `$` and `}`, values without `$`): `${a${b}}` with the variables
  `b` and `aX`, where `b` is `X}` and `aX` is empty, depends on the order
  (`Template.NestedPlaceholder`). For every template that is not safe, `Template.UnsafeDisagrees` finds
  harmless variables and two orders with different results.
- **Dollar signs in values.** The value of a variable comes through a template that is its placeholder
  in every order exactly if the value does not spell the placeholder of another variable
  (`Template.ValueHarmlessIff`); a price such as `$5` is harmless.
- **Loss in one run.** Take a successful run, from any cursor, none of whose requested numbers is in the
  ledger. Each of them is then handed over or in the ledger if and only if the answer holds all of
  them, or the network records gaps and the answer has a block at or below the first and one at or
  above the last requested number (`Watcher.NothingLostIff`). Without recording, holes are lost.
- **Cursor 0.** From cursor 0 the code asks for the tip alone although its window reaches further down.
  With that answer it covers its window exactly if the confirmed tip is block 0 or 1
  (`Watcher.FirstRunCoversIff`). Cursor 0 is the first run, but a run that sees block 0 as the confirmed
  tip also goes back to it; `NoLoss.RewoundRunAccounts` says exactly which blocks are then unaccounted for.
- **Repetition by the watcher.** The next run at the same tip hands the same blocks over again if and
  only if the first one did not end well (feeding the pipeline, deleting or saving stored blocks, or
  writing the cursor failed) or the confirmed tip is block 0 (`Watcher.HandedOverAgainIff`). At any later
  tip, if nodes answer with blocks of the requested window, a block other than block 0 is handed over
  again if and only if the first run did not end well and the next answer holds the block
  (`Watcher.HandedOverLaterIff`). When a run is repeated whose numbers are new and
  distinct, the tracker reports all of them as duplicates if they fit its window, and none of them
  otherwise (`Watcher.RepeatedVerdicts`).
- **False alarms.** The reset before each run keeps the tracker from reporting a block of the window out of
  order, whatever happened before (`Alarms.NoFalseAlarm`). One alarm remains: a run from cursor 0 that sees
  block 0 as the confirmed tip hands it over below its window, and the tracker reports it out of order
  exactly if it neither has it nor expects it (`Alarms.LoneAlarmIff`).
- **Repetition after a crash.** The tracker lives in memory. A run after a crash reports no block as a
  duplicate or out of order if its numbers are distinct and in its window, although it may hand the same
  blocks over again (`Alarms.CrashForgets`).
- **Repetition by the recovery job.** A recovered block is attempted again by the next run at the same
  tip if and only if none of three writes landed: its Recovering mark, its Recovered mark, the removal
  (`Recovery.HandedOverAgainIff`).
- **Both jobs together.** While all writes land, runs end well and tips do not go back, no block is
  handed over twice, by either job or by both (`JointDelivery.AtMostOnceTogether`). After a run that
  recorded a gap and ended early this fails: the next answer may hold the missing block, which is then
  handed over while its entry is still Pending (`JointDelivery.AbandonedGapIff`).
- **Stranded entries.** The mark that protects from a second delivery has a price. With the recovery job
  at rest, an entry is attempted again only if it is Pending (`CrashSafety.OnlyPendingIsAttempted`), so one
  left Recovering by a crash is not, for as long as it stays in the ledger (`CrashSafety.CrashStrands`).
- **Saving gaps.** A list keeps one entry per number in the ledger exactly if the numbers repeated in it
  are known already (`Ledger.SavingKeepsUniqueIff`), because saving only deduplicates against entries
  that were there before the call; gap detection lists no number twice.
- **Flattening.** An object loses no leaf, whatever its values, exactly if no key is empty, is repeated, or
  begins with another key followed by a dot (`Flatten.SafeKeysIff`). The data of a match is always
  fine, whatever its arguments are called (`MatchVariables.MatchRooted`).
- **Arguments of events.** The code collects arguments by signature, so every event of a signature lists
  the merged arguments of all events of that signature. With one entry of arguments per event, as the
  EVM filter writes them, the events have exactly their own arguments if and only if no two events of one
  signature differ in theirs (`MatchVariables.OwnArgumentsIff`). Two events of the same signature with
  different values of their argument both show the second value (`MatchVariables.TwoOfASignature`).

## Model

| member | source | states |
|---|---|---|
| Window.WindowPartition | src/services/blockwatcher/service.rs:464-510 | cursor below tip: the numbers after the cursor up to the tip split into skipped and requested ones; at most max_past_blocks + 1 are requested; none is skipped exactly when the window reaches back to the cursor |
| Window.DefaultWindowSkipsNothing | src/models/config/network_config.rs:30-34 | with the default window and any cursor that an earlier run left, nothing is skipped if blocks are at least block_time_ms apart and consecutive runs at most one cron interval apart |
| Watcher.WindowIff | src/services/blockwatcher/service.rs:464-474 | a run requests a number exactly if it is after the cursor, has confirmation_blocks confirmations and is at most the configured look-back below the confirmed tip; the default look-back is cron interval / block time + confirmations + 1 |
| Watcher.WindowCount | src/services/blockwatcher/service.rs:464-474 | a run requests all confirmed numbers after the cursor, or one more than the look-back, whichever is less |
| Tracker.BlockTracker.constructor | src/services/blockwatcher/tracker.rs:91-97 | a fresh tracker knows no network |
| Tracker.BlockTracker.GetLastBlock | src/services/blockwatcher/tracker.rs:109-115 | the greatest number in the window, or none |
| Tracker.BlockTracker.CheckProcessedBlock | src/services/blockwatcher/tracker.rs:153-201 | new window, new expected number and verdict as specified; other networks untouched |
| Tracker.BlockTracker.TrimHistory | src/services/blockwatcher/tracker.rs:195-198 | popping from the front leaves the last history_size entries |
| Tracker.BlockTracker.ResetExpectedNext | src/services/blockwatcher/tracker.rs:203-219 | the expected number becomes the minimum of itself and the start block; other networks untouched |
| Tracker.WindowIsLogTail | src/services/blockwatcher/tracker.rs:153-201 | after any calls the window is the last history_size numbers of the full log of non-duplicate checks, duplicate-free, and calls of other networks leave no trace |
| Tracker.DuplicateIffInWindow | src/services/blockwatcher/tracker.rs:169-173 | the answer is Duplicate exactly for the last history_size numbers of the log |
| Tracker.ExpectedIsHighWater | src/services/blockwatcher/tracker.rs:165-193 | between resets the expected number is its start value raised to one more than the greatest number recorded; for a network not seen before the start value is the first number checked |
| Tracker.ExpectedIsKept | src/services/blockwatcher/tracker.rs:153-219 | over any calls, resets included, the expected number is the first number checked, or what the last reset lowered it to, raised to one more than the greatest number recorded since |
| Tracker.VerdictIs | src/services/blockwatcher/tracker.rs:165-181 | after any calls a check answers Duplicate with the last number of the log for the last history_size numbers of the log; any other number is OutOfOrder, with expected and received number, exactly if it is below the expected number, and InOrder otherwise |
| Tracker.ResetOnlyLowers | src/services/blockwatcher/tracker.rs:203-219 | a reset never raises the expected number and never touches the window |
| Gaps.GapsArePartition | src/services/blockwatcher/tracker.rs:117-151 | the gaps ascend strictly, are disjoint from the fetched numbers, together with them fill the interval from least to greatest, and have the count this determines |
| Gaps.GapsAreBracketed | src/services/blockwatcher/tracker.rs:117-151 | a number is reported missing exactly if it was not fetched and lies between two fetched numbers |
| ReorderBuffer.Execute | src/services/blockwatcher/service.rs:597-629 | a block is checked and handed over whatever the verdict |
| ReorderBuffer.DrainBuffer | src/services/blockwatcher/service.rs:592-634 | the inner loop hands over exactly the drained blocks and leaves the drained buffer |
| ReorderBuffer.FlushBuffer | src/services/blockwatcher/service.rs:637-675 | the final loop hands over what is left, least number first |
| ReorderBuffer.TriggerStage | src/services/blockwatcher/service.rs:574-678 | the stage hands over the specified firing sequence; tracker state and verdicts are those of checking that sequence |
| ReorderBuffer.RepeatedArrivals | src/services/blockwatcher/service.rs:586-675 | for any arrivals: first the contiguous run up to the least number that never arrived, then distinct numbers ascending; exactly the arrived numbers fire, each once or twice, and the latest arrival of each is among them |
| ReorderBuffer.Confluence | src/services/blockwatcher/service.rs:574-678 | with distinct numbers the blocks handed over and their order do not depend on the order of arrival |
| ReorderBuffer.FiresSorted | src/services/blockwatcher/service.rs:574-678 | with distinct numbers, none before the start block, the stage sorts |
| ReorderBuffer.FiredArrived | src/services/blockwatcher/service.rs:586-675 | nothing is handed over that did not arrive |
| Ledger.FileBlockStorage.constructor | src/services/blockwatcher/storage.rs:460-525 | without files there is no cursor and no missed block |
| Ledger.FileBlockStorage.LoadMissedBlocks | src/services/blockwatcher/storage.rs:460-525 | loading returns the ledger, converting a legacy text file on the way without changing what later loads see |
| Ledger.FileBlockStorage.SaveMissedBlocks | src/services/blockwatcher/storage.rs:331-356 | unknown numbers are appended as fresh entries; nothing changes if the write fails |
| Ledger.FileBlockStorage.GetMissedBlocks | src/services/blockwatcher/storage.rs:358-381 | the Pending entries that are young enough and below the retry limit, in stored order; the ledger does not change |
| Ledger.FileBlockStorage.UpdateMissedBlockStatus | src/services/blockwatcher/storage.rs:383-406 | the first entry with the number gets the status, counting a retry for Pending and Failed; a missing number changes nothing |
| Ledger.FileBlockStorage.RemoveRecoveredBlocks | src/services/blockwatcher/storage.rs:408-428 | exactly the entries with listed numbers leave the ledger |
| Ledger.FileBlockStorage.PruneOldMissedBlocks | src/services/blockwatcher/storage.rs:430-455 | exactly the entries older than the limit leave, and their count is returned |
| Ledger.FileBlockStorage.DeleteBlocks | src/services/blockwatcher/storage.rs:302-318 | deletes the block files one by one; a failing deletion leaves those not yet deleted |
| Ledger.FileBlockStorage.SaveBlocks | src/services/blockwatcher/storage.rs:279-295 | each save adds one file |
| Ledger.FileBlockStorage.SaveLastProcessedBlock | src/services/blockwatcher/storage.rs:260-272 | the cursor takes the value, or nothing changes if the write fails |
| Ledger.AddMissingKeeps | src/services/blockwatcher/storage.rs:340-355 | saving never touches an existing entry, adds exactly the unknown numbers as fresh entries, and keeps numbers unique if none is listed twice |
| Ledger.SavingGapsKeepsUnique | src/services/blockwatcher/service.rs:519-537 | saving detected gaps keeps one entry per number |
| Ledger.SavingKeepsUniqueIff | src/services/blockwatcher/storage.rs:344-351 | saving a list keeps one entry per number if and only if every number repeated in the list is known already |
| Ledger.MigrationIsUnique | src/services/blockwatcher/storage.rs:493-507 | migration gives one fresh entry per number that occurs on some line |
| Ledger.SetStatusMembers | src/services/blockwatcher/storage.rs:392-403 | with unique keys a status write changes exactly the entry of the number |
| Ledger.SetStatusFirst | src/services/blockwatcher/storage.rs:392-403 | also with repeated numbers: the first entry of the number gets the status, and one more retry for Pending and Failed; no other entry changes |
| Ledger.SelectedIff | src/services/blockwatcher/storage.rs:366-378 | selected are exactly the Pending entries below the retry limit whose number is at most max_block_age below the current block |
| Ledger.PrunedIff | src/services/blockwatcher/storage.rs:438-446 | pruning keeps exactly the entries at most max_block_age below the current block |
| Recovery.ProcessMissedBlocks | src/services/blockwatcher/recovery.rs:54-330 | the job leaves the ledger, hands over the blocks and returns the statistics of the specified run, also when reads or writes fail |
| Recovery.BatchIsOldest | src/services/blockwatcher/recovery.rs:101-116 | the batch is the oldest eligible entries in ascending order, min(max_blocks_per_run, eligible) many |
| Recovery.AgeTestRedundant | src/services/blockwatcher/storage.rs:367-378 | after the prune the age test of the selection excludes nothing |
| Recovery.RunOutcome | src/services/blockwatcher/recovery.rs:80-318 | exactly what a run whose writes land leaves in the ledger and hands over |
| Recovery.OldestFirst | src/services/blockwatcher/recovery.rs:113-190 | a run attempts, and hands over, blocks in strictly ascending order of their numbers, whatever fails |
| Recovery.NumbersLeftIff | src/services/blockwatcher/recovery.rs:80-318 | whatever status writes fail, a run leaves in the ledger exactly the numbers that are not too old, except the recovered ones if the removal lands |
| Recovery.AttemptedOnlyIf | src/services/blockwatcher/recovery.rs:80-116 | only entries that are Pending, below the retry limit and not too old are attempted |
| Recovery.Conservation | src/services/blockwatcher/recovery.rs:80-330 | size before = size after + pruned + recovered; attempted = recovered + failed + requeued = min(max_blocks_per_run, eligible) |
| Recovery.PendingAfterRunIff | src/services/blockwatcher/recovery.rs:139-318 | for any block of any batch that was handed over: its entry is Pending after the run if and only if neither its marks nor the removal landed |
| Recovery.HandedOverAgainIff | src/services/blockwatcher/recovery.rs:101-318 | a block handed over by one run is attempted again by the next run at the same tip if and only if its Recovering mark, its Recovered mark and the removal all failed |
| Recovery.NothingLandsRepeats | src/services/blockwatcher/recovery.rs:139-318 | if neither status writes nor the removal land, the next run attempts and, with the same answers, fires the same blocks again |
| RecoveryProgress.RunCosts | src/services/blockwatcher/recovery.rs:198-303 | the sum over Pending entries of the retries left drops by at least the number of attempts in every run whose writes land |
| Progress.WorkIsBounded | src/services/blockwatcher/recovery.rs:198-303 | over all interleavings of both jobs and any crashes, as long as status writes land: the requests made and the retries left never exceed the retries left at the beginning, plus max_retries per entry added |
| Progress.NoStarvation | src/services/blockwatcher/recovery.rs:101-304 | over all interleavings of both jobs and any crashes: a waiting block that is not pruned is attempted before floor(D/m) + 1 recovery runs are complete, D the retries left of older entries, if no unknown older number is added |
| Watcher.RecordGaps | src/services/blockwatcher/service.rs:518-539 | gaps go to the ledger if block storing or recovery is enabled; a failed write ends the run |
| Watcher.Commit | src/services/blockwatcher/service.rs:707-723 | the block files are replaced if configured, then the cursor is written unconditionally; each failure ends the run at that point, and a failing deletion leaves the files not yet deleted |
| Watcher.ProcessFetched | src/services/blockwatcher/service.rs:512-723 | a run from the reset of the tracker on, step by step on storage and tracker |
| Watcher.ProcessNewBlocks | src/services/blockwatcher/service.rs:437-732 | the whole run: cursor, ledger, tracker state, blocks handed over, verdicts and success as specified for every failure point |
| Watcher.FiresWhatWasFetched | src/services/blockwatcher/service.rs:541-705 | the numbers handed over are exactly those of the fetched blocks |
| Watcher.NothingLostIff | src/services/blockwatcher/service.rs:453-539 | a successful run from any cursor, with no requested number in the ledger before, leaves each requested number handed over or in the ledger if and only if the answer holds them all, or the network stores blocks or has recovery enabled, and both endpoints are in the answer |
| Watcher.GapsRecordedIff | src/services/blockwatcher/service.rs:518-539 | a successful run adds an unknown number to the ledger if and only if it lies unfetched between two fetched numbers and the network has store_blocks set or recovery enabled |
| Watcher.GapsBeforeBlocks | src/services/blockwatcher/service.rs:518-705 | a run that records gaps hands over no block before all its gaps are in the ledger |
| Watcher.EndsWellIff | src/services/blockwatcher/service.rs:453-723 | a run ends well, and moves the cursor to the newest confirmed block, exactly if its reads succeed, gaps to be recorded are written, the pipeline is fed, stored blocks are replaced if configured, and the cursor is written |
| Watcher.FirstRunCoversIff | src/services/blockwatcher/service.rs:495-499 | the run from cursor 0 that gets the tip alone covers its window if and only if the confirmed tip is at most 1 |
| Watcher.HandedOverAgainIff | src/services/blockwatcher/service.rs:698-723 | the next run at the same tip hands the same blocks over again if and only if the first run did not end well or the confirmed tip is 0; otherwise it hands over nothing |
| Watcher.HandedOverLaterIff | src/services/blockwatcher/service.rs:471-723 | with answers within the requested windows and any later tip: a block other than block 0 that one run handed over is handed over by the next if and only if the first run did not end well and the next answer holds the block |
| Watcher.DuplicatesIffWindowHolds | src/services/blockwatcher/tracker.rs:169-198 | new distinct numbers checked a second time are all reported as duplicates if they fit the window, and none of them otherwise |
| Watcher.RepeatedVerdicts | src/services/blockwatcher/service.rs:597-673 | the verdicts of a repeated run: all Duplicate if the blocks fit the tracker window, none Duplicate otherwise |
| Alarms.NoFalseAlarm | src/services/blockwatcher/service.rs:512-516 | whatever the tracker held before, no block of the window is reported out of order by a run in which no number comes back twice |
| Alarms.LoneAlarmIff | src/services/blockwatcher/service.rs:495-516 | the lone block requested from cursor 0 is reported out of order exactly if it is block 0 and the tracker neither has it nor expects it |
| Alarms.CrashForgets | src/services/blockwatcher/tracker.rs:91-97 | after a crash, blocks of a run with distinct in-window numbers are all reported in order, whatever was handed over before |
| Protocol.QueueNumbers | src/services/blockwatcher/service.rs:541-705 | the queue of a run holds exactly the numbers of the fetched blocks |
| NoLoss.NothingIsLost | src/services/blockwatcher/service.rs:453-723 | from any cursor and ledger, over all interleavings, failed writes, aborted runs and crashes, every number the cursor has passed was handed over, is in the ledger, was pruned from it, or lay below the window of the run that passed it |
| NoLoss.RewoundRunAccounts | src/services/blockwatcher/service.rs:495-499 | for every configuration, cursor, ledger and tip: after a run that sees confirmed tip 0 and the lone request that follows, exactly the new tip, the numbers below its window and those in the ledger are accounted for |
| ExactlyOnce.OrderedExactlyOnce | src/services/blockwatcher/service.rs:471-678 | from any cursor, successful runs with non-decreasing tips and distinct in-range answers hand over one strictly increasing sequence, and every check answers Ok |
| JointDelivery.AtMostOnceTogether | src/services/blockwatcher/service.rs:437-732 | from any ledger at rest with entries up to the cursor, over all interleavings of both jobs whose writes land and whose runs end well: the watcher hands over ascending numbers, the recovery job distinct ones, and no number is handed over by both |
| JointDelivery.AbandonedGapIff | src/services/blockwatcher/service.rs:518-539 | after a run that recorded a gap and ended early, the next run hands the missing block over while its entry is Pending if and only if its answer holds the block |
| CrashSafety.LandedMarkParks | src/services/blockwatcher/recovery.rs:139-156 | a landed Recovering mark parks the entry |
| CrashSafety.ParkedIsNotAttempted | src/services/blockwatcher/storage.rs:371-378 | a parked entry is never attempted again, through any failed writes and crashes, unless a Pending write lands on it |
| CrashSafety.QuietIsNotRedelivered | src/services/blockwatcher/recovery.rs:139-190 | a parked entry without a request under way is neither attempted nor handed over, through any failed writes and crashes, while it stays in the ledger |
| CrashSafety.OnlyPendingIsAttempted | src/services/blockwatcher/storage.rs:371-378 | with the job at rest, an entry that stays in the ledger is attempted again, through any failures, only if it is Pending now |
| CrashSafety.CrashStrands | src/services/blockwatcher/recovery.rs:139-190 | after a crash during an attempt whose Recovering mark landed, the entry is never attempted again while it stays in the ledger |
| CrashSafety.NoSecondDelivery | src/services/blockwatcher/recovery.rs:158-318 | a recovered block whose Recovering mark landed is handed over once from its entry, even if the Recovered write and the removal both fail |
| CrashSafety.DeliveredOnce | src/services/blockwatcher/recovery.rs:139-318 | from any ledger with unique keys and through any history of failures: once a Recovering mark landed and its block was handed over, that entry is not handed over again |
| CrashSafety.PendingAfterDeliveryIff | src/services/blockwatcher/recovery.rs:139-318 | step by step: after a delivery the entry is Pending if and only if the Recovering mark, the Recovered mark and the removal all failed |
| LedgerStatus.LedgerAutomaton | src/services/blockwatcher/storage.rs:383-454 | over all interleavings with landing writes and without crashes: numbers stay unique, Failed holds exactly at the retry limit, Pending below it, and between recovery runs there is no Recovering or Recovered entry |
| LedgerStatus.EntryFate | src/services/blockwatcher/recovery.rs:199-207 | the only ways an entry can change or leave; a Failed one leaves only by pruning, and saving gaps never changes an entry |
| Refinement.RecoveryIsPath | src/services/blockwatcher/recovery.rs:54-330 | a run of the recovery job is a path of the state machine with the same ledger, attempts and blocks handed over; the numbers it counts as pruned are exactly the too old ones |
| Refinement.WatchIsPath | src/services/blockwatcher/service.rs:437-732 | a run of the watcher job is a path of the state machine with the same cursor, ledger, tracker state, blocks and verdicts; the numbers it counts as skipped are exactly those below the window when the cursor passes them |
| ClientPool.ClientStorage.constructor | src/services/blockchain/pool.rs:111-140 | a new pool stores no client |
| ClientPool.ClientStorage.GetOrCreateClient | src/services/blockchain/pool.rs:111-140 | returns the stored client, also one stored between the two checks; stores a created one; a failed creation leaves the map unchanged |
| ClientPool.OneClientPerKey | src/services/blockchain/pool.rs:111-140 | in every interleaving of any number of callers: one creation per key, all callers of a key hold the stored client, and it is never replaced |
| ClientPool.CreationsExclude | src/services/blockchain/pool.rs:121-139 | creations never overlap, not even for different keys |
| ClientPool.OnlyCreationStores | src/services/notification/pool.rs:41-69 | the map changes only by a successful creation for an absent key |
| ClientPool.StoredIsServed | src/services/blockchain/pool.rs:119-134 | a call whose client is stored is served with it by the fast check, and by the second check, which releases the lock |
| ClientPool.RejectedOnlyIf | src/services/blockchain/pool.rs:119-140 | a call is rejected only if its own creation fails or it is dropped |
| ClientPool.DropReleases | src/services/blockchain/pool.rs:119-139 | in any reachable state, dropping an unfinished call ends it and frees the lock if it held it, and takes the lock from nobody else |
| ClientPool.MissedIsServed | src/services/blockchain/pool.rs:127-139 | in any reachable state in which the lock is free, a call that missed is served by its own next steps if creation succeeds, without a second creation if the client was stored meanwhile |
| ClientPool.AloneIsPath | src/services/notification/pool.rs:41-69 | a call without interference does what the sequential code does |
| Escaper.EscapeMarkdownV2 | src/services/notification/payload_builder.rs:92-151 | the loop over the matches of the pattern produces the escaping of the token sequence |
| Escaper.EscapeReadsBack | src/services/notification/payload_builder.rs:92-151 | a strict reader, which rejects every special character that is neither escaped nor part of a span or a link delimiter, reads an escaped message as the tokens of the original |
| Escaper.ScanIsFaithful | src/services/notification/payload_builder.rs:99-126 | the token sequence of a message spells the message |
| Escaper.RoundTrip | src/services/notification/payload_builder.rs:92-151 | decoding an escaped message recovers it, for every message |
| Escaper.EscapeInjective | src/services/notification/payload_builder.rs:92-151 | no two messages are escaped alike |
| EscapeCases.SpansAreKept | src/services/notification/payload_builder.rs:99-141 | text between two asterisks, underscores or tildes is copied with its delimiters |
| EscapeCases.FencesAreKept | src/services/notification/payload_builder.rs:99-141 | everything from three backticks to the next three is copied |
| EscapeCases.CodeIsKept | src/services/notification/payload_builder.rs:99-141 | text between two backticks is copied, unless they begin a fence that is closed |
| EscapeCases.LinksAreKept | src/services/notification/payload_builder.rs:117-139 | a link with non-empty caption and target keeps its delimiters, and caption and target are escaped |
| EscapeCases.OthersAreEscaped | src/services/notification/payload_builder.rs:93-115 | a message that begins with no span and no link begins with its first character, with a backslash if it is one of the nineteen special ones |
| Template.Substitute | src/services/notification/template_formatter.rs:18-24 | the loop of global replacements, in any order of the map |
| Template.SafeMeansOnePass | src/services/notification/template_formatter.rs:18-24 | for a safe template the loop is one simultaneous substitution |
| Template.UnsafeDisagrees | src/services/notification/template_formatter.rs:21-24 | every unsafe template has harmless variables for which two orders disagree |
| Template.OrderIrrelevantIffSafe | src/services/notification/template_formatter.rs:21-24 | the order of the map never matters, and the loop is one simultaneous substitution, if and only if the template is safe |
| Template.NestedPlaceholder | src/services/notification/template_formatter.rs:21-24 | for `${a${b}}` with b = `X}` and aX empty, two orders give different texts |
| Template.CompleteIsSafe | src/services/notification/template_formatter.rs:18-24 | text without dollar signs and complete placeholders make a safe template |
| Template.ValueHarmlessIff | src/services/notification/template_formatter.rs:21-24 | for a template that is one placeholder and any value of it: all orders agree for all values of the other variables if and only if the value spells no placeholder of another variable |
| Sorting.SortForgets | src/services/notification/template_formatter.rs:75-99 | sorting entries the order tells apart forgets the order of the input |
| Sorting.CollectPermutes | src/services/notification/template_formatter.rs:58-97 | what a loop over the map collects is the same in every order, up to permutation |
| Sorting.BeforeIff | src/services/notification/template_formatter.rs:99 | names are compared by the first character in which they differ, a prefix coming first |
| Decimal.ShowParses | src/services/notification/template_formatter.rs:65-66 | parsing the decimal form of an index gives the index back |
| Decimal.ShowIff | src/services/notification/template_formatter.rs:86 | a number is written as the only string of decimal digits without leading zeros whose place value it is |
| Decimal.ParsesIff | src/services/notification/template_formatter.rs:65-66 | parsing accepts an optional plus sign and digits whose place value is below 2^64, and gives that value |
| MatchReasons.CollectIndexes | src/services/notification/template_formatter.rs:58-71 | exactly the indexes of keys of the form prefix, number, signature, in the order of the map |
| MatchReasons.CollectParams | src/services/notification/template_formatter.rs:88-97 | exactly the arguments below a head, in the order of the map |
| MatchReasons.PushReason | src/services/notification/template_formatter.rs:81-109 | appends one reason, or nothing if the canonical signature key is absent |
| MatchReasons.BuildMatchReasons | src/services/notification/template_formatter.rs:55-115 | the section text as specified, or none without indexes |
| MatchReasons.ParamsAre | src/services/notification/template_formatter.rs:88-103 | in every order of the map the arguments below a head come out in ascending order of their names |
| MatchReasons.SectionOrderFree | src/services/notification/template_formatter.rs:55-115 | for every map of variables the section does not depend on the order of the map |
| Formatter.FormatTemplate | src/services/notification/template_formatter.rs:18-44 | variables, then the functions section, then the events section, each section only if the original template asks for it |
| Formatter.NotAskedFor | src/services/notification/template_formatter.rs:26-42 | a template that asks for no section gets none, even if its variables bring in the placeholder of one |
| Formatter.FormatIsOnePass | src/services/notification/template_formatter.rs:18-44 | for a safe template and harmless variables that do not name a section, formatting is one simultaneous substitution of variables and sections, in every order of the map |
| Flatten.JsonToHashmap | src/services/filter/filter_match.rs:411-416 | the map of the leaves, later ones replacing earlier ones of the same path |
| Flatten.FlattenJsonPath | src/services/filter/filter_match.rs:418-441 | adds the leaves below a prefix, in the order of the traversal |
| Flatten.InsertPrimitive | src/services/filter/filter_match.rs:443-452 | adds one leaf, under "value" if it has no path |
| Flatten.SafeKeysIff | src/services/filter/filter_match.rs:418-441 | flattening an object loses no leaf, whatever values without collisions of their own its keys carry, if and only if no key is empty, is repeated, or begins with another key followed by a dot |
| Flatten.FlattenKeepsLeaves | src/services/filter/filter_match.rs:418-452 | a value none of whose keys is repeated or begins with the key of a non-primitive sibling followed by a dot, and without empty key at the root, loses no leaf, and the map holds exactly the leaves |
| FlattenPaths.FlattenTakesLast | src/services/filter/filter_match.rs:411-452 | for any JSON value: an entry for a path exists exactly if a way through the value spells it, and has the text of the primitive to which the last such way leads |
| MatchVariables.CollectArgs | src/services/filter/filter_match.rs:89-103 | the arguments extracted for a signature, merged over all its entries |
| MatchVariables.PushEntries | src/services/filter/filter_match.rs:95-98 | inserts the entries one by one |
| MatchVariables.PushItems | src/services/filter/filter_match.rs:82-107 | one object with signature and arguments per matched signature, in order |
| MatchVariables.HandleMatch | src/services/filter/filter_match.rs:60-148 | the variables are the flattened data of the match |
| MatchVariables.ArgsAreLast | src/services/filter/filter_match.rs:89-103 | an item has every argument name extracted for its signature once, with the value extracted last, in ascending order |
| MatchVariables.OwnArgumentsIff | src/services/filter/filter_match.rs:109-134 | with one entry per event: every item has exactly the arguments of its own entry if and only if no two entries of the same signature differ in theirs |
| MatchVariables.TwoOfASignature | src/services/filter/filter_match.rs:116-130 | two events of one signature with one argument each: both items get the argument of the second |
| MatchVariables.MatchRooted | src/services/filter/filter_match.rs:62-134 | the data of a match has distinct leaf paths, whatever its arguments are called |
| MatchVariables.VariablesAre | src/services/filter/filter_match.rs:60-134 | the variables of a match are exactly: monitor.name; hash, from, value and, with a receiver, to of the transaction, or its hash, or its signature alone; and signature and arguments of the i-th event and function |
| MatchReport.IndexesAre | src/services/notification/template_formatter.rs:58-75 | the sorted indexes of a section are 0, 1, ..., one per item; no name of an argument can forge another one |
| MatchReport.MatchRenders | src/services/notification/template_formatter.rs:55-115 | for every match, every order of the map and any argument names: one reason per matched event or function, numbered from one in the order of the match, each with its signature and the arguments extracted for that signature, sorted by name; the text is given letter by letter |
| MatchReport.OwnReasons | src/services/notification/template_formatter.rs:81-109 | the events section lists each event with exactly its own arguments, if no two events of one signature differ in theirs |
| MatchReport.MessageOfMatch | src/services/filter/filter_match.rs:52-148 | from a match to its message: one simultaneous substitution of the variables and the two reports |

## Left out

- Widths: block numbers, retry counts and intervals are unbounded naturals, so the overflow of `block_number + 1` at the greatest 64-bit number is not modelled. The parser of decimal numbers has its 64-bit limit; indexes assume a 64-bit platform.
- Storage operations are atomic: the code loads and saves a file in two separate steps. The two jobs of a network may interleave operation by operation, but two runs of the same job do not overlap.
- A failed ledger operation leaves the ledger as it was; a torn file and a ledger file that does not parse are not modelled. That an operation which fails may already have migrated the legacy file is.
- Trimming of the lines of the legacy file is left out: the lines of the model are the trimmed lines.
- Nodes, transports, time-outs and retries inside a client are replaced by arbitrary answers; channels, tasks and the limit of 32 blocks in flight by an arbitrary order of arrival. Block handlers are total. A block without a number counts as block 0 in the pipeline, as in the code.
- Time stamps, error texts, logging, metrics and sleeps do not influence control flow and are not modelled. The cron interval is a parameter.
- Watcher.Commit: block files have no names; a file left behind by a failing write, and two saves within the same second, are not modelled. Deleting before saving makes the latter impossible within a run.
- Recovery.ProcessMissedBlocks: the first block of a non-empty answer to a single-block request is taken to be the requested one.
- Recovery.NothingLandsRepeats: concerns the writes after pruning and selection; a failing prune or selection ends the run before anything is attempted.
- ClientPool.ClientStorage.GetOrCreateClient: the method takes the clients stored meanwhile by other callers as a parameter; the state machine beside it models them as steps. The registry of client types, and its error for an unknown type, is not modelled.
- Escaper.EscapeMarkdownV2: the engine of regular expressions is not modelled; the six alternatives of the pattern are written as a scanner that tries them in order at each position.
- MatchReport.MatchRenders: a match has at most 2^64 events and functions, the range of the indexes that the formatter reads back.
- Strings are sequences of characters. The capital letter of a section heading is modelled for the letters a to z; the code only uses "events" and "functions".
- MatchVariables.HandleMatch: the conversion of hashes, addresses and amounts to text is a parameter, and so are the trigger names passed along. The iteration order of JSON objects is ascending by key.
- The evaluation of filter expressions, the chain-specific filters, configuration loading and secrets, script execution, and the senders of e-mail and webhooks are not modelled.
