# Verified model of the Aptos indexer processors

The indexer reads the Aptos ledger from a gRPC stream as version-ordered batches of transactions, turns
each batch into rows, writes the rows to Postgres from many tasks at once, and remembers in one row per
processor how far it got. This project models that pipeline and the tables behind it in Dafny and proves
what it promises: that the remembered version never leads the work, over every interleaving, crash and
restart; that tables written by concurrent, repeated, re-cut batches end up as a sequential replay would
leave them; that the writers cannot deadlock; that nothing is lost on a clean shutdown. Where such a
promise does not hold for the code as it is, a lemma shows an input and another says exactly when it does.

`dafny verify dfyconfig.toml` checks everything.

## How the project is laid out

* `GapDetection`, `StatusTracking`: the reorder buffer (a class with the program's draining loop) and the
  loop that feeds it and moves the checkpoint row. A detector state is also a value, `Detector`, so that
  whole runs can be stated with `AbsorbAll`.
* `Fetching`, `FetchOutcome`: the fetch loop, as a class proved equal to `PollAll`, and what it comes to told
  from the stream alone; the stream is the list of responses,
  errors, ends and timeouts it yields across reconnections.
* `Pipeline`: the whole process as a machine over atomic steps. `Setting` holds what does not change (the
  ledger, the ranges the server may put into one response, the filter, the limits), `World` the database
  and the running process. An event says who moves; `Possible` and `After` give every run. A panic
  anywhere, like a kill, is a step that leaves only the database.
  `PipelineSafety`, `PipelineNecessity`, `PipelineConservation`, `PipelineProgress` and `PipelineResume` are the
  theorems about it.
* `Upserts`, `Convergence`, `GuardLoss`, `Execution`, `LockOrder`: guarded upserts as conditional map
  updates, what any order of them leads to, what happens when a guard is dropped, how lists are chunked and
  retried, and row locks taken in list order. `TableItems` and `Coins` instantiate them. `EndToEnd` joins the
  pipeline with `current_table_items`.
* `Ans`, `AnsHistory`: the name service parser, with v1 changes mirrored into the v2 tables, and the row each
  change and event calls for.
* `PythonProducer`, `PythonOutcome`, `PythonConsumer`, `PythonPipeline`: the Python worker, its loops and its machine.
* `MovingAverage`, `Addresses`, `JsonCleaning`, `Chunking`, `Options`, `Machine`: smaller parts.

Loops that change state are methods or classes, each proved against a function on values; the theorems are
about those functions.

## What does not hold, and exactly when it does

* A response with more wanted transactions than one message may hold goes out in pieces that all carry the
  range of the whole response, so the checkpoint can pass a piece that was never written
  (`ThreeVersionsTwoPerMessage`). Checkpoint safety holds in every run if and only if every response the
  server may send fits in one message (`SafeIffOneMessagePerResponse`). Conservation, clean shutdown and
  the detector's exact frontier hold either way.
* A configured start version beyond the checkpoint leaves a hole behind a checkpoint that moves on
  (`SkippingRestartIsUnsafe`, and `SkippingRestartLeavesHole` for Python). A restart is safe if and only if
  nothing wanted below it is uncommitted (`RestartSafeIffNothingSkipped`, `RestartSettledIff`); starts taken
  from the database always are.
* The version guard is left off a statement whose rendered text, values included, contains "where"
  (`WhereInValueDropsGuard`, `WhereInValueLetsOldRowWin`). Guarded or not, two rows of one key and version
  that differ, such as a row and its cleaned form, are decided by who comes last (`TieLetsLastRowWin`). All
  orders of a set of statements end in the same table if and only if no statement that lost its guard carries
  a row that another statement beats, and no two unbeaten rows of one key differ (`OrderIrrelevantIff`).
* Two coin types of one owner that agree in their first 5000 characters fold into one row although their
  hashes differ (`LongTypesLoseARow`). For any batch and both tables the fold loses nothing if and only if no
  owner has two such types in the batch (`FoldLosesNothingIff`), and writing the fold of a batch leaves the
  table of its replay under the same condition (`OneBatchTableIff`).
* Two lookups can share a token name: the subdomain b of a and the domain b.a (`DottedNamesCollide`, from one
  transaction). Two names do if and only if they are equal or one is the other read with another dot as the
  separator (`TokenNamesEqualIff`), and so for the current lookups after any list of transactions
  (`TokenNamesIdentifyLookups`).
* The Python consumer can check that the producer is alive just before the producer ends and then wait for
  ever (`ProducerEndsBehindTheCheck`); that is the only way to get stuck after the end, and nothing
  delivered is lost by it (`WaitsForeverIff`).
* The comment on the status update (`rust/processor/src/processors/mod.rs:117-118`) says that a gap makes
  the processor panic. The code does not panic on a gap; it waits in the detector. The model follows the
  code.

## Model

| member | source | states |
|---|---|---|
| `GapDetection.GapDetector.ProcessVersions` | rust/processor/src/gap_detector.rs:39-58 | the fields after a result are those of `Absorb`; the returned frontier, gap count and last batch are the new ones |
| `GapDetection.GapDetector.UpdatePrevBatch` | rust/processor/src/gap_detector.rs:60-68 | the draining loop terminates and leaves the store, last batch and frontier of `Drain` |
| `GapDetection.AnyRunSound` | rust/processor/src/gap_detector.rs:44-68 | for arbitrary results with start ≤ end, overlapping or repeated: every version below the frontier is covered by a received result, the frontier is no key of the store, the last batch ends right before it |
| `GapDetection.FrontierMonotone` | rust/processor/src/gap_detector.rs:44-68 | for arbitrary results with start ≤ end the frontier never moves back |
| `GapDetection.FrontierIsLeastUncovered` | rust/processor/src/gap_detector.rs:39-68 | in any arrival order, with the same range reported any number of times, the frontier is the least version not covered |
| `GapDetection.StateIsDetermined` | rust/processor/src/gap_detector.rs:39-68 | for results drawn without repetition from a tiling: exact frontier, the store is exactly the received results beyond it, the last batch is the received one ending before it |
| `GapDetection.Confluence` | rust/processor/src/gap_detector.rs:39-68 | two arrival orders of the same set leave the same detector in every field |
| `GapDetection.LateSiblingIsInert` | rust/processor/src/gap_detector.rs:44-47 | a report whose start is already behind the frontier stays in the store for ever and changes no later frontier or last batch |
| `GapDetection.StoreHoldsLatest` | rust/processor/src/gap_detector.rs:44-46 | for arbitrary results with start ≤ end, whatever is stored under a start is the latest report of that start |
| `StatusTracking.ProcessorStatus.UpdateLastProcessedVersion` | rust/processor/src/processors/mod.rs:119-147 | the stored version is inserted, or overwritten unless it is larger |
| `StatusTracking.StatusTrackerLoop` | rust/processor/src/gap_detector.rs:84-127 | detector, row, clock and times of the row's writes after all arrivals are those of `Tracked`: the row moves to the end of the last gap-free batch when a whole second has passed since the last write, and a write resets the clock |
| `StatusTracking.UpdatesAreSpaced` | rust/processor/src/gap_detector.rs:116-126 | however the results arrive, the row is written at most once a second, and not in the first second |
| `StatusTracking.DetectsAreTracked` | rust/processor/src/gap_detector.rs:87-127 | in the whole process the waiting results can be received exactly as the loop receives them, with the same detector and row |
| `StatusTracking.RowNeverLeads` | rust/processor/src/gap_detector.rs:116-127 | whatever the throttling, the row never passes the frontier, never moves back, and when it moved everything up to it is covered |
| `StatusTracking.RowFollowsFrontier` | rust/processor/src/gap_detector.rs:116-126 | at an arrival checked a second or more after the clock, with the frontier past the start, the row is at least the version before the frontier, exactly that if it moved, and the clock restarts; at any other arrival row, clock and writes stay |
| `Fetching.Fetcher.Run` | rust/processor/src/grpc_stream.rs:355-681 | for every stream the loop's variables, requests and sent messages are those of `PollAll` |
| `Fetching.Fetcher.HandleItem` | rust/processor/src/grpc_stream.rs:361-681 | one turn: gap check, filter, split, end test, reconnection, with every panic |
| `Fetching.Fetcher.Retain` | rust/processor/src/grpc_stream.rs:391-391 | the transactions kept are those the filter wants, in order |
| `Fetching.Fetcher.SendPieces` | rust/processor/src/grpc_stream.rs:457-520 | the messages put on the channel are those of `Split` |
| `Fetching.SplitLossless` | rust/processor/src/grpc_stream.rs:457-504 | at least one message; the pieces concatenate to the filtered transactions in order; none is over the limit; all carry the chain id and the versions and timestamps of the whole response's ends; one message exactly when it fits |
| `Fetching.SplitSizes` | rust/processor/src/grpc_stream.rs:384-504 | byte sizes add up to at most the response, short by fewer bytes than transactions when nothing was filtered |
| `Fetching.SentRangesTile` | rust/processor/src/grpc_stream.rs:355-520 | for every stream of responses, errors, ends and timeouts and every filter, the distinct ranges sent tile from the start to the last fetched version, and unless the loop panicked the next version to fetch is one more |
| `Fetching.PollSendsNextRange` | rust/processor/src/grpc_stream.rs:371-520 | one turn fetches nothing and sends nothing, or sends exactly the range that follows |
| `Fetching.FetchLoopHalts` | rust/processor/src/grpc_stream.rs:598-681 | with an ending version not yet passed the loop ends or panics within a number of turns fixed by the versions and retries left |
| `Fetching.ReconnectsAskForTheRest` | rust/processor/src/grpc_stream.rs:647-681 | every reconnection asks for exactly the versions still missing, at least one, and for no count without an ending version |
| `FetchOutcome.GoesOn` | rust/processor/src/grpc_stream.rs:355-681 | as long as every item is one the loop goes past, it polls on from the end of the last response, with as many retries as failures since, one request per failure for the versions still missing, and every wanted transaction sent once, in order |
| `FetchOutcome.StopsAt` | rust/processor/src/grpc_stream.rs:598-656 | at the first item it does not go past the loop ends if everything is fetched, and panics otherwise; what it sent is the wanted transactions of the responses it accepted |
| `FetchOutcome.PanicsIff` | rust/processor/src/grpc_stream.rs:371-656 | the loop panics if and only if, before everything was fetched, there is a response that is empty, has no chain id or does not follow on, a message size of 0, or a sixth failure in a row |
| `FetchOutcome.PatientStreamNeverPanics` | rust/processor/src/grpc_stream.rs:647-676 | on a stream of whole responses that follow on, with no six failures in a row, the loop never panics, and until everything is fetched has asked once more after every failure |
| `FetchOutcome.OneRequestPerFailure` | rust/processor/src/grpc_stream.rs:656-681 | there is one request for the start and one for each error, end and timeout |
| `Pipeline.DefaultStartsNeverSkip` | rust/processor/src/worker.rs:146-159 | runs with no configured start version never start beyond the version after the checkpoint |
| `PipelineResume.RunsBeginWhereTheyShould` | rust/processor/src/worker.rs:146-159 | a run begins at the configured version, else right after the checkpoint, else at 0: until the next crash no message and nothing written is older, and the messages span everything from there to the next version to fetch |
| `PipelineSafety.StepKeepsInv` | rust/processor/src/worker.rs:319-519 | every step of fetcher, task, detector, crash or restart keeps the safety invariant |
| `PipelineSafety.FittingResponseIsFull` | rust/processor/src/grpc_stream.rs:457-490 | a response that fits is one message that carries every wanted version of its range |
| `PipelineSafety.ResultReportsResponse` | rust/processor/src/worker.rs:650-673 | the result of any piece reports the whole range of its response, and the timestamp of the last transaction it carries, or of the response's last if it carries none |
| `PipelineSafety.FrontierIsDone` | rust/processor/src/gap_detector.rs:60-68 | if every reported range is committed, so is everything below the frontier |
| `PipelineSafety.CheckpointIsSafe` | rust/processor/src/worker.rs:146-519 | in every interleaving, over any number of crashes and restarts, every wanted version from the first start to the checkpoint is committed |
| `PipelineSafety.CheckpointNeverDecreases` | rust/processor/src/processors/mod.rs:119-147 | the checkpoint never goes back in any run, with no hypothesis |
| `PipelineNecessity.SafeIffOneMessagePerResponse` | rust/processor/src/grpc_stream.rs:493-504 | every run is safe if and only if every response the server may send goes out as one message |
| `PipelineNecessity.SplitIsUnsafe` | rust/processor/src/grpc_stream.rs:493-504 | for every response that does not fit there is a run whose checkpoint passes a wanted version never committed |
| `PipelineNecessity.ThreeVersionsTwoPerMessage` | rust/processor/src/grpc_stream.rs:493-504 | three versions served together with two per message: safety fails |
| `PipelineNecessity.RestartSafeIffNothingSkipped` | rust/processor/src/worker.rs:146-159 | a restart at a configured version is safe in every continuation if and only if nothing wanted below it is uncommitted |
| `PipelineNecessity.SkippingRestartIsUnsafe` | rust/processor/src/worker.rs:159-159 | a start at 0, a crash and a start configured at 5: a continuation moves the checkpoint past work never done |
| `PipelineProgress.NeverStuck` | rust/processor/src/worker.rs:202-287 | in every reachable state of a running process with a task that has not shut down, despite both bounded channels, some move other than a crash and a repeated statement is possible |
| `PipelineProgress.ChannelsAreBounded` | rust/processor/src/worker.rs:202-236 | neither channel ever holds more than its size, and there are as many tasks as configured |
| `PipelineProgress.QueueIsFifo` | rust/processor/src/worker.rs:202-202 | tasks take messages in the order they were sent |
| `PipelineProgress.StoppedMeansDone` | rust/processor/src/worker.rs:284-287 | a running process that cannot go on has shut down with every wanted version through the ending version committed |
| `PipelineProgress.RunsAreBounded` | rust/processor/src/grpc_stream.rs:598-681 | with an ending version, between a start and the next crash the polls are bounded by the versions and retries left, and all moves by the polls, the statements, five per message, the tasks and one |
| `PipelineConservation.MessagesAreConserved` | rust/processor/src/worker.rs:319-519 | in every run, split or not: messages sent equal queued plus in flight plus processed, as multisets; results handed over are those of the processed messages; the detector received a prefix |
| `PipelineConservation.CleanShutdownIsComplete` | rust/processor/src/worker.rs:268-287 | when the channel is closed and every task has exited, nothing is queued or in flight, every result was handed over, the ending version is behind and every wanted version to it is committed |
| `PipelineConservation.DrainedDetectorHasCaughtUp` | rust/processor/src/grpc_stream.rs:603-636 | once everything fetched is sent, processed and received, the frontier equals the next version to fetch, split responses or not |
| `Chunking.ChunksLossless` | rust/processor/src/utils/database.rs:136-147 | chunks concatenate to the list; none is empty or over the size |
| `Chunking.ChunksFull` | rust/processor/src/utils/database.rs:136-137 | every chunk but the last has the full size |
| `Chunking.ChunksAreSlices` | rust/processor/src/utils/database.rs:136-147 | every chunk is a contiguous slice of the list |
| `Upserts.UpsertTable.Execute` | rust/processor/src/utils/database.rs:159-191 | a statement changes the table as its guarded row writes in list order do |
| `Upserts.UpsertsKeepBest` | rust/processor/src/processors/default_processor.rs:267-281 | in any order, if every write is guarded or already the best for its key, the table holds for exactly the keys written a row that none beats |
| `Upserts.KeyOrderTotal` | rust/processor/src/processors/default_processor.rs:424-426 | the order on primary keys is total and irreflexive |
| `Upserts.KeyOrderTransitive` | rust/processor/src/processors/default_processor.rs:424-426 | the order on primary keys is transitive |
| `Convergence.ReplayIsBest` | rust/processor/src/processors/default_processor.rs:399-417 | a replay in version order holds, for exactly the keys changed, the row of the winning transaction |
| `Convergence.BestForUnique` | rust/processor/src/processors/default_processor.rs:399-417 | at most one table has that property |
| `Convergence.ReplayLatestHolds` | rust/processor/src/processors/default_processor.rs:399-417 | in a latest-wins replay the row of a key is that of the last change to it in the log |
| `Convergence.ReplayEarliestHolds` | rust/processor/src/processors/coin_processor.rs:269-272 | in an earliest-wins replay it is the last change to it in the first transaction that has one |
| `Convergence.ReplayKeys` | rust/processor/src/processors/default_processor.rs:399-417 | a replay has a row for exactly the keys that are changed |
| `Convergence.GuardedWritesConverge` | rust/processor/src/utils/database.rs:126-157 | any log, any cut into batches of whole transactions that may overlap, any order and repetition of the rows, any further batches written in part: with guards kept the table equals the sequential replay, for both guard directions |
| `Execution.ExecutedWritesConverge` | rust/processor/src/utils/database.rs:126-259 | the same for lists cut into chunks of any size, each chunk one statement, retried with cleaned rows or not, interleaved in any way |
| `GuardLoss.OrderIrrelevantIff` | rust/processor/src/utils/database.rs:167-176 | all orders of the statements end in the same table if and only if no unguarded statement carries a row that another beats and no two unbeaten rows of a key differ |
| `GuardLoss.KeepsGuardIff` | rust/processor/src/utils/database.rs:167-172 | a statement keeps its guard if and only if its text nowhere spells "where", each letter in either case |
| `GuardLoss.WhereInValueDropsGuard` | rust/processor/src/utils/database.rs:167-172 | whatever the query, a bound value with "where" in it, in any case, costs the statement its guard |
| `GuardLoss.WhereInValueLetsOldRowWin` | rust/processor/src/utils/database.rs:167-176 | whatever the query, an older row with the value "Where to" and a newer row of the same key end in different tables in the two orders |
| `GuardLoss.TieLetsLastRowWin` | rust/processor/src/utils/database.rs:233-258 | two guarded rows of one key and version that differ end in different tables in the two orders |
| `LockOrder.NoDeadlock` | rust/processor/src/processors/default_processor.rs:419-427 | with any number of statements that take locks in strictly ascending key order and hold them to the end, every unfinished reachable state has a possible move |
| `LockOrder.LocksAreExclusive` | rust/processor/src/utils/database.rs:136-147 | no two unfinished statements ever hold the same row |
| `LockOrder.MaximalRunsFinish` | rust/processor/src/utils/database.rs:136-157 | runs are bounded, and one that cannot go on has finished every statement |
| `LockOrder.UnsortedCanDeadlock` | rust/processor/src/processors/default_processor.rs:419-426 | without the sort two statements over two rows can lock each other out |
| `TableItems.SortByKey` | rust/processor/src/processors/default_processor.rs:419-426 | the list holds exactly the rows of the map, strictly ascending by whole key, and is the only such list |
| `TableItems.SortedUnique` | rust/processor/src/processors/default_processor.rs:424-426 | a set of rows has one listing in strict key order |
| `TableItems.FoldTransaction` | rust/processor/src/processors/default_processor.rs:399-417 | folding one transaction overwrites the rows of the keys it changes, in order |
| `TableItems.ProcessTransactions` | rust/processor/src/processors/default_processor.rs:397-426 | a batch becomes exactly the rows of its sequential replay, strictly ascending by key |
| `TableItems.RowHoldsLastChange` | rust/processor/src/models/default_models/move_tables.rs:78-128 | for an injective hash the row of an item holds the version, key, decoded key and value of the last change to it, and is marked deleted exactly when that is a delete |
| `TableItems.OneRowPerItem` | rust/processor/src/processors/default_processor.rs:404-411 | two changes end in one row if and only if their handles standardize equally and their keys are equal |
| `TableItems.RowsAreOfItems` | rust/processor/src/processors/default_processor.rs:404-411 | every row is that of an item some transaction changes |
| `TableItems.CleanRowIdentityIff` | rust/processor/src/utils/database.rs:49-58 | cleaning leaves a row alone if and only if no text in it holds a null byte or the escape |
| `TableItems.CleanRowRemovesNul` | rust/processor/src/utils/database.rs:49-58 | a cleaned row has no null byte in any text, and its version, mark and the shape of its values are as before |
| `TableItems.TableItemsConverge` | rust/processor/src/processors/default_processor.rs:259-282 | `current_table_items` ends equal to the sequential replay for any batching, chunking, interleaving, retry with cleaned rows and replay, when guards are kept and cleaning is the identity |
| `TableItems.ChunksOfSortedListsFinish` | rust/processor/src/processors/default_processor.rs:419-427 | any number of chunks of sorted lists running at once never get stuck and finish within a bound |
| `Coins.AddMissing` | rust/processor/src/processors/coin_processor.rs:269-272 | adding only absent keys gives the new map overlaid by the old |
| `Coins.FoldBatch` | rust/processor/src/processors/coin_processor.rs:258-274 | coin infos keep the first row per key of a batch, balances the last |
| `Coins.RowHoldsDecidingChange` | rust/processor/src/processors/coin_processor.rs:258-274 | for an injective hash the row of an owner's coin holds the last change to it for balances, and that of the first transaction that has one for coin infos, keyed by owner and hash of the whole type |
| `Coins.FoldLosesNothingIff` | rust/processor/src/processors/coin_processor.rs:258-274 | for any batch, both guard directions and an injective hash, the rows of the fold are exactly those of the replay if and only if no owner has two coin types in the batch that agree up to the truncation length |
| `Coins.ShortTypesDoNotClash` | rust/processor/src/processors/coin_processor.rs:258-274 | coin types within the truncation length never clash |
| `Coins.CoinTableConverges` | rust/processor/src/processors/coin_processor.rs:143-209 | under any batching, chunking, interleaving and retry, with repeated and half-written batches, `coin_infos` equals the earliest-wins replay and `current_coin_balances` the latest-wins replay, when guards are kept, cleaning is the identity and no batch has clashing types |
| `Coins.OneBatchTableIff` | rust/processor/src/processors/coin_processor.rs:258-281 | writing the fold of one batch leaves the table of its replay if and only if no coin types clash |
| `Coins.LongTypesLoseARow` | rust/processor/src/processors/coin_processor.rs:258-274 | two coin infos of one transaction whose types differ only after 5000 characters: the fold has one row, the replay two |
| `EndToEnd.TableIsNeverBehindCheckpoint` | rust/processor/src/processors/mod.rs:117-147 | in every reachable state, for each key changed by a wanted version up to the checkpoint, the table holds that version's row or a later one |
| `EndToEnd.TableHoldsOnlyLedgerRows` | rust/processor/src/processors/default_processor.rs:307-366 | in every reachable state every row of the table is left by a wanted transaction of the ledger |
| `EndToEnd.InsertedRows` | rust/processor/src/processors/default_processor.rs:374-440 | what the processor computes for a batch is the list the end-to-end results speak of |
| `EndToEnd.CommittedTableIsReplay` | rust/processor/src/processors/default_processor.rs:259-282 | where every wanted version of a range is committed and nothing else was written, the table is the sequential replay of the range, whatever half-written, repeated and overlapping batches there were |
| `EndToEnd.CleanShutdownTableIsReplay` | rust/processor/src/worker.rs:130-287 | after a clean shutdown, over any number of crashes and restarts, the table equals the sequential replay from the very first start to the end of the last run, if nothing outside that range was ever written |
| `EndToEnd.RestartedRunsComputeReplay` | rust/processor/src/worker.rs:130-287 | with a server that stays within the request and no start before the first one, that condition always holds, and the table is the replay from the first start through the ending version |
| `EndToEnd.ResumedRunsComputeReplay` | rust/processor/src/worker.rs:146-287 | crash and resume from the database: a clean shutdown leaves the sequential replay of the whole ledger through the ending version |
| `EndToEnd.LastRunTableIsReplay` | rust/processor/src/worker.rs:268-287 | with split responses too, when all that was ever written lies in the range of the last run |
| `EndToEnd.OneRunComputesReplay` | rust/processor/src/worker.rs:130-287 | a single run from an empty database that shuts down cleanly leaves exactly the sequential replay of the wanted ledger from start to end, split responses or not |
| `Ans.ParseAns` | rust/processor/src/processors/ans_processor.rs:438-676 | the nested loops over transactions, events and changes compute `ParseAll`, panics included |
| `Ans.ParseTransaction` | rust/processor/src/processors/ans_processor.rs:484-675 | one transaction's three loops compute `ApplyTxn` |
| `Ans.V1MirrorsV2` | rust/processor/src/models/ans_models/ans_lookup_v2.rs:141-268 | after every list of transactions the v1 current tables are the v1 slices of the v2 ones, key by key and row by row, and the v1 histories are the v1 rows of the v2 histories in order |
| `Ans.CurrentTablesAreLatestHistory` | rust/processor/src/processors/ans_processor.rs:492-674 | each v2 current table holds, for exactly the keys in its history, the last history row |
| `AnsHistory.LookupHistoryIsExact` | rust/processor/src/models/ans_models/ans_lookup_v2.rs:172-223 | after every list of transactions a row is in the v2 lookup history if and only if some change calls for it: a v1 record written or deleted, or a v2 record with the subdomain and policy of the last extension at its address in the transaction, or none; each with its own version, index, names, target and expiration |
| `AnsHistory.NameHistoryIsExact` | rust/processor/src/models/ans_models/ans_lookup_v2.rs:243-330 | the same for the v2 primary name history: v1 reverse records written or deleted, and reverse-lookup events, unset by an empty domain |
| `AnsHistory.NameRecordHasItsRow` | rust/processor/src/processors/ans_processor.rs:514-534 | with distinct versions a v2 name record has exactly one row under its version and index, with the columns written out |
| `AnsHistory.ParsePanicsIff` | rust/processor/src/processors/ans_processor.rs:492-668 | a parse panics if and only if a user transaction has an event, a resource or a table item of the name service that does not decode |
| `Ans.RowsAreConsistent` | rust/processor/src/models/ans_models/ans_lookup.rs:122-324 | after every list of transactions each history row has names within 64 characters, the token name of its own names, standardized addresses, no name or address once deleted, no policy in v1, and a negative index exactly for v2 primary names |
| `Ans.TokenNamesEqualIff` | rust/processor/src/models/ans_models/ans_utils.rs:47-55 | two names within the length limit have the same token name if and only if they are equal or one is the other read with another dot as the separator |
| `Ans.TokenNamesIdentifyLookups` | rust/processor/src/processors/ans_processor.rs:492-674 | after every list of transactions, two current lookups of one standard share a token name if and only if they are the same lookup or their names clash in that way |
| `Ans.DottedNamesCollide` | rust/processor/src/processors/ans_processor.rs:536-565 | one transaction that registers b of a and b.a leaves two current lookups with one token name |
| `Ans.HistoryKeysAreUnique` | rust/processor/src/models/ans_models/ans_lookup_v2.rs:271-330 | for transactions with distinct versions no two rows of either v2 history share version and index: event rows use -(i + 1), change rows i |
| `PythonProducer.ProducerLoop.Run` | python/utils/worker.py:158-302 | for every stream the loop's variables and queued batches are those of `Turns` |
| `PythonProducer.ProducerLoop.CloseTurn` | python/utils/worker.py:223-302 | the end test, the retry limit and the reconnection |
| `PythonOutcome.GoesOn` | python/utils/worker.py:158-302 | as long as the producer goes past every item it fetches on from the version after the last response and one more per raise, has counted the ends since the last response, and queued every batch in order |
| `PythonOutcome.GivesUpIff` | python/utils/worker.py:260-279 | it exits with 1 if and only if the stream ends soon after a reconnection for the sixth time or more since the last response, or raises with nothing left to fetch |
| `PythonOutcome.PatientStreamNeverGivesUp` | python/utils/worker.py:260-302 | while the stream never ends six times without a response in between, it never gives up |
| `PythonConsumer.ConsumerLoop.UpdateLastProcessedVersion` | python/utils/transactions_processor.py:50-63 | the stored next version is inserted, or overwritten only if smaller |
| `PythonConsumer.ConsumerLoop.Gather` | python/utils/worker.py:359-391 | a round of attempts ends at the barrier with exactly the batches offered, in order |
| `PythonConsumer.ConsumerLoop.Round` | python/utils/worker.py:359-444 | a failed thread ends the process with the row untouched; otherwise row and next start move past the last batch, and the gaps are counted |
| `PythonConsumer.RoundIsJoin` | python/utils/worker.py:401-444 | whatever a round comes to, the machine's join gives the same verdict and the same row, and counts the same batches as handled |
| `PythonPipeline.StepKeepsLocal` | python/utils/worker.py:158-449 | every step of producer, queue, consumer, thread, kill or restart keeps the accounting of versions and batches |
| `PythonPipeline.HandledPrefix` | python/utils/worker.py:359-444 | once a first part of the deliveries is handled, every version up to its last was handled or skipped |
| `PythonPipeline.FetchedVersionsArePartitioned` | python/utils/worker.py:158-302 | in every run, delivered batches and skipped versions in order are exactly the versions from the start to the next to fetch, each once; deliveries are handled, held or queued in order; one skip per stream exception |
| `PythonPipeline.CheckpointIsSettled` | python/utils/worker.py:345-449 | over any number of kills, exits and restarts every version from the first start to the stored next version was processed or skipped |
| `PythonPipeline.NextRowNeverDecreases` | python/utils/transactions_processor.py:50-63 | the stored next version never goes back |
| `PythonPipeline.DefaultStartsNeverSkip` | python/utils/config.py:55-86 | runs with no configured start never start beyond the stored next version |
| `PythonPipeline.RunsBeginWhereTheyShould` | python/utils/config.py:55-86 | a run begins at the configured version, else at the stored next one, else at 0: until the next kill or restart what was delivered and skipped is exactly the versions from there on, and nothing older was processed or skipped |
| `PythonPipeline.QueueIsBounded` | python/utils/worker.py:642-642 | the queue never holds more than 50 batches and no round more than 10 |
| `PythonPipeline.ExitZeroIsComplete` | python/utils/worker.py:348-357 | exit 0 happens only when every delivered batch is processed and checkpointed, and every version through the ending version was processed or skipped |
| `PythonPipeline.ExitsAfterEnd` | python/utils/worker.py:348-357 | at the loop head after the producer's end, the only thing a process that is not killed does is exit with 0 |
| `PythonPipeline.WaitsForeverIff` | python/utils/worker.py:345-373 | after the producer's end the process can do nothing more if and only if the consumer waits for a first batch, and then nothing delivered is outstanding |
| `PythonPipeline.ProducerEndsBehindTheCheck` | python/utils/worker.py:348-366 | that state can be reached |
| `PythonPipeline.RestartSettledIff` | python/utils/config.py:72-86 | a restart at a configured version keeps every later checkpoint settled if and only if nothing below it is unsettled |
| `PythonPipeline.SkippingRestartLeavesHole` | python/utils/config.py:75-78 | a start at 0, a kill and a start configured at 5: a continuation moves the stored version past versions neither processed nor skipped |
| `MovingAverage.MovingAverage.Tick` | rust/moving-average/src/lib.rs:33-50 | the deque is the pruned one and the running sum is the sum of its entries, so it never underflows |
| `MovingAverage.MovingAverage.Avg` | rust/moving-average/src/lib.rs:53-60 | zero for fewer than two entries, else the recomputed sum times a thousand over the time between first and last entry |
| `MovingAverage.DequeIsWindow` | rust/moving-average/src/lib.rs:33-50 | for timestamps that do not go back the deque is the suffix of the full history with all entries within the window, or the last two |
| `Addresses.StandardizeIdempotent` | rust/processor/src/utils/util.rs:57-63 | standardizing is idempotent on every string |
| `Addresses.StandardFormShape` | rust/processor/src/utils/util.rs:56-63 | for every string the standard form is 0x, zeros up to 64 digits and the digits as written; 66 characters for at most 64 digits |
| `Addresses.StandardFormIsNumber` | rust/processor/src/utils/util.rs:57-63 | two lowercase hex addresses of at most 64 digits, with or without 0x, standardize equally if and only if they denote the same number |
| `JsonCleaning.CleanTextExact` | rust/processor/src/utils/util.rs:295-297 | a cleaned string has no U+0000, and a string is unchanged if and only if it has neither U+0000 nor the escape |
| `JsonCleaning.CleanTextRemoves` | rust/processor/src/utils/util.rs:295-297 | cleaning removes each null byte, then from the left each occurrence of the escape, and nothing else |
| `JsonCleaning.TextsAreCleaned` | rust/processor/src/utils/util.rs:273-293 | wherever a tree has a string, the cleaned tree has that string cleaned |
| `JsonCleaning.CleanRemovesNul` | rust/processor/src/utils/util.rs:273-293 | no string value of a cleaned tree has U+0000 |
| `JsonCleaning.CleanKeepsSkeleton` | rust/processor/src/utils/util.rs:273-293 | shape, object keys and other leaves are unchanged |
| `JsonCleaning.CleanIdentityIff` | rust/processor/src/utils/util.rs:273-293 | a tree is unchanged if and only if every string value is free of both |

## Left out

- CheckpointIsSafe: assumes that every response fits in one message and that no run starts beyond the version after the checkpoint; both are shown to be exactly what is needed. It does not claim that the checkpoint catches up: the row moves at most once a second and the detector task is never joined.
- TableItemsConverge: assumes the guard is kept and no text in the rows needs cleaning; `OrderIrrelevantIff` and `CleanRowIdentityIff` say when that matters. The column `inserted_at`, set by the database, is not a part of the row. A chunk size of 0 panics and is not a case.
- TableIsNeverBehindCheckpoint: like the other lemmas of `EndToEnd`, takes every statement as guarded and uncleaned, and one processor, the default one, with its other tables as statements without content.
- CleanShutdownTableIsReplay: rows outside the range, left by an earlier run that started lower or by a server that sent more than was asked for, would stay in the table beside the replay; `RestartedRunsComputeReplay` and `ResumedRunsComputeReplay` say when there are none.
- CoinTableConverges: assumes a hash without collisions, and of each batch that its coin types do not clash.
- RunsAreBounded: a statement executed again after a lost reply is not counted; nothing in the program bounds how often the database loses one.
- ReconnectsAskForTheRest: the count is modelled with its conversion to an unsigned 64-bit number; the ending version is below the largest one.
- DequeIsWindow: assumes a clock that does not go back; `Tick` and `Avg` themselves model the wrapping subtraction. The floating-point division of the average is not modelled.
- ParseAns: events, resources and table items come decoded or marked as not decodable; a transaction without its info, which panics, is not a case. Truncation counts characters where the program counts bytes, which agree on ASCII.
- Pipeline: the worker's tasks are a machine on values rather than loops in place, since they only interact through channels and the database. Receiving a response and waiting for room in the channel are separate steps; polling, the filter and the split are one.
- PythonPipeline: taking a response and putting it on the queue are one step, taken when there is room. A database error inside the consumer ends only that thread and is not told apart from a kill. Processors are taken to return the version range they were given, as all of them do.
- 64-bit overflow of versions, sizes and sums: versions are natural numbers.
- The chain id check against the database, migrations and the connection pool (`rust/processor/src/worker.rs:527-617`): start-up plumbing.
- gRPC and TLS set-up, timeouts, metrics, logging, health servers and configuration files: the stream is an environment that yields responses, errors, ends and timeouts.
- Diesel, SQLAlchemy and Postgres: a table is a map, a guarded upsert a conditional update, a statement a list of updates or of row locks.
- BCS decoding, SHA-256, timestamps and the transaction filter: arbitrary functions.
- Deadlock freedom for the name service, coin, token and delegator tables: their sort does not cover the whole primary key.
- The token, object, fungible asset, stake and NFT processors and the NFT marketplace parsers: long record construction, with no order-independent result to claim where live and deleted rows or both guard directions meet on one table.
- The TypeScript worker: strictly sequential, so it would only add easier versions of the same results.
