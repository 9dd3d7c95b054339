# AX-BI: a verified model of its stateful core

A Dafny 4.11 model of the parts of AX-BI whose correctness depends on whole runs, whole trees or unbounded input.
`dafny verify dfyconfig.toml` checks everything.

| file | part of the system |
|---|---|
| `SqlLab.dfy` | The SQL Lab execution protocol: its data, its surroundings, row limits and the texts sent |
| `SqlRuns.dfy` | What a run does as a relation, and what every run keeps |
| `SqlWorker.dfy` | The worker step by step: its session, the persisted query row, an outside stop, the results backend |
| `Partition.dfy` | The partition chart: group-by sums at every prefix, differences in time, and the nested tree |
| `PayloadCache.dfy` | The data cache in front of a chart's query |
| `FilterMetadata.dfy` | Merging the filter metadata of deck.gl layers |
| `GuestToken.dfy` | The guest-token refresh cycle of the embedded SDK |
| `ColumnNames.dfy`, `Records.dfy` | Column names of a result set and JSON-safe records of a data frame |
| `MigrationModels.dfy`, `SampleRows.dfy`, `MigrationRows.dfy` | The table closure, the sample rows, the row top-up and the clean-up of the migration benchmark |
| `TemplateCacheKeys.dfy` | The cache-key log of Jinja templates |
| `CommaList.dfy` | The comma-separated list field |
| `Optional.dfy`, `Numerals.dfy` | An option type and decimal numerals |

Where code and specification share a function, a law states what that function means without it: on the statements of
the run, on the rows of the table, in milliseconds, or as a text that reads back. Code that assigns step by step is modelled
by methods and classes, each proved against a specification function or a
stated property; code made of expressions is modelled by functions and lemmas. Everything a component does not decide
itself (which commits fail, when a stop lands, what a driver returns, when a promise settles, what a user is called) is
a parameter, so each theorem holds for every behaviour of the surroundings.

## How the SQL Lab run is modelled

The database row and the session's copy of it are two values. An assignment changes the copy and marks a column
dirty; a commit writes the dirty columns; a refresh, a rollback or a failed commit discards them. A `World` fixes the
input, the configuration and the surroundings of one run: the set of moments at which another process stops the query,
the commits that fail, what the driver does with each block, and between which blocks something else raises.

`SqlWorker.Worker.GetSqlResults` is the run with its catch-all handler. Its contract is `SqlRuns.Outcome`, a relation
between the world, the row and the backend before and after, the texts sent, how many of them after a stop, the changes
of status written and the payload returned. It holds whatever commits fail, and the lemmas of `SqlRuns` draw the
conclusions from it.

## Where the code and its stated intent differ

Each of these is a theorem about the code as it is, with the exact condition under which the intent is met.

- **TIMED_OUT.** The error handler keeps TIMED_OUT so that clients can tell a timeout from a failure (107-110), but a lost
  result assigns FAILED without looking (680). A row that comes as TIMED_OUT is rewritten to FAILED exactly when the
  commit of RUNNING failed, every block fetched and nothing else raised, and the failed store of an asynchronous run was
  committed
  (`SqlRuns.RewritesIff`; an input is `SqlRuns.TimedOutCanBecomeFailed`). FAILED is never rewritten to SUCCESS; but a row
  that comes as FAILED and stays so for the same reason goes with a payload that says SUCCESS
  (`SqlRuns.FailedRowMayReturnSuccess`). A soft timeout that arrives outside `execute_query` ends in FAILED, not in
  TIMED_OUT (`SqlRuns.BrokenRunFails`).
- **Limiting factor.** A refresh discards uncommitted assignments (axbi/sql_lab.py:295-297 says so), and the refresh at
  the head of the next block (546) follows the assignment of NOT_LIMITED (331) without a commit. So a successful run
  ends NOT_LIMITED exactly when its last block fitted, or the row said so before (`SqlRuns.CommittedRunLeaves`); an
  earlier block that fitted is forgotten (`SqlRuns.EarlierFitIsForgotten`).
- **SQL_MAX_ROW.** The clamp on `query.limit` (264) is discarded by the refresh at 546 unless a cancel key was committed in
  between (540); the text keeps the clamped limit, the fetch does not. `SqlLab.MaxRowHoldsIff` says exactly when the bound
  holds of the rows returned, `SqlLab.LimitedBlockKeepsPrefixIff` when they are the promised first rows, and
  `SqlLab.FactorIsTrueIff` when NOT_LIMITED tells the truth. With `SQL_MAX_ROW` 100 and no limit on the row, 101 of 200 rows
  are kept and called not limited (`SqlRuns.ForgottenClampFeignsNotLimited`); with the limit 0, which the execution context
  stores for a negative one (axbi/sqllab/sqllab_execution_context.py:117-124), a single row is lost
  (`SqlRuns.ZeroLimitLosesTheRow`).
- **Returned keys.** A failed store leaves no key on the row, so that nobody asks for results that are not there (674-675).
  The payload a synchronous caller gets names the new key nevertheless (626): it names an entry exactly if the store
  succeeded (`SqlRuns.ReturnedKeyIsStoredIff`).
- **A late stop.** The refresh before the cursor executes (308) does not look at the status, so a stop between the head
  check and the send does not keep the block back: at most one text is sent after a stop, and `SqlRuns.SendsPrefixIff` says
  when. A stop in the last block without a driver error is overwritten by SUCCESS (707)
  (`SqlRuns.LateStopIsOverwritten`).
- **Each text once.** The text of a block reaches the cursor through the row. When the commit before the execution fails
  (298), the refresh brings the previous block's text back and it is sent again (`SqlRuns.FailedCommitSendsTextAgain`);
  the texts are a prefix of the blocks exactly when those commits hold, but for those that would change nothing
  (`SqlLab.TextsAreBlocksIff`).
- **No block.** An empty block list reports SUCCESS while the row stays RUNNING (588-590).
- **Unique column names.** The docstring of `dedup` promises unique values; `ColumnNames.PromiseFails` refutes it and
  `ColumnNames.DistinctIff` gives the exact condition.
- **Records.** The docstring of `df_to_records` promises that every missing value becomes None and every big integer a
  string. That fails for exactly two kinds of cell: the int64 -2^63, whose absolute value wraps around, and a missing
  value in a column that is neither float nor object nor string, such as a date (`Records.RecordsAreReferenceIff`).
- **Template cache keys.** The user accessors log nothing for an empty answer, so two users can share a log and not a text
  (`TemplateCacheKeys.SilentCallsBreakThePromise`). Two renders with equal logs received the same answers exactly when
  every accessor called before they part had an answer to log for both or for neither
  (`TemplateCacheKeys.EqualLogsMeanEqualAnswersIff`).
- **Refresh waits.** A refresh never waits less than 5000 ms, except that a host timer cannot hold 2^31 ms: a token that
  expires later than that may make the dashboard fetch again at once
  (`GuestToken.DelayIsOverlongIff`, `GuestToken.EmbeddedDashboard.RefetchesAtOnce`).

The clean-up of the migration benchmark deletes "in reverse order of creation to handle relationships". It may delete from a
referenced table before its referrer (`MigrationRows.ReferencedTableMayGoFirst`), and still no foreign key ever dangles:
new rows copy or pick their foreign keys from older rows only (`MigrationRows.Benchmark`).

## Model

| member | source | states |
|---|---|---|
| SqlWorker.Worker.GetSqlResults | axbi/sql_lab.py:186-224 | Every run, from any row and whatever commits fail, keeps to the relation `Outcome`: the texts sent, why the run ended, the final status, key, limiting factor, stored entry, changes of status and payload |
| SqlRuns.RewritesIff | axbi/sql_lab.py:107-110 | FAILED is never rewritten to SUCCESS; TIMED_OUT is rewritten to FAILED iff the row came as TIMED_OUT, the RUNNING commit failed, at least one and every block fetched, nothing else raised on the way, and the failed asynchronous store was committed |
| SqlRuns.SendsPrefixIff | axbi/sql_lab.py:542-581 | The texts sent are a prefix of the mutated blocks iff the commits before them hold or change nothing; at most one goes out after a stop, iff that landed between its head check and its send |
| SqlRuns.GoesThroughIff | axbi/sql_lab.py:528-585 | A run goes through all blocks iff it was not stopped in time, every block fetched, and neither the connection, its commits nor a refresh raised in between |
| SqlRuns.BrokenRunFails | axbi/sql_lab.py:219-224 | A run broken off by an error outside `execute_query`, a soft timeout included, ends FAILED once that is persisted, unless its row stayed TIMED_OUT |
| SqlRuns.ReturnedKeyIsStoredIff | axbi/sql_lab.py:624-704 | A key in the returned payload is this run's, and names the stored payload iff the store succeeded |
| SqlRuns.FreshKeyHasPayload | axbi/sql_lab.py:624-709 | A key that appears on a keyless row has this run's compressed payload stored under it, whatever commits fail |
| SqlRuns.CommittedRunEnds | axbi/sql_lab.py:542-709 | With commits succeeding, a run of at least one block ends in a terminal status: SUCCESS iff not stopped in time, every block fetched, nothing else raised, and the result could be stored and returned; TIMED_OUT iff the last block sent ran out of time in `execute_query` |
| SqlRuns.CommittedRunLeaves | axbi/sql_lab.py:664-709 | A successful run leaves its key, and NOT_LIMITED iff the last block fitted or it was so before; a lost asynchronous result ends FAILED with no key |
| SqlRuns.CommittedRunSends | axbi/sql_lab.py:544-590 | With commits succeeding, the texts are a prefix of the blocks and a success payload means all were sent; no block and no other error: success is claimed and the row stays as it was taken |
| SqlRuns.RefusedRunEnds | axbi/sql_lab.py:453-512 | With commits succeeding, a refused run sends nothing and ends FAILED, unless the missing backend refused a TIMED_OUT row |
| SqlRuns.CommittedStatus | axbi/sql_lab.py:542-709 | The exact final status for any number of blocks, number sent, driver and store outcome |
| SqlRuns.CommittedRunStopsIff | axbi/sql_lab.py:354-376 | With commits succeeding and nothing broken off: STOPPED iff stopped before the next block or while the last one raised; FAILED iff the last one raised without a stop or asked for OAuth2, or the result could not be stored or returned |
| SqlRuns.TextsAreStatements | axbi/sql_lab.py:514-526 | Run one by one, text j holds statement j alone, with its own words; a limitable one limited in the text yields at most the clamped limit + 1 rows, every other one goes out as it is |
| SqlRuns.ScriptIsOneText | axbi/sql_lab.py:520-521 | Run as one, the only text holds every statement in its place, limited likewise |
| SqlRuns.SuccessSendsEveryStatement | axbi/sql_lab.py:520-544 | A success payload means one text per statement, or one for the whole script |
| SqlRuns.ReturnedRowsAreTheLast | axbi/sql_lab.py:328-334 | While the clamped limit is on the row, the rows returned are the first of the last statement's up to it, and NOT_LIMITED is left iff none was cut or it was so before |
| SqlRuns.RowsAreReturnedIff | axbi/sql_lab.py:711-749 | Rows come back iff asked for, the run went through and its end did not raise; then with status SUCCESS, the row's limiting factor, and a key iff results are stored |
| SqlRuns.LateStopIsOverwritten | axbi/sql_lab.py:706-709 | Every run of one plain block whose stop lands before the send sends it after the stop and ends in SUCCESS |
| SqlRuns.ForgottenClampFeignsNotLimited | axbi/sql_lab.py:263-334 | Every run of this world keeps 101 of 200 rows under SQL_MAX_ROW 100, succeeds and leaves NOT_LIMITED |
| SqlRuns.ZeroLimitLosesTheRow | axbi/sql_lab.py:263-334 | Every run of this world with the row limit 0 returns none of the one row and succeeds |
| SqlRuns.EarlierFitIsForgotten | axbi/sql_lab.py:330-331 | Every run of these two blocks has a first block that fits, ends in SUCCESS and leaves the factor UNKNOWN |
| SqlRuns.TimedOutCanBecomeFailed | axbi/sql_lab.py:679-687 | Every run of this world over a TIMED_OUT row rewrites it to FAILED |
| SqlRuns.FailedRowMayReturnSuccess | axbi/sql_lab.py:706-709 | Every run of this world over a FAILED row leaves FAILED and returns a success payload |
| SqlRuns.FailedCommitSendsTextAgain | axbi/sql_lab.py:295-320 | Every run of this world sends the first block's text twice and ends in SUCCESS |
| SqlWorker.Worker.ExecuteSqlStatements | axbi/sql_lab.py:431-749 | Before the handler: refused with at most the status changed, or `RunsBlocks` from the row at the start of the block loop, raising exactly when something outside `execute_query` does, the result is too large or lost, or the final commit fails |
| SqlWorker.Worker.StartRun | axbi/sql_lab.py:447-540 | Refused without a backend before anything is written; otherwise the row is RUNNING (over any earlier status, even STOPPED) if that commit held, and the clamped limit is on the row only through the cancel-key commit |
| SqlWorker.Worker.PrepareBlocks | axbi/sql_lab.py:514-540 | The blocks are the limited statements, and the clamp reaches the row only with the cancel key |
| SqlWorker.Worker.RunToEnd | axbi/sql_lab.py:542-749 | The loop and what follows it keep to `RunsBlocks` for every row, complete ones included |
| SqlWorker.Worker.RunBlocks | axbi/sql_lab.py:528-585 | All blocks sent and fetched with the last one's rows at hand, left early at a seen stop or a block that did not fetch, or broken off by an error in between, with the exact status; the loop never changes limit, limiting factor or key on the row |
| SqlWorker.Worker.RunNextBlock | axbi/sql_lab.py:544-581 | One turn keeps the state of the loop or leaves it |
| SqlRuns.SendsOneMore | axbi/sql_lab.py:544-565 | Sending one more block, not stopped at its head, keeps the account of texts and late sends |
| SqlWorker.Worker.RunBlock | axbi/sql_lab.py:544-581 | A block whose head check sees STOPPED sends nothing and reports STOPPED; any other block, on a complete row too, sends one text, its own if the commit before it held and the row's older text otherwise |
| SqlWorker.Worker.SendAndFetch | axbi/sql_lab.py:558-581 | After the head check: fetched rows, or an early end whose exact status follows from the driver, the stop, the error commit and the row's status |
| SqlWorker.Worker.SendBlock | axbi/sql_lab.py:294-320 | Pre-execution persist, refresh and send: the text sent is the row's, and a stop before the send counts as a late send |
| SqlWorker.Worker.ExecuteQuery | axbi/sql_lab.py:274-380 | Rows with the pending NOT_LIMITED iff they fitted, TIMED_OUT pending on a soft timeout, and a driver error told apart from a stop by the refreshed status |
| SqlWorker.Worker.HandleQueryError | axbi/sql_lab.py:96-142 | FAILED unless TIMED_OUT was set, persisted only if its commit holds; the payload's status is the row's |
| SqlWorker.Worker.HandleRaised | axbi/sql_lab.py:219-224 | A raised error ends FAILED, except that a persisted TIMED_OUT stays, and only if the commit holds |
| SqlWorker.Worker.FinishRun | axbi/sql_lab.py:592-749 | For each outcome of the store: which row, key, backend entry and result the run ends with; a FAILED row stays FAILED, and only a lost result rewrites TIMED_OUT to FAILED |
| SqlWorker.Worker.StorePayload | axbi/sql_lab.py:624-704 | The payload is stored under the new key iff the store succeeds; a lost asynchronous result leaves FAILED and no key if its commit holds |
| SqlWorker.Worker.ApplyLimit | axbi/sql_lab.py:250-271 | The clamp changes the session's limit only for limitable statements; limit + 1 replaces the statement's LIMIT, wraps it, or is left to the driver |
| SqlWorker.Worker.ApplyLimits | axbi/sql_lab.py:514-515 | Every statement of the script is limited as if by itself, and the clamp is pending exactly if some statement is limitable |
| SqlWorker.Worker.OutsideStop | axbi/daos/query.py:97-110 | Another process stops any query that is not complete |
| SqlLab.StopIsIgnoredIff | axbi/daos/query.py:97-110 | A stop leaves SUCCESS, FAILED and TIMED_OUT alone and turns any other status into STOPPED |
| SqlLab.TextsAreBlocksIff | axbi/sql_lab.py:294-320 | The texts sent are the mutated blocks, in order, each once, iff every commit before them holds or would change nothing |
| SqlLab.TrimIsTruncationIff | axbi/sql_lab.py:328-334 | Dropping one row is truncation to the limit iff the driver returned at most one row too many |
| SqlLab.ClampedIsLargest | axbi/sql_lab.py:263-264 | The clamped limit is the largest within a set SQL_MAX_ROW and a set row limit |
| SqlLab.LimitedBlockKeepsPrefixIff | axbi/sql_lab.py:250-334 | At the limit a run fetches with, a limitable block keeps the first min(n, clamped limit) rows of what it would yield otherwise, for every unlimited result, iff a cancel-key commit persisted the clamp, the clamp changed nothing, or an own LIMIT that is not replaced is at most the clamp (0 for the row limit 0) |
| SqlLab.FactorIsTrueIff | axbi/sql_lab.py:328-334 | It counts as not limited iff nothing was cut, for every unlimited result, iff the clamp was persisted or changed nothing, the row limit is 0, only the driver limits, or an own LIMIT inside the wrapping select is at most the clamp + 1 |
| SqlLab.ClampedBlockKeepsPrefix | axbi/sql_lab.py:250-334 | If the clamped limit is still on the row when rows are fetched, a limitable block keeps the first min(n, limit) rows under each limit method, the limit is positive and within SQL_MAX_ROW, and it counts as not limited iff nothing was cut |
| SqlLab.UnclampedBlockKeeps | axbi/sql_lab.py:266-334 | Without SQL_MAX_ROW, a missing row limit keeps all rows; the row limit 0 keeps none or drops the last one fetched |
| SqlLab.MaxRowHoldsIff | axbi/sql_lab.py:263-264 | SQL_MAX_ROW bounds the rows kept, for every unlimited result, iff a cancel-key commit persisted the clamp, the row's limit was already within it, or a LIMIT of the statement that is not replaced is |
| Partition.GetData | axbi/viz.py:2981-2999 | Per metric, every node of the tree is the total of its prefix over the shown table and the sum of its children, only full groups are leaves, and the leaves are the distinct full groups, each once and in order, adding up to the root; for plain sums, time as first group, and point_diff. On the rows: a node is worth its prefix's sum, the difference of its sums at the last and the first time, or its sum at the time it starts with, and then the root's children are the distinct times in ascending order |
| Partition.ShownIsWorth | axbi/viz.py:2988-2998 | For each option, the total under a prefix is what the rows at the times in question add up to |
| Partition.TimedTreeStartsWithTimes | axbi/viz.py:2998 | With time as the first group, the first level is the distinct times in ascending order |
| Partition.LevelsFor | axbi/viz.py:2828-2842 | Level i holds, per metric, the group-by sum over the first i group columns |
| Partition.LevelsForDiff | axbi/viz.py:2846-2880 | Every level of point_diff equals the plain group-by of one signed table built from the rows at the last and the first time |
| Partition.TimeBounds | axbi/viz.py:2850-2853 | The first and last time grain present in the table |
| Partition.NestValues | axbi/viz.py:2895-2920 | One root per metric, in order, each built from that metric's column of every level |
| Partition.GroupSumIsCorrect | axbi/viz.py:2836-2841 | Grouping yields the distinct keys, once each and in order, and keeps every total |
| Partition.LevelIsGrouped | axbi/viz.py:2836-2841 | The value of a group is the row-by-row total of its prefix |
| Partition.DescendIsUnder | axbi/viz.py:2926-2931 | Following the labels into a series reaches exactly the entries under that prefix |
| Partition.NestIsFaithful | axbi/viz.py:2895-2943 | At every depth a node is the reference total of its prefix and the sum of its children |
| Partition.LeavesAreTheGroups | axbi/viz.py:2895-2943 | The leaves under any prefix are the entries of the finest level under it, in order |
| Partition.LevelsRefine | axbi/viz.py:2836-2841 | Every coarse group has a finer one below it and every fine group a coarser one above it |
| Partition.SignedTotal | axbi/viz.py:2855-2860 | Under every prefix the signed table's total is the until total minus the since total |
| Partition.SubKeysAndTotals | axbi/viz.py:2873-2879 | Subtraction with fill value 0 keeps the groups of both ends and subtracts every total |
| Partition.GroupThenSelect | axbi/viz.py:2873-2877 | Selecting one time after grouping is grouping after selecting that time |
| Partition.DiffLevelIsSigned | axbi/viz.py:2872-2880 | One level of point_diff, groups present at one end only included, is the group-by of the signed table |
| PayloadCache.Serve | axbi/viz.py:564-691 | Over any sequence of calls and evictions from an empty cache, every result is that of a run without a cache but for the hit mark and the errors, or the refusal of a force_cached call; every payload tells the truth about the source's answer |
| PayloadCache.Viz.GetDfPayload | axbi/viz.py:564-691 | An error raised after the source reported keeps its query text and errors; a hit serves the stored answer without a query; a miss stores only a good answer under its own key; force_cached never queries; the cache stays sound |
| PayloadCache.AgreeingPayloadTellsTruth | axbi/viz.py:629-662 | A payload's status is SUCCESS iff the source answered rows of a query that did not fail and FAILED otherwise, its rows are there iff the source answered rows, and rows, query text and errors are the source's |
| PayloadCache.DataCache.SetAndLog | axbi/utils/cache.py:57-98 | A null cache, a disabled timeout or a failing backend stores nothing; otherwise only the given key changes |
| PayloadCache.SameKeyIff | axbi/viz.py:481-519 | Two requests share a key iff they agree on the five added fields, the impersonated user and every field but the four hard time bounds and the replaced ones |
| FilterMetadata.FirstsAreFirstOccurrences | axbi/viz.py:1629-1652 | The merge is the order of first occurrence, without duplicate keys, and with every key of the input |
| FilterMetadata.MergeIsIdempotent | axbi/viz.py:1629-1652 | Merging a merged list changes nothing |
| FilterMetadata.MergeOfMergedHead | axbi/viz.py:1769-1776 | Merging step by step over the layers is one merge |
| FilterMetadata.MergeOfMergedTail | axbi/viz.py:1803-1810 | Merging an already merged tail is merging the tail itself |
| FilterMetadata.LayersAppend | axbi/viz.py:1757-1776 | Applied and rejected lists are each collected in the order of the layers |
| FilterMetadata.OneLayer | axbi/viz.py:1768-1776 | One layer adds its applied list to the applied and its rejected list to the rejected |
| FilterMetadata.DeckGLMultiLayer.MergeFilterMetadata | axbi/viz.py:1629-1652 | The nested loops compute the first occurrences of the concatenated groups |
| FilterMetadata.DeckGLMultiLayer.CollectLayers | axbi/viz.py:1754-1776 | The fold over the layers, unknown and empty ones skipped, is one merge of their lists |
| FilterMetadata.DeckGLMultiLayer.GetPayload | axbi/viz.py:1795-1811 | The fold followed by the final merge is one merge of all lists; a failed base run leaves the layers unvisited |
| GuestToken.RefreshIsDue | ax-bi-embedded-sdk/src/guestTokenRefresh.ts:32-33 | Due 5000 ms before an expiry more than 10000 ms ahead, 5000 ms from now for a nearer one, 295000 ms from now without one |
| GuestToken.RefreshTiming | ax-bi-embedded-sdk/src/guestTokenRefresh.ts:27-34 | Never below 5000 ms, and strictly before a valid expiry iff more than 5000 ms remained |
| GuestToken.DelayIsOverlongIff | ax-bi-embedded-sdk/src/guestTokenRefresh.ts:32-33 | A refresh may fire within 5000 ms of being armed iff the expiry is at least 2^31 + 5000 ms away |
| GuestToken.EmbeddedDashboard.Embed | ax-bi-embedded-sdk/src/index.ts:288-322 | A first token that cannot be decoded is emitted, but no dashboard is returned and nothing is armed |
| GuestToken.EmbeddedDashboard.constructor | ax-bi-embedded-sdk/src/index.ts:288-322 | After set-up exactly one refresh timer is armed and the first token is out |
| GuestToken.EmbeddedDashboard.RefreshFires | ax-bi-embedded-sdk/src/index.ts:296-317 | The timer is replaced by one fetch, with its timeout if enabled, or by one retry timer if the callback throws |
| GuestToken.EmbeddedDashboard.StartFetch | ax-bi-embedded-sdk/src/withTimeout.ts:25-39 | One fetch in flight, with a timeout timer iff the timeout is positive |
| GuestToken.EmbeddedDashboard.Settle | ax-bi-embedded-sdk/src/withTimeout.ts:40-42 | The first outcome of a race stands, later ones change nothing |
| GuestToken.EmbeddedDashboard.TimeoutFires | ax-bi-embedded-sdk/src/withTimeout.ts:34-42 | A timeout wins the race only if the host has not answered |
| GuestToken.EmbeddedDashboard.HostSettles | ax-bi-embedded-sdk/src/withTimeout.ts:40-42 | An answer after the race is settled changes nothing |
| GuestToken.EmbeddedDashboard.Land | ax-bi-embedded-sdk/src/withTimeout.ts:40-42 | The timeout timer is cleared when the race settles, and a resolved outcome did not time out |
| GuestToken.EmbeddedDashboard.Resume | ax-bi-embedded-sdk/src/index.ts:299-316 | While mounted a token is emitted and exactly one timer armed, due as `RefreshDue` has it in numbers or in 10000 ms after a failure; once unmounted neither |
| GuestToken.EmbeddedDashboard.TakeAnswer | ax-bi-embedded-sdk/src/index.ts:301-316 | A mounted dashboard emits a resolved token and arms the next refresh at the due time |
| GuestToken.EmbeddedDashboard.Unmount | ax-bi-embedded-sdk/src/index.ts:342-348 | Every refresh timer is cleared |
| GuestToken.EmbeddedDashboard.Step | ax-bi-embedded-sdk/src/index.ts:291-351 | Every event keeps the invariant: mounted, exactly one of armed timer and fetch in flight; unmounted, no fetch starts, no timer is armed, nothing is emitted; emitted tokens come in order from distinct fetches that did not time out |
| GuestToken.EmbeddedDashboard.Run | ax-bi-embedded-sdk/src/index.ts:291-351 | The same over any sequence of events, and unless some delay reached 2^31 ms the n-th fetch starts at least 5000 n ms after the first, counting from 0 |
| GuestToken.EmbeddedDashboard.RefetchesAtOnce | ax-bi-embedded-sdk/src/index.ts:299-305 | From any mounted dashboard, an answer with so late an expiry may lead to another fetch in the same millisecond |
| GuestToken.StartsAreSpaced | ax-bi-embedded-sdk/src/guestTokenRefresh.ts:21-22 | Gaps of at least 5000 ms add up |
| ColumnNames.Dedup | axbi/result_set.py:36-59 | The counting loop suffixes each item by the number of its earlier repetitions |
| ColumnNames.DedupedAt | axbi/result_set.py:51-58 | An item with k earlier items of its key gets a double underscore and a numeral that reads back as k, a first one stays |
| ColumnNames.SuffixIsInjective | axbi/result_set.py:55 | A suffixed name determines the item and the counter |
| ColumnNames.DistinctIff | axbi/result_set.py:36-41 | The result is pairwise distinct iff no suffixed name was given as well |
| ColumnNames.LowerOfDeduped | axbi/result_set.py:52-57 | For any lower-casing of characters that fixes underscores and digits, lower-casing the case-insensitive result is the case-sensitive result of the lower-cased names |
| ColumnNames.DistinctIgnoringCaseIff | axbi/result_set.py:36-48 | The case-insensitive result stays distinct after lower-casing iff the lower-cased names do not clash |
| ColumnNames.NoMarkDistinct | axbi/result_set.py:36-48 | Names without a double underscore give distinct results in both modes, for any lower-casing that also drops no character and makes no underscore |
| ColumnNames.PromiseFails | axbi/result_set.py:39-40 | `a, a, a__1` has a repeated result |
| ColumnNames.NormalizeCursorDescriptionNames | axbi/result_set.py:140-169 | The search ends; given names stay in place, and an empty one becomes the first free synthetic name |
| ColumnNames.NormalizedIsUnique | axbi/result_set.py:140-169 | The description of the normalised names leaves no choice: it determines the whole list |
| ColumnNames.NormalizedExample | axbi/result_set.py:144-145 | Two unnamed columns around one called `_col_0` become `_col_1` and `_col_2` |
| ColumnNames.FindFree | axbi/result_set.py:160-167 | The search from the counter on ends with the first free synthetic name |
| ColumnNames.AheadShrinks | axbi/result_set.py:160-167 | The measure of the open-ended search: unavailable synthetic names at or beyond the counter |
| ColumnNames.SyntheticNamesAreFresh | axbi/result_set.py:140-169 | No name is empty and a synthetic name equals no other name of the result |
| ColumnNames.ResultColumnNames | axbi/result_set.py:198 | As many names as columns, none empty, distinct iff the normalised names do not clash, in particular when no given name contains a double underscore |
| Records.DfToRecords | axbi/dataframe.py:150-202 | Column-wise replacement followed by the pass over object columns equals the per-cell conversion of the whole frame, and every value is JSON-safe but for the two kinds of cell missed |
| Records.RecordsAreReferenceIff | axbi/dataframe.py:150-202 | The records are those of the per-cell reference iff no int64 column holds -2^63 and no column outside the converted types has a missing value |
| Records.RecordsAreJsonSafe | axbi/dataframe.py:150-202 | Each value is none for a missing cell, for an integer beyond ±9007199254740991 a text that reads back as that integer, and the cell itself otherwise; the two kinds of cell missed stay as they are |
| Records.ConvertedCellIff | axbi/dataframe.py:72-122 | The same for one cell of a typed column |
| Records.BigMask | axbi/dataframe.py:96 | With wrap-around the vectorised mask agrees with the true absolute value on every int64 but -2^63 |
| Records.GetFloatConversions | axbi/dataframe.py:72-85 | Replacements for exactly the float columns that need them |
| Records.GetIntegerConversions | axbi/dataframe.py:88-101 | Replacements for exactly the integer columns that need them |
| Records.GetObjectConversions | axbi/dataframe.py:104-122 | Replacements for exactly the object and string columns that need them |
| Records.FindMixedColumns | axbi/dataframe.py:133-139 | A column is skipped only if all its values are texts or missing |
| Records.ConvertObjectColumnBigIntegers | axbi/dataframe.py:125-147 | Skipping those columns loses nothing: the records are as if every object column had been converted |
| MigrationModels.Closure | scripts/benchmark_migration.py:99-116 | The worklist ends with exactly the mapped tables reachable from the seeds by paths of mapped tables, once each |
| MigrationModels.ClosedHasReachable | scripts/benchmark_migration.py:99-116 | A closed set with the seeds has every reachable table |
| MigrationModels.SortByOrder | scripts/benchmark_migration.py:131 | The models in the sorter's order, none lost |
| MigrationModels.OrderedIsAcyclic | scripts/benchmark_migration.py:118-130 | An order exists only if the tables found have no cycle but self-references |
| MigrationModels.FindModels | scripts/benchmark_migration.py:69-133 | It fails iff there is a cycle; otherwise the reachable mapped tables, once each, every referenced one before its referrer |
| SampleRows.AddSampleRows | axbi/utils/mock_data.py:235-279 | New keys count up from the largest one, or from 0; foreign keys are those of a sample of the table's rows in turn, or, without a sample, each picked from a row of the table referred to, null if it has none |
| SampleRows.InTurnIsModulo | axbi/utils/mock_data.py:250 | Taking the samples in turn is indexing modulo their number |
| SampleRows.NewRowIsLinked | axbi/utils/mock_data.py:264-268 | A new row refers to rows that are there, to an added one only where its model was filled first |
| SampleRows.LinkedMore | axbi/utils/mock_data.py:264-288 | Filling a model keeps every foreign key valid and pointing to old rows or to models filled earlier |
| MigrationRows.FirstTierIsSmallest | scripts/benchmark_migration.py:210-216 | A model is first filled at the smallest of 10, 100, 1000, ... within the limit that exceeds its rows |
| MigrationRows.LastTierIsLargest | scripts/benchmark_migration.py:210-240 | The last tier is the largest of them within the limit |
| MigrationRows.FillTiers | scripts/benchmark_migration.py:210-240 | Every model ends with max(its rows, the last tier) rows, none lost; the keys of new_models are the models filled, in order of first tier and then of the list; no foreign key dangles |
| MigrationRows.FillTier | scripts/benchmark_migration.py:215-234 | One tier brings every model to the tier and remembers the rows it added |
| MigrationRows.TopUp | scripts/benchmark_migration.py:216-234 | A model with too few rows gets exactly the missing sample rows and a place among the keys |
| MigrationRows.CleanUp | scripts/benchmark_migration.py:246-253 | The loop over the reversed items removes what was added, and visits the keys in reverse |
| MigrationRows.DeletesRestore | scripts/benchmark_migration.py:246-253 | After any number of deletes exactly the visited models are back at their old rows |
| MigrationRows.RestoredIsReferential | scripts/benchmark_migration.py:248-252 | With the models filled last back at their old rows, no foreign key dangles |
| MigrationRows.Benchmark | scripts/benchmark_migration.py:194-253 | Each delete puts exactly one table back, the last restores the database, and from a database whose foreign keys hold none dangles before, between or after the deletes |
| MigrationRows.TablesInOrderIff | scripts/benchmark_migration.py:248-252 | As an order of tables, the deletion puts every referrer before the table it refers to iff no filled model was first filled in an earlier tier than one it refers to |
| MigrationRows.ReferencedTableMayGoFirst | scripts/benchmark_migration.py:248 | With 50 rows in a referenced table, none in its referrer, and limit 100, the referenced table is deleted from first |
| TemplateCacheKeys.LogDeterminesAnswer | axbi/jinja_context.py:161-312 | What a keyed call logs determines its answer |
| TemplateCacheKeys.ParamValueIs | axbi/jinja_context.py:297-309 | A parameter is the non-empty request value, else the form's, null or not, else the default, quoted iff asked for, a dialect is there and it is not empty |
| TemplateCacheKeys.AnswersAreTheUsers | axbi/jinja_context.py:169-245 | Each accessor answers what the environment says of the user, nothing for nothing |
| TemplateCacheKeys.LoggedKeys | axbi/jinja_context.py:169-312 | Which key each accessor logs, and when none |
| TemplateCacheKeys.EqualLogsMeanEqualAnswersIff | axbi/jinja_context.py:161-312 | Two renders of keyed calls with equal logs received the same answers iff each accessor called while they agree had an answer to log for both or for neither, and then the texts are equal |
| TemplateCacheKeys.EqualAnswersAlign | axbi/jinja_context.py:161-312 | Renders that received the same answers logged alike |
| TemplateCacheKeys.EqualLogsEqualText | axbi/jinja_context.py:247-262 | Two renders that leave equal logs, calls logging in both or neither, got the same answers and text |
| TemplateCacheKeys.EqualLogsOfLoggingRenders | axbi/jinja_context.py:247-262 | Where every call logs, equal logs mean equal texts |
| TemplateCacheKeys.SilentCallsBreakThePromise | axbi/jinja_context.py:183-201 | Without that, two users share a log and not a text |
| TemplateCacheKeys.ExtraCache.WrapKey | axbi/jinja_context.py:247-262 | The key is returned, and appended if there is a log |
| TemplateCacheKeys.ExtraCache.UserId | axbi/jinja_context.py:161-173 | An id that is not zero is returned, and logged if asked |
| TemplateCacheKeys.ExtraCache.UserText | axbi/jinja_context.py:175-201 | The same for name and e-mail address, unless empty |
| TemplateCacheKeys.ExtraCache.UserList | axbi/jinja_context.py:203-245 | The same for roles and rules, logged as one key |
| TemplateCacheKeys.ExtraCache.UrlParameter | axbi/jinja_context.py:264-312 | Request, form or default value, quoted, and logged even when missing |
| TemplateCacheKeys.ExtraCache.RenderTemplate | axbi/jinja_context.py:122-159 | Rendering with the class appends exactly the log of the specification |
| CommaList.RoundTripIff | axbi/forms.py:50-60 | A list survives printing and parsing iff it is not empty and its strings are stripped and comma-free |
| CommaList.ParseOfJoin | axbi/forms.py:50-60 | Parsing inverts joining on such lists |
| CommaList.JoinSeparates | axbi/forms.py:52 | Lists printed together are separated by a comma and a blank |
| CommaList.StripKeepsMiddle | axbi/forms.py:58 | Stripping takes spaces off both ends and nothing else |
| CommaList.ParsedExample | axbi/forms.py:58 | Blanks, tabs and line ends around the items go, inside they stay |
| CommaList.ParsePrintParse | axbi/forms.py:50-60 | For every input, parsing, printing and parsing again gives the first parse |
| CommaList.ParsedIsStorable | axbi/forms.py:58 | What parsing returns survives |
| CommaList.SplitHasNoCommas | axbi/forms.py:58 | The parts hold no comma and glue back to the input |
| CommaList.EmptyListComesBackAsEmptyString | axbi/forms.py:50-60 | The empty list comes back as one empty string |
| CommaList.CommaSeparatedListField.Value | axbi/forms.py:50-54 | The text parses back to the data iff the data is storable |
| CommaList.CommaSeparatedListField.ProcessFormdata | axbi/forms.py:56-60 | Only the first value counts; what is stored is storable |

## Left out

- SqlWorker.Worker.OutsideStop: the stop's status check and its write are one step, and its own failure to cancel is not modelled.
- SqlWorker.Worker.GetSqlResults: loading the query in an error handler succeeds, and the session flushes only at the commits of the source. An error inside `execute_query` before the text is sent, and a soft timeout inside an error handler or between the final commit and the return, are not modelled.
- ColumnNames.Dedup: the suffix is the default one, which every caller uses.
- SqlWorker.Worker.FinishRun: the Arrow and MessagePack forms, expansion of nested data, row counts, progress and CTAS select text are not part of the payload.
- SQL parsing, row-level security, disallowed functions and tables, and DML checks are one optional error before the block loop; a script run as one block yields the rows of its last statement.
- Celery, Flask, SQLAlchemy, cursors, logging, statistics and translated messages are reduced to the steps named above.
- Partition.GetData: agg_mean, point_factor, point_percent and adv_anal are not modelled, since they do not conserve value; metrics are real numbers without missing values, group labels are their ranks without nulls, and a node is named by its whole prefix where the first level of the source gives the label alone.
- PayloadCache.Serve: the filter columns, time stamps and other payload fields outside data, query, errors and status are not compared; the source is assumed to depend only on the key.
- PayloadCache.SameKeyIff: the hash and the JSON text of the key are taken to be injective.
- Malformed cache entries, extra queries and the metadata table of cache keys are not modelled.
- GuestToken.RefreshTiming: decoding the token and parsing its expiry are replaced by an optional date.
- GuestToken.EmbeddedDashboard.Run: the iframe, the switchboard and an emission that throws are not modelled, nor is a host callback that returns something other than a promise; host timers are assumed never to fire early for delays below 2^31 ms.
- ColumnNames.DistinctIgnoringCaseIff: lower-casing that looks at neighbouring characters, as for the Greek final sigma, is not modelled.
- Records.DfToRecords: frames with repeated column names, integer columns narrower than 64 bits, nullable extension types and booleans are not modelled.
- SampleRows.AddSampleRows: composite and non-integer keys, primary keys that are foreign keys, foreign keys to other columns than the primary key, and the values of other columns are not modelled.
- SampleRows.LinkedMore: that the mapper gives a relationship to every model with a foreign key to a model is a hypothesis.
- MigrationRows.Benchmark: the migrations run between the tiers are taken to leave the rows alone, and timing and confirmation prompts are left out.
- MigrationModels.FindModels: the topological sorter's answer is a parameter with its documented contract.
- TemplateCacheKeys.ExtraCache.RenderTemplate: Jinja's evaluation is a strategy over answers, bounded by a number of calls that is universally quantified; filter accessors and time filters are left out, and `json.dumps` on a list of strings is taken to be injective.
- `BaseViz.dedup_columns` (axbi/viz.py:361-370) is left out: its list of labels is never extended, so there is no property to rest on it.
- deck.gl geometry, the desktop launcher, configuration and the remaining scripts would add easy members only.
