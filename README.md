# S&P 500 price download, modelled in Dafny

This project models the two download scripts of a small data repository.
Both scripts fetch daily prices for the constituents of the S&P 500 from a
market-data provider and save them to one CSV file.

- **The batched script** (`download_data/download2.py`):
  - It resolves the ticker list, then deletes any earlier output file.
  - It cuts the list into batches of 40 and fetches each batch with up to
    three attempts. Each attempt asks only for the tickers still failing, and
    the script backs off exponentially between attempts.
  - It appends every non-empty batch to the file, with a header only when the
    file did not yet exist.
  - At the end it retries every ticker that still failed on its own.
- **The bulk script** (`download_data/download1.py`):
  - It fetches all tickers in one request.
  - It walks the ticker list. A ticker takes its own slice when the response
    is keyed by ticker and has it. Otherwise a ticker equal to the first one
    takes the whole response, and any other ticker is skipped.
  - It stacks the frames into one long table indexed by (Date, Ticker) and
    sorts that table.
  - It keeps an allow-list of price columns and writes the table out.

The scripts share two pieces of logic:
- Ticker resolution: use the provider's membership list, fall back to the
  scraped reference table, and rewrite every `.` as `-`.
- Column normalisation: keep the allow-listed columns that are present, in
  allow-list order, and drop `Adj Close` when it repeats `Close` row for row.

The provider, the membership list and the scraped list are inputs of the
model:
- The price provider is a function from a request to an answer.
  - In the batched script a request records which `download_batch` call
    issued it, the tickers asked for and the attempt number. The same
    tickers may therefore get different answers in different calls.
  - An answer is either a transport error or a response. A response says
    whether it is keyed by ticker, and holds the whole frame and the
    per-ticker slices.
- The output file is an object holding whether it exists and its lines. Each
  line is a header (column names) or a record (cells in column order).
- Price cells are opaque values that are compared only for equality. A
  missing cell stands for NaN.

Files:
- `seqs.dfy`: subsequences, flattening, distinctness.
- `tickers.dfy`: `get_sp500_tickers`.
- `batching.dfy`: `chunked` and the batch count.
- `tables.dfy`: frames, responses, the long format and `pd.concat`.
- `columns.dfy`: the keep/drop column logic.
- `sink.dfy`: the CSV file and its append and overwrite semantics.
- `retry.dfy`: `download_batch`.
- `batched.dfy`: `append_to_csv` and `main` of the batched script.
- `coverage.dfy`: which tickers the batched script's output covers.
- `ordering.dfy`: the (Date, Ticker) sort.
- `bulk.dfy`: `download_sp500_ohlcv_csv`.

## Model

| member | source | states |
|---|---|---|
| Tickers.NormaliseSymbol | download_data/download2.py:22 | every `.` of a symbol becomes `-` and every other character is kept; the length is unchanged and no `.` remains |
| Tickers.NormaliseAll | download_data/download2.py:29 | the list keeps its length and order; entry `i` is symbol `i` rewritten |
| Tickers.ResolveTickers | download_data/download2.py:17-29 | the built-in list wins whenever it answers with at least one symbol; otherwise the run gets a list exactly when the scraped fallback answers, and that list is the scraped one, rewritten |
| Tickers.NormaliseSymbolIdempotent | download_data/download1.py:12 | rewriting an already rewritten symbol changes nothing |
| Tickers.SymbolUnchangedIffNoDot | download_data/download1.py:26 | rewriting leaves a symbol as it is exactly when it has no `.` |
| Batching.Chunked | download_data/download2.py:31-33 | read back in order, the batches give the ticker list again |
| Batching.ChunkedShape | download_data/download2.py:31-33 | there are `ceil(len/n)` batches; each is non-empty and at most `n` long; all but the last are exactly `n` long |
| Batching.CeilDiv | download_data/download2.py:89 | `math.ceil(len / BATCH)` in integer arithmetic; `CeilDivIsCeiling` proves it is the ceiling |
| Batching.CeilDivIsCeiling | download_data/download2.py:89 | the batch count is the least `k` with `len <= k * BATCH` |
| Tables.LongColumnsMembers | download_data/download2.py:59-60 | a frame after tagging and `reset_index` has a `Ticker` column and keeps every column it had |
| Tables.LongColumns | download_data/download2.py:59-60 | the columns of a tagged frame after `reset_index`: `Date` first, then the frame's columns, with `Ticker` added at the end unless already there; `LongColumnsMembers` proves it has `Ticker` and keeps every column |
| Tables.LongRow | download_data/download2.py:59-60 | one bar as a row: its cells, with `Ticker` set to the frame's ticker and `Date` to the bar's date; `LongRows` states what each row holds |
| Tables.IsEmpty | download_data/download2.py:94 | `DataFrame.empty`: no rows or no columns |
| Tables.FrameEmpty | download_data/download2.py:56 | `df_t.empty` for a provider frame: no bars or no columns |
| Tables.LongRows | download_data/download2.py:59-60 | a tagged frame gives one row per bar, in bar order. Each row carries the bar's date, the frame's ticker, and every other cell of its bar unchanged. |
| Tables.MergeColumnsMembers | download_data/download2.py:67 | the column union of a concatenation holds exactly the columns of either side |
| Tables.ConcatColumnsMembers | download_data/download1.py:58 | a column of the concatenated table is a column of one of the long frames, and every column of every long frame is one |
| Tables.Concat | download_data/download2.py:67 | `pd.concat(out_frames, ignore_index=True)`, or an empty frame when nothing was accepted; `ConcatEmptyIff`, `ConcatColumnsMembers` and `ConcatRowsTagged` state its shape |
| Tables.MergeColumns | download_data/download2.py:67 | the column union `pd.concat` builds: the left columns first and in order, then the new ones; `MergeColumnsMembers` states its members |
| Tables.ConcatColumns | download_data/download2.py:67 | the concatenation's columns: the first long frame's, starting with `Date`, then each later frame's new ones; `ConcatColumnsMembers` states its members |
| Tables.ConcatRows | download_data/download2.py:67 | the concatenation's rows: each long frame's rows in turn; `ConcatRowsTagged` states what each row carries |
| Tables.ConcatEmptyIff | download_data/download2.py:67 | the concatenation of the accepted frames is empty exactly when no frame has a bar |
| Tables.ConcatRowsTagged | download_data/download1.py:54-58 | every row of the concatenation carries the date of a bar of one frame and that frame's ticker |
| Columns.Present | download_data/download2.py:72 | the kept columns are exactly the allow-list entries present, in allow-list order |
| Columns.Without | download_data/download2.py:76 | dropping a column removes exactly that name and keeps the order of the rest |
| Columns.Project | download_data/download2.py:73 | `df[keep]` keeps the index and the row count; each row keeps only its cells under the index and the kept columns |
| Columns.Restrict | download_data/download2.py:73 | one row cut down to the given column names |
| Columns.SelectColumns | download_data/download2.py:72-73 | `df[keep]` with `keep` the allowed columns that are present, in allow-list order |
| Columns.AdjCloseRedundant | download_data/download2.py:75 | `Adj Close` and `Close` are both present and equal row for row, NaN matching NaN; `NormaliseColumnsKeeps` shows the drop happens exactly then |
| Columns.NormaliseColumns | download_data/download2.py:72-76 | the allow-list selection followed by the conditional `Adj Close` drop; `NormaliseColumnsKeeps`, `NormaliseColumnsCells`, `NormaliseColumnsRows` and `NormaliseIdempotent` state what it keeps |
| Columns.NormaliseColumnsKeeps | download_data/download2.py:72-76 | after normalisation the columns are a subsequence of the allow-list. A column is kept exactly when it is allowed and present, except `Adj Close` when `Close` is also present with equal values. The index is untouched. |
| Columns.NormaliseColumnsCells | download_data/download1.py:62-67 | normalisation keeps the number and order of the rows and every cell under the index or a kept column, and removes every other cell |
| Columns.NormaliseColumnsRows | download_data/download1.py:62-67 | normalisation keeps the rows in number and order, each cut down to the index and the kept columns |
| Columns.RestrictAllPerm | download_data/download1.py:59-67 | cutting down two orderings of the same rows gives two orderings of the same cut-down rows, so sorting before or after the column logic keeps the same rows |
| Columns.SelectKeepsColumn | download_data/download2.py:73 | a column that survives the selection keeps its values, so the `Adj Close`/`Close` comparison sees the original columns |
| Columns.NormaliseIdempotent | download_data/download2.py:72-76 | normalising twice gives the same table as normalising once |
| Sink.Records | download_data/download2.py:79 | one record line per row |
| Sink.RecordsCells | download_data/download2.py:79 | record `i` holds row `i`'s cells in column order, with a missing cell written empty |
| Sink.Emit | download_data/download2.py:78-79 | the lines appends of several tables leave in a file that did not exist: a header before the first table only, then each table's records; `EmitShape` and `AllRecordsAreRecords` state the layout |
| Sink.AppendedLines | download_data/download2.py:102-111 | the lines appends of several tables add to a file that may already exist: a header only when it did not and only before the first table; `AppendedLinesContinue` relates it to `Emit` |
| Sink.EmitShape | download_data/download2.py:78-79 | appending tables to a fresh file leaves exactly one header, the first table's, followed by all their records in order |
| Sink.AllRecordsAreRecords | download_data/download2.py:78-79 | after that header every line is a record |
| Sink.AppendedLinesContinue | download_data/download2.py:102-111 | appending more tables to the file a fresh run left gives the same lines as one fresh run over all the tables |
| Sink.CsvFile.Remove | download_data/download2.py:85-86 | the file no longer exists and holds nothing |
| Sink.CsvFile.AppendRows | download_data/download2.py:78-79 | an append writes a header exactly when the file did not exist, then the records; the file then exists, and a file with no header after its first line keeps that property |
| Sink.CsvFile.Overwrite | download_data/download1.py:69 | the file is replaced by a header of index and columns followed by one record per row, and has no other header |
| Retry.SliceFor | download_data/download2.py:55 | `data[t]` when the columns are keyed by ticker, `None` when that raises `KeyError`, and the whole response otherwise |
| Retry.DataOf | download_data/download2.py:42-49 | the response, or `pd.DataFrame()` (no columns, no data) when the request raised |
| Retry.Accepts | download_data/download2.py:55-58 | a ticker is accepted when its slice exists and is not empty |
| Retry.Backoff | download_data/download2.py:66 | the sleep `3 * 2 ** (attempt - 1)` seconds; `RunBackoff` states when it is taken |
| Retry.AcceptedOf | download_data/download2.py:51-62 | the frames one pass over the failing tickers appends, each tagged with its ticker; `AttemptShape` and `AttemptPartition` state which tickers they are |
| Retry.StillFailing | download_data/download2.py:51-64 | the `next_failed` list one pass builds; `AttemptShape` and `AttemptPartition` state it holds exactly the tickers not accepted |
| Retry.Run | download_data/download2.py:39-66 | the attempt loop from a given attempt on: request what still fails, keep the accepted frames, back off, go on with the rest. `RunAttempts`, `RunAnswers`, `RunBackoff`, `RunPartition` and `RunFailedSubseq` state its behaviour. |
| Retry.DownloadBatchSpec | download_data/download2.py:35-68 | `download_batch` as the attempt loop from attempt 1; `DownloadBatch` is proved to compute it |
| Retry.AttemptShape | download_data/download2.py:51-62 | in one pass, a ticker stays failing exactly when its slice is missing or empty. Both the accepted tickers and the still-failing tickers keep request order. Each accepted frame is the ticker's own slice. |
| Retry.AttemptPartition | download_data/download2.py:51-64 | one pass splits the requested tickers: each is accepted or stays failing, never both, counting repetitions |
| Retry.TransportErrorFailsAll | download_data/download2.py:42-49 | an attempt whose request raised accepts nothing and fails every requested ticker |
| Retry.RunAttempts | download_data/download2.py:37-41 | a call makes at most `MAX_RETRIES` attempts, numbered from 1. The first attempt requests the whole batch. The loop stops early only when nothing fails. What the last attempt left failing is what the call returns. An empty batch makes no request. |
| Retry.RunAnswers | download_data/download2.py:42-64 | each attempt's outcome is the provider's answer to exactly that attempt's request. Each later attempt requests exactly what the previous one left failing, which was not empty. |
| Retry.RunBackoff | download_data/download2.py:65-66 | an attempt sleeps `3 * 2^(attempt-1)` seconds exactly when failures remain and it is not attempt `MAX_RETRIES`; otherwise it does not sleep |
| Retry.NoSleepAfterLast | download_data/download2.py:65-66 | no sleep follows the final request of a call |
| Retry.RunFailedSubseq | download_data/download2.py:51-64 | the failures a call returns are a subsequence of its batch |
| Retry.RunAttemptsShrink | download_data/download2.py:51-64 | each attempt leaves failing a subsequence of what it requested, and all of it when the request raised |
| Retry.StillFailingSubseq | download_data/download2.py:51-62 | one pass leaves failing a subsequence of what it requested |
| Retry.RunPartition | download_data/download2.py:51-64 | every input ticker ends up either among the accepted frames or among the returned failures, never both, counting repetitions |
| Retry.RunFramesAccepted | download_data/download2.py:52-60 | each accepted frame is non-empty and tagged with a requested ticker, and it is `data[t]` of the answer to a logged attempt that requested that ticker |
| Retry.AcceptedXorFailed | download_data/download2.py:51-64 | with distinct tickers, each one has exactly one accepted frame and is not failing, or has no frame and is failing |
| Retry.SingleTickerRecovery | download_data/download2.py:107 | for a one-ticker call, `not df.empty and not rem` holds exactly when that ticker's single frame was accepted |
| Retry.DownloadBatch | download_data/download2.py:35-68 | the loop returns the concatenated accepted frames, the final failures and the attempt log of the retry specification |
| Retry.ExtractAttempt | download_data/download2.py:51-62 | the inner loop builds exactly the accepted frames and the `next_failed` list of one pass |
| BatchedPipeline.StageOneFailed | download_data/download2.py:97-99 | `all_failed`: every batch's failures, in batch order; `StageOneFailedSubseq` and `StageOneCoverage` state what it holds |
| BatchedPipeline.StageOneTables | download_data/download2.py:93-95 | the tables the batch loop appends: one per batch with a non-empty table, normalised, in batch order; `StageOneTablesNonEmpty` and `StageOneCoverage` state what they hold |
| BatchedPipeline.TableOf | download_data/download2.py:67 | the frame `download_batch` returns: the concatenation of its accepted frames |
| BatchedPipeline.Written | download_data/download2.py:72-76 | the table `append_to_csv` writes: the normalised columns; `WrittenMentions` states that it keeps each ticker's rows |
| BatchedPipeline.Recovered | download_data/download2.py:107 | `not df1.empty and not rem`; `SingleTickerRecovery` proves it holds exactly when the ticker's own frame was accepted |
| BatchedPipeline.RecoveryFlags | download_data/download2.py:105-107 | one flag per retry, in order, as long as the list of retries; `RecoveryFlagsAt` states that flag `j` is `Recovered` of retry `j` |
| BatchedPipeline.RecoveryFlagsAt | download_data/download2.py:105-107 | recovery flag `j` says whether the retry of failed ticker `j` recovered it |
| BatchedPipeline.StageTwoFailed | download_data/download2.py:105-111 | `really_failed`: the retried tickers that were not recovered, in order; `StageTwoFailedSubseq`, `StageTwoCount` and `StageTwoCoverage` state what it holds |
| BatchedPipeline.StageTwoTables | download_data/download2.py:105-108 | the tables the retry loop appends, one per recovered ticker; `StageTwoCount` and `StageTwoCoverage` state what they hold |
| BatchedPipeline.AppendToCsv | download_data/download2.py:70-79 | the normalised table is appended, with a header of its own columns exactly when the file did not exist |
| BatchedPipeline.FetchBatch | download_data/download2.py:93 | batch `k` is fetched as the `k`-th call of the run and its outcome is recorded after those of earlier batches |
| BatchedPipeline.FetchRetry | download_data/download2.py:106 | failed ticker `j` is fetched alone, as call `base + j` |
| BatchedPipeline.BatchStage | download_data/download2.py:91-99 | the batch loop collects the failures of every batch in batch order. It writes each non-empty batch table, normalised, to the file, which it starts fresh. |
| BatchedPipeline.IndividualStage | download_data/download2.py:102-111 | the retry loop reports exactly the tickers not recovered, in order. It appends the table of each recovered ticker to the file. |
| BatchedPipeline.RetryTicker | download_data/download2.py:106-111 | one pass of the retry loop: the ticker's own `download_batch([t])` is recorded, the flag it returns is `not df1.empty and not rem`, and the file gains that ticker's table, with a header only if the file was absent, exactly when the flag is set |
| BatchedPipeline.RunBatched | download_data/download2.py:81-111 | a run without a ticker list leaves the file alone. Otherwise the file holds the lines of a fresh run over the batch tables and then the recovered tables, and it exists exactly when one was written. The report gives the batch count, all failures and the unrecovered tickers. |
| BatchedPipeline.AllFailedWithinTickers | download_data/download2.py:91-99 | `all_failed` is a subsequence of the ticker list |
| BatchedPipeline.StageOneFailedSubseq | download_data/download2.py:97-99 | the collected failures are a subsequence of the batches read in order |
| BatchedPipeline.StageTwoFailedSubseq | download_data/download2.py:102-111 | `really_failed` is a subsequence of `all_failed` |
| BatchedPipeline.StageTwoCount | download_data/download2.py:105-111 | the tables the retry loop writes and the tickers it reports add up to the number of tickers retried |
| BatchedPipeline.StageTwoPosition | download_data/download2.py:105-111 | retry `j` does exactly one of two things: when recovered it appends its normalised table and is not reported, otherwise it is reported and appends nothing |
| BatchedPipeline.StageOneTablesNonEmpty | download_data/download2.py:94-95 | every table the batch stage writes has rows |
| BatchedPipeline.OutputFileShape | download_data/download2.py:85-111 | the output of a completed run holds at most one header, on the first line, followed only by records |
| BatchedCoverage.ConcatMentions | download_data/download2.py:67 | the concatenated frames have a row for a ticker exactly when a frame with at least one bar was accepted for it |
| BatchedCoverage.WrittenMentions | download_data/download2.py:70-79 | `append_to_csv` keeps the `Ticker` column, so it writes a row for a ticker exactly when the batch table has one; an empty batch table has no row |
| BatchedCoverage.OutcomeMentions | download_data/download2.py:35-68 | for a batch without repetitions, the returned table has a row for a requested ticker exactly when that ticker is not returned as failed, and none for a ticker it was not asked for |
| BatchedCoverage.RetryMentions | download_data/download2.py:106-108 | a recovered ticker's table has a row for that ticker and for no other |
| BatchedCoverage.StageTwoTablesMention | download_data/download2.py:104-107 | the retry loop appends a table with a row for a ticker exactly when one of its retries was recovered with a row for that ticker |
| BatchedCoverage.FlagsCoverage | download_data/download2.py:104-111 | when each retry writes a row for a ticker exactly when it is recovered and retried that ticker, and no ticker is retried twice: a retried ticker is put into `really_failed` exactly when no retry writes a row for it, and any other ticker is neither put there nor written |
| BatchedCoverage.StageOneCoverage | download_data/download2.py:91-99 | with no ticker in two batches or twice in one, a batched ticker goes into `all_failed` exactly when no table the batch loop appends has a row for it; an unbatched ticker is in neither |
| BatchedCoverage.StageTwoCoverage | download_data/download2.py:102-111 | with `all_failed` free of repetitions, a retried ticker goes into `really_failed` exactly when no table the retry loop appends has a row for it; any other ticker is in neither |
| BatchedCoverage.ReportedIffNoRows | download_data/download2.py:81-111 | for a ticker list without repetitions, a ticker is reported as really failed exactly when no table written to the file, by either loop, has a row for it |
| Ordering.RowLe | download_data/download1.py:59 | the (Date, Ticker) order: an earlier date, or the same date and a ticker not greater; `RowLeTotal` and `RowLeTrans` prove it a total preorder |
| Ordering.SortRows | download_data/download1.py:59 | `sort_index` on the rows; `SortRowsCorrect` proves the result sorted and a permutation |
| Ordering.StrLeTotal | download_data/download1.py:59 | any two symbols are ordered one way or the other |
| Ordering.StrLeTrans | download_data/download1.py:59 | the symbol order is transitive |
| Ordering.RowLeTotal | download_data/download1.py:59 | any two rows are ordered one way or the other by (Date, Ticker) |
| Ordering.RowLeTrans | download_data/download1.py:59 | the (Date, Ticker) order is transitive |
| Ordering.SortedCons | download_data/download1.py:59 | a row followed by rows is sorted exactly when the rows are and the row may precede each of them |
| Ordering.InsertSorted | download_data/download1.py:59 | inserting a row into sorted rows keeps them sorted |
| Ordering.InsertCount | download_data/download1.py:59 | inserting adds exactly that row |
| Ordering.SortRowsCorrect | download_data/download1.py:59 | sorting puts the rows in (Date, Ticker) order and is a permutation of them |
| Ordering.SortRowsLength | download_data/download1.py:59 | sorting keeps the row count |
| Ordering.SortRowsSortedUnchanged | download_data/download1.py:59 | already sorted rows are left as they are |
| Ordering.SameKeysSorted | download_data/download1.py:59-67 | the order depends only on the Date and Ticker cells, so rows that agree on those with sorted rows are sorted |
| BulkPipeline.FrameFor | download_data/download1.py:46-53 | the frame a ticker gets: its own slice when the response is keyed by ticker and has it, else the whole response for the first ticker, else none; `SelectedFrames` states the selection through it |
| BulkPipeline.Selection | download_data/download1.py:44-56 | the frames the loop collects, in ticker-list order; `SelectedFrames`, `SelectedTagsSubseq` and `SelectionNonEmptyIff` state what it holds |
| BulkPipeline.Selected | download_data/download1.py:44-56 | the `frames` list after the loop has visited a prefix of the tickers: one frame per ticker that `FrameFor` gives one, in order |
| BulkPipeline.SelectFrames | download_data/download1.py:44-56 | the loop collects exactly the frames of the selection rule, in ticker-list order |
| BulkPipeline.SelectedTagsSubseq | download_data/download1.py:45-56 | the selected frames' tickers are a subsequence of the ticker list |
| BulkPipeline.SelectedFrames | download_data/download1.py:46-53 | a ticker is selected exactly when it is listed and the rule gives it a frame, and its frame is that one. The rule: its own slice when the response is keyed by ticker and has it; else the whole response for `tickers[0]`; else skipped. |
| BulkPipeline.SelectionNonEmptyIff | download_data/download1.py:50-58 | some frame is selected exactly when the ticker list is not empty |
| BulkPipeline.FlatResponseFirstOnly | download_data/download1.py:48-53 | with a response not keyed by ticker and `tickers[0]` not repeated, only the first ticker is selected, with the whole response |
| BulkPipeline.SetIndex | download_data/download1.py:59 | `set_index` makes Date and Ticker the index, removes them from the columns and keeps the rows |
| BulkPipeline.SortIndex | download_data/download1.py:59 | `sort_index()`: the rows ordered by (Date, Ticker), index and columns kept; `SortRowsCorrect` and `ReshapeSorted` state the order |
| BulkPipeline.Reshape | download_data/download1.py:58-67 | concatenate, index by (Date, Ticker), sort, normalise the columns; `ReshapeSorted`, `ReshapeRowCount`, `ReshapeKeepsBars` and `ReshapedRowOrigin` state the result |
| BulkPipeline.BulkSpec | download_data/download1.py:28-71 | how the bulk script ends for given inputs; `NothingToConcatenateIff` and `SavedTable` state when and what it saves |
| BulkPipeline.DownloadOhlcvCsv | download_data/download1.py:28-71 | the script ends as the specification function says. It writes the file only when it saves a table, and then replaces the file with that table, index first. |
| BulkPipeline.NothingToConcatenateIff | download_data/download1.py:58 | `pd.concat` fails exactly when the request succeeded and the resolved list was empty |
| BulkPipeline.NormaliseKeepsKeys | download_data/download1.py:62-67 | the column logic keeps the row count and every Date and Ticker cell |
| BulkPipeline.ReshapeSorted | download_data/download1.py:59-67 | the saved table is indexed by (Date, Ticker) and its rows are in (Date, Ticker) order |
| BulkPipeline.SortedRowOrigin | download_data/download1.py:58-59 | each sorted row comes from a bar of a selected frame, with that frame's ticker |
| BulkPipeline.ReshapedRowOrigin | download_data/download1.py:54-67 | each saved row carries the date of a bar of a selected frame and that frame's ticker |
| BulkPipeline.ReshapeRowCount | download_data/download1.py:58-67 | the saved table has one row per bar of the selected frames |
| BulkPipeline.ReshapeKeepsBars | download_data/download1.py:58-67 | the saved rows are exactly the concatenated rows, reordered, each cut down to the index and the kept columns |
| BulkPipeline.ReshapeTickers | download_data/download1.py:45-56 | each saved row is tagged with a listed ticker |
| BulkPipeline.SavedTable | download_data/download1.py:28-71 | a saved table is built from the frames selected from the one response. It is indexed and sorted by (Date, Ticker). Its columns are a subsequence of the allow-list. Its rows are the concatenated rows reordered, one per selected bar, each cut down to the index and the kept columns and tagged with a resolved ticker. |

## Left out

- The network:
  - The provider's price requests, its membership list and the reference page are inputs: a request-to-answer function and two optional lists.
  - `None` stands for a call that raised. This covers `raise_for_status`, a failed request and a failed HTML parse.
  - The request options (dates, interval, `auto_adjust`, `timeout`) only shape the provider's answers, so they are not modelled.
- `pd.read_html`: the scraped list is taken to be the `Symbol` column of the first table.
- `time.sleep`: the requested delay is recorded in each attempt's log entry; real time is not modelled.
- CSV text:
  - A line is a header (names) or a record (cells in column order).
  - Quoting, number formatting and the text encoding of the file are not modelled.
- `print` progress output and `os.path.abspath` are left out. The batched run returns its report (counts and failure lists) instead.
- `threads=True` in the bulk request is left out: any concurrency is internal to the provider.
- Floating point prices and NaN:
  - Cells are opaque values compared for equality.
  - A missing cell is NaN.
  - Two missing cells compare equal, as `Series.equals` treats them.
- `download_data/sectors.py` is not part of this model.
- Column name collisions in `reset_index` are left out. The model assumes the date index is named `Date` and no frame already has a `Date` column.
- MultiIndex columns are left out for the frame the first ticker takes from a response that is keyed by ticker but lacks it. That frame is treated like a plain frame.
- Ordering.SortRows: rows with equal (Date, Ticker) keys keep their input order. pandas `sort_index` does not promise that. Keys are unique only when no ticker is listed twice and no frame repeats a date; the model does not assume either.
- BulkPipeline.DownloadOhlcvCsv: an exception raised by the price request in the bulk script is modelled as the `DownloadRaised` outcome, and the raised exception's type is not kept.
- BatchedPipeline.RunBatched: when the first written table and a later one have different column sets, the records of the later table follow its own columns under the first table's header. The model keeps exactly this misalignment and does not add a property about it.
- Bar cells are not tied to their frame's column list: a bar may carry a cell under a name that is not one of the frame's columns, where pandas would hold only the listed columns. The properties hold whatever the bars carry.
- BatchedCoverage.ReportedIffNoRows: it assumes the ticker list has no repetitions. The source does not check this. With a repeated ticker, one batch can write that ticker's rows while another batch and its own retry still report it failed.
