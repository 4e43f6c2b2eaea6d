/** The batched script: resolve the tickers, start from a fresh output
    file, fetch batch after batch with `download_batch`, append each
    non-empty batch to the file, then retry every ticker that still failed
    on its own. */
module BatchedPipeline {
  import opened Seqs
  import opened Tables
  import opened Columns
  import opened Sink
  import opened Retry
  import opened Tickers
  import opened Batching

  /** How a run ends: aborted because no ticker list could be obtained, or
      completed with the number of batches, the failures collected over the
      batches, and the tickers that the individual retries could not
      recover either. */
  datatype Report = Aborted | Completed(tickers: seq<string>, batchCount: nat, allFailed: seq<string>, reallyFailed: seq<string>)

  /** What `download_batch` returns for each batch, batch `k` being the
      `k`-th request of the run. */
  function BatchOutcomes(provider: Provider, batches: seq<seq<string>>): (r: seq<BatchOutcome>)
    ensures |r| == |batches|
  {
    seq(|batches|, k requires 0 <= k < |batches| => DownloadBatchSpec(provider, k, batches[k]))
  }

  /** The outcomes of the first `k` batches, and the outcome of batch `k`. */
  lemma BatchOutcomesPrefix(provider: Provider, batches: seq<seq<string>>, k: nat)
    requires k < |batches|
    ensures BatchOutcomes(provider, batches)[..k] == BatchOutcomes(provider, batches[..k])
    ensures BatchOutcomes(provider, batches)[k] == DownloadBatchSpec(provider, k, batches[k])
  {
    assert BatchOutcomes(provider, batches)[..k] == BatchOutcomes(provider, batches[..k]);
  }

  /** What `download_batch([t])` returns for each ticker `t` of `failed`,
      entry `j` being request `base + j`. */
  function RetryOutcomes(provider: Provider, base: nat, failed: seq<string>): (r: seq<BatchOutcome>)
    ensures |r| == |failed|
  {
    seq(|failed|, j requires 0 <= j < |failed| => DownloadBatchSpec(provider, base + j, [failed[j]]))
  }

  /** The data frame `download_batch` returns. */
  function TableOf(o: BatchOutcome): Table
  {
    Concat(o.frames)
  }

  /** What `append_to_csv` writes for a table. */
  function Written(df: Table): Table
  {
    NormaliseColumns(df, BatchAllowList)
  }

  /** Failures the batch stage collects into `all_failed`, in batch order. */
  function StageOneFailed(outs: seq<BatchOutcome>): seq<string>
  {
    if outs == [] then [] else StageOneFailed(outs[..|outs| - 1]) + outs[|outs| - 1].failed
  }

  /** Tables the batch stage appends: one per batch whose table is not
      empty, in batch order. */
  function StageOneTables(outs: seq<BatchOutcome>): seq<Table>
  {
    if outs == [] then []
    else
      var df := TableOf(outs[|outs| - 1]);
      StageOneTables(outs[..|outs| - 1]) + (if IsEmpty(df) then [] else [Written(df)])
  }

  /** `not df1.empty and not rem`: the individual retry recovered its
      ticker. */
  predicate Recovered(o: BatchOutcome)
  {
    !IsEmpty(TableOf(o)) && o.failed == []
  }

  /** Whether each individual retry recovered its ticker. */
  function RecoveryFlags(outs: seq<BatchOutcome>): (r: seq<bool>)
    ensures |r| == |outs|
  {
    if outs == [] then [] else RecoveryFlags(outs[..|outs| - 1]) + [Recovered(outs[|outs| - 1])]
  }

  /** Flag `j` says whether retry `j` recovered its ticker. */
  lemma {:induction false} RecoveryFlagsAt(outs: seq<BatchOutcome>, j: nat)
    requires j < |outs|
    ensures RecoveryFlags(outs)[j] == Recovered(outs[j])
  {
    var n := |outs| - 1;
    var prev := RecoveryFlags(outs[..n]);
    assert RecoveryFlags(outs) == prev + [Recovered(outs[n])];
    if j < n {
      RecoveryFlagsAt(outs[..n], j);
      assert outs[..n][j] == outs[j];
      assert (prev + [Recovered(outs[n])])[j] == prev[j];
    }
  }

  /** Tickers the individual stage reports: those whose retry did not
      recover them, in order. */
  function StageTwoFailed(failed: seq<string>, recovered: seq<bool>): seq<string>
    requires |recovered| == |failed|
  {
    if failed == [] then []
    else
      var j := |failed| - 1;
      StageTwoFailed(failed[..j], recovered[..j]) + (if recovered[j] then [] else [failed[j]])
  }

  /** Tables the individual stage appends: one per recovered ticker. */
  function StageTwoTables(outs: seq<BatchOutcome>): seq<Table>
  {
    if outs == [] then []
    else
      var o := outs[|outs| - 1];
      StageTwoTables(outs[..|outs| - 1]) + (if Recovered(o) then [Written(TableOf(o))] else [])
  }

  /** `append_to_csv(df, path)`. */
  method AppendToCsv(df: Table, file: CsvFile)
    requires file.Valid()
    modifies file
    ensures file.Valid() && file.present
    ensures var t := Written(df);
      file.lines == old(file.lines) + (if old(file.present) then [] else [Header(t.columns)]) + Records(t.rows, t.columns)
  {
    var t := Written(df);
    var _ := file.AppendRows(t);
  }

  /** `main`, with the provider's membership list, the scraped list and the
      price provider as inputs and the output file as the state it changes. */
  method RunBatched(builtin: Option<seq<string>>, scraped: Option<seq<string>>, provider: Provider, file: CsvFile)
    returns (report: Report)
    requires file.Valid()
    modifies file
    ensures file.Valid()
    ensures ResolveTickers(builtin, scraped).SourceUnavailable? ==>
              report == Aborted && file.present == old(file.present) && file.lines == old(file.lines)
    ensures ResolveTickers(builtin, scraped).Resolved? ==>
              var tickers := ResolveTickers(builtin, scraped).tickers;
              var batches := Chunked(tickers, BatchSize);
              var outs := BatchOutcomes(provider, batches);
              var allFailed := StageOneFailed(outs);
              var retries := RetryOutcomes(provider, |batches|, allFailed);
              var written := StageOneTables(outs) + StageTwoTables(retries);
              && report == Completed(tickers, |batches|, allFailed, StageTwoFailed(allFailed, RecoveryFlags(retries)))
              && file.present == (written != [])
              && file.lines == Emit(written)
  {
    var resolution := ResolveTickers(builtin, scraped);
    if resolution.SourceUnavailable? {
      return Aborted;
    }
    var tickers := resolution.tickers;
    if file.present {
      file.Remove();
    } else {
      assert file.lines == [];
    }
    var batches := Chunked(tickers, BatchSize);
    var totalBatches := CeilDiv(|tickers|, BatchSize);
    ChunkedShape(tickers, BatchSize);
    var allFailed := BatchStage(provider, batches, file);
    ghost var first := StageOneTables(BatchOutcomes(provider, batches));
    var reallyFailed: seq<string> := [];
    if allFailed != [] {
      reallyFailed := IndividualStage(provider, |batches|, allFailed, file);
      AppendedLinesContinue(first, StageTwoTables(RetryOutcomes(provider, |batches|, allFailed)));
    } else {
      assert first + [] == first;
    }
    report := Completed(tickers, totalBatches, allFailed, reallyFailed);
  }

  /** Entry `k` of `outs` is what `download_batch` returns for batch `k`. */
  ghost predicate BatchLinked(provider: Provider, batches: seq<seq<string>>, outs: seq<BatchOutcome>, k: int)
  {
    0 <= k < |outs| && k < |batches| && outs[k] == DownloadBatchSpec(provider, k, batches[k])
  }

  /** `outs` holds the outcomes of the first `|outs|` batches. */
  ghost predicate BatchesLinked(provider: Provider, batches: seq<seq<string>>, outs: seq<BatchOutcome>)
  {
    |outs| <= |batches| && forall i :: 0 <= i < |outs| ==> BatchLinked(provider, batches, outs, i)
  }

  /** Entry `j` of `outs` is what `download_batch([t])` returns for ticker
      `j` of `failed`. */
  ghost predicate RetryLinked(provider: Provider, base: nat, failed: seq<string>, outs: seq<BatchOutcome>, j: int)
  {
    0 <= j < |outs| && j < |failed| && outs[j] == DownloadBatchSpec(provider, base + j, [failed[j]])
  }

  /** `outs` holds the outcomes of the first `|outs|` individual retries. */
  ghost predicate RetriesLinked(provider: Provider, base: nat, failed: seq<string>, outs: seq<BatchOutcome>)
  {
    |outs| <= |failed| && forall i :: 0 <= i < |outs| ==> RetryLinked(provider, base, failed, outs, i)
  }

  lemma BatchLinkedSnoc(provider: Provider, batches: seq<seq<string>>, outs: seq<BatchOutcome>,
                        call: nat, o: BatchOutcome)
    requires BatchesLinked(provider, batches, outs)
    requires call == |outs| < |batches| && o == DownloadBatchSpec(provider, call, batches[call])
    ensures BatchesLinked(provider, batches, outs + [o])
  {
    forall i | 0 <= i < |outs|
      ensures BatchLinked(provider, batches, outs + [o], i)
    {
      assert BatchLinked(provider, batches, outs, i);
    }
    assert BatchLinked(provider, batches, outs + [o], |outs|);
  }

  lemma BatchLinkedAll(provider: Provider, batches: seq<seq<string>>, outs: seq<BatchOutcome>)
    requires BatchesLinked(provider, batches, outs) && |outs| == |batches|
    ensures outs == BatchOutcomes(provider, batches)
  {
    forall i | 0 <= i < |outs|
      ensures outs[i] == BatchOutcomes(provider, batches)[i]
    {
      assert BatchLinked(provider, batches, outs, i);
    }
  }

  lemma RetryLinkedSnoc(provider: Provider, base: nat, failed: seq<string>, outs: seq<BatchOutcome>,
                        call: nat, t: string, o: BatchOutcome)
    requires RetriesLinked(provider, base, failed, outs)
    requires |outs| < |failed| && call == base + |outs| && t == failed[|outs|]
    requires o == DownloadBatchSpec(provider, call, [t])
    ensures RetriesLinked(provider, base, failed, outs + [o])
  {
    forall i | 0 <= i < |outs|
      ensures RetryLinked(provider, base, failed, outs + [o], i)
    {
      assert RetryLinked(provider, base, failed, outs, i);
    }
    assert RetryLinked(provider, base, failed, outs + [o], |outs|);
  }

  lemma RetryLinkedAll(provider: Provider, base: nat, failed: seq<string>, outs: seq<BatchOutcome>)
    requires RetriesLinked(provider, base, failed, outs) && |outs| == |failed|
    ensures outs == RetryOutcomes(provider, base, failed)
  {
    forall i | 0 <= i < |outs|
      ensures outs[i] == RetryOutcomes(provider, base, failed)[i]
    {
      assert RetryLinked(provider, base, failed, outs, i);
    }
  }

  /** `download_batch(batch, batch_idx=k, ...)` for batch `k`, with its
      outcome recorded after those of the batches before it. */
  method FetchBatch(provider: Provider, batches: seq<seq<string>>, ghost done: seq<BatchOutcome>, k: nat)
    returns (df: Table, failed: seq<string>, ghost o: BatchOutcome)
    requires BatchesLinked(provider, batches, done) && k == |done| < |batches|
    ensures BatchesLinked(provider, batches, done + [o])
    ensures df == TableOf(o) && failed == o.failed
  {
    var log;
    df, failed, log, o := DownloadBatch(provider, k, batches[k]);
    BatchLinkedSnoc(provider, batches, done, k, o);
  }

  /** `download_batch([t], ...)` for ticker `j` of the failures, with its
      outcome recorded after those of the retries before it. */
  method FetchRetry(provider: Provider, base: nat, failed: seq<string>, ghost done: seq<BatchOutcome>, j: nat)
    returns (df: Table, rem: seq<string>, ghost o: BatchOutcome)
    requires RetriesLinked(provider, base, failed, done) && j == |done| < |failed|
    ensures RetriesLinked(provider, base, failed, done + [o])
    ensures df == TableOf(o) && rem == o.failed
  {
    var log;
    df, rem, log, o := DownloadBatch(provider, base + j, [failed[j]]);
    RetryLinkedSnoc(provider, base, failed, done, base + j, failed[j], o);
  }

  /** The loop of `main` over the batches, run against a file that holds
      nothing yet. */
  method BatchStage(provider: Provider, batches: seq<seq<string>>, file: CsvFile) returns (allFailed: seq<string>)
    requires file.Valid() && !file.present
    modifies file
    ensures var outs := BatchOutcomes(provider, batches);
      && allFailed == StageOneFailed(outs)
      && file.Valid()
      && file.present == (StageOneTables(outs) != [])
      && file.lines == Emit(StageOneTables(outs))
  {
    ghost var done: seq<BatchOutcome> := [];
    allFailed := [];
    var k := 0;
    while k < |batches|
      invariant 0 <= k <= |batches| && |done| == k
      invariant BatchesLinked(provider, batches, done)
      invariant file.Valid()
      invariant allFailed == StageOneFailed(done)
      invariant file.present == (StageOneTables(done) != [])
      invariant file.lines == Emit(StageOneTables(done))
    {
      ghost var prev := StageOneTables(done);
      var dfBatch, failed, o := FetchBatch(provider, batches, done, k);
      StageOneSnoc(done, o);
      if !IsEmpty(dfBatch) {
        AppendToCsv(dfBatch, file);
        EmitSnoc(prev, Written(dfBatch));
      } else {
        assert prev + [] == prev;
      }
      if failed != [] {
        allFailed := allFailed + failed;
      }
      done := done + [o];
      k := k + 1;
    }
    BatchLinkedAll(provider, batches, done);
  }

  /** The loop of `main` over the tickers still failing, appending to the
      file the batch stage left. */
  method IndividualStage(provider: Provider, base: nat, allFailed: seq<string>, file: CsvFile)
    returns (reallyFailed: seq<string>)
    requires file.Valid()
    modifies file
    ensures var outs := RetryOutcomes(provider, base, allFailed);
      && reallyFailed == StageTwoFailed(allFailed, RecoveryFlags(outs))
      && file.Valid()
      && file.present == (old(file.present) || StageTwoTables(outs) != [])
      && file.lines == old(file.lines) + AppendedLines(old(file.present), StageTwoTables(outs))
  {
    ghost var done: seq<BatchOutcome> := [];
    reallyFailed := [];
    var j := 0;
    while j < |allFailed|
      invariant 0 <= j <= |allFailed| && |done| == j
      invariant RetriesLinked(provider, base, allFailed, done)
      invariant file.Valid()
      invariant reallyFailed == StageTwoFailed(allFailed[..j], RecoveryFlags(done))
      invariant file.present == (old(file.present) || StageTwoTables(done) != [])
      invariant file.lines == old(file.lines) + AppendedLines(old(file.present), StageTwoTables(done))
    {
      var t := allFailed[j];
      var recovered, o := RetryTicker(provider, base, allFailed, done, j, file, old(file.present), old(file.lines));
      StageTwoFailedSnoc(allFailed[..j], done, t, o);
      PrefixSnoc(allFailed, j);
      if !recovered {
        reallyFailed := reallyFailed + [t];
      }
      done := done + [o];
      j := j + 1;
    }
    assert allFailed[..j] == allFailed;
    RetryLinkedAll(provider, base, allFailed, done);
  }

  /** One pass of that loop: `download_batch([t])` for failed ticker `j`,
      and its table appended when the ticker was recovered. */
  method RetryTicker(provider: Provider, base: nat, allFailed: seq<string>, ghost done: seq<BatchOutcome>, j: nat,
                     file: CsvFile, ghost present: bool, ghost lines: seq<Line>)
    returns (recovered: bool, ghost o: BatchOutcome)
    requires file.Valid() && RetriesLinked(provider, base, allFailed, done) && j == |done| < |allFailed|
    requires file.present == (present || StageTwoTables(done) != [])
    requires file.lines == lines + AppendedLines(present, StageTwoTables(done))
    modifies file
    ensures RetriesLinked(provider, base, allFailed, done + [o])
    ensures recovered == Recovered(o)
    ensures file.Valid()
    ensures file.present == (present || StageTwoTables(done + [o]) != [])
    ensures file.lines == lines + AppendedLines(present, StageTwoTables(done + [o]))
  {
    ghost var prev := StageTwoTables(done);
    var df1, rem;
    df1, rem, o := FetchRetry(provider, base, allFailed, done, j);
    StageTwoTablesSnoc(done, o);
    recovered := !IsEmpty(df1) && rem == [];
    if recovered {
      ghost var w := Written(df1);
      ghost var before := AppendedLines(present, prev);
      ghost var header: seq<Line> := if !present && prev == [] then [Header(w.columns)] else [];
      AppendToCsv(df1, file);
      AppendedLinesSnoc(present, prev, w);
      AppendThree(lines, before, header, Records(w.rows, w.columns));
    } else {
      assert prev + [] == prev;
    }
  }

  /** One more batch of the batch stage. */
  lemma StageOneSnoc(outs: seq<BatchOutcome>, o: BatchOutcome)
    ensures StageOneFailed(outs + [o]) == StageOneFailed(outs) + o.failed
    ensures StageOneTables(outs + [o]) ==
              StageOneTables(outs) + (if IsEmpty(TableOf(o)) then [] else [Written(TableOf(o))])
  {
    assert (outs + [o])[..|outs|] == outs;
  }

  /** One more ticker of the individual stage: its report. */
  lemma StageTwoFailedSnoc(failed: seq<string>, outs: seq<BatchOutcome>, t: string, o: BatchOutcome)
    requires |outs| == |failed|
    ensures StageTwoFailed(failed + [t], RecoveryFlags(outs + [o])) ==
              StageTwoFailed(failed, RecoveryFlags(outs)) + (if Recovered(o) then [] else [t])
  {
    assert (outs + [o])[..|outs|] == outs;
    assert (failed + [t])[..|failed|] == failed;
    assert (RecoveryFlags(outs) + [Recovered(o)])[..|outs|] == RecoveryFlags(outs);
  }

  /** One more ticker of the individual stage: its table. */
  lemma StageTwoTablesSnoc(outs: seq<BatchOutcome>, o: BatchOutcome)
    ensures StageTwoTables(outs + [o]) ==
              StageTwoTables(outs) + (if Recovered(o) then [Written(TableOf(o))] else [])
  {
    assert (outs + [o])[..|outs|] == outs;
  }

  /** Everything reported as failed after the batch stage is a ticker of
      the run, in the order of the ticker list. */
  lemma AllFailedWithinTickers(provider: Provider, tickers: seq<string>)
    ensures IsSubseq(StageOneFailed(BatchOutcomes(provider, Chunked(tickers, BatchSize))), tickers)
  {
    StageOneFailedSubseq(provider, Chunked(tickers, BatchSize));
  }

  lemma {:induction false} StageOneFailedSubseq(provider: Provider, batches: seq<seq<string>>)
    ensures IsSubseq(StageOneFailed(BatchOutcomes(provider, batches)), Flatten(batches))
  {
    if batches != [] {
      var k := |batches| - 1;
      var outs := BatchOutcomes(provider, batches);
      StageOneFailedSubseq(provider, batches[..k]);
      BatchOutcomesPrefix(provider, batches, k);
      RunFailedSubseq(provider, k, batches[k], 1);
      SubseqConcat(StageOneFailed(outs[..k]), Flatten(batches[..k]), outs[k].failed, batches[k]);
      FlattenSnoc(batches[..k], batches[k]);
      assert batches[..k] + [batches[k]] == batches;
    }
  }

  /** The individual stage reports a subsequence of what it was given. */
  lemma {:induction false} StageTwoFailedSubseq(failed: seq<string>, recovered: seq<bool>)
    requires |recovered| == |failed|
    ensures IsSubseq(StageTwoFailed(failed, recovered), failed)
  {
    if failed != [] {
      var j := |failed| - 1;
      StageTwoFailedSubseq(failed[..j], recovered[..j]);
      var prev := StageTwoFailed(failed[..j], recovered[..j]);
      var last: seq<string> := if recovered[j] then [] else [failed[j]];
      SubseqOfSingleton(last, failed[j]);
      SubseqConcat(prev, failed[..j], last, [failed[j]]);
      assert failed[..j] + [failed[j]] == failed;
    }
  }

  /** Every ticker given to the individual stage is either recovered (one
      table written) or reported, never both. */
  lemma {:induction false} StageTwoCount(failed: seq<string>, outs: seq<BatchOutcome>)
    requires |outs| == |failed|
    ensures |StageTwoTables(outs)| + |StageTwoFailed(failed, RecoveryFlags(outs))| == |failed|
  {
    if failed != [] {
      var j := |failed| - 1;
      StageTwoCount(failed[..j], outs[..j]);
      assert RecoveryFlags(outs)[..j] == RecoveryFlags(outs[..j]);
    }
  }

  /** Retry `j` adds exactly one of the two: a recovered ticker appends
      its table and is not reported; any other is reported and appends
      nothing. */
  lemma StageTwoPosition(failed: seq<string>, outs: seq<BatchOutcome>, j: nat)
    requires |outs| == |failed| && j < |failed|
    ensures var tables, reported := StageTwoTables(outs[..j]), StageTwoFailed(failed[..j], RecoveryFlags(outs[..j]));
      var tables', reported' := StageTwoTables(outs[..j + 1]), StageTwoFailed(failed[..j + 1], RecoveryFlags(outs[..j + 1]));
      && (Recovered(outs[j]) ==> tables' == tables + [Written(TableOf(outs[j]))] && reported' == reported)
      && (!Recovered(outs[j]) ==> tables' == tables && reported' == reported + [failed[j]])
  {
    StageTwoTablesStep(outs, j);
    RecoveryFlagsStep(outs, j);
    StageTwoFailedStep(failed, RecoveryFlags(outs[..j + 1]), j);
    assert failed[..j + 1][..j] == failed[..j];
  }

  lemma StageTwoTablesStep(outs: seq<BatchOutcome>, j: nat)
    requires j < |outs|
    ensures StageTwoTables(outs[..j + 1]) ==
              StageTwoTables(outs[..j]) + (if Recovered(outs[j]) then [Written(TableOf(outs[j]))] else [])
  {
    var o := outs[..j + 1];
    assert o[..j] == outs[..j] && o[j] == outs[j];
  }

  lemma RecoveryFlagsStep(outs: seq<BatchOutcome>, j: nat)
    requires j < |outs|
    ensures RecoveryFlags(outs[..j + 1])[..j] == RecoveryFlags(outs[..j])
    ensures RecoveryFlags(outs[..j + 1])[j] == Recovered(outs[j])
  {
    var o := outs[..j + 1];
    assert o[..j] == outs[..j] && o[j] == outs[j];
    assert RecoveryFlags(o) == RecoveryFlags(outs[..j]) + [Recovered(outs[j])];
  }

  lemma StageTwoFailedStep(failed: seq<string>, recovered: seq<bool>, j: nat)
    requires j < |failed| && |recovered| == j + 1
    ensures StageTwoFailed(failed[..j + 1], recovered) ==
              StageTwoFailed(failed[..j], recovered[..j]) + (if recovered[j] then [] else [failed[j]])
  {
    assert failed[..j + 1][..j] == failed[..j];
  }

  /** Every table the batch stage writes has rows: an empty batch writes
      nothing. */
  lemma {:induction false} StageOneTablesNonEmpty(outs: seq<BatchOutcome>)
    ensures forall t :: t in StageOneTables(outs) ==> |t.rows| > 0
  {
    if outs != [] {
      StageOneTablesNonEmpty(outs[..|outs| - 1]);
    }
  }

  /** The whole output of a completed run: one header, the first written
      table's, then exactly the rows of the tables written, batch tables
      first and recovered tickers after, in that order. */
  lemma OutputFileShape(provider: Provider, tickers: seq<string>)
    ensures var batches := Chunked(tickers, BatchSize);
      var outs := BatchOutcomes(provider, batches);
      var ts := StageOneTables(outs) + StageTwoTables(RetryOutcomes(provider, |batches|, StageOneFailed(outs)));
      && (ts == [] ==> Emit(ts) == [])
      && (ts != [] ==> Emit(ts) == [Header(ts[0].columns)] + AllRecords(ts))
      && (forall i :: 0 < i < |Emit(ts)| ==> Emit(ts)[i].Record?)
  {
    var batches := Chunked(tickers, BatchSize);
    var outs := BatchOutcomes(provider, batches);
    var ts := StageOneTables(outs) + StageTwoTables(RetryOutcomes(provider, |batches|, StageOneFailed(outs)));
    EmitShape(ts);
    AllRecordsAreRecords(ts);
  }
}
