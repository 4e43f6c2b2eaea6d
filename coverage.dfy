/** Which tickers the batched script's output covers: with every ticker
    listed once, a ticker is reported as really failed exactly when no table
    appended to the file has a row for it. */
module BatchedCoverage {
  import opened Seqs
  import opened Tables
  import opened Columns
  import opened Retry
  import opened Batching
  import opened BatchedPipeline

  /** Some row carries ticker `t`. */
  predicate HasTicker(rows: seq<Row>, t: string)
  {
    exists k :: 0 <= k < |rows| && Get(rows[k], "Ticker") == Some(Sym(t))
  }

  /** Some table of the list has a row for ticker `t`. */
  predicate AnyMentions(ts: seq<Table>, t: string)
  {
    exists i :: 0 <= i < |ts| && HasTicker(ts[i].rows, t)
  }

  /** The tables written by two stages, one after the other. */
  lemma AnyMentionsConcat(a: seq<Table>, b: seq<Table>, t: string)
    ensures AnyMentions(a + b, t) <==> AnyMentions(a, t) || AnyMentions(b, t)
  {
    if AnyMentions(a + b, t) {
      var i :| 0 <= i < |a + b| && HasTicker((a + b)[i].rows, t);
      if i >= |a| {
        assert (a + b)[i] == b[i - |a|];
      }
    }
    if AnyMentions(a, t) {
      var i :| 0 <= i < |a| && HasTicker(a[i].rows, t);
      assert (a + b)[i] == a[i];
    }
    if AnyMentions(b, t) {
      var i :| 0 <= i < |b| && HasTicker(b[i].rows, t);
      assert (a + b)[|a| + i] == b[i];
    }
  }

  /** A list of one table mentions what that table does. */
  lemma AnyMentionsSingle(tb: Table, t: string)
    ensures AnyMentions([tb], t) <==> HasTicker(tb.rows, t)
  {
    assert [tb][0] == tb;
  }

  /** A frame with at least one bar contributes a row with its ticker. */
  lemma {:induction false} ConcatRowsHasFrame(fs: seq<Tagged>, i: nat)
    requires i < |fs| && |fs[i].frame.bars| > 0
    ensures HasTicker(ConcatRows(fs), fs[i].ticker)
  {
    var head := LongRows(fs[0]);
    if i == 0 {
      assert ConcatRows(fs)[0] == head[0];
    } else {
      assert fs[1..][i - 1] == fs[i];
      ConcatRowsHasFrame(fs[1..], i - 1);
      var k :| 0 <= k < |ConcatRows(fs[1..])| && Get(ConcatRows(fs[1..])[k], "Ticker") == Some(Sym(fs[i].ticker));
      assert ConcatRows(fs)[|head| + k] == ConcatRows(fs[1..])[k];
    }
  }

  /** `pd.concat(out_frames)` has a row for `t` exactly when a frame with at
      least one bar was accepted for `t`. */
  lemma ConcatMentions(fs: seq<Tagged>, t: string)
    ensures HasTicker(Concat(fs).rows, t) <==> exists i :: 0 <= i < |fs| && fs[i].ticker == t && |fs[i].frame.bars| > 0
  {
    if HasTicker(Concat(fs).rows, t) {
      var k :| 0 <= k < |ConcatRows(fs)| && Get(ConcatRows(fs)[k], "Ticker") == Some(Sym(t));
      ConcatRowsTagged(fs, k);
    }
    if exists i :: 0 <= i < |fs| && fs[i].ticker == t && |fs[i].frame.bars| > 0 {
      var i :| 0 <= i < |fs| && fs[i].ticker == t && |fs[i].frame.bars| > 0;
      ConcatRowsHasFrame(fs, i);
    }
  }

  /** `append_to_csv` keeps the `Ticker` column of a batch table, so the
      rows written carry the same tickers; an empty batch table has no row
      at all. */
  lemma WrittenMentions(fs: seq<Tagged>, t: string)
    ensures HasTicker(Written(Concat(fs)).rows, t) <==> HasTicker(Concat(fs).rows, t)
    ensures IsEmpty(Concat(fs)) ==> !HasTicker(Concat(fs).rows, t)
  {
    var c := Concat(fs);
    var w := Written(c);
    NormaliseColumnsKeeps(c, BatchAllowList);
    NormaliseColumnsCells(c, BatchAllowList);
    if fs != [] {
      ConcatColumnsMembers(fs);
      LongColumnsMembers(fs[0].frame);
      assert "Ticker" in c.columns;
      assert BatchAllowList[1] == "Ticker";
      assert "Ticker" in w.columns;
      if HasTicker(w.rows, t) {
        var k :| 0 <= k < |w.rows| && Get(w.rows[k], "Ticker") == Some(Sym(t));
        assert Get(c.rows[k], "Ticker") == Some(Sym(t));
      }
      if HasTicker(c.rows, t) {
        var k :| 0 <= k < |c.rows| && Get(c.rows[k], "Ticker") == Some(Sym(t));
        assert Get(w.rows[k], "Ticker") == Some(Sym(t));
      }
    }
  }

  /** `download_batch` on tickers listed once: its table has a row for a
      requested ticker exactly when that ticker is not reported failed, and
      none for a ticker it was not asked for. */
  lemma OutcomeMentions(provider: Provider, call: nat, batch: seq<string>, t: string)
    requires Distinct(batch)
    ensures var o := DownloadBatchSpec(provider, call, batch);
      && (t in batch ==> (HasTicker(TableOf(o).rows, t) <==> t !in o.failed))
      && (t !in batch ==> !HasTicker(TableOf(o).rows, t))
  {
    var o := DownloadBatchSpec(provider, call, batch);
    RunFramesAccepted(provider, call, batch, 1);
    AcceptedXorFailed(provider, call, batch);
    ConcatMentions(o.frames, t);
    TagsMembers(o.frames, t);
    if t in batch && t !in o.failed {
      assert t in multiset(Tags(o.frames));
      var i :| 0 <= i < |o.frames| && o.frames[i].ticker == t;
      assert o.frames[i] in o.frames;
    }
    if HasTicker(TableOf(o).rows, t) {
      var i :| 0 <= i < |o.frames| && o.frames[i].ticker == t && |o.frames[i].frame.bars| > 0;
      assert o.frames[i] in o.frames;
    }
  }

  /** Over the batch stage, with every ticker listed once: a ticker of the
      batches is collected into `all_failed` exactly when no table the stage
      appends has a row for it, and a ticker outside the batches is
      neither. */
  lemma {:induction false} StageOneCoverage(provider: Provider, batches: seq<seq<string>>, t: string)
    requires Distinct(Flatten(batches))
    ensures var outs := BatchOutcomes(provider, batches);
      && (t in Flatten(batches) ==> (t in StageOneFailed(outs) <==> !AnyMentions(StageOneTables(outs), t)))
      && (t !in Flatten(batches) ==> t !in StageOneFailed(outs) && !AnyMentions(StageOneTables(outs), t))
    decreases |batches|
  {
    if batches != [] {
      var k := |batches| - 1;
      var outs := BatchOutcomes(provider, batches);
      var o := outs[k];
      var before := Flatten(batches[..k]);
      BatchOutcomesPrefix(provider, batches, k);
      assert batches[..k] + [batches[k]] == batches;
      FlattenSnoc(batches[..k], batches[k]);
      DistinctConcat(before, batches[k]);
      StageOneCoverage(provider, batches[..k], t);
      assert outs[..k] + [o] == outs;
      StageOneSnoc(outs[..k], o);
      RunFailedSubseq(provider, k, batches[k], 1);
      SubseqMembers(o.failed, batches[k]);
      OutcomeMentions(provider, k, batches[k], t);
      WrittenMentions(o.frames, t);
      var last := if IsEmpty(TableOf(o)) then [] else [Written(TableOf(o))];
      AnyMentionsConcat(StageOneTables(outs[..k]), last, t);
      if last != [] {
        AnyMentionsSingle(Written(TableOf(o)), t);
      }
    }
  }

  /** The retry `o` was recovered and its table has a row for `t`. */
  ghost predicate Writes(o: BatchOutcome, t: string)
  {
    Recovered(o) && HasTicker(TableOf(o).rows, t)
  }

  /** A ticker retried alone is recovered exactly when the table of its
      retry has a row for it, and that table has no row for any other
      ticker. */
  lemma RetryMentions(provider: Provider, call: nat, u: string, t: string)
    ensures var o := DownloadBatchSpec(provider, call, [u]);
      Writes(o, t) <==> Recovered(o) && t == u
  {
    OutcomeMentions(provider, call, [u], t);
  }

  /** A ticker is reported by the individual stage exactly when one of its
      retries was not recovered. */
  lemma {:induction false} StageTwoFailedMembers(failed: seq<string>, recovered: seq<bool>, t: string)
    requires |recovered| == |failed|
    ensures t in StageTwoFailed(failed, recovered) <==>
              exists j :: 0 <= j < |failed| && failed[j] == t && !recovered[j]
    decreases |failed|
  {
    if failed != [] {
      var n := |failed| - 1;
      StageTwoFailedMembers(failed[..n], recovered[..n], t);
      assert forall j :: 0 <= j < n ==> failed[..n][j] == failed[j] && recovered[..n][j] == recovered[j];
    }
  }

  ghost function WritesOf(t: string): BatchOutcome -> bool
  {
    o => Writes(o, t)
  }

  /** For each retry, whether it was recovered with a row for `t`. */
  ghost function MentionFlags(outs: seq<BatchOutcome>, t: string): (r: seq<bool>)
    ensures |r| == |outs|
  {
    MapSeq(WritesOf(t), outs)
  }

  /** Appending one retry to the individual stage adds a row for `t`
      exactly when that retry was recovered with a row for `t`. */
  lemma TablesMentionStep(outs: seq<BatchOutcome>, t: string)
    requires outs != []
    ensures var n := |outs| - 1;
      AnyMentions(StageTwoTables(outs), t) <==>
        AnyMentions(StageTwoTables(outs[..n]), t) || Writes(outs[n], t)
  {
    var n := |outs| - 1;
    var o := outs[n];
    var last := if Recovered(o) then [Written(TableOf(o))] else [];
    assert StageTwoTables(outs) == StageTwoTables(outs[..n]) + last;
    AnyMentionsConcat(StageTwoTables(outs[..n]), last, t);
    WrittenMentions(o.frames, t);
    if last != [] {
      AnyMentionsSingle(Written(TableOf(o)), t);
    }
  }

  lemma MentionFlagsStep(outs: seq<BatchOutcome>, t: string)
    requires outs != []
    ensures var n := |outs| - 1;
      MentionFlags(outs, t) == MentionFlags(outs[..n], t) + [Writes(outs[n], t)]
  {
    var n := |outs| - 1;
    assert outs[..n] + [outs[n]] == outs;
    MapSeqConcat(WritesOf(t), outs[..n], [outs[n]]);
  }

  /** The individual stage writes a row for `t` exactly when one of its
      retries was recovered with a row for `t`. */
  lemma {:induction false} StageTwoTablesMention(outs: seq<BatchOutcome>, t: string)
    ensures AnyMentions(StageTwoTables(outs), t) <==> true in MentionFlags(outs, t)
  {
    if outs != [] {
      var n := |outs| - 1;
      TablesMentionStep(outs, t);
      MentionFlagsStep(outs, t);
      StageTwoTablesMention(outs[..n], t);
    }
  }

  lemma RetryOutcomeAt(provider: Provider, base: nat, failed: seq<string>, j: nat)
    requires j < |failed|
    ensures RetryOutcomes(provider, base, failed)[j] == DownloadBatchSpec(provider, base + j, [failed[j]])
  {
  }

  /** Retry `j` wrote a row for `t` exactly when it was recovered and `t`
      is the ticker it retried. */
  lemma RetryFlags(provider: Provider, call: nat, u: string, outs: seq<BatchOutcome>, t: string, j: nat)
    requires j < |outs| && outs[j] == DownloadBatchSpec(provider, call, [u])
    ensures MentionFlags(outs, t)[j] <==> RecoveryFlags(outs)[j] && u == t
  {
    RetryMentions(provider, call, u, t);
    RecoveryFlagsAt(outs, j);
    assert MentionFlags(outs, t)[j] == WritesOf(t)(outs[j]);
  }

  /** With every ticker listed once, and `mentions[j]` set exactly when
      retry `j` was recovered and retried `t`: a listed `t` is reported
      exactly when no flag of `mentions` is set. */
  lemma FlagsCoverage(failed: seq<string>, recovered: seq<bool>, mentions: seq<bool>, t: string)
    requires Distinct(failed) && |recovered| == |failed| && |mentions| == |failed|
    requires forall j :: 0 <= j < |failed| ==> (mentions[j] <==> recovered[j] && failed[j] == t)
    ensures var reported := StageTwoFailed(failed, recovered);
      && (t in failed ==> (t in reported <==> !(true in mentions)))
      && (t !in failed ==> t !in reported && !(true in mentions))
  {
    StageTwoFailedMembers(failed, recovered, t);
    if t in failed {
      var i :| 0 <= i < |failed| && failed[i] == t;
      assert forall j :: 0 <= j < |failed| && j != i ==> failed[j] != t;
    }
  }

  /** Every retry wrote a row for `t` exactly when it was recovered and
      retried `t`. */
  lemma RetryFlagsAll(provider: Provider, base: nat, failed: seq<string>, t: string)
    ensures var outs := RetryOutcomes(provider, base, failed);
      forall j :: 0 <= j < |failed| ==>
        (MentionFlags(outs, t)[j] <==> RecoveryFlags(outs)[j] && failed[j] == t)
  {
    var outs := RetryOutcomes(provider, base, failed);
    forall j | 0 <= j < |failed|
      ensures MentionFlags(outs, t)[j] <==> RecoveryFlags(outs)[j] && failed[j] == t
    {
      RetryOutcomeAt(provider, base, failed, j);
      RetryFlags(provider, base + j, failed[j], outs, t, j);
    }
  }

  /** Over the individual stage, with every ticker listed once: a ticker
      given to it is reported exactly when no table the stage appends has a
      row for it, and a ticker not given to it is neither. */
  lemma StageTwoCoverage(provider: Provider, base: nat, failed: seq<string>, t: string)
    requires Distinct(failed)
    ensures var outs := RetryOutcomes(provider, base, failed);
      var reported := StageTwoFailed(failed, RecoveryFlags(outs));
      && (t in failed ==> (t in reported <==> !AnyMentions(StageTwoTables(outs), t)))
      && (t !in failed ==> t !in reported && !AnyMentions(StageTwoTables(outs), t))
  {
    var outs := RetryOutcomes(provider, base, failed);
    StageTwoTablesMention(outs, t);
    RetryFlagsAll(provider, base, failed, t);
    FlagsCoverage(failed, RecoveryFlags(outs), MentionFlags(outs, t), t);
  }

  /** The run as a whole, for a ticker list without repetitions: a ticker
      ends up in `really_failed` exactly when no table appended to the file,
      by either stage, has a row for it. */
  lemma ReportedIffNoRows(provider: Provider, tickers: seq<string>, t: string)
    requires Distinct(tickers) && t in tickers
    ensures var batches := Chunked(tickers, BatchSize);
      var outs := BatchOutcomes(provider, batches);
      var allFailed := StageOneFailed(outs);
      var retries := RetryOutcomes(provider, |batches|, allFailed);
      t in StageTwoFailed(allFailed, RecoveryFlags(retries)) <==>
        !AnyMentions(StageOneTables(outs) + StageTwoTables(retries), t)
  {
    var batches := Chunked(tickers, BatchSize);
    var outs := BatchOutcomes(provider, batches);
    var allFailed := StageOneFailed(outs);
    var retries := RetryOutcomes(provider, |batches|, allFailed);
    StageOneCoverage(provider, batches, t);
    AllFailedWithinTickers(provider, tickers);
    SubseqDistinct(allFailed, tickers);
    StageTwoCoverage(provider, |batches|, allFailed, t);
    AnyMentionsConcat(StageOneTables(outs), StageTwoTables(retries), t);
  }
}
