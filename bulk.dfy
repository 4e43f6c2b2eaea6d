/** The bulk script: resolve the tickers, fetch all of them in one request,
    pick a frame per ticker, stack the frames into one long table indexed by
    (Date, Ticker), sort it, normalise its columns and write it out. */
module BulkPipeline {
  import opened Seqs
  import opened Tables
  import opened Columns
  import opened Sink
  import opened Tickers
  import opened Ordering
  import opened Retry

  /** The single price request of the script, for the whole ticker list. */
  type BulkProvider = seq<string> -> Fetch

  /** How `download_sp500_ohlcv_csv` ends: with an escaping error (no ticker
      list, the request raised, or `pd.concat` had nothing to concatenate),
      or with the table it wrote and returned. */
  datatype BulkOutcome = NoTickers | DownloadRaised | NothingToConcatenate | Saved(table: Table)

  /** The frame ticker `t` gets, `first` being `tickers[0]`: its own slice
      when the response is keyed by ticker and has it, otherwise the whole
      response if it is the first ticker, otherwise none (`continue`). */
  function FrameFor(data: Response, first: string, t: string): Option<PriceFrame>
  {
    if data.multiIndex && t in data.slices then Some(data.slices[t])
    else if t == first then Some(data.whole)
    else None
  }

  /** The `frames` list after the loop has visited `ts`. */
  function Selected(data: Response, first: string, ts: seq<string>): seq<Tagged>
  {
    if ts == [] then []
    else
      var t := ts[|ts| - 1];
      Selected(data, first, ts[..|ts| - 1]) +
        (match FrameFor(data, first, t) case Some(f) => [Tagged(t, f)] case None => [])
  }

  /** The frames the loop collects over the whole ticker list. */
  function Selection(data: Response, tickers: seq<string>): seq<Tagged>
  {
    if tickers == [] then [] else Selected(data, tickers[0], tickers)
  }

  /** The `for t in tickers` loop of `download_sp500_ohlcv_csv`. */
  method SelectFrames(data: Response, tickers: seq<string>) returns (frames: seq<Tagged>)
    ensures frames == Selection(data, tickers)
  {
    frames := [];
    if tickers == [] {
      return;
    }
    var i := 0;
    while i < |tickers|
      invariant 0 <= i <= |tickers|
      invariant frames == Selected(data, tickers[0], tickers[..i])
    {
      var t := tickers[i];
      PrefixSnoc(tickers, i);
      if data.multiIndex && t in data.slices {
        frames := frames + [Tagged(t, data.slices[t])];
      } else if t == tickers[0] {
        frames := frames + [Tagged(t, data.whole)];
      } else {
        assert frames + [] == frames;
      }
      i := i + 1;
    }
    assert tickers[..i] == tickers;
  }

  /** The frames come in ticker-list order, each ticker at most once per
      occurrence in the list. */
  lemma {:induction false} SelectedTagsSubseq(data: Response, first: string, ts: seq<string>)
    ensures IsSubseq(Tags(Selected(data, first, ts)), ts)
  {
    if ts != [] {
      var j := |ts| - 1;
      var t := ts[j];
      var prev := Selected(data, first, ts[..j]);
      var last: seq<Tagged> := match FrameFor(data, first, t) case Some(f) => [Tagged(t, f)] case None => [];
      SelectedTagsSubseq(data, first, ts[..j]);
      TagsConcat(prev, last);
      SubseqOfSingleton(Tags(last), t);
      SubseqConcat(Tags(prev), ts[..j], Tags(last), [t]);
      assert ts[..j] + [t] == ts;
    }
  }

  /** A frame is selected for a ticker exactly when the ticker is in the
      list and the rule above gives it one, and the frame is that one. */
  lemma {:induction false} SelectedFrames(data: Response, first: string, ts: seq<string>)
    ensures forall f :: f in Selected(data, first, ts) ==>
              f.ticker in ts && FrameFor(data, first, f.ticker) == Some(f.frame)
    ensures forall t :: t in ts && FrameFor(data, first, t).Some? ==>
              Tagged(t, FrameFor(data, first, t).value) in Selected(data, first, ts)
  {
    if ts != [] {
      var j := |ts| - 1;
      SelectedFrames(data, first, ts[..j]);
      assert ts == ts[..j] + [ts[j]];
      assert forall t :: t in ts <==> t in ts[..j] || t == ts[j];
    }
  }

  /** `pd.concat(frames)` has something to concatenate exactly when there is
      at least one ticker: the first one always gets a frame. */
  lemma SelectionNonEmptyIff(data: Response, tickers: seq<string>)
    ensures Selection(data, tickers) != [] <==> tickers != []
  {
    if tickers != [] {
      var first := tickers[0];
      SelectedFrames(data, first, tickers);
      assert first in tickers;
    }
  }

  /** When the response is not keyed by ticker and the tickers are distinct,
      the first ticker takes the whole response and every other one is
      skipped. */
  lemma {:induction false} FlatResponseFirstOnly(data: Response, first: string, ts: seq<string>)
    requires !data.multiIndex
    requires forall i :: 0 <= i < |ts| ==> (ts[i] == first <==> i == 0)
    ensures Selected(data, first, ts) == if ts == [] then [] else [Tagged(first, data.whole)]
  {
    if ts != [] {
      var j := |ts| - 1;
      FlatResponseFirstOnly(data, first, ts[..j]);
      if j > 0 {
        assert ts[..j][0] == ts[0];
      }
    }
  }

  /** `df.set_index(["Date", "Ticker"])`: those two columns become the
      index; the rows keep their cells. */
  function SetIndex(t: Table): (r: Table)
    ensures r.index == ["Date", "Ticker"] && r.rows == t.rows
    ensures forall c :: c in r.columns <==> c in t.columns && c != "Date" && c != "Ticker"
  {
    Table(["Date", "Ticker"], Without(Without(t.columns, "Date"), "Ticker"), t.rows)
  }

  /** `.sort_index()`: the rows ordered by (Date, Ticker). */
  function SortIndex(t: Table): Table
  {
    Table(t.index, t.columns, SortRows(t.rows))
  }

  /** The table written for the selected frames. */
  function Reshape(frames: seq<Tagged>): Table
  {
    NormaliseColumns(SortIndex(SetIndex(Concat(frames))), BulkAllowList)
  }

  /** `download_sp500_ohlcv_csv`, as a function of the membership list, the
      scraped list and the provider's answer. */
  function BulkSpec(builtin: Option<seq<string>>, scraped: Option<seq<string>>, provider: BulkProvider): BulkOutcome
  {
    match ResolveTickers(builtin, scraped)
    case SourceUnavailable => NoTickers
    case Resolved(tickers) =>
      match provider(tickers)
      case TransportError => DownloadRaised
      case Received(data) =>
        var frames := Selection(data, tickers);
        if frames == [] then NothingToConcatenate else Saved(Reshape(frames))
  }

  /** `download_sp500_ohlcv_csv`: the file is written only when a table is
      produced, and then replaced by that table with its index. */
  method DownloadOhlcvCsv(builtin: Option<seq<string>>, scraped: Option<seq<string>>, provider: BulkProvider,
                          file: CsvFile)
    returns (outcome: BulkOutcome)
    modifies file
    ensures outcome == BulkSpec(builtin, scraped, provider)
    ensures outcome.Saved? ==>
              var t := outcome.table;
              file.present && file.lines == [Header(t.index + t.columns)] + Records(t.rows, t.index + t.columns)
    ensures !outcome.Saved? ==> file.present == old(file.present) && file.lines == old(file.lines)
  {
    var resolution := ResolveTickers(builtin, scraped);
    if resolution.SourceUnavailable? {
      return NoTickers;
    }
    var tickers := resolution.tickers;
    var fetch := provider(tickers);
    if fetch.TransportError? {
      return DownloadRaised;
    }
    var frames := SelectFrames(fetch.data, tickers);
    if frames == [] {
      return NothingToConcatenate;
    }
    var df := Concat(frames);
    df := SetIndex(df);
    df := SortIndex(df);
    df := NormaliseColumns(df, BulkAllowList);
    file.Overwrite(df);
    outcome := Saved(df);
  }

  /** The script fails on `pd.concat` exactly when the resolved list is
      empty and the request went through. */
  lemma NothingToConcatenateIff(builtin: Option<seq<string>>, scraped: Option<seq<string>>, provider: BulkProvider)
    ensures BulkSpec(builtin, scraped, provider) == NothingToConcatenate <==>
              var r := ResolveTickers(builtin, scraped);
              r.Resolved? && r.tickers == [] && provider(r.tickers).Received?
  {
    var r := ResolveTickers(builtin, scraped);
    if r.Resolved? && provider(r.tickers).Received? {
      SelectionNonEmptyIff(provider(r.tickers).data, r.tickers);
    }
  }

  /** Normalising the columns keeps every row's cells under the index. */
  lemma NormaliseKeepsKeys(s: Table)
    requires "Date" in s.index && "Ticker" in s.index
    ensures var r := NormaliseColumns(s, BulkAllowList);
      && |r.rows| == |s.rows| && r.index == s.index
      && forall k :: 0 <= k < |s.rows| ==>
           Get(r.rows[k], "Date") == Get(s.rows[k], "Date") &&
           Get(r.rows[k], "Ticker") == Get(s.rows[k], "Ticker")
  {
    NormaliseColumnsKeeps(s, BulkAllowList);
    NormaliseColumnsCells(s, BulkAllowList);
  }

  /** The written table is indexed by (Date, Ticker) and its rows are in
      (Date, Ticker) order: dropping columns does not touch the index. */
  lemma ReshapeSorted(frames: seq<Tagged>)
    ensures Reshape(frames).index == ["Date", "Ticker"]
    ensures Sorted(Reshape(frames).rows)
  {
    var c := Concat(frames);
    var s := SortIndex(SetIndex(c));
    SortRowsCorrect(c.rows);
    NormaliseKeepsKeys(s);
    SameKeysSorted(s.rows, Reshape(frames).rows);
  }

  /** Sorting the concatenation keeps each row's origin. */
  lemma SortedRowOrigin(frames: seq<Tagged>, k: nat)
    requires k < |SortRows(ConcatRows(frames))|
    ensures exists i, j :: 0 <= i < |frames| && 0 <= j < |frames[i].frame.bars| &&
              Get(SortRows(ConcatRows(frames))[k], "Ticker") == Some(Sym(frames[i].ticker)) &&
              Get(SortRows(ConcatRows(frames))[k], "Date") == Some(Day(frames[i].frame.bars[j].date))
  {
    var rows := ConcatRows(frames);
    SortRowsCorrect(rows);
    assert SortRows(rows)[k] in multiset(rows);
    var m :| 0 <= m < |rows| && rows[m] == SortRows(rows)[k];
    ConcatRowsTagged(frames, m);
  }

  /** A row of the written table carries the date of a bar of a selected
      frame and the ticker that frame was selected for. */
  lemma ReshapedRowOrigin(frames: seq<Tagged>, k: nat)
    requires k < |Reshape(frames).rows|
    ensures exists i, j :: 0 <= i < |frames| && 0 <= j < |frames[i].frame.bars| &&
              Get(Reshape(frames).rows[k], "Ticker") == Some(Sym(frames[i].ticker)) &&
              Get(Reshape(frames).rows[k], "Date") == Some(Day(frames[i].frame.bars[j].date))
  {
    var s := SortIndex(SetIndex(Concat(frames)));
    var r := Reshape(frames);
    assert s.rows == SortRows(ConcatRows(frames));
    NormaliseKeepsKeys(s);
    SortedRowOrigin(frames, k);
    var i, j :| 0 <= i < |frames| && 0 <= j < |frames[i].frame.bars| &&
      Get(s.rows[k], "Ticker") == Some(Sym(frames[i].ticker)) &&
      Get(s.rows[k], "Date") == Some(Day(frames[i].frame.bars[j].date));
    assert Get(r.rows[k], "Ticker") == Some(Sym(frames[i].ticker));
  }

  /** The written table has one row per bar of the selected frames. */
  lemma ReshapeRowCount(frames: seq<Tagged>)
    ensures |Reshape(frames).rows| == TotalBars(frames)
  {
    SortRowsLength(ConcatRows(frames));
    NormaliseColumnsCells(SortIndex(SetIndex(Concat(frames))), BulkAllowList);
  }

  /** The written table holds exactly the concatenated rows, reordered, each
      cut down to the index and the kept columns. */
  lemma ReshapeKeepsBars(frames: seq<Tagged>)
    ensures var t := Reshape(frames);
      multiset(t.rows) == multiset(RestrictAll(ConcatRows(frames), t.index + t.columns))
  {
    var c := Concat(frames);
    var s := SortIndex(SetIndex(c));
    var t := Reshape(frames);
    NormaliseColumnsRows(s, BulkAllowList);
    NormaliseColumnsKeeps(s, BulkAllowList);
    var keep := t.index + t.columns;
    assert t.rows == RestrictAll(s.rows, keep);
    SortRowsCorrect(c.rows);
    RestrictAllPerm(s.rows, c.rows, keep);
  }

  /** Rows of frames selected for listed tickers are tagged with listed
      tickers. */
  lemma ReshapeTickers(frames: seq<Tagged>, tickers: seq<string>)
    requires forall f :: f in frames ==> f.ticker in tickers
    ensures forall k :: 0 <= k < |Reshape(frames).rows| ==>
              exists n :: 0 <= n < |tickers| && Get(Reshape(frames).rows[k], "Ticker") == Some(Sym(tickers[n]))
  {
    var t := Reshape(frames);
    forall k | 0 <= k < |t.rows|
      ensures exists n :: 0 <= n < |tickers| && Get(t.rows[k], "Ticker") == Some(Sym(tickers[n]))
    {
      ReshapedRowOrigin(frames, k);
      var i, j :| 0 <= i < |frames| && 0 <= j < |frames[i].frame.bars| &&
        Get(t.rows[k], "Ticker") == Some(Sym(frames[i].ticker)) &&
        Get(t.rows[k], "Date") == Some(Day(frames[i].frame.bars[j].date));
      assert frames[i] in frames;
      var n :| 0 <= n < |tickers| && tickers[n] == frames[i].ticker;
    }
  }

  /** What a run that saves writes: the table built from the frames selected
      out of the one response, indexed and ordered by (Date, Ticker), with
      only allow-listed price columns, one row per selected bar holding that
      bar's kept cells, and every row tagged with a resolved ticker. */
  lemma SavedTable(builtin: Option<seq<string>>, scraped: Option<seq<string>>, provider: BulkProvider)
    requires BulkSpec(builtin, scraped, provider).Saved?
    ensures var res := ResolveTickers(builtin, scraped);
      && res.Resolved? && provider(res.tickers).Received?
      && var frames := Selection(provider(res.tickers).data, res.tickers);
      && var t := BulkSpec(builtin, scraped, provider).table;
      && frames != [] && t == Reshape(frames)
      && t.index == ["Date", "Ticker"] && Sorted(t.rows)
      && IsSubseq(t.columns, BulkAllowList)
      && |t.rows| == TotalBars(frames)
      && multiset(t.rows) == multiset(RestrictAll(ConcatRows(frames), t.index + t.columns))
      && forall k :: 0 <= k < |t.rows| ==>
           exists n :: 0 <= n < |res.tickers| && Get(t.rows[k], "Ticker") == Some(Sym(res.tickers[n]))
  {
    var res := ResolveTickers(builtin, scraped);
    var tickers := res.tickers;
    var data := provider(tickers).data;
    var frames := Selection(data, tickers);
    assert BulkSpec(builtin, scraped, provider).table == Reshape(frames);
    ReshapeSorted(frames);
    ReshapeRowCount(frames);
    ReshapeKeepsBars(frames);
    NormaliseColumnsKeeps(SortIndex(SetIndex(Concat(frames))), BulkAllowList);
    SelectedFrames(data, tickers[0], tickers);
    ReshapeTickers(frames, tickers);
  }
}
