/** The data the pipeline moves around: the provider's per-ticker price
    frames, its response to one request, and the flat long-format table
    (one row per date and ticker) built from the accepted frames. */
module Tables {
  import opened Seqs

  /** A table cell. Dates are day numbers, tickers are symbols; prices and
      volumes are opaque values that are only ever compared for equality. */
  datatype Cell = Day(day: int) | Sym(name: string) | Value(v: int)

  /** One row, keyed by column name; a column the row lacks holds NaN. */
  type Row = map<string, Cell>

  /** A data frame: the names of its index levels (written out only when
      the index is), its columns in order, and its rows. */
  datatype Table = Table(index: seq<string>, columns: seq<string>, rows: seq<Row>)

  /** The cell of `row` under column `c`; `None` stands for NaN. */
  function Get(row: Row, c: string): Option<Cell>
  {
    if c in row then Some(row[c]) else None
  }

  /** `DataFrame.empty`: true when either axis has length zero. */
  predicate IsEmpty(t: Table)
  {
    |t.rows| == 0 || |t.columns| == 0
  }

  /** One daily bar of a provider frame: its date (the frame's index) and
      its price fields. */
  datatype Bar = Bar(date: int, cells: map<string, Cell>)

  /** The price history of one ticker as the provider returns it. */
  datatype PriceFrame = PriceFrame(columns: seq<string>, bars: seq<Bar>)

  predicate FrameEmpty(f: PriceFrame)
  {
    |f.bars| == 0 || |f.columns| == 0
  }

  /** What one price request returned: whether the columns are a MultiIndex
      with the ticker as level 0, the whole frame as returned, and the
      sub-frame `data[t]` for every level-0 key `t`. */
  datatype Response = Response(multiIndex: bool, whole: PriceFrame, slices: map<string, PriceFrame>)

  /** The outcome of one call to the provider. */
  datatype Fetch = TransportError | Received(data: Response)

  /** `pd.DataFrame()`: no MultiIndex, no columns, no rows. */
  const NoData := Response(false, PriceFrame([], []), map[])

  /** A frame accepted for a ticker, remembered with that ticker's name. */
  datatype Tagged = Tagged(ticker: string, frame: PriceFrame)

  /** Columns of `df_t` after `df_t["Ticker"] = t` and `reset_index()`: the
      date index becomes the first column, `Ticker` is added at the end
      unless the frame already had it. */
  function LongColumns(f: PriceFrame): (r: seq<string>)
    ensures |r| > 0 && r[0] == "Date"
  {
    ["Date"] + (if "Ticker" in f.columns then f.columns else f.columns + ["Ticker"])
  }

  /** The long frame has a `Ticker` column and keeps every column of the
      frame. */
  lemma LongColumnsMembers(f: PriceFrame)
    ensures "Ticker" in LongColumns(f)
    ensures forall c :: c in f.columns ==> c in LongColumns(f)
  {
    if "Ticker" !in f.columns {
      assert LongColumns(f)[|LongColumns(f)| - 1] == "Ticker";
    }
  }

  /** One bar as a row of the long table, tagged with ticker `t`. */
  function LongRow(t: string, b: Bar): Row
  {
    b.cells["Ticker" := Sym(t)]["Date" := Day(b.date)]
  }

  /** The rows of one accepted frame: one per bar, in bar order, each
      carrying its bar's date, the ticker the frame was accepted for, and
      every other cell of its bar. */
  function LongRows(tg: Tagged): (r: seq<Row>)
    ensures |r| == |tg.frame.bars|
    ensures forall i :: 0 <= i < |r| ==>
              Get(r[i], "Date") == Some(Day(tg.frame.bars[i].date)) &&
              Get(r[i], "Ticker") == Some(Sym(tg.ticker))
    ensures forall i, c :: 0 <= i < |r| && c != "Date" && c != "Ticker" ==>
              Get(r[i], c) == Get(tg.frame.bars[i].cells, c)
  {
    BarRows(tg.ticker, tg.frame.bars)
  }

  function BarRows(t: string, bars: seq<Bar>): (r: seq<Row>)
    ensures |r| == |bars|
    ensures forall i :: 0 <= i < |r| ==>
              Get(r[i], "Date") == Some(Day(bars[i].date)) && Get(r[i], "Ticker") == Some(Sym(t))
    ensures forall i, c :: 0 <= i < |r| && c != "Date" && c != "Ticker" ==>
              Get(r[i], c) == Get(bars[i].cells, c)
  {
    if bars == [] then [] else [LongRow(t, bars[0])] + BarRows(t, bars[1..])
  }

  /** The columns of `a` followed by those of `b` not seen before: the
      column union `pd.concat` builds. */
  function MergeColumns(a: seq<string>, b: seq<string>): (r: seq<string>)
    ensures |a| <= |r| && r[..|a|] == a
    decreases |b|
  {
    if b == [] then a
    else MergeColumns(if b[0] in a then a else a + [b[0]], b[1..])
  }

  /** The merge holds exactly the columns of either side. */
  lemma {:induction false} MergeColumnsMembers(a: seq<string>, b: seq<string>)
    ensures forall c :: c in MergeColumns(a, b) <==> c in a || c in b
    decreases |b|
  {
    if b != [] {
      var a' := if b[0] in a then a else a + [b[0]];
      MergeColumnsMembers(a', b[1..]);
      assert forall c :: c in b <==> c == b[0] || c in b[1..];
    }
  }

  /** Columns of `pd.concat(frames)`: the first frame's columns, then each
      later frame's columns not seen before. */
  function ConcatColumns(fs: seq<Tagged>): (r: seq<string>)
    ensures fs != [] ==> |r| > 0 && r[0] == "Date"
  {
    if fs == [] then [] else MergeColumns(LongColumns(fs[0].frame), ConcatColumns(fs[1..]))
  }

  /** A column of the concatenation is a column of one of the long frames,
      and every column of every long frame is one. */
  lemma {:induction false} ConcatColumnsMembers(fs: seq<Tagged>)
    ensures forall c :: c in ConcatColumns(fs) <==> exists i :: 0 <= i < |fs| && c in LongColumns(fs[i].frame)
  {
    if fs != [] {
      ConcatColumnsMembers(fs[1..]);
      MergeColumnsMembers(LongColumns(fs[0].frame), ConcatColumns(fs[1..]));
      assert forall i :: 0 <= i < |fs| - 1 ==> fs[1..][i] == fs[i + 1];
    }
  }

  /** Rows of `pd.concat(frames, ignore_index=True)`: each frame's rows in
      turn. */
  function ConcatRows(fs: seq<Tagged>): (r: seq<Row>)
    ensures |r| == TotalBars(fs)
  {
    if fs == [] then [] else LongRows(fs[0]) + ConcatRows(fs[1..])
  }

  function TotalBars(fs: seq<Tagged>): nat
  {
    if fs == [] then 0 else |fs[0].frame.bars| + TotalBars(fs[1..])
  }

  /** `pd.concat(frames, ignore_index=True) if frames else pd.DataFrame()`. */
  function Concat(fs: seq<Tagged>): Table
  {
    if fs == [] then Table([], [], []) else Table([], ConcatColumns(fs), ConcatRows(fs))
  }

  /** The concatenation is empty exactly when no frame contributed a row. */
  lemma {:induction false} ConcatEmptyIff(fs: seq<Tagged>)
    ensures IsEmpty(Concat(fs)) <==> TotalBars(fs) == 0
  {
    if fs != [] {
      assert ConcatColumns(fs)[0] == "Date";
    }
  }

  /** Every row of the concatenation comes from a bar of one of the frames:
      it carries that bar's date and that frame's ticker. */
  lemma {:induction false} ConcatRowsTagged(fs: seq<Tagged>, k: nat)
    requires k < |ConcatRows(fs)|
    ensures exists i, j :: 0 <= i < |fs| && 0 <= j < |fs[i].frame.bars| &&
              Get(ConcatRows(fs)[k], "Ticker") == Some(Sym(fs[i].ticker)) &&
              Get(ConcatRows(fs)[k], "Date") == Some(Day(fs[i].frame.bars[j].date))
  {
    var head := LongRows(fs[0]);
    if k < |head| {
      assert ConcatRows(fs)[k] == head[k];
      assert Get(ConcatRows(fs)[k], "Date") == Some(Day(fs[0].frame.bars[k].date));
    } else {
      ConcatRowsTagged(fs[1..], k - |head|);
      var i, j :| 0 <= i < |fs[1..]| && 0 <= j < |fs[1..][i].frame.bars| &&
        Get(ConcatRows(fs[1..])[k - |head|], "Ticker") == Some(Sym(fs[1..][i].ticker)) &&
        Get(ConcatRows(fs[1..])[k - |head|], "Date") == Some(Day(fs[1..][i].frame.bars[j].date));
      assert fs[1..][i] == fs[i + 1];
      assert ConcatRows(fs)[k] == ConcatRows(fs[1..])[k - |head|];
    }
  }
}
