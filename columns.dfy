/** Column normalisation: keep the allow-listed columns the table has, in
    allow-list order, then drop `Adj Close` when it repeats `Close` row for
    row (the same logic closes `append_to_csv` and `download_sp500_ohlcv_csv`,
    each with its own allow-list). */
module Columns {
  import opened Seqs
  import opened Tables

  const AdjClose := "Adj Close"
  const Close := "Close"

  /** The allow-list of `append_to_csv`, where date and ticker are ordinary
      columns. */
  const BatchAllowList: seq<string> := ["Date", "Ticker", "Open", "High", "Low", "Close", "Volume", "Adj Close"]

  /** The allow-list of the bulk script, where date and ticker are the
      index. */
  const BulkAllowList: seq<string> := ["Open", "High", "Low", "Close", "Volume", "Adj Close"]

  /** `[c for c in allow if c in cols]`. */
  function Present(allow: seq<string>, cols: seq<string>): (r: seq<string>)
    ensures IsSubseq(r, allow)
    ensures forall c :: c in r <==> c in allow && c in cols
  {
    if allow == [] then []
    else
      var rest := Present(allow[1..], cols);
      assert forall c :: c in allow <==> c == allow[0] || c in allow[1..];
      if allow[0] in cols then [allow[0]] + rest else rest
  }

  /** `cols` with every occurrence of `x` removed. */
  function Without(cols: seq<string>, x: string): (r: seq<string>)
    ensures forall c :: c in r <==> c in cols && c != x
    ensures IsSubseq(r, cols)
  {
    if cols == [] then []
    else
      var rest := Without(cols[1..], x);
      assert forall c :: c in cols <==> c == cols[0] || c in cols[1..];
      assert ([cols[0]] + rest)[1..] == rest;
      if cols[0] == x then rest else [cols[0]] + rest
  }

  /** The cells of `row` under the given column names, and no others. */
  function Restrict(row: Row, keep: seq<string>): Row
  {
    map c | c in row && c in keep :: row[c]
  }

  /** The table cut down to columns `cols` (the index stays). */
  function Project(t: Table, cols: seq<string>): (r: Table)
    ensures r.index == t.index && r.columns == cols && |r.rows| == |t.rows|
    ensures forall i :: 0 <= i < |t.rows| ==> r.rows[i] == Restrict(t.rows[i], t.index + cols)
  {
    Table(t.index, cols, seq(|t.rows|, i requires 0 <= i < |t.rows| => Restrict(t.rows[i], t.index + cols)))
  }

  /** `df[keep]` with `keep = [c for c in allow if c in df.columns]`. */
  function SelectColumns(t: Table, allow: seq<string>): Table
  {
    Project(t, Present(allow, t.columns))
  }

  /** Column `c` read down the rows; `df[c]` as a list of cells. */
  function ColumnValues(t: Table, c: string): (r: seq<Option<Cell>>)
    ensures |r| == |t.rows| && forall i :: 0 <= i < |t.rows| ==> r[i] == Get(t.rows[i], c)
  {
    seq(|t.rows|, i requires 0 <= i < |t.rows| => Get(t.rows[i], c))
  }

  /** `"Adj Close" in df.columns and "Close" in df.columns and
      df["Adj Close"].equals(df["Close"])`: two NaN cells are equal. */
  predicate AdjCloseRedundant(t: Table)
  {
    AdjClose in t.columns && Close in t.columns && ColumnValues(t, AdjClose) == ColumnValues(t, Close)
  }

  /** The allow-list selection followed by the conditional drop. */
  function NormaliseColumns(t: Table, allow: seq<string>): Table
  {
    var s := SelectColumns(t, allow);
    if AdjCloseRedundant(s) then Project(s, Without(s.columns, AdjClose)) else s
  }

  /** Which columns normalisation keeps: the allow-listed columns the table
      has, in allow-list order, minus `Adj Close` exactly when it repeats
      `Close` row for row; the index is untouched. */
  lemma NormaliseColumnsKeeps(t: Table, allow: seq<string>)
    ensures var r := NormaliseColumns(t, allow);
      && r.index == t.index && IsSubseq(r.columns, allow)
      && (forall c :: c in r.columns <==>
            c in allow && c in t.columns &&
            !(c == AdjClose && Close in allow && Close in t.columns &&
              ColumnValues(t, AdjClose) == ColumnValues(t, Close)))
  {
    var s := SelectColumns(t, allow);
    SelectKeepsColumn(t, allow, AdjClose);
    SelectKeepsColumn(t, allow, Close);
    SubseqTrans(Without(s.columns, AdjClose), s.columns, allow);
  }

  /** What normalisation does to the rows: they keep their number and
      order, their cells under the kept columns and the index, and lose
      every other cell. */
  lemma NormaliseColumnsCells(t: Table, allow: seq<string>)
    ensures var r := NormaliseColumns(t, allow);
      && |r.rows| == |t.rows|
      && (forall i, c :: 0 <= i < |t.rows| && (c in r.index || c in r.columns) ==>
            Get(r.rows[i], c) == Get(t.rows[i], c))
      && (forall i, c :: 0 <= i < |t.rows| && c !in r.index && c !in r.columns ==>
            Get(r.rows[i], c) == None)
  {
    var s := SelectColumns(t, allow);
    var r := NormaliseColumns(t, allow);
    assert r.index == t.index;
    if AdjCloseRedundant(s) {
      var kept := Without(s.columns, AdjClose);
      assert forall c :: c in kept ==> c in s.columns;
      assert forall i :: 0 <= i < |t.rows| ==>
        r.rows[i] == Restrict(Restrict(t.rows[i], t.index + s.columns), t.index + kept);
    }
  }

  /** After normalisation each row is the original row cut down to the
      index and the kept columns. */
  lemma NormaliseColumnsRows(t: Table, allow: seq<string>)
    ensures var r := NormaliseColumns(t, allow);
      && |r.rows| == |t.rows|
      && forall i :: 0 <= i < |t.rows| ==> r.rows[i] == Restrict(t.rows[i], t.index + r.columns)
  {
    var s := SelectColumns(t, allow);
    if AdjCloseRedundant(s) {
      var kept := Without(s.columns, AdjClose);
      forall i | 0 <= i < |t.rows|
        ensures NormaliseColumns(t, allow).rows[i] == Restrict(t.rows[i], t.index + kept)
      {
        RestrictTwice(t.rows[i], t.index + s.columns, t.index + kept);
      }
    }
  }

  /** Cutting a row down twice is cutting it down to the smaller set. */
  lemma RestrictTwice(row: Row, a: seq<string>, b: seq<string>)
    requires forall c :: c in b ==> c in a
    ensures Restrict(Restrict(row, a), b) == Restrict(row, b)
  {
  }

  /** Every row cut down to the same columns. */
  function RestrictAll(rows: seq<Row>, keep: seq<string>): (r: seq<Row>)
    ensures |r| == |rows| && forall i :: 0 <= i < |rows| ==> r[i] == Restrict(rows[i], keep)
  {
    MapSeq(Restricter(keep), rows)
  }

  function Restricter(keep: seq<string>): Row -> Row
  {
    row => Restrict(row, keep)
  }

  /** Cutting down the rows of two orderings of the same rows gives two
      orderings of the same cut-down rows. */
  lemma RestrictAllPerm(a: seq<Row>, b: seq<Row>, keep: seq<string>)
    requires multiset(a) == multiset(b)
    ensures multiset(RestrictAll(a, keep)) == multiset(RestrictAll(b, keep))
  {
    MapSeqPerm(Restricter(keep), a, b);
  }

  /** A column that survives the selection keeps its cells. */
  lemma SelectKeepsColumn(t: Table, allow: seq<string>, c: string)
    ensures c in allow && c in t.columns ==> ColumnValues(SelectColumns(t, allow), c) == ColumnValues(t, c)
  {
  }

  /** Present depends only on which allow-listed names `cols` holds. */
  lemma {:induction false} PresentWithout(allow: seq<string>, a: seq<string>, b: seq<string>, x: string)
    requires forall c :: c in allow ==> (c in a <==> c in b && c != x)
    ensures Present(allow, a) == Without(Present(allow, b), x)
  {
    if allow != [] {
      PresentWithout(allow[1..], a, b, x);
    }
  }

  lemma {:induction false} PresentSame(allow: seq<string>, a: seq<string>, b: seq<string>)
    requires forall c :: c in allow ==> (c in a <==> c in b)
    ensures Present(allow, a) == Present(allow, b)
  {
    if allow != [] {
      PresentSame(allow[1..], a, b);
    }
  }

  lemma ProjectTwice(t: Table, cols: seq<string>)
    ensures Project(Project(t, cols), cols) == Project(t, cols)
  {
    var p := Project(t, cols);
    var pp := Project(p, cols);
    forall i | 0 <= i < |t.rows| ensures pp.rows[i] == p.rows[i] {
      assert Restrict(p.rows[i], t.index + cols) == p.rows[i];
    }
  }

  /** Normalising twice is normalising once. */
  lemma NormaliseIdempotent(t: Table, allow: seq<string>)
    ensures NormaliseColumns(NormaliseColumns(t, allow), allow) == NormaliseColumns(t, allow)
  {
    var s := SelectColumns(t, allow);
    var r1 := NormaliseColumns(t, allow);
    PresentSame(allow, Present(allow, t.columns), t.columns);
    if AdjCloseRedundant(s) {
      var kept := Without(s.columns, AdjClose);
      assert r1 == Project(s, kept);
      PresentWithout(allow, kept, t.columns, AdjClose);
      assert SelectColumns(r1, allow) == Project(r1, kept);
      ProjectTwice(s, kept);
      assert AdjClose !in r1.columns;
    } else {
      assert r1 == s;
      assert SelectColumns(s, allow) == Project(s, s.columns);
      assert s == Project(t, s.columns);
      ProjectTwice(t, s.columns);
    }
  }
}
