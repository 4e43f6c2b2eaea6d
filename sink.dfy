/** The output file, seen as whether it exists and the lines it holds.
    Text formatting is not modelled: a line is either the header (the column
    names) or one record (the row's cells in column order). */
module Sink {
  import opened Seqs
  import opened Tables

  datatype Line = Header(names: seq<string>) | Record(cells: seq<Option<Cell>>)

  /** The record lines for `rows` under the columns `cols`. */
  function Records(rows: seq<Row>, cols: seq<string>): (r: seq<Line>)
    ensures |r| == |rows|
  {
    seq(|rows|, i requires 0 <= i < |rows| => Record(seq(|cols|, j requires 0 <= j < |cols| => Get(rows[i], cols[j]))))
  }

  /** Row `i` becomes one record holding its cells in column order; a
      column the row lacks is written empty. */
  lemma RecordsCells(rows: seq<Row>, cols: seq<string>)
    ensures forall i :: 0 <= i < |rows| ==>
              Records(rows, cols)[i].Record? && |Records(rows, cols)[i].cells| == |cols|
    ensures forall i, j :: 0 <= i < |rows| && 0 <= j < |cols| ==>
              Records(rows, cols)[i].cells[j] == Get(rows[i], cols[j])
  {
  }

  /** The lines a run of appends leaves in a file that did not exist before
      it: the first table writes the header, every table writes its rows. */
  function Emit(ts: seq<Table>): seq<Line>
  {
    if ts == [] then []
    else
      var prev := ts[..|ts| - 1];
      var t := ts[|ts| - 1];
      Emit(prev) + (if prev == [] then [Header(t.columns)] else []) + Records(t.rows, t.columns)
  }

  /** The record lines of all the tables, in order. */
  function AllRecords(ts: seq<Table>): seq<Line>
  {
    if ts == [] then [] else AllRecords(ts[..|ts| - 1]) + Records(ts[|ts| - 1].rows, ts[|ts| - 1].columns)
  }

  /** After appending tables 1..k to a fresh file the file holds one header,
      the first table's, followed by exactly the rows of tables 1..k. */
  lemma {:induction false} EmitShape(ts: seq<Table>)
    ensures ts == [] ==> Emit(ts) == []
    ensures ts != [] ==> Emit(ts) == [Header(ts[0].columns)] + AllRecords(ts)
  {
    if ts != [] {
      var prev := ts[..|ts| - 1];
      var t := ts[|ts| - 1];
      EmitShape(prev);
      if prev != [] {
        assert prev[0] == ts[0];
        assert Emit(ts) == Emit(prev) + [] + Records(t.rows, t.columns);
        AppendAssoc([Header(ts[0].columns)], AllRecords(prev), Records(t.rows, t.columns));
      } else {
        assert AllRecords(ts) == [] + Records(t.rows, t.columns);
      }
    }
  }

  /** A file made of one header and then records has no other header. */
  lemma {:induction false} AllRecordsAreRecords(ts: seq<Table>)
    ensures forall i :: 0 <= i < |AllRecords(ts)| ==> AllRecords(ts)[i].Record?
  {
    if ts != [] {
      AllRecordsAreRecords(ts[..|ts| - 1]);
      RecordsCells(ts[|ts| - 1].rows, ts[|ts| - 1].columns);
    }
  }

  /** Appending one more table to a fresh-file run. */
  lemma EmitSnoc(ts: seq<Table>, t: Table)
    ensures Emit(ts + [t]) == Emit(ts) + (if ts == [] then [Header(t.columns)] else []) + Records(t.rows, t.columns)
  {
    assert (ts + [t])[..|ts|] == ts;
  }

  /** The lines appending `ts` in turn adds to a file that existed
      (`present`) or not: a header only before the first table, and only
      when the file did not exist. */
  function AppendedLines(present: bool, ts: seq<Table>): seq<Line>
  {
    if ts == [] then []
    else
      var prev := ts[..|ts| - 1];
      var t := ts[|ts| - 1];
      AppendedLines(present, prev) + (if !present && prev == [] then [Header(t.columns)] else []) + Records(t.rows, t.columns)
  }

  lemma AppendedLinesSnoc(present: bool, ts: seq<Table>, t: Table)
    ensures AppendedLines(present, ts + [t]) ==
              AppendedLines(present, ts) + (if !present && ts == [] then [Header(t.columns)] else []) + Records(t.rows, t.columns)
  {
    assert (ts + [t])[..|ts|] == ts;
  }

  /** Appending more tables to the file a fresh run left continues the same
      output: `Emit` of all the tables together. */
  lemma {:induction false} AppendedLinesContinue(first: seq<Table>, ts: seq<Table>)
    ensures Emit(first) + AppendedLines(first != [], ts) == Emit(first + ts)
  {
    if ts == [] {
      assert first + ts == first;
    } else {
      var prev := ts[..|ts| - 1];
      var t := ts[|ts| - 1];
      AppendedLinesContinue(first, prev);
      var header: seq<Line> := if first == [] && prev == [] then [Header(t.columns)] else [];
      assert ts == prev + [t];
      assert first + ts == (first + prev) + [t];
      EmitSnoc(first + prev, t);
      AppendedLinesSnoc(first != [], prev, t);
      AppendThree(Emit(first), AppendedLines(first != [], prev), header, Records(t.rows, t.columns));
    }
  }

  class CsvFile {
    var present: bool
    var lines: seq<Line>

    /** A file that does not exist holds nothing. */
    ghost predicate Valid()
      reads this
    {
      !present ==> lines == []
    }

    /** Only the first line can be a header. */
    predicate HeaderOnlyFirst()
      reads this
    {
      forall i :: 0 < i < |lines| ==> lines[i].Record?
    }

    constructor (existed: bool, content: seq<Line>)
      requires !existed ==> content == []
      ensures Valid() && present == existed && lines == content
    {
      present := existed;
      lines := content;
    }

    /** `if os.path.exists(path): os.remove(path)`. */
    method Remove()
      modifies this
      ensures Valid() && !present && lines == []
    {
      present := false;
      lines := [];
    }

    /** `df.to_csv(path, mode="a", index=False, header=not os.path.exists(path))`. */
    method AppendRows(t: Table) returns (header: bool)
      requires Valid()
      modifies this
      ensures Valid() && present
      ensures header == !old(present)
      ensures lines == old(lines) + (if header then [Header(t.columns)] else []) + Records(t.rows, t.columns)
      ensures old(HeaderOnlyFirst()) ==> HeaderOnlyFirst()
    {
      RecordsCells(t.rows, t.columns);
      header := !present;
      lines := lines + (if header then [Header(t.columns)] else []) + Records(t.rows, t.columns);
      present := true;
    }

    /** `df.to_csv(path)`: the file is replaced; the index levels are
        written before the columns. */
    method Overwrite(t: Table)
      modifies this
      ensures Valid() && present
      ensures lines == [Header(t.index + t.columns)] + Records(t.rows, t.index + t.columns)
      ensures HeaderOnlyFirst()
    {
      RecordsCells(t.rows, t.index + t.columns);
      present := true;
      lines := [Header(t.index + t.columns)] + Records(t.rows, t.index + t.columns);
    }
  }
}
