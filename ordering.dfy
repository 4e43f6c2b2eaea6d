/** `sort_index()` on the (Date, Ticker) index: rows ordered by date, then
    by ticker symbol compared character by character. */
module Ordering {
  import opened Seqs
  import opened Tables

  /** Lexicographic order on symbols: a proper prefix comes first. */
  predicate StrLe(a: string, b: string)
  {
    a == [] || (b != [] && (a[0] < b[0] || (a[0] == b[0] && StrLe(a[1..], b[1..]))))
  }

  lemma {:induction false} StrLeTotal(a: string, b: string)
    ensures StrLe(a, b) || StrLe(b, a)
  {
    if a != [] && b != [] && a[0] == b[0] {
      StrLeTotal(a[1..], b[1..]);
    }
  }

  lemma {:induction false} StrLeTrans(a: string, b: string, c: string)
    requires StrLe(a, b) && StrLe(b, c)
    ensures StrLe(a, c)
  {
    if a != [] && a[0] == b[0] && b[0] == c[0] {
      StrLeTrans(a[1..], b[1..], c[1..]);
    }
  }

  /** The date of a row; rows of the combined table always have one. */
  function DayOf(row: Row): int
  {
    if "Date" in row && row["Date"].Day? then row["Date"].day else 0
  }

  /** The ticker of a row; rows of the combined table always have one. */
  function SymOf(row: Row): string
  {
    if "Ticker" in row && row["Ticker"].Sym? then row["Ticker"].name else ""
  }

  /** Row `a` may come before row `b`: an earlier date, or the same date and
      a ticker that is not greater. */
  predicate RowLe(a: Row, b: Row)
  {
    DayOf(a) < DayOf(b) || (DayOf(a) == DayOf(b) && StrLe(SymOf(a), SymOf(b)))
  }

  lemma RowLeTotal(a: Row, b: Row)
    ensures RowLe(a, b) || RowLe(b, a)
  {
    StrLeTotal(SymOf(a), SymOf(b));
  }

  lemma RowLeTrans(a: Row, b: Row, c: Row)
    requires RowLe(a, b) && RowLe(b, c)
    ensures RowLe(a, c)
  {
    if DayOf(a) == DayOf(b) == DayOf(c) {
      StrLeTrans(SymOf(a), SymOf(b), SymOf(c));
    }
  }

  predicate Sorted(rows: seq<Row>)
  {
    forall i, j :: 0 <= i < j < |rows| ==> RowLe(rows[i], rows[j])
  }

  /** `row` placed before the first row it may precede. */
  function Insert(row: Row, rows: seq<Row>): seq<Row>
  {
    if rows == [] then [row]
    else if RowLe(row, rows[0]) then [row] + rows
    else [rows[0]] + Insert(row, rows[1..])
  }

  /** The rows sorted by (Date, Ticker), rows with equal keys keeping their
      order. */
  function SortRows(rows: seq<Row>): seq<Row>
  {
    if rows == [] then [] else Insert(rows[0], SortRows(rows[1..]))
  }

  /** `b` may precede every row of `rows`. */
  predicate LeAll(b: Row, rows: seq<Row>)
  {
    forall k :: 0 <= k < |rows| ==> RowLe(b, rows[k])
  }

  /** A row followed by rows is sorted exactly when the rows are and the
      first may precede each of them. */
  lemma SortedCons(head: Row, rows: seq<Row>)
    ensures Sorted([head] + rows) <==> LeAll(head, rows) && Sorted(rows)
  {
    var r := [head] + rows;
    if LeAll(head, rows) && Sorted(rows) {
      forall i, j | 0 <= i < j < |r| ensures RowLe(r[i], r[j]) {
        if i > 0 {
          assert r[i] == rows[i - 1] && r[j] == rows[j - 1];
        }
      }
    }
    if Sorted(r) {
      forall i, j | 0 <= i < j < |rows| ensures RowLe(rows[i], rows[j]) {
        assert rows[i] == r[i + 1] && rows[j] == r[j + 1];
      }
      forall k | 0 <= k < |rows| ensures RowLe(head, rows[k]) {
        assert r[0] == head && rows[k] == r[k + 1];
        assert RowLe(r[0], r[k + 1]);
      }
    }
  }

  /** A lower bound of the rows and of the new row bounds the result. */
  lemma {:induction false} InsertLeAll(b: Row, row: Row, rows: seq<Row>)
    requires LeAll(b, rows) && RowLe(b, row)
    ensures LeAll(b, Insert(row, rows))
  {
    if rows != [] && !RowLe(row, rows[0]) {
      InsertLeAll(b, row, rows[1..]);
      var r := Insert(row, rows);
      assert r == [rows[0]] + Insert(row, rows[1..]);
      forall k | 0 <= k < |r| ensures RowLe(b, r[k]) {
        if k > 0 {
          assert r[k] == Insert(row, rows[1..])[k - 1];
        }
      }
    }
  }

  /** Inserting into sorted rows keeps them sorted. */
  lemma {:induction false} InsertSorted(row: Row, rows: seq<Row>)
    requires Sorted(rows)
    ensures Sorted(Insert(row, rows))
  {
    if rows != [] {
      var head := rows[0];
      SortedCons(head, rows[1..]);
      assert rows == [head] + rows[1..];
      if RowLe(row, head) {
        forall k | 0 <= k < |rows| ensures RowLe(row, rows[k]) {
          if k > 0 {
            RowLeTrans(row, head, rows[k]);
          }
        }
        SortedCons(row, rows);
      } else {
        RowLeTotal(row, head);
        InsertSorted(row, rows[1..]);
        InsertLeAll(head, row, rows[1..]);
        SortedCons(head, Insert(row, rows[1..]));
      }
    }
  }

  /** Inserting adds exactly the one row. */
  lemma {:induction false} InsertCount(row: Row, rows: seq<Row>)
    ensures multiset(Insert(row, rows)) == multiset(rows) + multiset{row}
  {
    if rows != [] {
      assert rows == [rows[0]] + rows[1..];
      if !RowLe(row, rows[0]) {
        InsertCount(row, rows[1..]);
      }
    }
  }

  /** Sorting orders the rows and keeps each of them, as often as it
      occurred. */
  lemma {:induction false} SortRowsCorrect(rows: seq<Row>)
    ensures Sorted(SortRows(rows))
    ensures multiset(SortRows(rows)) == multiset(rows)
  {
    if rows != [] {
      SortRowsCorrect(rows[1..]);
      InsertSorted(rows[0], SortRows(rows[1..]));
      InsertCount(rows[0], SortRows(rows[1..]));
      assert rows == [rows[0]] + rows[1..];
    }
  }

  /** Sorting keeps the number of rows. */
  lemma SortRowsLength(rows: seq<Row>)
    ensures |SortRows(rows)| == |rows|
  {
    SortRowsCorrect(rows);
    assert |multiset(SortRows(rows))| == |multiset(rows)|;
  }

  /** Already sorted rows are left as they are. */
  lemma {:induction false} SortRowsSortedUnchanged(rows: seq<Row>)
    requires Sorted(rows)
    ensures SortRows(rows) == rows
  {
    if rows != [] {
      SortRowsSortedUnchanged(rows[1..]);
      if |rows| > 1 {
        assert RowLe(rows[0], rows[1]);
      }
    }
  }

  /** The order only looks at the Date and Ticker cells: rows that agree
      with sorted rows on those cells are sorted too. */
  lemma SameKeysSorted(s: seq<Row>, r: seq<Row>)
    requires Sorted(s) && |r| == |s|
    requires forall k :: 0 <= k < |s| ==>
               Get(r[k], "Date") == Get(s[k], "Date") && Get(r[k], "Ticker") == Get(s[k], "Ticker")
    ensures Sorted(r)
  {
    forall i, j | 0 <= i < j < |r| ensures RowLe(r[i], r[j]) {
      assert RowLe(s[i], s[j]);
      assert DayOf(r[i]) == DayOf(s[i]) && SymOf(r[i]) == SymOf(s[i]);
      assert DayOf(r[j]) == DayOf(s[j]) && SymOf(r[j]) == SymOf(s[j]);
    }
  }
}
