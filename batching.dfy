/** Batch partitioning: the ticker list cut into consecutive slices of a
    fixed size, the last one possibly shorter (`chunked` and the batch count
    printed by `main`). */
module Batching {
  import opened Seqs

  /** `BATCH`: the number of tickers requested together. */
  const BatchSize: nat := 40

  /** `math.ceil(a / n)` for a non-negative `a`. */
  function CeilDiv(a: nat, n: nat): nat
    requires n > 0
  {
    (a + n - 1) / n
  }

  /** `CeilDiv` is the ceiling: the least `k` with `a <= k * n`. */
  lemma CeilDivIsCeiling(a: nat, n: nat)
    requires n > 0
    ensures a <= CeilDiv(a, n) * n
    ensures CeilDiv(a, n) == 0 || (CeilDiv(a, n) - 1) * n < a
  {
    var k := CeilDiv(a, n);
    var r := (a + n - 1) % n;
    assert a + n - 1 == k * n + r && 0 <= r < n;
    if k > 0 {
      assert (k - 1) * n == k * n - n;
    }
  }

  lemma DivUnique(x: int, n: int, q: int, r: int)
    requires n > 0 && 0 <= r < n && x == q * n + r
    ensures x / n == q
  {
    var q', r' := x / n, x % n;
    assert x == q' * n + r' && 0 <= r' < n;
    if q > q' {
      MulAtLeast(q - q', n);
    } else if q < q' {
      MulAtLeast(q' - q, n);
    }
  }

  lemma MulAtLeast(d: int, n: int)
    ensures d >= 1 && n > 0 ==> d * n >= n
  {
    if d >= 1 && n > 0 {
      assert d * n == (d - 1) * n + n;
    }
  }

  lemma CeilDivStep(a: nat, n: nat)
    requires n > 0 && a > n
    ensures CeilDiv(a, n) == CeilDiv(a - n, n) + 1
  {
    var x := a - n + n - 1;
    var q, r := x / n, x % n;
    assert x == q * n + r;
    assert a + n - 1 == (q + 1) * n + r;
    DivUnique(a + n - 1, n, q + 1, r);
  }

  /** The list of slices `lst[i:i+n]` for `i` in `range(0, len(lst), n)`;
      Python clips the last slice at the end of the list. Read back in
      order, the slices give the list again. */
  function Chunked<T>(lst: seq<T>, n: nat): (r: seq<seq<T>>)
    requires n > 0
    ensures Flatten(r) == lst
    decreases |lst|
  {
    if lst == [] then []
    else if |lst| <= n then
      assert [lst][1..] == [] && lst + [] == lst;
      [lst]
    else
      var rest := Chunked(lst[n..], n);
      assert ([lst[..n]] + rest)[1..] == rest;
      assert lst[..n] + lst[n..] == lst;
      [lst[..n]] + rest
  }

  /** There are `ceil(len(lst) / n)` slices; none is empty, none is longer
      than `n`, and all but the last have exactly `n` elements. */
  lemma {:induction false} ChunkedShape<T>(lst: seq<T>, n: nat)
    requires n > 0
    ensures var r := Chunked(lst, n);
      && |r| == CeilDiv(|lst|, n)
      && (forall i :: 0 <= i < |r| ==> 0 < |r[i]| <= n)
      && (forall i :: 0 <= i < |r| - 1 ==> |r[i]| == n)
    decreases |lst|
  {
    if lst == [] {
      DivUnique(n - 1, n, 0, n - 1);
    } else if |lst| <= n {
      DivUnique(|lst| + n - 1, n, 1, |lst| - 1);
    } else {
      var r := Chunked(lst, n);
      var rest := Chunked(lst[n..], n);
      ChunkedShape(lst[n..], n);
      CeilDivStep(|lst|, n);
      assert r == [lst[..n]] + rest;
      assert forall i :: 1 <= i < |r| ==> r[i] == rest[i - 1];
    }
  }
}
