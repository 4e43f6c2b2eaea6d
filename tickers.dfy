/** The identifier source: the index's constituent symbols, taken from the
    provider's built-in list or, failing that, from the scraped reference
    table, with every class-share separator `.` rewritten to the provider's
    `-` (both scripts carry the same `get_sp500_tickers`). */
module Tickers {
  import opened Seqs

  /** What resolving the ticker list can end in: the list, or the error that
      escapes when the scraped fallback itself raises. */
  datatype Resolution = Resolved(tickers: seq<string>) | SourceUnavailable

  /** `s.replace('.', '-')`. */
  function NormaliseSymbol(s: string): (r: string)
    ensures |r| == |s|
    ensures forall i :: 0 <= i < |s| ==> r[i] == (if s[i] == '.' then '-' else s[i])
    ensures '.' !in r
  {
    if s == [] then [] else [if s[0] == '.' then '-' else s[0]] + NormaliseSymbol(s[1..])
  }

  /** `[t.replace('.', '-') for t in ts]`. */
  function NormaliseAll(ts: seq<string>): (r: seq<string>)
    ensures |r| == |ts|
    ensures forall i :: 0 <= i < |ts| ==> r[i] == NormaliseSymbol(ts[i])
  {
    if ts == [] then [] else [NormaliseSymbol(ts[0])] + NormaliseAll(ts[1..])
  }

  /** `get_sp500_tickers`. `builtin` is the provider's membership list, `None`
      when that call raised; `scraped` is the `Symbol` column of the first
      table of the reference page, `None` when fetching or parsing raised. */
  function ResolveTickers(builtin: Option<seq<string>>, scraped: Option<seq<string>>): (r: Resolution)
    // the built-in list wins whenever it answered with at least one symbol
    ensures builtin.Some? && builtin.value != [] ==> r == Resolved(NormaliseAll(builtin.value))
    // the scraped list is consulted only when the built-in one raised or was empty
    ensures !(builtin.Some? && builtin.value != []) ==>
              (r.Resolved? <==> scraped.Some?) &&
              (scraped.Some? ==> r.tickers == NormaliseAll(scraped.value))
  {
    if builtin.Some? && builtin.value != [] then Resolved(NormaliseAll(builtin.value))
    else if scraped.Some? then Resolved(NormaliseAll(scraped.value))
    else SourceUnavailable
  }

  /** Rewriting is idempotent: an already normalised symbol is left alone. */
  lemma {:induction false} NormaliseSymbolIdempotent(s: string)
    ensures NormaliseSymbol(NormaliseSymbol(s)) == NormaliseSymbol(s)
  {
    var n := NormaliseSymbol(s);
    var nn := NormaliseSymbol(n);
    assert |nn| == |n|;
    forall i | 0 <= i < |n| ensures nn[i] == n[i] {
      assert n[i] != '.';
    }
  }

  /** A symbol without a `.` is its own normal form, and a symbol with one
      is changed. */
  lemma SymbolUnchangedIffNoDot(s: string)
    ensures NormaliseSymbol(s) == s <==> '.' !in s
  {
    var n := NormaliseSymbol(s);
    if '.' in s {
      var i :| 0 <= i < |s| && s[i] == '.';
      assert n[i] == '-';
    } else {
      forall i | 0 <= i < |s| ensures n[i] == s[i] {
        assert s[i] in s;
      }
    }
  }
}
