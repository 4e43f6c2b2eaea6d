/** `download_batch`: one batch fetched with shrinking retries. Each attempt
    re-requests exactly the tickers still failing, accepts a ticker when its
    slice of the response is non-empty, and backs off exponentially between
    attempts, never after the last one. */
module Retry {
  import opened Seqs
  import opened Tables

  /** `MAX_RETRIES`. */
  const MaxRetries: nat := 3

  /** The backoff base in seconds: the `3` of `3 * (2 ** (attempt-1))`. */
  const BackoffBase: nat := 3

  /** One price request: which `download_batch` call of the run issued it
      (so that the provider may answer repeated requests differently), the
      tickers requested, and the attempt number within that call. */
  datatype Request = Request(call: nat, tickers: seq<string>, attempt: nat)

  /** The price provider, an oracle: any answer at all to any request. */
  type Provider = Request -> Fetch

  /** What one attempt did: its number, the tickers it requested, whether
      the request raised, the tickers still failing afterwards, and the
      seconds it slept before the next attempt (0 for none). */
  datatype AttemptLog = AttemptLog(attempt: nat, requested: seq<string>, transportError: bool,
                                   failedAfter: seq<string>, sleep: nat)

  /** Everything a call produces: the accepted frames in the order they
      were accepted, the tickers still failing, and the attempts made. */
  datatype BatchOutcome = BatchOutcome(frames: seq<Tagged>, failed: seq<string>, log: seq<AttemptLog>)

  function Pow2(k: nat): (r: nat)
    ensures r >= 1
  {
    if k == 0 then 1 else 2 * Pow2(k - 1)
  }

  /** `3 * (2 ** (attempt-1))` seconds. */
  function Backoff(attempt: nat): nat
    requires attempt >= 1
  {
    BackoffBase * Pow2(attempt - 1)
  }

  /** The data an attempt works on: the response, or `pd.DataFrame()` when
      the request raised. */
  function DataOf(f: Fetch): Response
  {
    if f.TransportError? then NoData else f.data
  }

  /** `data[t]` when the columns are a MultiIndex (`None`: it raised
      `KeyError`), otherwise `data` itself. */
  function SliceFor(data: Response, t: string): Option<PriceFrame>
  {
    if data.multiIndex then (if t in data.slices then Some(data.slices[t]) else None)
    else Some(data.whole)
  }

  /** A ticker is accepted when its slice exists and is not empty. */
  predicate Accepts(data: Response, t: string)
  {
    SliceFor(data, t).Some? && !FrameEmpty(SliceFor(data, t).value)
  }

  /** The tickers of the frames, in order. */
  function Tags(fs: seq<Tagged>): seq<string>
  {
    if fs == [] then [] else [fs[0].ticker] + Tags(fs[1..])
  }

  /** The frames one pass of `for t in failed` appends to `out_frames`. */
  function AcceptedOf(data: Response, failed: seq<string>): seq<Tagged>
  {
    if failed == [] then []
    else if Accepts(data, failed[0]) then
      [Tagged(failed[0], SliceFor(data, failed[0]).value)] + AcceptedOf(data, failed[1..])
    else AcceptedOf(data, failed[1..])
  }

  /** The `next_failed` list one pass of `for t in failed` builds. */
  function StillFailing(data: Response, failed: seq<string>): seq<string>
  {
    if failed == [] then []
    else if Accepts(data, failed[0]) then StillFailing(data, failed[1..])
    else [failed[0]] + StillFailing(data, failed[1..])
  }

  /** One pass keeps the request order on both sides: the accepted tickers
      and the still-failing ones are subsequences of the request; a ticker
      stays failing exactly when its slice is missing or empty, and each
      accepted frame is the ticker's own slice. */
  lemma {:induction false} AttemptShape(data: Response, failed: seq<string>)
    ensures IsSubseq(StillFailing(data, failed), failed)
    ensures forall t :: t in StillFailing(data, failed) <==> t in failed && !Accepts(data, t)
    ensures IsSubseq(Tags(AcceptedOf(data, failed)), failed)
    ensures forall f :: f in AcceptedOf(data, failed) ==>
              f.ticker in failed && Accepts(data, f.ticker) && f.frame == SliceFor(data, f.ticker).value
  {
    if failed != [] {
      AttemptShape(data, failed[1..]);
      var t := failed[0];
      var acc, rest := AcceptedOf(data, failed[1..]), StillFailing(data, failed[1..]);
      assert forall x :: x in failed <==> x == t || x in failed[1..];
      if Accepts(data, t) {
        assert Tags([Tagged(t, SliceFor(data, t).value)] + acc) == [t] + Tags(acc);
        assert ([t] + Tags(acc))[1..] == Tags(acc);
        SubseqPrepend(rest, [t], failed[1..]);
      } else {
        assert ([t] + rest)[1..] == rest;
        SubseqPrepend(Tags(acc), [t], failed[1..]);
      }
    }
  }

  /** One pass splits the requested tickers: each one is accepted or stays
      failing, never both and never neither. */
  lemma {:induction false} AttemptPartition(data: Response, failed: seq<string>)
    ensures multiset(Tags(AcceptedOf(data, failed))) + multiset(StillFailing(data, failed)) == multiset(failed)
  {
    if failed != [] {
      AttemptPartition(data, failed[1..]);
      assert failed == [failed[0]] + failed[1..];
      var rest := AcceptedOf(data, failed[1..]);
      if Accepts(data, failed[0]) {
        assert Tags([Tagged(failed[0], SliceFor(data, failed[0]).value)] + rest) == [failed[0]] + Tags(rest);
      }
    }
  }

  /** A request that raised fails every ticker it asked for. */
  lemma {:induction false} TransportErrorFailsAll(failed: seq<string>)
    ensures StillFailing(NoData, failed) == failed
    ensures AcceptedOf(NoData, failed) == []
  {
    if failed != [] {
      TransportErrorFailsAll(failed[1..]);
      assert FrameEmpty(NoData.whole);
      assert failed == [failed[0]] + failed[1..];
    }
  }

  /** The retry loop from attempt `attempt` on, with `failed` still to fetch. */
  function Run(provider: Provider, call: nat, failed: seq<string>, attempt: nat): BatchOutcome
    requires attempt >= 1
    decreases MaxRetries + 1 - attempt
  {
    if attempt > MaxRetries || failed == [] then BatchOutcome([], failed, [])
    else
      var fetch := provider(Request(call, failed, attempt));
      var data := DataOf(fetch);
      var next := StillFailing(data, failed);
      var sleep := if next != [] && attempt < MaxRetries then Backoff(attempt) else 0;
      var rest := Run(provider, call, next, attempt + 1);
      BatchOutcome(AcceptedOf(data, failed) + rest.frames, rest.failed,
                   [AttemptLog(attempt, failed, fetch.TransportError?, next, sleep)] + rest.log)
  }

  /** `download_batch(tickers)` as called `call`-th in the run: the
      concatenated accepted frames, the tickers still failing, and the
      attempts made. */
  function DownloadBatchSpec(provider: Provider, call: nat, tickers: seq<string>): BatchOutcome
  {
    Run(provider, call, tickers, 1)
  }

  /** The shape of the attempts: numbered from `attempt`, the first asks for
      everything still failing, the loop goes on only while failures remain
      and stops early only when none remain, and what the last attempt left
      failing is what the call reports. */
  lemma {:induction false} RunAttempts(provider: Provider, call: nat, failed: seq<string>, attempt: nat)
    requires 1 <= attempt <= MaxRetries + 1
    ensures var o := Run(provider, call, failed, attempt);
      && |o.log| <= MaxRetries + 1 - attempt
      && (failed == [] ==> o.log == [] && o.failed == [] && o.frames == [])
      && (failed != [] && attempt <= MaxRetries ==> |o.log| > 0 && o.log[0].requested == failed)
      && (forall i :: 0 <= i < |o.log| ==> o.log[i].attempt == attempt + i)
      && (o.log == [] ==> o.failed == failed)
      && (o.log != [] ==> o.log[|o.log| - 1].failedAfter == o.failed)
      && (|o.log| < MaxRetries + 1 - attempt ==> o.failed == [])
    decreases MaxRetries + 1 - attempt
  {
    if attempt <= MaxRetries && failed != [] {
      var o := Run(provider, call, failed, attempt);
      var next := StillFailing(DataOf(provider(Request(call, failed, attempt))), failed);
      var rest := Run(provider, call, next, attempt + 1);
      RunUnfold(provider, call, failed, attempt);
      RunAttempts(provider, call, next, attempt + 1);
      assert forall i :: 1 <= i < |o.log| ==> o.log[i] == rest.log[i - 1];
    }
  }

  /** Each attempt's answer is the provider's answer to that attempt's
      request, and each later attempt asks for exactly what the previous one
      left failing, which was not nothing. */
  lemma RunAnswers(provider: Provider, call: nat, failed: seq<string>, attempt: nat)
    requires 1 <= attempt
    ensures var o := Run(provider, call, failed, attempt);
      && (forall i :: 0 <= i < |o.log| ==>
            var fetch := provider(Request(call, o.log[i].requested, o.log[i].attempt));
            o.log[i].transportError == fetch.TransportError? &&
            o.log[i].failedAfter == StillFailing(DataOf(fetch), o.log[i].requested))
      && (forall i :: 0 <= i < |o.log| - 1 ==>
            o.log[i].failedAfter != [] && o.log[i + 1].requested == o.log[i].failedAfter)
  {
    RunLogAnswers(provider, call, failed, attempt);
    RunLogChain(provider, call, failed, attempt);
  }

  lemma {:induction false} RunLogAnswers(provider: Provider, call: nat, failed: seq<string>, attempt: nat)
    requires 1 <= attempt
    ensures var o := Run(provider, call, failed, attempt);
      forall i :: 0 <= i < |o.log| ==>
        var fetch := provider(Request(call, o.log[i].requested, o.log[i].attempt));
        o.log[i].transportError == fetch.TransportError? &&
        o.log[i].failedAfter == StillFailing(DataOf(fetch), o.log[i].requested)
    decreases MaxRetries + 1 - attempt
  {
    if attempt <= MaxRetries && failed != [] {
      var o := Run(provider, call, failed, attempt);
      var next := StillFailing(DataOf(provider(Request(call, failed, attempt))), failed);
      var rest := Run(provider, call, next, attempt + 1);
      RunUnfold(provider, call, failed, attempt);
      RunLogAnswers(provider, call, next, attempt + 1);
      assert forall i :: 1 <= i < |o.log| ==> o.log[i] == rest.log[i - 1];
    }
  }

  lemma {:induction false} RunLogChain(provider: Provider, call: nat, failed: seq<string>, attempt: nat)
    requires 1 <= attempt
    ensures var o := Run(provider, call, failed, attempt);
      forall i :: 0 <= i < |o.log| - 1 ==>
        o.log[i].failedAfter != [] && o.log[i + 1].requested == o.log[i].failedAfter
    decreases MaxRetries + 1 - attempt
  {
    if attempt <= MaxRetries && failed != [] {
      var o := Run(provider, call, failed, attempt);
      var next := StillFailing(DataOf(provider(Request(call, failed, attempt))), failed);
      var rest := Run(provider, call, next, attempt + 1);
      RunUnfold(provider, call, failed, attempt);
      RunLogChain(provider, call, next, attempt + 1);
      assert forall i :: 1 <= i < |o.log| ==> o.log[i] == rest.log[i - 1];
      if |o.log| > 1 {
        RunAttemptsNonEmpty(provider, call, next, attempt + 1);
      }
    }
  }

  /** A call that makes an attempt asks for something. */
  lemma RunAttemptsNonEmpty(provider: Provider, call: nat, failed: seq<string>, attempt: nat)
    requires 1 <= attempt && Run(provider, call, failed, attempt).log != []
    ensures failed != [] && Run(provider, call, failed, attempt).log[0].requested == failed
  {
  }

  /** The backoff rule: an attempt sleeps `3 * 2^(attempt-1)` seconds exactly
      when failures remain and it is not the last allowed attempt. */
  lemma {:induction false} RunBackoff(provider: Provider, call: nat, failed: seq<string>, attempt: nat)
    requires 1 <= attempt
    ensures var o := Run(provider, call, failed, attempt);
      forall i :: 0 <= i < |o.log| ==>
        1 <= o.log[i].attempt &&
        o.log[i].sleep == if o.log[i].failedAfter != [] && o.log[i].attempt < MaxRetries
                          then Backoff(o.log[i].attempt) else 0
    decreases MaxRetries + 1 - attempt
  {
    if attempt <= MaxRetries && failed != [] {
      var o := Run(provider, call, failed, attempt);
      var next := StillFailing(DataOf(provider(Request(call, failed, attempt))), failed);
      var rest := Run(provider, call, next, attempt + 1);
      RunUnfold(provider, call, failed, attempt);
      RunBackoff(provider, call, next, attempt + 1);
      assert forall i :: 1 <= i < |o.log| ==> o.log[i] == rest.log[i - 1];
    }
  }

  /** No sleep ever follows the final request of a call. */
  lemma NoSleepAfterLast(provider: Provider, call: nat, tickers: seq<string>)
    ensures var o := DownloadBatchSpec(provider, call, tickers);
      o.log != [] ==> o.log[|o.log| - 1].sleep == 0
  {
    var o := DownloadBatchSpec(provider, call, tickers);
    RunAttempts(provider, call, tickers, 1);
    RunBackoff(provider, call, tickers, 1);
    if o.log != [] {
      var last := o.log[|o.log| - 1];
      assert last.attempt == |o.log|;
      if last.failedAfter != [] {
        assert |o.log| == MaxRetries;
      }
    }
  }

  /** The failure list never grows: what `download_batch` returns as failed
      is a subsequence of what it was asked for. */
  lemma {:induction false} RunFailedSubseq(provider: Provider, call: nat, failed: seq<string>, attempt: nat)
    requires 1 <= attempt
    ensures IsSubseq(Run(provider, call, failed, attempt).failed, failed)
    decreases MaxRetries + 1 - attempt
  {
    if attempt <= MaxRetries && failed != [] {
      var data := DataOf(provider(Request(call, failed, attempt)));
      var next := StillFailing(data, failed);
      RunUnfold(provider, call, failed, attempt);
      RunFailedSubseq(provider, call, next, attempt + 1);
      AttemptShape(data, failed);
      SubseqTrans(Run(provider, call, next, attempt + 1).failed, next, failed);
    } else {
      SubseqRefl(failed);
    }
  }

  /** Each attempt leaves failing a subsequence of what it requested, and
      all of it when the request raised. */
  lemma {:induction false} RunAttemptsShrink(provider: Provider, call: nat, failed: seq<string>, attempt: nat)
    requires 1 <= attempt
    ensures var o := Run(provider, call, failed, attempt);
      && (forall i :: 0 <= i < |o.log| ==> IsSubseq(o.log[i].failedAfter, o.log[i].requested))
      && (forall i :: 0 <= i < |o.log| && o.log[i].transportError ==> o.log[i].failedAfter == o.log[i].requested)
    decreases MaxRetries + 1 - attempt
  {
    if attempt <= MaxRetries && failed != [] {
      var fetch := provider(Request(call, failed, attempt));
      var data := DataOf(fetch);
      var next := StillFailing(data, failed);
      var o := Run(provider, call, failed, attempt);
      var rest := Run(provider, call, next, attempt + 1);
      RunUnfold(provider, call, failed, attempt);
      RunAttemptsShrink(provider, call, next, attempt + 1);
      StillFailingSubseq(data, failed);
      if fetch.TransportError? {
        TransportErrorFailsAll(failed);
      }
      assert forall i :: 1 <= i < |o.log| ==> o.log[i] == rest.log[i - 1];
    }
  }

  /** One pass leaves failing a subsequence of what it was given. */
  lemma {:induction false} StillFailingSubseq(data: Response, failed: seq<string>)
    ensures IsSubseq(StillFailing(data, failed), failed)
  {
    if failed != [] {
      var rest := StillFailing(data, failed[1..]);
      StillFailingSubseq(data, failed[1..]);
      if Accepts(data, failed[0]) {
        SubseqPrepend(rest, [failed[0]], failed[1..]);
      } else {
        assert ([failed[0]] + rest)[1..] == rest;
      }
    }
  }

  /** One step of the retry loop, spelled out. */
  lemma RunUnfold(provider: Provider, call: nat, failed: seq<string>, attempt: nat)
    requires 1 <= attempt <= MaxRetries && failed != []
    ensures var fetch := provider(Request(call, failed, attempt));
      var next := StillFailing(DataOf(fetch), failed);
      var rest := Run(provider, call, next, attempt + 1);
      Run(provider, call, failed, attempt) ==
        BatchOutcome(AcceptedOf(DataOf(fetch), failed) + rest.frames, rest.failed,
                     [AttemptLog(attempt, failed, fetch.TransportError?, next,
                                 if next != [] && attempt < MaxRetries then Backoff(attempt) else 0)] + rest.log)
  {
  }

  /** Every input ticker ends up accepted or failing, never both and never
      neither, counting repetitions. */
  lemma {:induction false} RunPartition(provider: Provider, call: nat, failed: seq<string>, attempt: nat)
    requires 1 <= attempt
    ensures var o := Run(provider, call, failed, attempt);
      multiset(Tags(o.frames)) + multiset(o.failed) == multiset(failed)
    decreases MaxRetries + 1 - attempt
  {
    if attempt <= MaxRetries && failed != [] {
      var data := DataOf(provider(Request(call, failed, attempt)));
      var next := StillFailing(data, failed);
      var acc := AcceptedOf(data, failed);
      var rest := Run(provider, call, next, attempt + 1);
      RunUnfold(provider, call, failed, attempt);
      RunPartition(provider, call, next, attempt + 1);
      AttemptPartition(data, failed);
      TagsConcat(acc, rest.frames);
      SplitSum(multiset(Tags(acc)), multiset(Tags(rest.frames)), multiset(rest.failed), multiset(next), multiset(failed));
    }
  }

  /** Adding up the two stages of a split. */
  lemma SplitSum<T>(a: multiset<T>, b: multiset<T>, c: multiset<T>, d: multiset<T>, e: multiset<T>)
    requires b + c == d && a + d == e
    ensures a + b + c == e
  {
  }

  /** Each accepted frame is a non-empty slice, tagged with a ticker that
      was requested, and it is `data[t]` for the answer of a logged attempt
      that asked for that ticker. */
  lemma RunFramesAccepted(provider: Provider, call: nat, failed: seq<string>, attempt: nat)
    requires 1 <= attempt
    ensures var o := Run(provider, call, failed, attempt);
      forall f :: f in o.frames ==> !FrameEmpty(f.frame) && f.ticker in failed
    ensures var o := Run(provider, call, failed, attempt);
      forall f :: f in o.frames ==>
        exists i :: (0 <= i < |o.log| && f.ticker in o.log[i].requested &&
          SliceFor(DataOf(provider(Request(call, o.log[i].requested, o.log[i].attempt))), f.ticker) == Some(f.frame))
  {
    RunFramesNonEmpty(provider, call, failed, attempt);
    RunFramesSliced(provider, call, failed, attempt);
  }

  lemma {:induction false} RunFramesNonEmpty(provider: Provider, call: nat, failed: seq<string>, attempt: nat)
    requires 1 <= attempt
    ensures var o := Run(provider, call, failed, attempt);
      forall f :: f in o.frames ==> !FrameEmpty(f.frame) && f.ticker in failed
    decreases MaxRetries + 1 - attempt
  {
    if attempt <= MaxRetries && failed != [] {
      var data := DataOf(provider(Request(call, failed, attempt)));
      var next := StillFailing(data, failed);
      var acc := AcceptedOf(data, failed);
      var rest := Run(provider, call, next, attempt + 1);
      RunFramesNonEmpty(provider, call, next, attempt + 1);
      AttemptShape(data, failed);
      assert forall f :: f in acc + rest.frames ==> f in acc || f in rest.frames;
    }
  }

  lemma {:induction false} RunFramesSliced(provider: Provider, call: nat, failed: seq<string>, attempt: nat)
    requires 1 <= attempt
    ensures var o := Run(provider, call, failed, attempt);
      forall f :: f in o.frames ==>
        exists i :: (0 <= i < |o.log| && f.ticker in o.log[i].requested &&
          SliceFor(DataOf(provider(Request(call, o.log[i].requested, o.log[i].attempt))), f.ticker) == Some(f.frame))
    decreases MaxRetries + 1 - attempt
  {
    if attempt <= MaxRetries && failed != [] {
      var o := Run(provider, call, failed, attempt);
      var data := DataOf(provider(Request(call, failed, attempt)));
      var next := StillFailing(data, failed);
      var acc := AcceptedOf(data, failed);
      var rest := Run(provider, call, next, attempt + 1);
      RunUnfold(provider, call, failed, attempt);
      RunFramesSliced(provider, call, next, attempt + 1);
      AttemptShape(data, failed);
      forall f | f in o.frames
        ensures exists i :: (0 <= i < |o.log| && f.ticker in o.log[i].requested &&
          SliceFor(DataOf(provider(Request(call, o.log[i].requested, o.log[i].attempt))), f.ticker) == Some(f.frame))
      {
        assert f in acc || f in rest.frames;
        if f in acc {
          assert o.log[0].requested == failed && o.log[0].attempt == attempt;
        } else {
          var i :| 0 <= i < |rest.log| && f.ticker in rest.log[i].requested &&
            SliceFor(DataOf(provider(Request(call, rest.log[i].requested, rest.log[i].attempt))), f.ticker) == Some(f.frame);
          assert o.log[i + 1] == rest.log[i];
        }
      }
    }
  }

  lemma {:induction false} TagsConcat(a: seq<Tagged>, b: seq<Tagged>)
    ensures Tags(a + b) == Tags(a) + Tags(b)
  {
    if a != [] {
      TagsConcat(a[1..], b);
      assert (a + b)[0] == a[0] && (a + b)[1..] == a[1..] + b;
      calc {
        Tags(a + b);
        [a[0].ticker] + Tags(a[1..] + b);
        [a[0].ticker] + (Tags(a[1..]) + Tags(b));
        ([a[0].ticker] + Tags(a[1..])) + Tags(b);
        Tags(a) + Tags(b);
      }
    } else {
      assert a + b == b;
    }
  }

  /** With distinct tickers (as the identifier source provides), each one
      either has exactly one accepted frame and is not reported failed, or
      has no frame and is reported failed. */
  lemma AcceptedXorFailed(provider: Provider, call: nat, tickers: seq<string>)
    requires Distinct(tickers)
    ensures var o := DownloadBatchSpec(provider, call, tickers);
      forall t :: t in tickers ==>
        (multiset(Tags(o.frames))[t] == 1 && t !in o.failed) ||
        (t !in Tags(o.frames) && t in o.failed)
  {
    var o := DownloadBatchSpec(provider, call, tickers);
    RunPartition(provider, call, tickers, 1);
    forall t | t in tickers
      ensures (multiset(Tags(o.frames))[t] == 1 && t !in o.failed) || (t !in Tags(o.frames) && t in o.failed)
    {
      DistinctCount(tickers, t);
      assert multiset(Tags(o.frames))[t] + multiset(o.failed)[t] == 1;
    }
  }

  lemma {:induction false} DistinctCount(s: seq<string>, t: string)
    requires Distinct(s) && t in s
    ensures multiset(s)[t] == 1
  {
    if s[0] == t {
      assert t !in s[1..];
    } else {
      DistinctCount(s[1..], t);
    }
    assert s == [s[0]] + s[1..];
  }

  /** A request for one ticker is recovered (`not df.empty and not rem`)
      exactly when that ticker was accepted on some attempt. */
  lemma SingleTickerRecovery(provider: Provider, call: nat, t: string)
    ensures var o := DownloadBatchSpec(provider, call, [t]);
      (!IsEmpty(Concat(o.frames)) && o.failed == []) <==> (o.failed == [] && |o.frames| == 1 && o.frames[0].ticker == t)
  {
    var o := DownloadBatchSpec(provider, call, [t]);
    var fs := o.frames;
    if o.failed == [] {
      RunPartition(provider, call, [t], 1);
      RunFramesAccepted(provider, call, [t], 1);
      assert multiset(Tags(fs)) == multiset([t]);
      TagsLength(fs);
      assert |fs| == 1;
      assert Tags(fs) == [fs[0].ticker];
      assert fs[0].ticker == t by {
        assert fs[0].ticker in multiset([t]);
      }
      assert fs[0] in fs;
      assert TotalBars(fs) > 0;
      ConcatEmptyIff(fs);
    }
  }

  lemma {:induction false} TagsLength(fs: seq<Tagged>)
    ensures |Tags(fs)| == |fs|
  {
    if fs != [] {
      TagsLength(fs[1..]);
    }
  }

  /** A ticker is among the tags exactly when some frame carries it. */
  lemma {:induction false} TagsMembers(fs: seq<Tagged>, t: string)
    ensures t in Tags(fs) <==> exists i :: 0 <= i < |fs| && fs[i].ticker == t
  {
    if fs != [] {
      TagsMembers(fs[1..], t);
      assert Tags(fs) == [fs[0].ticker] + Tags(fs[1..]);
      if exists i :: 0 <= i < |fs| && fs[i].ticker == t {
        var i :| 0 <= i < |fs| && fs[i].ticker == t;
        if i > 0 {
          assert fs[1..][i - 1] == fs[i];
        }
      }
    }
  }

  /** `download_batch`: the outer loop over attempts, with the inner pass
      over the still-failing tickers done by `ExtractAttempt`. The ghost
      `outcome` names the run the results are taken from. */
  method DownloadBatch(provider: Provider, call: nat, tickers: seq<string>)
    returns (df: Table, failed: seq<string>, log: seq<AttemptLog>, ghost outcome: BatchOutcome)
    ensures outcome == DownloadBatchSpec(provider, call, tickers)
    ensures var o := DownloadBatchSpec(provider, call, tickers);
      df == Concat(o.frames) && failed == o.failed && log == o.log
  {
    outcome := Run(provider, call, tickers, 1);
    ghost var o := outcome;
    failed := tickers;
    var outFrames: seq<Tagged> := [];
    log := [];
    var attempt := 1;
    while attempt <= MaxRetries
      invariant 1 <= attempt <= MaxRetries + 1
      invariant outFrames + Run(provider, call, failed, attempt).frames == o.frames
      invariant Run(provider, call, failed, attempt).failed == o.failed
      invariant log + Run(provider, call, failed, attempt).log == o.log
    {
      if failed == [] {
        break;
      }
      var fetch := provider(Request(call, failed, attempt));
      var data := DataOf(fetch);
      RunUnfold(provider, call, failed, attempt);
      var accepted, nextFailed := ExtractAttempt(data, failed);
      ghost var rest := Run(provider, call, nextFailed, attempt + 1);
      assert outFrames + (accepted + rest.frames) == (outFrames + accepted) + rest.frames;
      outFrames := outFrames + accepted;
      var requested := failed;
      failed := nextFailed;
      var sleep := 0;
      if failed != [] && attempt < MaxRetries {
        sleep := Backoff(attempt);
      }
      var entry := AttemptLog(attempt, requested, fetch.TransportError?, failed, sleep);
      assert log + ([entry] + rest.log) == (log + [entry]) + rest.log;
      log := log + [entry];
      attempt := attempt + 1;
    }
    assert Run(provider, call, failed, attempt) == BatchOutcome([], failed, []);
    assert outFrames + [] == outFrames;
    df := Concat(outFrames);
  }

  /** The `for t in failed` pass of one attempt. */
  method ExtractAttempt(data: Response, failed: seq<string>) returns (accepted: seq<Tagged>, nextFailed: seq<string>)
    ensures accepted == AcceptedOf(data, failed) && nextFailed == StillFailing(data, failed)
  {
    accepted, nextFailed := [], [];
    var i := 0;
    while i < |failed|
      invariant 0 <= i <= |failed|
      invariant accepted + AcceptedOf(data, failed[i..]) == AcceptedOf(data, failed)
      invariant nextFailed + StillFailing(data, failed[i..]) == StillFailing(data, failed)
    {
      var t := failed[i];
      AttemptStep(data, failed, i);
      var slice := SliceFor(data, t);
      if slice.None? || FrameEmpty(slice.value) {
        AppendAssoc(nextFailed, [t], StillFailing(data, failed[i + 1..]));
        nextFailed := nextFailed + [t];
      } else {
        AppendAssoc(accepted, [Tagged(t, slice.value)], AcceptedOf(data, failed[i + 1..]));
        accepted := accepted + [Tagged(t, slice.value)];
      }
      i := i + 1;
    }
  }

  /** The pass over `failed[i..]` is ticker `i` followed by the pass over
      the rest. */
  lemma AttemptStep(data: Response, failed: seq<string>, i: nat)
    requires i < |failed|
    ensures var t := failed[i];
      && AcceptedOf(data, failed[i..]) ==
           (if Accepts(data, t) then [Tagged(t, SliceFor(data, t).value)] else []) + AcceptedOf(data, failed[i + 1..])
      && StillFailing(data, failed[i..]) ==
           (if Accepts(data, t) then [] else [t]) + StillFailing(data, failed[i + 1..])
  {
    assert failed[i..][1..] == failed[i + 1..];
  }
}
