/** The runtime counters of both benchmarks. */
module Timing {
  import opened ExtendedReals
  import opened Reals

  /** The minimum of the samples, starting from the largest double. */
  function Best(top: real, xs: seq<real>): real {
    if |xs| == 0 then top
    else
      var b := Best(top, xs[..|xs| - 1]);
      if xs[|xs| - 1] < b then xs[|xs| - 1] else b
  }

  /** The maximum of the samples, starting from the lowest double. */
  function Worst(top: real, xs: seq<real>): real {
    if |xs| == 0 then -top
    else
      var w := Worst(top, xs[..|xs| - 1]);
      if w < xs[|xs| - 1] then xs[|xs| - 1] else w
  }

  /** Runtimes are positive, and no double exceeds the largest one. */
  ghost predicate Runtimes(top: real, xs: seq<real>) {
    top > 0.0 && forall i :: 0 <= i < |xs| ==> 0.0 < xs[i] <= top
  }

  /** Best and worst are samples, and bound them all. */
  lemma {:induction false} ExtremesAreSamples(top: real, xs: seq<real>) returns (i: nat, j: nat)
    requires Runtimes(top, xs) && |xs| > 0
    ensures i < |xs| && xs[i] == Best(top, xs) && j < |xs| && xs[j] == Worst(top, xs)
    ensures forall k :: 0 <= k < |xs| ==> Best(top, xs) <= xs[k] <= Worst(top, xs)
  {
    var n := |xs| - 1;
    if n == 0 {
      i, j := 0, 0;
    } else {
      i, j := ExtremesAreSamples(top, xs[..n]);
      forall k | 0 <= k < n
        ensures Best(top, xs[..n]) <= xs[k] <= Worst(top, xs[..n])
      {
        assert xs[..n][k] == xs[k];
      }
      if xs[n] < Best(top, xs[..n]) { i := n; }
      if Worst(top, xs[..n]) < xs[n] { j := n; }
    }
  }

  predicate AllWithin(xs: seq<real>, lo: real, hi: real) {
    forall k :: 0 <= k < |xs| ==> lo <= xs[k] <= hi
  }

  // n copies of x, added up.
  function Times(n: nat, x: real): real {
    if n == 0 then 0.0 else Times(n - 1, x) + x
  }

  lemma {:induction false} TimesIsProduct(n: nat, x: real)
    ensures Times(n, x) == n as real * x
  {
    if n > 0 {
      TimesIsProduct(n - 1, x);
      OneLess(n as real, x);
    }
  }

  lemma OneLess(n: real, x: real)
    ensures n * x == (n - 1.0) * x + x
  {
  }

  lemma {:induction false} SumWithin(xs: seq<real>, lo: real, hi: real)
    requires AllWithin(xs, lo, hi)
    ensures Times(|xs|, lo) <= Sum(xs) <= Times(|xs|, hi)
  {
    if |xs| > 0 {
      SumWithin(xs[..|xs| - 1], lo, hi);
    }
  }

  lemma {:induction false} SumWithout(xs: seq<real>, k: nat)
    requires k < |xs|
    ensures Sum(xs) == xs[k] + Sum(xs[..k] + xs[k + 1..])
  {
    var n := |xs| - 1;
    var rest := xs[..k] + xs[k + 1..];
    if k == n {
      assert rest == xs[..n];
    } else {
      SumWithout(xs[..n], k);
      assert rest[..n - 1] == xs[..n][..k] + xs[..n][k + 1..];
    }
  }

  /** One sample is the best, one is the worst, and the rest lie between. */
  lemma SumBounds(top: real, xs: seq<real>)
    requires Runtimes(top, xs) && |xs| > 0
    ensures Worst(top, xs) + Times(|xs| - 1, Best(top, xs)) <= Sum(xs)
    ensures Sum(xs) <= Best(top, xs) + Times(|xs| - 1, Worst(top, xs))
  {
    var i, j := ExtremesAreSamples(top, xs);
    SumAround(xs, i, Best(top, xs), Worst(top, xs));
    SumAround(xs, j, Best(top, xs), Worst(top, xs));
  }

  lemma SumAround(xs: seq<real>, i: nat, lo: real, hi: real)
    requires i < |xs| && AllWithin(xs, lo, hi)
    ensures xs[i] + Times(|xs| - 1, lo) <= Sum(xs) <= xs[i] + Times(|xs| - 1, hi)
  {
    var rest := xs[..i] + xs[i + 1..];
    SumWithout(xs, i);
    forall k | 0 <= k < |rest|
      ensures lo <= rest[k] <= hi
    {
      assert rest[k] == if k < i then xs[k] else xs[k + 1];
    }
    SumWithin(rest, lo, hi);
  }

  predicate Between(e: Ext, lo: real, hi: real) {
    e.Fin? && lo <= e.v <= hi
  }

  /** The mean that drops the best and the worst sample: divides by the iteration count less two. */
  function TrimmedMean(top: real, xs: seq<real>): Ext {
    Div(Fin(Sum(xs) - Best(top, xs) - Worst(top, xs)), Fin((|xs| - 2) as real))
  }

  function Mean(xs: seq<real>): Ext {
    Div(Fin(Sum(xs)), Fin(|xs| as real))
  }

  lemma QuotientBetween(x: real, n: real, lo: real, hi: real)
    requires n > 0.0 && n * lo <= x <= n * hi
    ensures lo <= x / n <= hi
  {
    assert (x / n) * n == x;
  }

  /** A total between n times lo and n times hi has its n-th part between lo and hi. */
  lemma PartBetween(x: real, n: nat, lo: real, hi: real)
    requires n > 0 && Times(n, lo) <= x <= Times(n, hi)
    ensures lo <= x / n as real <= hi
  {
    TimesIsProduct(n, lo);
    TimesIsProduct(n, hi);
    QuotientBetween(x, n as real, lo, hi);
  }

  lemma ManySamples(top: real, xs: seq<real>)
    requires Runtimes(top, xs) && |xs| >= 3
    ensures Between(TrimmedMean(top, xs), Best(top, xs), Worst(top, xs))
  {
    var n, lo, hi := |xs| - 2, Best(top, xs), Worst(top, xs);
    SumBounds(top, xs);
    PartBetween(Sum(xs) - lo - hi, n, lo, hi);
  }

  lemma TwoSamples(top: real, xs: seq<real>)
    requires Runtimes(top, xs) && |xs| == 2
    ensures TrimmedMean(top, xs) == NaN
  {
    SumBounds(top, xs);
    assert Times(1, Best(top, xs)) == Best(top, xs) && Times(1, Worst(top, xs)) == Worst(top, xs);
  }

  lemma OneSample(top: real, xs: seq<real>)
    requires Runtimes(top, xs) && |xs| == 1
    ensures Best(top, xs) == Worst(top, xs) == xs[0] && TrimmedMean(top, xs) == Fin(xs[0])
  {
    assert xs[..0] == [];
    assert Sum(xs) == Best(top, xs) == Worst(top, xs) == xs[0];
    assert (|xs| - 2) as real == -1.0;
    assert (-xs[0]) / (-1.0) == xs[0];
  }

  /** The trimmed mean lies between the best and the worst runtime exactly for one sample and for
      three or more. With two samples it is 0/0, and with none there is nothing to report. */
  lemma TrimmedMeanBetween(top: real, xs: seq<real>)
    requires Runtimes(top, xs)
    ensures Between(TrimmedMean(top, xs), Best(top, xs), Worst(top, xs)) <==> |xs| == 1 || |xs| >= 3
  {
    if |xs| >= 3 {
      ManySamples(top, xs);
    } else if |xs| == 2 {
      TwoSamples(top, xs);
    } else if |xs| == 1 {
      OneSample(top, xs);
    }
  }

  /** The plain mean lies between them for any number of samples but none. */
  lemma MeanBetween(top: real, xs: seq<real>)
    requires Runtimes(top, xs)
    ensures Between(Mean(xs), Best(top, xs), Worst(top, xs)) <==> |xs| >= 1
  {
    if |xs| > 0 {
      var lo, hi := Best(top, xs), Worst(top, xs);
      var i, j := ExtremesAreSamples(top, xs);
      SumWithin(xs, lo, hi);
      PartBetween(Sum(xs), |xs|, lo, hi);
    }
  }

  /** A rate computed from the best runtime is at least the rate computed from an average that lies
      above it. */
  lemma BestRateIsHighest(work: real, best: real, avg: Ext, worst: real)
    requires work >= 0.0 && best > 0.0 && Between(avg, best, worst)
    ensures Div(Fin(work), avg).Fin? && Div(Fin(work), Fin(best)).Fin?
    ensures Div(Fin(work), avg).v <= Div(Fin(work), Fin(best)).v
  {
    RateFalls(work, best, avg.v);
  }

  lemma RateFalls(work: real, a: real, b: real)
    requires work >= 0.0 && 0.0 < a <= b
    ensures work / b <= work / a
  {
    var x, y := work / b, work / a;
    assert x * b == work == y * a && x >= 0.0;
    assert x * a <= x * b;
    assert (y - x) * a >= 0.0;
  }

  /** The counters that a run leaves behind. */
  datatype Report = Report(avgRuntimeMs: Ext, avgTflops: Ext, avgThroughput: Ext, bestTflop: Ext, bestBandwidth: Ext)

  function ReportFor(avg: Ext, best: real, gflop: real, megaBytes: real): Report {
    Report(avg, Div(Fin(gflop), avg), Div(Fin(megaBytes), avg),
           Div(Fin(gflop), Fin(best)), Div(Fin(megaBytes), Fin(best)))
  }

  lemma RateTimesRuntime(work: real, runtime: real)
    requires runtime > 0.0
    ensures Div(Fin(work), Fin(runtime)).Fin? && Div(Fin(work), Fin(runtime)).v * runtime == work
  {
  }

  /** n times the average, and the two samples left out, make up the sum. */
  predicate TrimsTo(avg: Ext, n: int, out: real, out': real, sum: real) {
    avg.Fin? && avg.v * n as real + out + out' == sum
  }

  /** The trimmed mean puts back together with the two dropped samples, and the plain mean by itself, into
      the sum of all samples. */
  lemma MeansGiveSum(top: real, xs: seq<real>)
    requires Runtimes(top, xs) && |xs| > 0
    ensures TrimsTo(Mean(xs), |xs|, 0.0, 0.0, Sum(xs))
    ensures |xs| != 2 ==> TrimsTo(TrimmedMean(top, xs), |xs| - 2, Best(top, xs), Worst(top, xs), Sum(xs))
  {
    QuotientTimes(Sum(xs), |xs| as real);
    if |xs| != 2 {
      QuotientTimes(Sum(xs) - Best(top, xs) - Worst(top, xs), (|xs| - 2) as real);
    }
  }

  lemma QuotientTimes(x: real, n: real)
    requires n != 0.0
    ensures (x / n) * n == x
  {
  }

  /** What the rates of a report mean: times its runtime, each gives back its own work. */
  predicate RatesFit(r: Report, best: real, gflop: real, megaBytes: real) {
    && r.avgRuntimeMs.Fin? && r.avgTflops.Fin? && r.avgThroughput.Fin? && r.bestTflop.Fin? && r.bestBandwidth.Fin?
    && r.avgTflops.v * r.avgRuntimeMs.v == gflop && r.avgThroughput.v * r.avgRuntimeMs.v == megaBytes
    && r.bestTflop.v * best == gflop && r.bestBandwidth.v * best == megaBytes
  }

  lemma ReportFits(avg: real, best: real, gflop: real, megaBytes: real)
    requires avg > 0.0 && best > 0.0
    ensures RatesFit(ReportFor(Fin(avg), best, gflop, megaBytes), best, gflop, megaBytes)
  {
    RateTimesRuntime(gflop, avg);
    RateTimesRuntime(megaBytes, avg);
    RateTimesRuntime(gflop, best);
    RateTimesRuntime(megaBytes, best);
  }

  /** An average between the extremes, rates that fit their works, and best rates at least the average ones. */
  predicate Sound(r: Report, best: real, worst: real, gflop: real, megaBytes: real) {
    && Between(r.avgRuntimeMs, best, worst) && RatesFit(r, best, gflop, megaBytes)
    && (gflop >= 0.0 ==> r.avgTflops.v <= r.bestTflop.v)
    && (megaBytes >= 0.0 ==> r.avgThroughput.v <= r.bestBandwidth.v)
  }

  lemma ReportSound(avg: Ext, best: real, worst: real, gflop: real, megaBytes: real)
    requires best > 0.0 && Between(avg, best, worst)
    ensures Sound(ReportFor(avg, best, gflop, megaBytes), best, worst, gflop, megaBytes)
  {
    ReportFits(avg.v, best, gflop, megaBytes);
    if gflop >= 0.0 {
      BestRateIsHighest(gflop, best, avg, worst);
    }
    if megaBytes >= 0.0 {
      BestRateIsHighest(megaBytes, best, avg, worst);
    }
  }

  lemma TrimmedReportSound(top: real, xs: seq<real>, gflop: real, megaBytes: real)
    requires Runtimes(top, xs) && (|xs| == 1 || |xs| >= 3)
    ensures Sound(ReportFor(TrimmedMean(top, xs), Best(top, xs), gflop, megaBytes),
                  Best(top, xs), Worst(top, xs), gflop, megaBytes)
  {
    TrimmedMeanBetween(top, xs);
    var i, j := ExtremesAreSamples(top, xs);
    ReportSound(TrimmedMean(top, xs), Best(top, xs), Worst(top, xs), gflop, megaBytes);
  }

  lemma MeanReportSound(top: real, xs: seq<real>, gflop: real, megaBytes: real)
    requires Runtimes(top, xs) && |xs| >= 1
    ensures Sound(ReportFor(Mean(xs), Best(top, xs), gflop, megaBytes),
                  Best(top, xs), Worst(top, xs), gflop, megaBytes)
  {
    MeanBetween(top, xs);
    var i, j := ExtremesAreSamples(top, xs);
    ReportSound(Mean(xs), Best(top, xs), Worst(top, xs), gflop, megaBytes);
  }

  /** The matrix-product benchmark's counters. The ghost field remembers every sample. */
  class GemmCounters {
    const top: real
    var totalRuntimeMs: real
    var bestRuntimeMs: real
    var worstRuntimeMs: real
    ghost var samples: seq<real>

    ghost predicate Valid()
      reads this
    {
      && totalRuntimeMs == Sum(samples)
      && bestRuntimeMs == Best(top, samples)
      && worstRuntimeMs == Worst(top, samples)
    }

    constructor (top: real)
      ensures Valid() && samples == [] && this.top == top
    {
      this.top := top;
      totalRuntimeMs, bestRuntimeMs, worstRuntimeMs := 0.0, top, -top;
      samples := [];
    }

    method Update(msElapsed: real)
      requires Valid()
      modifies this
      ensures Valid() && samples == old(samples) + [msElapsed]
    {
      totalRuntimeMs := totalRuntimeMs + msElapsed;
      bestRuntimeMs := if msElapsed < bestRuntimeMs then msElapsed else bestRuntimeMs;
      worstRuntimeMs := if worstRuntimeMs < msElapsed then msElapsed else worstRuntimeMs;
      assert (samples + [msElapsed])[..|samples|] == samples;
      samples := samples + [msElapsed];
    }

    /** After any run of one positive runtime or at least three, the average with the best and the worst
        runtime makes up the total, it lies between them, each rate times its runtime is its work, and both
        best rates are at least the average ones. */
    method Finalize(iterations: nat, gflop: real, megaBytes: real) returns (r: Report)
      requires Valid() && iterations == |samples|
      ensures r == ReportFor(TrimmedMean(top, samples), Best(top, samples), gflop, megaBytes)
      ensures Runtimes(top, samples) && (|samples| == 1 || |samples| >= 3) ==>
        Sound(r, Best(top, samples), Worst(top, samples), gflop, megaBytes)
        && TrimsTo(r.avgRuntimeMs, |samples| - 2, Best(top, samples), Worst(top, samples), Sum(samples))
    {
      var avg := Div(Fin(totalRuntimeMs - bestRuntimeMs - worstRuntimeMs), Fin((iterations - 2) as real));
      r := ReportFor(avg, bestRuntimeMs, gflop, megaBytes);
      if Runtimes(top, samples) && (|samples| == 1 || |samples| >= 3) {
        TrimmedReportSound(top, samples, gflop, megaBytes);
        MeansGiveSum(top, samples);
      }
    }
  }

  /** The attention benchmark's counters: no worst runtime, and no trimming. */
  class FmhaCounters {
    const top: real
    var totalRuntimeMs: real
    var bestRuntimeMs: real
    ghost var samples: seq<real>

    ghost predicate Valid()
      reads this
    {
      totalRuntimeMs == Sum(samples) && bestRuntimeMs == Best(top, samples)
    }

    constructor (top: real)
      ensures Valid() && samples == [] && this.top == top
    {
      this.top := top;
      totalRuntimeMs, bestRuntimeMs := 0.0, top;
      samples := [];
    }

    method Update(msElapsed: real)
      requires Valid()
      modifies this
      ensures Valid() && samples == old(samples) + [msElapsed]
    {
      totalRuntimeMs := totalRuntimeMs + msElapsed;
      bestRuntimeMs := if msElapsed < bestRuntimeMs then msElapsed else bestRuntimeMs;
      assert (samples + [msElapsed])[..|samples|] == samples;
      samples := samples + [msElapsed];
    }

    method Finalize(iterations: nat, gflop: real, megaBytes: real) returns (r: Report)
      requires Valid() && iterations == |samples|
      ensures r == ReportFor(Mean(samples), Best(top, samples), gflop, megaBytes)
      ensures Runtimes(top, samples) && |samples| >= 1 ==>
        Sound(r, Best(top, samples), Worst(top, samples), gflop, megaBytes)
        && TrimsTo(r.avgRuntimeMs, |samples|, 0.0, 0.0, Sum(samples))
    {
      var avg := Div(Fin(totalRuntimeMs), Fin(iterations as real));
      r := ReportFor(avg, bestRuntimeMs, gflop, megaBytes);
      if Runtimes(top, samples) && |samples| >= 1 {
        MeanReportSound(top, samples, gflop, megaBytes);
        MeansGiveSum(top, samples);
      }
    }
  }
}
