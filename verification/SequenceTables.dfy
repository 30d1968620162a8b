/** Variable-length mode: sampled sequence lengths, rounded up and accumulated. */
module SequenceTables {
  import opened Arithmetic
  import opened Ragged

  const CACHELINE_BYTES: nat := 64
  const ALIGNMENT_KV_CACHE: nat := 128

  function RoundUp(a: nat, align: nat): nat
    requires align > 0
  {
    ((a + align - 1) / align) * align
  }

  /** RoundUp gives the one multiple of align in the half-open range [a, a + align). */
  lemma RoundUpSpec(a: nat, align: nat, m: nat)
    requires align > 0
    ensures a <= m < a + align && m % align == 0 <==> m == RoundUp(a, align)
  {
    var n := CeilDiv(a, align);
    CeilDivCounts(a, align);
    CeilDivCases(a, align);
    MulSucc(n - 1, align);
    DivUnique(n * align, align, n, 0);
    if a <= m < a + align && m % align == 0 {
      DivModEquation(m, align);
      if m / align < n {
        MulStrict(m / align, n, align);
      } else if m / align > n {
        MulStrict(n, m / align, align);
      }
    }
  }

  /** A cumulative table, with the total that sizes the buffer and the reported maximum. */
  datatype Table = Table(cumulative: seq<nat>, total: nat, max: nat)

  datatype Sample = Sample(q: nat, kv: nat, cache: nat)

  // The rounded lengths of the first n sequences, one table at a time.
  function Lengths(raw: seq<nat>, align: nat): (lens: seq<nat>)
    requires align > 0
    ensures |lens| == |raw|
  {
    seq(|raw|, i requires 0 <= i < |raw| => RoundUp(raw[i], align))
  }

  function RawQ(samples: seq<Sample>): (r: seq<nat>) ensures |r| == |samples| {
    seq(|samples|, i requires 0 <= i < |samples| => samples[i].q)
  }

  function RawKV(samples: seq<Sample>): (r: seq<nat>) ensures |r| == |samples| {
    seq(|samples|, i requires 0 <= i < |samples| => samples[i].kv)
  }

  // Without a cache every cached length is zero, whatever was sampled.
  function RawCache(samples: seq<Sample>, seqLenKVCache: nat): (r: seq<nat>) ensures |r| == |samples| {
    seq(|samples|, i requires 0 <= i < |samples| => if seqLenKVCache == 0 then 0 else samples[i].cache)
  }

  /** Table t covers the first n of the lengths. */
  ghost predicate Accumulated(t: Table, lens: seq<nat>, n: nat) {
    && PrefixUpTo(t.cumulative, lens, n)
    && t.total == t.cumulative[n]
    && (forall b :: 0 <= b < n ==> lens[b] <= t.max)
    && (t.max == 0 || exists b :: 0 <= b < n && lens[b] == t.max)
  }

  /** Takes one more length into a table, its total and its maximum. */
  method Accumulate(t: Table, ghost lens: seq<nat>, ghost n: nat, len: nat) returns (t': Table)
    requires Accumulated(t, lens, n) && n < |lens| && len == lens[n]
    ensures Accumulated(t', lens, n + 1)
  {
    PrefixStep(t.cumulative, lens, n);
    var last := t.cumulative[|t.cumulative| - 1];
    t' := Table(t.cumulative + [last + len], t.total + len, Max(t.max, len));
    if t'.max == len {
      assert 0 <= n < n + 1 && lens[n] == t'.max;
    } else {
      ghost var b :| 0 <= b < n && lens[b] == t.max;
      assert 0 <= b < n + 1 && lens[b] == t'.max;
    }
  }

  /** Tables that start at zero, whose steps are the samples rounded up to their own alignments (cached
      lengths to 128, or zero without a cache), whose last entries are the totals, and whose maxima are
      the longest steps. */
  ghost predicate FollowSamples(q: Table, kv: Table, cache: Table, samples: seq<Sample>, seqLenKVCache: nat,
                                alignmentQ: nat, alignmentKV: nat)
    requires alignmentQ > 0 && alignmentKV > 0
  {
    && |q.cumulative| == |kv.cumulative| == |cache.cumulative| == |samples| + 1
    && q.cumulative[0] == kv.cumulative[0] == cache.cumulative[0] == 0
    && q.total == q.cumulative[|samples|] && kv.total == kv.cumulative[|samples|]
    && cache.total == cache.cumulative[|samples|]
    && StepsFollow(q.cumulative, kv.cumulative, cache.cumulative, samples, seqLenKVCache, alignmentQ, alignmentKV)
    && LongestStep(q.cumulative, q.max) && LongestStep(kv.cumulative, kv.max)
    && LongestStep(cache.cumulative, cache.max)
  }

  ghost predicate StepsFollow(q: seq<nat>, kv: seq<nat>, cache: seq<nat>, samples: seq<Sample>, seqLenKVCache: nat,
                              alignmentQ: nat, alignmentKV: nat)
    requires alignmentQ > 0 && alignmentKV > 0
  {
    && |q| == |kv| == |cache| == |samples| + 1
    && (forall i {:trigger samples[i]} :: 0 <= i < |samples| ==>
          samples[i].q <= q[i + 1] - q[i] < samples[i].q + alignmentQ && (q[i + 1] - q[i]) % alignmentQ == 0)
    && (forall i {:trigger samples[i]} :: 0 <= i < |samples| ==>
          samples[i].kv <= kv[i + 1] - kv[i] < samples[i].kv + alignmentKV && (kv[i + 1] - kv[i]) % alignmentKV == 0)
    && (forall i {:trigger samples[i]} :: 0 <= i < |samples| ==>
          if seqLenKVCache == 0 then cache[i + 1] == cache[i]
          else samples[i].cache <= cache[i + 1] - cache[i] < samples[i].cache + 128
               && (cache[i + 1] - cache[i]) % 128 == 0)
  }

  /** No step is longer than max, and some step is as long; without steps it is zero. */
  ghost predicate LongestStep(table: seq<nat>, max: nat) {
    && (forall i, j :: 0 <= i < j < |table| && j == i + 1 ==> table[j] - table[i] <= max)
    && (|table| <= 1 ==> max == 0)
    && (|table| > 1 ==> exists i, j :: 0 <= i < j < |table| && j == i + 1 && table[j] == table[i] + max)
  }

  // Step b of a table of rounded lengths.
  lemma RoundedStep(t: Table, raw: seq<nat>, align: nat, b: nat)
    requires align > 0 && Accumulated(t, Lengths(raw, align), |raw|) && b < |raw|
    ensures |t.cumulative| == |raw| + 1
    ensures raw[b] <= t.cumulative[b + 1] - t.cumulative[b] < raw[b] + align
    ensures (t.cumulative[b + 1] - t.cumulative[b]) % align == 0
    ensures raw[b] == 0 ==> t.cumulative[b + 1] == t.cumulative[b]
  {
    TableStep(t, raw, align, b);
    RoundUpSpec(raw[b], align, RoundUp(raw[b], align));
    assert t.cumulative[b + 1] == Cum(Lengths(raw, align), b + 1);
  }

  lemma LongestRounded(t: Table, lens: seq<nat>)
    requires Accumulated(t, lens, |lens|)
    ensures LongestStep(t.cumulative, t.max)
  {
    forall i | 0 <= i < |lens|
      ensures t.cumulative[i + 1] - t.cumulative[i] == lens[i]
    {
      assert t.cumulative[i + 1] == Cum(lens, i + 1);
    }
    if |lens| > 0 {
      var b := if t.max == 0 then 0 else LongestIndex(t, lens);
      assert t.cumulative[b + 1] - t.cumulative[b] == t.max;
    }
  }

  ghost function LongestIndex(t: Table, lens: seq<nat>): (b: nat)
    requires Accumulated(t, lens, |lens|) && t.max > 0
    ensures b < |lens| && lens[b] == t.max
  {
    var b: nat :| b < |lens| && lens[b] == t.max;
    b
  }

  lemma AccumulatedFollow(q: Table, kv: Table, cache: Table, samples: seq<Sample>, seqLenKVCache: nat,
                          alignmentQ: nat, alignmentKV: nat)
    requires alignmentQ > 0 && alignmentKV > 0
    requires Accumulated(q, Lengths(RawQ(samples), alignmentQ), |samples|)
    requires Accumulated(kv, Lengths(RawKV(samples), alignmentKV), |samples|)
    requires Accumulated(cache, Lengths(RawCache(samples, seqLenKVCache), ALIGNMENT_KV_CACHE), |samples|)
    ensures FollowSamples(q, kv, cache, samples, seqLenKVCache, alignmentQ, alignmentKV)
  {
    LongestRounded(q, Lengths(RawQ(samples), alignmentQ));
    LongestRounded(kv, Lengths(RawKV(samples), alignmentKV));
    LongestRounded(cache, Lengths(RawCache(samples, seqLenKVCache), ALIGNMENT_KV_CACHE));
    AccumulatedSteps(q, kv, cache, samples, seqLenKVCache, alignmentQ, alignmentKV);
  }

  lemma AccumulatedSteps(q: Table, kv: Table, cache: Table, samples: seq<Sample>, seqLenKVCache: nat,
                         alignmentQ: nat, alignmentKV: nat)
    requires alignmentQ > 0 && alignmentKV > 0
    requires Accumulated(q, Lengths(RawQ(samples), alignmentQ), |samples|)
    requires Accumulated(kv, Lengths(RawKV(samples), alignmentKV), |samples|)
    requires Accumulated(cache, Lengths(RawCache(samples, seqLenKVCache), ALIGNMENT_KV_CACHE), |samples|)
    ensures StepsFollow(q.cumulative, kv.cumulative, cache.cumulative, samples, seqLenKVCache, alignmentQ, alignmentKV)
  {
    forall i | 0 <= i < |samples|
      ensures samples[i].q <= q.cumulative[i + 1] - q.cumulative[i] < samples[i].q + alignmentQ
      ensures (q.cumulative[i + 1] - q.cumulative[i]) % alignmentQ == 0
    {
      RoundedStep(q, RawQ(samples), alignmentQ, i);
    }
    forall i | 0 <= i < |samples|
      ensures samples[i].kv <= kv.cumulative[i + 1] - kv.cumulative[i] < samples[i].kv + alignmentKV
      ensures (kv.cumulative[i + 1] - kv.cumulative[i]) % alignmentKV == 0
    {
      RoundedStep(kv, RawKV(samples), alignmentKV, i);
    }
    forall i | 0 <= i < |samples|
      ensures if seqLenKVCache == 0 then cache.cumulative[i + 1] == cache.cumulative[i]
              else samples[i].cache <= cache.cumulative[i + 1] - cache.cumulative[i] < samples[i].cache + 128
      ensures (cache.cumulative[i + 1] - cache.cumulative[i]) % 128 == 0
    {
      RoundedStep(cache, RawCache(samples, seqLenKVCache), ALIGNMENT_KV_CACHE, i);
    }
  }

  /** Draws one sample per sequence and accumulates the three tables side by side. */
  method InitializeVarlen(samples: seq<Sample>, seqLenKVCache: nat, alignmentQ: nat, alignmentKV: nat)
    returns (q: Table, kv: Table, cache: Table)
    requires alignmentQ > 0 && alignmentKV > 0
    ensures Accumulated(q, Lengths(RawQ(samples), alignmentQ), |samples|)
    ensures Accumulated(kv, Lengths(RawKV(samples), alignmentKV), |samples|)
    ensures Accumulated(cache, Lengths(RawCache(samples, seqLenKVCache), ALIGNMENT_KV_CACHE), |samples|)
    ensures FollowSamples(q, kv, cache, samples, seqLenKVCache, alignmentQ, alignmentKV)
  {
    ghost var lensQ := Lengths(RawQ(samples), alignmentQ);
    ghost var lensKV := Lengths(RawKV(samples), alignmentKV);
    ghost var lensCache := Lengths(RawCache(samples, seqLenKVCache), ALIGNMENT_KV_CACHE);
    q, kv, cache := Table([0], 0, 0), Table([0], 0, 0), Table([0], 0, 0);
    for i := 0 to |samples|
      invariant Accumulated(q, lensQ, i) && Accumulated(kv, lensKV, i) && Accumulated(cache, lensCache, i)
    {
      var seqlenQ := RoundUp(samples[i].q, alignmentQ);
      var seqlenKV := RoundUp(samples[i].kv, alignmentKV);
      var seqlenCache: nat := if seqLenKVCache == 0 then 0 else RoundUp(samples[i].cache, ALIGNMENT_KV_CACHE);
      q := Accumulate(q, lensQ, i, seqlenQ);
      kv := Accumulate(kv, lensKV, i, seqlenKV);
      cache := Accumulate(cache, lensCache, i, seqlenCache);
    }
    AccumulatedFollow(q, kv, cache, samples, seqLenKVCache, alignmentQ, alignmentKV);
  }

  lemma TableStep(t: Table, raw: seq<nat>, align: nat, b: nat)
    requires align > 0 && Accumulated(t, Lengths(raw, align), |raw|) && b < |raw|
    ensures raw[b] <= t.cumulative[b + 1] - t.cumulative[b] <= t.max
    ensures (t.cumulative[b + 1] - t.cumulative[b]) % align == 0
    ensures raw[b] == 0 ==> t.cumulative[b + 1] == t.cumulative[b]
  {
    assert t.cumulative[b + 1] == Cum(Lengths(raw, align), b + 1);
    assert Lengths(raw, align)[b] <= t.max;
    RoundUpSpec(raw[b], align, RoundUp(raw[b], align));
    DivUnique(0, align, 0, 0);
    RoundUpSpec(raw[b], align, 0);
  }

  /** A table of rounded samples starts at zero, ends at its total, and grows at every step by an
      aligned length no larger than the maximum; it grows exactly where the sample was positive. */
  lemma TableShape(t: Table, raw: seq<nat>, align: nat)
    requires align > 0 && Accumulated(t, Lengths(raw, align), |raw|)
    ensures |t.cumulative| == |raw| + 1 && t.cumulative[0] == 0 && t.cumulative[|raw|] == t.total
    ensures forall b :: 0 <= b < |raw| ==>
              (t.cumulative[b + 1] - t.cumulative[b]) % align == 0
              && 0 <= t.cumulative[b + 1] - t.cumulative[b] <= t.max
    ensures forall b :: 0 <= b < |raw| ==> (raw[b] > 0 <==> t.cumulative[b] < t.cumulative[b + 1])
  {
    forall b | 0 <= b < |raw|
      ensures (t.cumulative[b + 1] - t.cumulative[b]) % align == 0
      ensures 0 <= t.cumulative[b + 1] - t.cumulative[b] <= t.max
      ensures raw[b] > 0 <==> t.cumulative[b] < t.cumulative[b + 1]
    {
      TableStep(t, raw, align, b);
    }
  }

  /** For positive samples the cache table is strictly increasing, or all zero when caching is off. */
  lemma CacheTableAllOrNothing(t: Table, samples: seq<Sample>, seqLenKVCache: nat)
    requires forall i :: 0 <= i < |samples| ==> samples[i].cache > 0
    requires Accumulated(t, Lengths(RawCache(samples, seqLenKVCache), ALIGNMENT_KV_CACHE), |samples|)
    ensures seqLenKVCache == 0 ==> forall b :: 0 <= b <= |samples| ==> t.cumulative[b] == 0
    ensures seqLenKVCache > 0 ==> forall a, b :: 0 <= a < b <= |samples| ==> t.cumulative[a] < t.cumulative[b]
  {
    var raw := RawCache(samples, seqLenKVCache);
    var lens := Lengths(raw, ALIGNMENT_KV_CACHE);
    TableShape(t, raw, ALIGNMENT_KV_CACHE);
    if seqLenKVCache == 0 {
      forall b | 0 <= b <= |samples|
        ensures t.cumulative[b] == 0
      {
        CumOfEqualRuns(lens, 0, b);
      }
    } else {
      forall a, b | 0 <= a < b <= |samples|
        ensures t.cumulative[a] < t.cumulative[b]
      {
        CumMonotone(lens, a + 1, b);
        assert t.cumulative[a] < t.cumulative[a + 1];
      }
    }
  }
}
