/** Setting up a launch: sequence lengths, buffer sizes, page table. */
module LaunchSetup {
  import opened Arithmetic
  import opened ExtendedReals
  import opened GroupedAttention
  import opened HeadLayout
  import opened HostCheck
  import opened PageTable
  import opened Ragged
  import opened SequenceTables

  datatype Options = Options(shape: LaunchShape, pageSize: nat)

  /** The shape that a launch will have: rounded samples in variable-length mode, the options otherwise. */
  function PlannedShape(o: LaunchShape, isVarLen: bool, samples: seq<Sample>, alignmentQ: nat, alignmentKV: nat): Shape
    requires alignmentQ > 0 && alignmentKV > 0
  {
    if isVarLen then
      Shape(o.numHeadsQ, o.numHeadsKV, o.headSizeQK, o.headSizeVO,
            Lengths(RawQ(samples), alignmentQ), Lengths(RawKV(samples), alignmentKV),
            Lengths(RawCache(samples, o.seqLenKVCache), ALIGNMENT_KV_CACHE))
    else
      Shape(o.numHeadsQ, o.numHeadsKV, o.headSizeQK, o.headSizeVO, seq(o.batch, _ => o.seqLenQO),
            seq(o.batch, _ => o.seqLenKV), seq(o.batch, _ => o.seqLenKVCache))
  }

  /** What is planned, length by length: every sample rounded up to its own alignment, or the options. */
  lemma PlannedLengths(o: LaunchShape, isVarLen: bool, samples: seq<Sample>, alignmentQ: nat, alignmentKV: nat, b: nat)
    requires alignmentQ > 0 && alignmentKV > 0 && b < if isVarLen then |samples| else o.batch
    ensures var p := PlannedShape(o, isVarLen, samples, alignmentQ, alignmentKV);
            && |p.qo| == |p.kv| == |p.cache| == (if isVarLen then |samples| else o.batch)
            && (!isVarLen ==> p.qo[b] == o.seqLenQO && p.kv[b] == o.seqLenKV && p.cache[b] == o.seqLenKVCache)
            && (isVarLen ==> samples[b].q <= p.qo[b] < samples[b].q + alignmentQ && p.qo[b] % alignmentQ == 0)
            && (isVarLen ==> samples[b].kv <= p.kv[b] < samples[b].kv + alignmentKV && p.kv[b] % alignmentKV == 0)
            && (isVarLen && o.seqLenKVCache == 0 ==> p.cache[b] == 0)
            && (isVarLen && o.seqLenKVCache > 0 ==>
                  samples[b].cache <= p.cache[b] < samples[b].cache + 128 && p.cache[b] % 128 == 0)
  {
    if isVarLen {
      RoundUpSpec(samples[b].q, alignmentQ, RoundUp(samples[b].q, alignmentQ));
      RoundUpSpec(samples[b].kv, alignmentKV, RoundUp(samples[b].kv, alignmentKV));
      RoundUpSpec(samples[b].cache, 128, RoundUp(samples[b].cache, 128));
      RoundUpSpec(0, 128, 0);
    }
  }

  /** The launch shape and its tables, length by length: in variable-length mode the table steps follow the
      samples and the shape holds the longest steps, otherwise the shape is the options. */
  ghost predicate LengthsSet(o: LaunchShape, s: LaunchShape, t: LaunchTables, samples: seq<Sample>,
                             alignmentQ: nat, alignmentKV: nat)
    requires alignmentQ > 0 && alignmentKV > 0
  {
    if t.isVarLen then
      && StepsFollow(t.q, t.kv, t.kvCache, samples, o.seqLenKVCache, alignmentQ, alignmentKV)
      && t.q[0] == t.kv[0] == t.kvCache[0] == 0
      && LongestStep(t.q, s.seqLenQO) && LongestStep(t.kv, s.seqLenKV) && LongestStep(t.kvCache, s.seqLenKVCache)
    else s == o
  }

  /** Positive samples always give every sequence a key to attend to. */
  lemma PositiveSamplesPlanValid(o: LaunchShape, samples: seq<Sample>, alignmentQ: nat, alignmentKV: nat)
    requires alignmentQ > 0 && alignmentKV > 0
    requires o.numHeadsQ > 0 && o.numHeadsKV > 0 && o.numHeadsQ % o.numHeadsKV == 0
    requires forall i :: 0 <= i < |samples| ==> samples[i].kv > 0
    ensures PlannedShape(o, true, samples, alignmentQ, alignmentKV).Valid()
  {
    forall b | 0 <= b < |samples|
      ensures Lengths(RawKV(samples), alignmentKV)[b] > 0
    {
      RoundUpSpec(samples[b].kv, alignmentKV, RoundUp(samples[b].kv, alignmentKV));
    }
  }

  /** The product that sizes a buffer, in the order the source multiplies it. */
  lemma BufferSize(lens: seq<nat>, heads: nat, width: nat, batch: nat, len: nat)
    requires batch * len == Cum(lens, |lens|)
    ensures batch * heads * len * width == BatchStart(lens, heads, width, |lens|)
  {
    var n := Cum(lens, |lens|);
    assert batch * heads * len == heads * n by {
      MulCommutes(batch, heads);
      assert heads * batch * len == heads * (batch * len);
    }
    MulCommutes(heads * n, width);
  }

  method Allocate(heads: nat, width: nat, batch: nat, len: nat, ghost lens: seq<nat>) returns (a: array<real>)
    requires batch * len == Cum(lens, |lens|)
    ensures fresh(a) && a.Length == BatchStart(lens, heads, width, |lens|)
  {
    BufferSize(lens, heads, width, batch, len);
    a := new real[batch * heads * len * width];
  }

  method AllocateOutput(heads: nat, width: nat, batch: nat, len: nat, ghost lens: seq<nat>) returns (a: array<Ext>)
    requires batch * len == Cum(lens, |lens|)
    ensures fresh(a) && a.Length == BatchStart(lens, heads, width, |lens|)
  {
    BufferSize(lens, heads, width, batch, len);
    a := new Ext[batch * heads * len * width];
  }

  /** A cumulative table gives back the lengths it was accumulated from. */
  lemma TableGivesLengths(t: LaunchTables, cumulative: seq<nat>, lens: seq<nat>, fixedLen: nat)
    requires t.isVarLen && PrefixUpTo(cumulative, lens, |lens|)
    ensures LaunchTables.TableFor(cumulative, |lens|)
    ensures t.SeqLens(cumulative, fixedLen, |lens|) == lens
  {
    forall b | 0 <= b < |lens|
      ensures cumulative[b + 1] == cumulative[b] + lens[b]
    {
      assert cumulative[b + 1] == Cum(lens, b + 1);
    }
  }

  /** The sequence count and lengths that size the buffers: one sequence of the total length in
      variable-length mode. */
  datatype Sizes = Sizes(batch: nat, q: nat, kv: nat, kvCache: nat)
  {
    ghost predicate Match(plan: Shape) {
      && batch * q == Cum(plan.qo, |plan.qo|)
      && batch * kv == Cum(plan.kv, |plan.kv|)
      && batch * kvCache == Cum(plan.cache, |plan.cache|)
    }
  }

  /** Sets the lengths: the tables are rebuilt in variable-length mode and left alone otherwise. */
  method SetLengths(o: LaunchShape, samples: seq<Sample>, alignmentQ: nat, alignmentKV: nat, prior: LaunchTables)
    returns (s: LaunchShape, t: LaunchTables, sizes: Sizes)
    requires alignmentQ > 0 && alignmentKV > 0 && (prior.isVarLen ==> |samples| == o.batch)
    ensures s.batch == o.batch && s.numHeadsQ == o.numHeadsQ && s.numHeadsKV == o.numHeadsKV
    ensures s.headSizeQK == o.headSizeQK && s.headSizeVO == o.headSizeVO && (!prior.isVarLen ==> s == o && t == prior)
    ensures t == prior.(q := t.q, kv := t.kv, kvCache := t.kvCache) && t.Cover(s.batch)
    ensures t.ShapeOf(s) == PlannedShape(o, prior.isVarLen, samples, alignmentQ, alignmentKV)
    ensures LengthsSet(o, s, t, samples, alignmentQ, alignmentKV)
    ensures sizes.Match(t.ShapeOf(s))
  {
    s, t := o, prior;
    ghost var plan := PlannedShape(o, prior.isVarLen, samples, alignmentQ, alignmentKV);
    if prior.isVarLen {
      var q, kv, cache := InitializeVarlen(samples, o.seqLenKVCache, alignmentQ, alignmentKV);
      t := prior.(q := q.cumulative, kv := kv.cumulative, kvCache := cache.cumulative);
      s := o.(seqLenQO := q.max, seqLenKV := kv.max, seqLenKVCache := cache.max);
      sizes := Sizes(1, q.total, kv.total, cache.total);
      TableGivesLengths(t, t.q, plan.qo, s.seqLenQO);
      TableGivesLengths(t, t.kv, plan.kv, s.seqLenKV);
      TableGivesLengths(t, t.kvCache, plan.cache, s.seqLenKVCache);
    } else {
      sizes := Sizes(o.batch, o.seqLenQO, o.seqLenKV, o.seqLenKVCache);
      CumOfEqualRuns(plan.qo, o.seqLenQO, o.batch);
      CumOfEqualRuns(plan.kv, o.seqLenKV, o.batch);
      CumOfEqualRuns(plan.cache, o.seqLenKVCache, o.batch);
      assert t.ShapeOf(s) == plan;
    }
  }

  /** Page tables whose slices are these shuffles of every sequence's pages. */
  ghost predicate FilledFrom(t: LaunchTables, s: LaunchShape, orders: seq<seq<nat>>)
    requires t.Cover(s.batch) && t.pageSize > 0
  {
    && |orders| == s.batch
    && AreShuffles(orders, PagesOf(t.ShapeOf(s).cache, t.pageSize))
    && IsPrefixTable(t.numPagesPerSeq, PagesOf(t.ShapeOf(s).cache, t.pageSize))
    && forall b :: 0 <= b < s.batch ==> SliceIs(t.pageTable, t.numPagesPerSeq, b, orders[b])
  }

  lemma PagesKeepShape(t: LaunchTables, t': LaunchTables, s: LaunchShape)
    requires t.Cover(s.batch)
    requires t'.isVarLen == t.isVarLen && t'.q == t.q && t'.kv == t.kv && t'.kvCache == t.kvCache
    ensures t'.Cover(s.batch) && t'.ShapeOf(s) == t.ShapeOf(s)
  {
    assert t'.SeqLens(t.q, s.seqLenQO, s.batch) == t.SeqLens(t.q, s.seqLenQO, s.batch);
    assert t'.SeqLens(t.kv, s.seqLenKV, s.batch) == t.SeqLens(t.kv, s.seqLenKV, s.batch);
    assert t'.SeqLens(t.kvCache, s.seqLenKVCache, s.batch) == t.SeqLens(t.kvCache, s.seqLenKVCache, s.batch);
  }

  /** The page table and its prefix table. */
  method SetPages(s: LaunchShape, t: LaunchTables, size: nat, orders: seq<seq<nat>>) returns (t': LaunchTables)
    requires t.Cover(s.batch) && size > 0 && AreShuffles(orders, PagesOf(t.ShapeOf(s).cache, size))
    ensures t' == t.(pageSize := size, pageTable := t'.pageTable, numPagesPerSeq := t'.numPagesPerSeq)
    ensures t'.Cover(s.batch) && t'.ShapeOf(s) == t.ShapeOf(s)
    ensures FilledFrom(t', s, orders) && |t'.pageTable| == t'.numPagesPerSeq[s.batch]
  {
    var cacheLens := seq(s.batch, b requires 0 <= b < s.batch && t.Cover(s.batch) =>
                           t.SeqLen(t.kvCache, s.seqLenKVCache, s.batch, b));
    assert cacheLens == t.ShapeOf(s).cache;
    var numPagesPerSeq, mapping := BuildPageTable(cacheLens, size, orders);
    t' := t.(pageSize := size, pageTable := mapping[..], numPagesPerSeq := numPagesPerSeq);
    PagesKeepShape(t, t', s);
  }

  /** The five input buffers, holding whatever the allocation gives: any values at all. */
  method AllocateInputs(s: LaunchShape, sizes: Sizes, ghost plan: Shape)
    returns (q: array<real>, k: array<real>, v: array<real>, kCache: array<real>, vCache: array<real>)
    requires |plan.qo| == |plan.kv| == |plan.cache| && sizes.Match(plan)
    requires plan.numHeadsQ == s.numHeadsQ && plan.numHeadsKV == s.numHeadsKV
    requires plan.headSizeQK == s.headSizeQK && plan.headSizeVO == s.headSizeVO
    ensures fresh(q) && fresh(k) && fresh(v) && fresh(kCache) && fresh(vCache)
    ensures Buffers(q[..], k[..], v[..], kCache[..], vCache[..]).Fit(plan)
  {
    q := Allocate(s.numHeadsQ, s.headSizeQK, sizes.batch, sizes.q, plan.qo);
    k := Allocate(s.numHeadsKV, s.headSizeQK, sizes.batch, sizes.kv, plan.kv);
    v := Allocate(s.numHeadsKV, s.headSizeVO, sizes.batch, sizes.kv, plan.kv);
    kCache := Allocate(s.numHeadsKV, s.headSizeQK, sizes.batch, sizes.kvCache, plan.cache);
    vCache := Allocate(s.numHeadsKV, s.headSizeVO, sizes.batch, sizes.kvCache, plan.cache);
  }

  /** Lengths first, then in paged mode the page table. */
  method SetUp(o: Options, samples: seq<Sample>, orders: seq<seq<nat>>, pagedKV: bool,
               alignmentQ: nat, alignmentKV: nat, prior: LaunchTables)
    returns (s: LaunchShape, t: LaunchTables, sizes: Sizes)
    requires alignmentQ > 0 && alignmentKV > 0 && (prior.isVarLen ==> |samples| == o.shape.batch)
    requires pagedKV ==>
      (var plan := PlannedShape(o.shape, prior.isVarLen, samples, alignmentQ, alignmentKV);
       o.pageSize > 0 && AreShuffles(orders, PagesOf(plan.cache, o.pageSize)))
    ensures s.batch == o.shape.batch && (!prior.isVarLen ==> s == o.shape)
    ensures s.numHeadsQ == o.shape.numHeadsQ && s.numHeadsKV == o.shape.numHeadsKV
    ensures s.headSizeQK == o.shape.headSizeQK && s.headSizeVO == o.shape.headSizeVO
    ensures t.isVarLen == prior.isVarLen && t.Cover(s.batch)
    ensures t.ShapeOf(s) == PlannedShape(o.shape, prior.isVarLen, samples, alignmentQ, alignmentKV)
    ensures LengthsSet(o.shape, s, t, samples, alignmentQ, alignmentKV)
    ensures sizes.Match(t.ShapeOf(s))
    ensures pagedKV ==> t.pageSize == o.pageSize && FilledFrom(t, s, orders)
                        && |t.pageTable| == t.numPagesPerSeq[s.batch]
    ensures !pagedKV ==> t.pageSize == prior.pageSize
  {
    s, t, sizes := SetLengths(o.shape, samples, alignmentQ, alignmentKV, prior);
    if pagedKV {
      t := SetPages(s, t, o.pageSize, orders);
    }
  }

  /** The buffers of a launch. */
  datatype Blocks = Blocks(q: array<real>, k: array<real>, v: array<real>, kCache: array<real>, vCache: array<real>,
                           refO: array<Ext>)
  {
    ghost predicate Fit(plan: Shape)
      reads q, k, v, kCache, vCache
    {
      && Buffers(q[..], k[..], v[..], kCache[..], vCache[..]).Fit(plan)
      && refO.Length == BatchStart(plan.qo, plan.numHeadsQ, plan.headSizeVO, |plan.qo|)
    }
  }

  method AllocateBlocks(s: LaunchShape, sizes: Sizes, ghost plan: Shape) returns (blocks: Blocks)
    requires |plan.qo| == |plan.kv| == |plan.cache| && sizes.Match(plan)
    requires plan.numHeadsQ == s.numHeadsQ && plan.numHeadsKV == s.numHeadsKV
    requires plan.headSizeQK == s.headSizeQK && plan.headSizeVO == s.headSizeVO
    ensures fresh({blocks.q, blocks.k, blocks.v, blocks.kCache, blocks.vCache}) && fresh(blocks.refO)
    ensures blocks.Fit(plan)
  {
    var q, k, v, kCache, vCache := AllocateInputs(s, sizes, plan);
    var refO := AllocateOutput(s.numHeadsQ, s.headSizeVO, sizes.batch, sizes.q, plan.qo);
    blocks := Blocks(q, k, v, kCache, vCache, refO);
  }
}
