/** Where the cache ends does not matter to the output of a launch, exactly when no sequence discards a row
    because of it. */
module MergedCaches {
  import opened Attention
  import opened BufferReads
  import opened GroupedAttention
  import opened HeadLayout
  import opened KVGather
  import opened Matrices
  import opened Ragged

  /** Problem p' has no caches: its new tokens are p's cached tokens followed by p's new ones. */
  ghost predicate Merged(p: Problem, p': Problem)
    requires p.Valid() && p'.Valid()
  {
    && p'.sm == p.sm && p'.causal == p.causal && p'.bufs.q == p.bufs.q
    && p'.shape.(kv := p.shape.kv, cache := p.shape.cache) == p.shape
    && (forall b :: 0 <= b < |p'.shape.cache| ==> p'.shape.cache[b] == 0)
    && (forall b: nat, g: nat :: b < |p.shape.qo| && g < p.shape.numHeadsKV ==>
          p'.Added(b, g) == p.Cached(b, g) + p.Added(b, g))
  }

  /** No sequence discards a row because its cache is not counted as new. */
  predicate SplitsSuit(p: Problem) {
    |p.shape.qo| == |p.shape.kv| == |p.shape.cache|
    && forall b :: 0 <= b < |p.shape.qo| ==> !p.causal || p.shape.qo[b] <= p.shape.kv[b] || p.shape.cache[b] == 0
  }

  lemma MergedHead(p: Problem, p': Problem, b: nat, h: nat)
    requires p.Valid() && p'.Valid() && Merged(p, p') && p.InBatch(b, h)
    ensures p'.HeadAt(b, h) == WithoutCache(p.HeadAt(b, h))
  {
    var g := p.shape.KVHead(h);
    assert p'.shape.KVHead(h) == g && p'.Cached(b, g) == [];
    assert p'.Queries(b, h) == p.Queries(b, h);
  }

  lemma HeadIgnoresSplit(p: Problem, p': Problem, b: nat, h: nat)
    requires p.Valid() && p'.Valid() && Merged(p, p') && SplitsSuit(p) && p.InBatch(b, h)
    ensures p'.Block(b, h) == p.Block(b, h)
  {
    MergedHead(p, p', b, h);
    SplitAgrees(p.sm, p.causal, p.HeadAt(b, h), p.shape.headSizeVO);
  }

  /** Running with caches, paged or not, leaves the output of running without them on the joined keys and values. */
  lemma MergingPreservesOutput(p: Problem, p': Problem)
    requires p.Valid() && p'.Valid() && Merged(p, p') && SplitsSuit(p)
    ensures p'.Output() == p.Output()
  {
    forall b: nat, h: nat
      ensures p'.Blocks()(b, h) == p.Blocks()(b, h)
    {
      if p.InBatch(b, h) {
        HeadIgnoresSplit(p, p', b, h);
      }
    }
    WalkAgrees(p'.Blocks(), p.Blocks(), p.shape.numHeadsQ, |p.shape.qo|, 0);
  }

  // ----- laying the joined keys and values out in buffers

  ghost predicate RowsSized(rows: (nat, nat) -> seq<seq<real>>, lens: seq<nat>, heads: nat, width: nat) {
    forall b: nat, h: nat :: b < |lens| && h < heads ==> |rows(b, h)| == lens[b] && Uniform(rows(b, h), width)
  }

  function FlatBlocks(rows: (nat, nat) -> seq<seq<real>>): (nat, nat) -> seq<real> {
    (b: nat, h: nat) => Flatten(rows(b, h))
  }

  /** A buffer that holds these rows, head after head and sequence after sequence. */
  ghost function Laid(rows: (nat, nat) -> seq<seq<real>>, lens: seq<nat>, heads: nat): seq<real> {
    Walk(FlatBlocks(rows), heads, |lens|, 0)
  }

  lemma LaidBlocks(rows: (nat, nat) -> seq<seq<real>>, lens: seq<nat>, heads: nat, width: nat)
    requires RowsSized(rows, lens, heads, width)
    ensures BlocksSized(FlatBlocks(rows), lens, heads, width)
    ensures |Laid(rows, lens, heads)| == BatchStart(lens, heads, width, |lens|)
  {
    forall b: nat, h: nat | b < |lens| && h < heads
      ensures |FlatBlocks(rows)(b, h)| == lens[b] * width
    {
      FlattenLength(rows(b, h), width);
    }
    WalkLength(FlatBlocks(rows), lens, heads, width, |lens|, 0);
  }

  /** Each head's segment of that buffer gives its rows back. */
  lemma LaidSegment(rows: (nat, nat) -> seq<seq<real>>, lens: seq<nat>, heads: nat, width: nat, b: nat, h: nat)
    requires RowsSized(rows, lens, heads, width) && b < |lens| && h < heads
    ensures |Laid(rows, lens, heads)| == BatchStart(lens, heads, width, |lens|)
    ensures Segment(Laid(rows, lens, heads), lens, heads, width, b, h) == rows(b, h)
  {
    LaidBlocks(rows, lens, heads, width);
    WalkBlock(FlatBlocks(rows), lens, heads, width, b, h);
    SegmentRows(Laid(rows, lens, heads), lens, heads, width, b, h);
    RowsFlatten(rows(b, h), width);
  }

  // ----- the joined problem

  /** All tokens of key/value head g: cached ones as the page table presents them, then new ones. */
  function Tokens(p: Problem, b: nat, g: nat): (tokens: seq<Token>)
    requires p.shape.Valid() && p.bufs.Fit(p.shape) && p.paging.Fit(p.shape.cache)
    requires b < |p.shape.qo| && g < p.shape.numHeadsKV
    ensures |tokens| == p.shape.cache[b] + p.shape.kv[b]
  {
    p.Cached(b, g) + p.Added(b, g)
  }

  lemma TokensSizes(p: Problem, b: nat, g: nat)
    requires p.Valid() && b < |p.shape.qo| && g < p.shape.numHeadsKV
    ensures Uniform(Keys(Tokens(p, b, g)), p.shape.headSizeQK)
    ensures Uniform(Values(Tokens(p, b, g)), p.shape.headSizeVO)
  {
    PresentedShape(p.CachedKeys(b, g), p.paging.size, p.paging.Table(b), p.shape.headSizeQK);
    PresentedShape(p.CachedValues(b, g), p.paging.size, p.paging.Table(b), p.shape.headSizeVO);
  }

  ghost function AllKeyRows(p: Problem): (nat, nat) -> seq<seq<real>>
    requires p.Valid()
  {
    (b: nat, g: nat) => if b < |p.shape.qo| && g < p.shape.numHeadsKV then Keys(Tokens(p, b, g)) else []
  }

  ghost function AllValueRows(p: Problem): (nat, nat) -> seq<seq<real>>
    requires p.Valid()
  {
    (b: nat, g: nat) => if b < |p.shape.qo| && g < p.shape.numHeadsKV then Values(Tokens(p, b, g)) else []
  }

  function JoinedShape(s: Shape): (s': Shape)
    requires |s.qo| == |s.kv| == |s.cache|
  {
    s.(kv := seq(|s.qo|, b requires 0 <= b < |s.kv| && 0 <= b < |s.cache| => s.cache[b] + s.kv[b]),
       cache := seq(|s.qo|, _ => 0))
  }

  lemma JoinedRows(p: Problem)
    requires p.Valid()
    ensures RowsSized(AllKeyRows(p), JoinedShape(p.shape).kv, p.shape.numHeadsKV, p.shape.headSizeQK)
    ensures RowsSized(AllValueRows(p), JoinedShape(p.shape).kv, p.shape.numHeadsKV, p.shape.headSizeVO)
  {
    forall b: nat, g: nat | b < |p.shape.qo| && g < p.shape.numHeadsKV
      ensures Uniform(AllKeyRows(p)(b, g), p.shape.headSizeQK)
      ensures Uniform(AllValueRows(p)(b, g), p.shape.headSizeVO)
    {
      TokensSizes(p, b, g);
    }
  }

  lemma NoCacheNoBuffer(lens: seq<nat>, heads: nat, width: nat)
    requires forall b :: 0 <= b < |lens| ==> lens[b] == 0
    ensures BatchStart(lens, heads, width, |lens|) == 0
  {
    CumOfEqualRuns(lens, 0, |lens|);
  }

  /** The same launch with every cache moved in front of its new keys and values. */
  ghost function Joined(p: Problem): (p': Problem)
    requires p.Valid()
    ensures p'.Valid()
  {
    var s := JoinedShape(p.shape);
    JoinedRows(p);
    LaidBlocks(AllKeyRows(p), s.kv, s.numHeadsKV, s.headSizeQK);
    LaidBlocks(AllValueRows(p), s.kv, s.numHeadsKV, s.headSizeVO);
    NoCacheNoBuffer(s.cache, s.numHeadsKV, s.headSizeQK);
    NoCacheNoBuffer(s.cache, s.numHeadsKV, s.headSizeVO);
    var k, v := Laid(AllKeyRows(p), s.kv, s.numHeadsKV), Laid(AllValueRows(p), s.kv, s.numHeadsKV);
    Problem(p.sm, p.causal, s, Buffers(p.bufs.q, k, v, [], []), CONTIGUOUS)
  }

  lemma JoinedTokens(p: Problem, b: nat, g: nat)
    requires p.Valid() && b < |p.shape.qo| && g < p.shape.numHeadsKV
    ensures Joined(p).Added(b, g) == Tokens(p, b, g)
  {
    var s := JoinedShape(p.shape);
    JoinedRows(p);
    LaidSegment(AllKeyRows(p), s.kv, s.numHeadsKV, s.headSizeQK, b, g);
    LaidSegment(AllValueRows(p), s.kv, s.numHeadsKV, s.headSizeVO, b, g);
    ZipKeysValues(Tokens(p, b, g));
  }

  /** Every problem has a merged one. */
  lemma JoinedIsMerged(p: Problem)
    requires p.Valid()
    ensures Merged(p, Joined(p))
  {
    forall b: nat, g: nat | b < |p.shape.qo| && g < p.shape.numHeadsKV
      ensures Joined(p).Added(b, g) == p.Cached(b, g) + p.Added(b, g)
    {
      JoinedTokens(p, b, g);
    }
  }

  // ----- when merging shows

  /** Whatever the buffers hold, moving the caches in front of the new keys leaves the output as it was. */
  ghost predicate MergingInvisible(p: Problem)
    requires p.Valid()
  {
    forall bufs: Buffers :: bufs.Fit(p.shape) ==> Joined(p.(bufs := bufs)).Output() == p.(bufs := bufs).Output()
  }

  // Buffers of the same sizes whose values are all ones.
  function OneValues(bufs: Buffers): Buffers {
    bufs.(v := seq(|bufs.v|, _ => 1.0), vCache := seq(|bufs.vCache|, _ => 1.0))
  }

  lemma OneElement(buf: seq<real>, lens: seq<nat>, heads: nat, width: nat, b: nat, h: nat, i: nat, d: nat)
    requires InRange(lens, heads, width, b, h, i, d) && |buf| == BatchStart(lens, heads, width, |lens|)
    requires forall k :: 0 <= k < |buf| ==> buf[k] == 1.0
    ensures Element(buf, lens, heads, width, b, h, i, d) == 1.0
  {
    PositionInBuffer(lens, heads, width, b, h, i, d);
  }

  lemma OneCachedToken(p: Problem, b: nat, h: nat, k: nat)
    requires p.Valid() && p.bufs == OneValues(p.bufs) && p.InBatch(b, h) && p.shape.headSizeVO > 0
    requires k < p.shape.cache[b]
    ensures p.HeadAt(b, h).cached[k].At(0) == 1.0
  {
    var s, r := p.shape, StoredRow(p, b, k);
    CachedTokenValue(p, b, h, k, 0);
    OneElement(p.bufs.vCache, s.cache, s.numHeadsKV, s.headSizeVO, b, s.KVHead(h), r, 0);
  }

  lemma OneNewToken(p: Problem, b: nat, h: nat, j: nat)
    requires p.Valid() && p.bufs == OneValues(p.bufs) && p.InBatch(b, h) && p.shape.headSizeVO > 0
    requires j < p.shape.kv[b]
    ensures p.HeadAt(b, h).added[j].At(0) == 1.0
  {
    var s := p.shape;
    NewTokenValue(p, b, h, j, 0);
    OneElement(p.bufs.v, s.kv, s.numHeadsKV, s.headSizeVO, b, s.KVHead(h), j, 0);
  }

  lemma OneValueTokens(p: Problem, b: nat, h: nat)
    requires p.Valid() && p.bufs == OneValues(p.bufs) && p.InBatch(b, h) && p.shape.headSizeVO > 0
    ensures var tokens := p.HeadAt(b, h).cached + p.HeadAt(b, h).added;
            forall k :: 0 <= k < |tokens| ==> tokens[k].At(0) == 1.0
  {
    var tokens := p.HeadAt(b, h).cached + p.HeadAt(b, h).added;
    forall k | 0 <= k < |tokens|
      ensures tokens[k].At(0) == 1.0
    {
      if k < p.shape.cache[b] {
        OneCachedToken(p, b, h, k);
      } else {
        OneNewToken(p, b, h, k - p.shape.cache[b]);
      }
    }
  }

  /** With values of ones, the last discarded row of a causal sequence comes alive when its cache is merged. */
  lemma MergingShows(p: Problem, b: nat)
    requires p.Valid() && p.bufs == OneValues(p.bufs) && p.shape.headSizeVO > 0 && p.causal
    requires b < |p.shape.qo| && p.shape.qo[b] > p.shape.kv[b] && p.shape.cache[b] > 0
    ensures Joined(p).Output() != p.Output()
  {
    var p', i := Joined(p), p.shape.qo[b] - p.shape.kv[b] - 1;
    var head, head' := p.HeadAt(b, 0), p'.HeadAt(b, 0);
    JoinedIsMerged(p);
    MergedHead(p, p', b, 0);
    OneValueTokens(p, b, 0);
    OutputIsAverage(p.sm, true, head', i, 0, 1.0, 1.0);
    assert head.Output(p.sm, true, i, 0) == 0.0 && head'.Output(p.sm, true, i, 0) == 1.0;
    p.OutputElement(b, 0, i, 0);
    p'.OutputElement(b, 0, i, 0);
  }

  /** The caches of a launch may be moved in front of its new keys and values without changing the output,
      whatever the buffers hold, exactly when every sequence is not causal, has no more query rows than
      new keys, or has no cache. */
  lemma MergingInvisibleExactly(p: Problem)
    requires p.Valid() && p.shape.headSizeVO > 0
    ensures MergingInvisible(p) <==> SplitsSuit(p)
  {
    if SplitsSuit(p) {
      forall bufs: Buffers | bufs.Fit(p.shape)
        ensures Joined(p.(bufs := bufs)).Output() == p.(bufs := bufs).Output()
      {
        JoinedIsMerged(p.(bufs := bufs));
        MergingPreservesOutput(p.(bufs := bufs), Joined(p.(bufs := bufs)));
      }
    } else {
      var b :| 0 <= b < |p.shape.qo| && p.causal && p.shape.qo[b] > p.shape.kv[b] && p.shape.cache[b] > 0;
      var ones := OneValues(p.bufs);
      assert ones.Fit(p.shape) && ones == OneValues(ones);
      MergingShows(p.(bufs := ones), b);
    }
  }
}
