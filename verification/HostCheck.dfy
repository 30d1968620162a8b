/** The host check: for every sequence and query head, one slice of the reference output. */
module HostCheck {
  import opened Arithmetic
  import opened Attention
  import opened ExtendedReals
  import opened GroupedAttention
  import opened HeadLayout
  import opened HeadOffsets
  import opened HostAttention
  import opened KVGather
  import opened Matrices
  import opened PagedCache

  /** The problem shape as it is handed to the kernel and to the check; in variable-length mode the
      three lengths are maxima and the real ones come from the cumulative tables. */
  datatype LaunchShape = LaunchShape(batch: nat, numHeadsQ: nat, numHeadsKV: nat,
                                     seqLenQO: nat, seqLenKV: nat, seqLenKVCache: nat,
                                     headSizeQK: nat, headSizeVO: nat)

  // ----- segments of the flat buffers

  lemma RowsLie(buf: seq<real>, start: nat, n: nat, width: nat)
    requires start + n * width <= |buf|
    ensures SegmentAt(buf, start, Rows(buf[start..start + n * width], n, width), width)
  {
    FlattenRows(buf[start..start + n * width], n, width);
  }

  lemma SegmentLies(buf: seq<real>, lens: seq<nat>, heads: nat, width: nat, b: nat, h: nat)
    requires b < |lens| && h < heads && |buf| == BatchStart(lens, heads, width, |lens|)
    ensures SegmentAt(buf, HeadStart(lens, heads, width, b, h), Segment(buf, lens, heads, width, b, h), width)
  {
    HeadFits(lens, heads, width, b, h);
    RowsLie(buf, HeadStart(lens, heads, width, b, h), lens[b], width);
  }

  lemma KeysOfZip(a: seq<seq<real>>, a': seq<seq<real>>, b: seq<seq<real>>, b': seq<seq<real>>)
    requires |a| == |a'| && |b| == |b'|
    ensures Keys(Zip(a, a') + Zip(b, b')) == a + b && Values(Zip(a, a') + Zip(b, b')) == a' + b'
  {
  }

  /** The views that the head's products read hold the keys and values of its tokens. */
  lemma ViewsOfHead(p: Problem, b: nat, h: nat)
    requires p.Valid() && p.InBatch(b, h)
    ensures var g, t := p.shape.KVHead(h), p.HeadAt(b, h).cached + p.HeadAt(b, h).added;
            var k := Segment(p.bufs.k, p.shape.kv, p.shape.numHeadsKV, p.shape.headSizeQK, b, g);
            var v := Segment(p.bufs.v, p.shape.kv, p.shape.numHeadsKV, p.shape.headSizeVO, b, g);
            && Keys(t) == Presented(p.CachedKeys(b, g), p.paging.size, p.paging.Table(b)) + k
            && Values(t) == Presented(p.CachedValues(b, g), p.paging.size, p.paging.Table(b)) + v
            && Uniform(Keys(t), p.shape.headSizeQK) && Uniform(Values(t), p.shape.headSizeVO)
  {
    var g, size, table := p.shape.KVHead(h), p.paging.size, p.paging.Table(b);
    KeysOfZip(Presented(p.CachedKeys(b, g), size, table), Presented(p.CachedValues(b, g), size, table),
              Segment(p.bufs.k, p.shape.kv, p.shape.numHeadsKV, p.shape.headSizeQK, b, g),
              Segment(p.bufs.v, p.shape.kv, p.shape.numHeadsKV, p.shape.headSizeVO, b, g));
    PresentedShape(p.CachedKeys(b, g), size, table, p.shape.headSizeQK);
    PresentedShape(p.CachedValues(b, g), size, table, p.shape.headSizeVO);
  }

  /** One turn of the head loop: gathers, attends, and gives back the output slice. */
  method ReferenceHead(bufs: Buffers, sm: Softmax, isCausal: bool, off: Offsets,
                       seqLenQO: nat, seqLenKV: nat, seqLenKVCache: nat, headSizeQK: nat, headSizeVO: nat,
                       pageSize: nat, pageTable: seq<nat>, startPageIdx: nat,
                       ghost p: Problem, ghost b: nat, ghost h: nat)
    returns (vecOut: array<Ext>)
    requires p.Valid() && p.InBatch(b, h) && OffsetsAt(off, p.shape, b, h)
    requires bufs == p.bufs && sm == p.sm && isCausal == p.causal && pageSize == p.paging.size
    requires seqLenQO == p.shape.qo[b] && seqLenKV == p.shape.kv[b] && seqLenKVCache == p.shape.cache[b]
    requires headSizeQK == p.shape.headSizeQK && headSizeVO == p.shape.headSizeVO
    requires pageSize > 0 && seqLenKVCache > 0 ==>
      (startPageIdx + |p.paging.Table(b)| <= |pageTable|
       && pageTable[startPageIdx..startPageIdx + |p.paging.Table(b)|] == p.paging.Table(b))
    ensures fresh(vecOut) && vecOut[..] == p.Block(b, h)
  {
    ghost var s, g, head := p.shape, p.shape.KVHead(h), p.HeadAt(b, h);
    ghost var k := Segment(bufs.k, s.kv, s.numHeadsKV, s.headSizeQK, b, g);
    ghost var v := Segment(bufs.v, s.kv, s.numHeadsKV, s.headSizeVO, b, g);
    SegmentLies(bufs.q, s.qo, s.numHeadsQ, s.headSizeQK, b, h);
    SegmentLies(bufs.k, s.kv, s.numHeadsKV, s.headSizeQK, b, g);
    SegmentLies(bufs.v, s.kv, s.numHeadsKV, s.headSizeVO, b, g);
    SegmentLies(bufs.kCache, s.cache, s.numHeadsKV, s.headSizeQK, b, g);
    SegmentLies(bufs.vCache, s.cache, s.numHeadsKV, s.headSizeVO, b, g);
    ViewsOfHead(p, b, h);
    var kView, vView := ConcatKV(bufs.kCache, bufs.vCache, bufs.k, bufs.v, off.kCache, off.vCache, off.k, off.v,
                                 headSizeQK, headSizeVO, seqLenKVCache, seqLenKV, pageSize, pageTable, startPageIdx,
                                 p.CachedKeys(b, g), p.CachedValues(b, g), k, v, p.paging.Table(b));
    vecOut := AttendHead(sm, isCausal, bufs.q, off.q, kView, vView, seqLenQO, seqLenKV, seqLenKVCache,
                         headSizeQK, headSizeVO, head);
  }

  // ----- the tables of one launch, as values

  /** The cumulative length tables and the page table that a launch was set up with. */
  datatype LaunchTables = LaunchTables(isVarLen: bool, q: seq<nat>, kv: seq<nat>, kvCache: seq<nat>,
                                       pageSize: nat, pageTable: seq<nat>, numPagesPerSeq: seq<nat>)
  {
    static ghost predicate TableFor(cumulative: seq<nat>, batch: nat) {
      |cumulative| == batch + 1
      && forall a, b :: 0 <= a < b <= batch && b == a + 1 ==> cumulative[a] <= cumulative[b]
    }

    ghost predicate Cover(batch: nat) {
      isVarLen ==> TableFor(q, batch) && TableFor(kv, batch) && TableFor(kvCache, batch)
    }

    /** The length of sequence b. */
    function SeqLen(cumulative: seq<nat>, fixedLen: nat, batch: nat, b: nat): nat
      requires isVarLen ==> TableFor(cumulative, batch)
      requires b < batch
    {
      if isVarLen then cumulative[b + 1] - cumulative[b] else fixedLen
    }

    ghost function SeqLens(cumulative: seq<nat>, fixedLen: nat, batch: nat): (lens: seq<nat>)
      requires isVarLen ==> TableFor(cumulative, batch)
      ensures |lens| == batch
    {
      seq(batch, b requires 0 <= b < batch => SeqLen(cumulative, fixedLen, batch, b))
    }

    ghost function ShapeOf(s: LaunchShape): Shape
      requires Cover(s.batch)
    {
      Shape(s.numHeadsQ, s.numHeadsKV, s.headSizeQK, s.headSizeVO, SeqLens(q, s.seqLenQO, s.batch),
            SeqLens(kv, s.seqLenKV, s.batch), SeqLens(kvCache, s.seqLenKVCache, s.batch))
    }

    /** Each sequence takes its three lengths from its own three tables, or from the fixed lengths. */
    lemma LengthsOfSequence(s: LaunchShape, b: nat)
      requires Cover(s.batch) && b < s.batch
      ensures isVarLen ==> ShapeOf(s).qo[b] == q[b + 1] - q[b] && ShapeOf(s).kv[b] == kv[b + 1] - kv[b]
                           && ShapeOf(s).cache[b] == kvCache[b + 1] - kvCache[b]
      ensures !isVarLen ==> ShapeOf(s).qo[b] == s.seqLenQO && ShapeOf(s).kv[b] == s.seqLenKV
                            && ShapeOf(s).cache[b] == s.seqLenKVCache
    {
    }

    /** Where sequence b's slice of the page table starts. */
    function StartPageIdx(b: nat, seqLenKVCache: nat): nat
      requires pageSize > 0 && (isVarLen ==> b < |numPagesPerSeq|)
    {
      if isVarLen then numPagesPerSeq[b] else b * (seqLenKVCache / pageSize)
    }

    /** The slice itself; empty if it would not lie in the table. */
    ghost function TableSlice(b: nat, seqLenKVCache: nat): seq<nat>
      requires pageSize > 0
    {
      if isVarLen && b >= |numPagesPerSeq| then []
      else
        var start, n := StartPageIdx(b, seqLenKVCache), CeilDiv(seqLenKVCache, pageSize);
        if start + n <= |pageTable| then pageTable[start..start + n] else []
    }

    ghost function PagingOf(s: LaunchShape): Paging
      requires Cover(s.batch)
    {
      if pageSize == 0 then CONTIGUOUS
      else
        var cache := SeqLens(kvCache, s.seqLenKVCache, s.batch);
        Paging(pageSize, seq(s.batch, b requires 0 <= b < s.batch && pageSize > 0 => TableSlice(b, cache[b])))
    }

    /** The start index that the check computes finds the slice that the paging describes. */
    lemma SliceFound(s: LaunchShape, b: nat)
      requires Cover(s.batch) && b < s.batch && pageSize > 0
      requires ShapeOf(s).cache[b] > 0 && PagingOf(s).Fit(ShapeOf(s).cache)
      ensures isVarLen ==> b < |numPagesPerSeq|
      ensures var start, slice := StartPageIdx(b, ShapeOf(s).cache[b]), PagingOf(s).Table(b);
              start + |slice| <= |pageTable| && pageTable[start..start + |slice|] == slice
    {
      assert InSegment(PagingOf(s).Table(b), pageSize, ShapeOf(s).cache[b]);
      CeilDivCounts(ShapeOf(s).cache[b], pageSize);
    }
  }

  ghost function ProblemOf(sm: Softmax, causal: bool, s: LaunchShape, t: LaunchTables, bufs: Buffers): Problem
    requires t.Cover(s.batch)
  {
    Problem(sm, causal, t.ShapeOf(s), bufs, t.PagingOf(s))
  }

  // ----- the loops of the check

  ghost predicate Written(out: seq<Ext>, o: nat, p: Problem, b: nat, h: nat)
    requires p.Valid()
  {
    o <= |out| && out[..o] == p.UpTo(b, h)
  }

  /** One head's slice of the output. */
  method HeadSlice(bufs: Buffers, sm: Softmax, causal: bool, s: LaunchShape, t: LaunchTables,
                   b: nat, off: Offsets, seqLenQO: nat, seqLenKV: nat, seqLenKVCache: nat,
                   ghost p: Problem, ghost h: nat)
    returns (vecOut: array<Ext>)
    requires t.Cover(s.batch) && p == ProblemOf(sm, causal, s, t, bufs) && p.Valid() && p.InBatch(b, h)
    requires seqLenQO == p.shape.qo[b] && seqLenKV == p.shape.kv[b] && seqLenKVCache == p.shape.cache[b]
    requires OffsetsAt(off, p.shape, b, h)
    ensures fresh(vecOut) && vecOut[..] == p.Block(b, h)
  {
    var startPageIdx := 0;
    if t.pageSize > 0 && seqLenKVCache > 0 {
      t.SliceFound(s, b);
      startPageIdx := t.StartPageIdx(b, seqLenKVCache);
    }
    vecOut := ReferenceHead(bufs, sm, causal, off, seqLenQO, seqLenKV, seqLenKVCache, s.headSizeQK, s.headSizeVO,
                            t.pageSize, t.pageTable, startPageIdx, p, b, h);
  }

  /** The body of the head loop: one head's slice of the output, then the offset updates. */
  method HeadTurn(refO: array<Ext>, bufs: Buffers, sm: Softmax, causal: bool, s: LaunchShape, t: LaunchTables,
                  b: nat, h: nat, off: Offsets, kvGroupUpdate: nat, qGroupSize: nat,
                  seqLenQO: nat, seqLenKV: nat, seqLenKVCache: nat, ghost p: Problem)
    returns (next: Offsets)
    requires t.Cover(s.batch) && p == ProblemOf(sm, causal, s, t, bufs) && p.Valid() && p.InBatch(b, h)
    requires refO.Length == BatchStart(p.shape.qo, s.numHeadsQ, s.headSizeVO, s.batch)
    requires seqLenQO == p.shape.qo[b] && seqLenKV == p.shape.kv[b] && seqLenKVCache == p.shape.cache[b]
    requires kvGroupUpdate == h + 1 && qGroupSize == p.shape.Group()
    requires OffsetsAt(off, p.shape, b, h) && Written(refO[..], off.o, p, b, h)
    modifies refO
    ensures Walked(next, p.shape, b, h + 1) && Written(refO[..], next.o, p, b, h + 1)
  {
    var vecOut := HeadSlice(bufs, sm, causal, s, t, b, off, seqLenQO, seqLenKV, seqLenKVCache, p, h);
    BlockFits(p, b, h, vecOut[..]);
    WriteSlice(refO, off.o, vecOut[..]);
    next := Advance(off, kvGroupUpdate, qGroupSize, seqLenQO, seqLenKV, seqLenKVCache,
                    s.headSizeQK, s.headSizeVO, p.shape, b, h);
  }

  lemma BlockFits(p: Problem, b: nat, h: nat, vec: seq<Ext>)
    requires p.Valid() && p.InBatch(b, h) && vec == p.Block(b, h)
    ensures |vec| == p.shape.qo[b] * p.shape.headSizeVO
    ensures HeadStart(p.shape.qo, p.shape.numHeadsQ, p.shape.headSizeVO, b, h) + |vec|
         <= BatchStart(p.shape.qo, p.shape.numHeadsQ, p.shape.headSizeVO, |p.shape.qo|)
    ensures p.UpTo(b, h + 1) == p.UpTo(b, h) + vec
  {
    p.BlockRows(b, h);
    HeadFits(p.shape.qo, p.shape.numHeadsQ, p.shape.headSizeVO, b, h);
  }

  method WriteSlice(refO: array<Ext>, o: nat, vec: seq<Ext>)
    requires o + |vec| <= refO.Length
    modifies refO
    ensures refO[..o + |vec|] == old(refO[..o]) + vec
  {
    Memcpy(refO, o, vec);
    assert refO[..o + |vec|] == refO[..o] + refO[o..o + |vec|];
  }

  /** The body of the sequence loop: its lengths, then all its query heads. */
  method SequenceTurn(refO: array<Ext>, bufs: Buffers, sm: Softmax, causal: bool, s: LaunchShape, t: LaunchTables,
                      b: nat, off: Offsets, qGroupSize: nat, ghost p: Problem)
    returns (next: Offsets)
    requires t.Cover(s.batch) && p == ProblemOf(sm, causal, s, t, bufs) && p.Valid() && b < s.batch
    requires refO.Length == BatchStart(p.shape.qo, s.numHeadsQ, s.headSizeVO, s.batch)
    requires qGroupSize == p.shape.Group()
    requires OffsetsAtBatch(off, p.shape, b) && Written(refO[..], off.o, p, b, 0)
    modifies refO
    ensures OffsetsAtBatch(next, p.shape, b + 1) && Written(refO[..], next.o, p, b + 1, 0)
  {
    var seqLenQO := t.SeqLen(t.q, s.seqLenQO, s.batch, b);
    var seqLenKV := t.SeqLen(t.kv, s.seqLenKV, s.batch, b);
    var seqLenKVCache := t.SeqLen(t.kvCache, s.seqLenKVCache, s.batch, b);
    next := off;
    WalkStarts(next, p.shape, b);
    var kvGroupUpdate := 1;
    for h := 0 to s.numHeadsQ
      invariant kvGroupUpdate == h + 1
      invariant Walked(next, p.shape, b, h) && Written(refO[..], next.o, p, b, h)
    {
      next := HeadTurn(refO, bufs, sm, causal, s, t, b, h, next, kvGroupUpdate, qGroupSize,
                       seqLenQO, seqLenKV, seqLenKVCache, p);
      kvGroupUpdate := kvGroupUpdate + 1;
    }
  }

  /** Sequences, then query heads: fills the output and carries the offsets to the ends of the buffers. */
  method WalkHeads(refO: array<Ext>, bufs: Buffers, sm: Softmax, causal: bool, s: LaunchShape, t: LaunchTables)
    returns (offsets: Offsets)
    requires t.Cover(s.batch) && ProblemOf(sm, causal, s, t, bufs).Valid()
    requires refO.Length == BatchStart(t.ShapeOf(s).qo, s.numHeadsQ, s.headSizeVO, s.batch)
    modifies refO
    ensures refO[..] == ProblemOf(sm, causal, s, t, bufs).Output()
    ensures offsets == Offsets(|bufs.q|, |bufs.k|, |bufs.v|, |bufs.kCache|, |bufs.vCache|, refO.Length)
  {
    ghost var p := ProblemOf(sm, causal, s, t, bufs);
    offsets := Offsets(0, 0, 0, 0, 0, 0);
    var qGroupSize := s.numHeadsQ / s.numHeadsKV;
    for b := 0 to s.batch
      invariant OffsetsAtBatch(offsets, p.shape, b) && Written(refO[..], offsets.o, p, b, 0)
    {
      offsets := SequenceTurn(refO, bufs, sm, causal, s, t, b, offsets, qGroupSize, p);
    }
  }
}
