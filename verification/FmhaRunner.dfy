/** The attention benchmark runner: its buffers and tables, their initialisation, and the host check. */
module FmhaRunner {
  import opened Arithmetic
  import opened Attention
  import opened ExtendedReals
  import opened GroupedAttention
  import opened HeadLayout
  import opened HeadOffsets
  import opened HostCheck
  import opened LaunchSetup
  import opened PageReading
  import opened PageTable
  import opened SequenceTables

  class BenchmarkRunnerFMHA {
    // Fixed by the configuration.
    const sm: Softmax
    const isCausal: bool
    const isVarLen: bool
    const pagedKV: bool
    const alignmentQ: nat
    const alignmentKV: nat

    var blockQ: array<real>
    var blockK: array<real>
    var blockV: array<real>
    var blockKCache: array<real>
    var blockVCache: array<real>
    var blockRefO: array<Ext>

    var cumulativeSeqlenQ: seq<nat>
    var cumulativeSeqlenKV: seq<nat>
    var cumulativeSeqlenKVCache: seq<nat>

    var pageTable: seq<nat>
    var pageSize: nat
    var numPagesPerSeq: seq<nat>

    function Tables(): LaunchTables
      reads this`cumulativeSeqlenQ, this`cumulativeSeqlenKV, this`cumulativeSeqlenKVCache
      reads this`pageSize, this`pageTable, this`numPagesPerSeq
    {
      LaunchTables(isVarLen, cumulativeSeqlenQ, cumulativeSeqlenKV, cumulativeSeqlenKVCache,
                   pageSize, pageTable, numPagesPerSeq)
    }

    function InputBuffers(): Buffers
      reads this`blockQ, this`blockK, this`blockV, this`blockKCache, this`blockVCache
      reads blockQ, blockK, blockV, blockKCache, blockVCache
    {
      Buffers(blockQ[..], blockK[..], blockV[..], blockKCache[..], blockVCache[..])
    }

    constructor (sm: Softmax, isCausal: bool, isVarLen: bool, pagedKV: bool, sizeofQ: nat, sizeofK: nat)
      requires 0 < sizeofQ <= 64 && 0 < sizeofK <= 64
      ensures this.sm == sm && this.isCausal == isCausal && this.isVarLen == isVarLen && this.pagedKV == pagedKV
      ensures alignmentQ * sizeofQ <= 64 < (alignmentQ + 1) * sizeofQ
      ensures alignmentKV * sizeofK <= 64 < (alignmentKV + 1) * sizeofK
      ensures alignmentQ > 0 && alignmentKV > 0 && pageSize == 0
    {
      DivModEquation(CACHELINE_BYTES, sizeofQ);
      DivModEquation(CACHELINE_BYTES, sizeofK);
      this.sm, this.isCausal, this.isVarLen, this.pagedKV := sm, isCausal, isVarLen, pagedKV;
      alignmentQ, alignmentKV := CACHELINE_BYTES / sizeofQ, CACHELINE_BYTES / sizeofK;
      var none, noneO := new real[0], new Ext[0];
      blockQ, blockK, blockV, blockKCache, blockVCache, blockRefO := none, none, none, none, none, noneO;
      cumulativeSeqlenQ, cumulativeSeqlenKV, cumulativeSeqlenKVCache := [], [], [];
      pageTable, pageSize, numPagesPerSeq := [], 0, [];
    }

    ghost predicate Configured()
      reads this
    {
      alignmentQ > 0 && alignmentKV > 0 && (!pagedKV ==> pageSize == 0)
    }

    ghost function Planned(o: Options, samples: seq<Sample>): Shape
      requires alignmentQ > 0 && alignmentKV > 0
    {
      PlannedShape(o.shape, isVarLen, samples, alignmentQ, alignmentKV)
    }

    /** One sample per sequence in variable-length mode, and one shuffle per sequence in paged mode. */
    ghost predicate Draws(o: Options, samples: seq<Sample>, orders: seq<seq<nat>>)
      requires alignmentQ > 0 && alignmentKV > 0
    {
      && (isVarLen ==> |samples| == o.shape.batch)
      && (pagedKV ==> o.pageSize > 0 && AreShuffles(orders, PagesOf(Planned(o, samples).cache, o.pageSize)))
    }

    /** What the check needs: tables for every sequence, buffers of the sizes the shape asks for, and
        page-table slices whose copies stay inside their cache segments. */
    ghost predicate Ready(s: LaunchShape)
      reads this, blockQ, blockK, blockV, blockKCache, blockVCache
    {
      && Tables().Cover(s.batch)
      && ProblemOf(sm, isCausal, s, Tables(), InputBuffers()).Valid()
      && blockRefO.Length == BatchStart(Tables().ShapeOf(s).qo, s.numHeadsQ, s.headSizeVO, s.batch)
    }

    /** The host check's reference output, left in blockRefO; every offset ends at the end of its buffer. */
    method Verify(s: LaunchShape, causal: bool) returns (offsets: Offsets)
      requires Ready(s)
      modifies blockRefO
      ensures Ready(s) && ProblemOf(sm, causal, s, Tables(), InputBuffers()).Valid()
      ensures blockRefO[..] == ProblemOf(sm, causal, s, Tables(), InputBuffers()).Output()
      ensures offsets == Offsets(blockQ.Length, blockK.Length, blockV.Length,
                                 blockKCache.Length, blockVCache.Length, blockRefO.Length)
    {
      offsets := WalkHeads(blockRefO, InputBuffers(), sm, causal, s, Tables());
    }

    method SetTables(t: LaunchTables)
      requires t.isVarLen == isVarLen
      modifies this`cumulativeSeqlenQ, this`cumulativeSeqlenKV, this`cumulativeSeqlenKVCache
      modifies this`pageSize, this`pageTable, this`numPagesPerSeq
      ensures Tables() == t
    {
      cumulativeSeqlenQ, cumulativeSeqlenKV, cumulativeSeqlenKVCache := t.q, t.kv, t.kvCache;
      pageSize, pageTable, numPagesPerSeq := t.pageSize, t.pageTable, t.numPagesPerSeq;
    }

    method SetBlocks(blocks: Blocks)
      modifies this`blockQ, this`blockK, this`blockV, this`blockKCache, this`blockVCache, this`blockRefO
      ensures blockQ == blocks.q && blockK == blocks.k && blockV == blocks.v
      ensures blockKCache == blocks.kCache && blockVCache == blocks.vCache && blockRefO == blocks.refO
    {
      blockQ, blockK, blockV := blocks.q, blocks.k, blocks.v;
      blockKCache, blockVCache, blockRefO := blocks.kCache, blocks.vCache, blocks.refO;
    }

    /** Lengths, buffers, and in paged mode the page table. */
    method Initialize(o: Options, samples: seq<Sample>, orders: seq<seq<nat>>) returns (s: LaunchShape)
      requires Configured() && Draws(o, samples, orders)
      modifies this
      ensures Configured() && s.batch == o.shape.batch && (!isVarLen ==> s == o.shape)
      ensures fresh({blockQ, blockK, blockV, blockKCache, blockVCache}) && fresh(blockRefO)
      ensures Tables().Cover(s.batch) && Tables().ShapeOf(s) == Planned(o, samples)
      ensures LengthsSet(o.shape, s, Tables(), samples, alignmentQ, alignmentKV)
      ensures Blocks(blockQ, blockK, blockV, blockKCache, blockVCache, blockRefO).Fit(Planned(o, samples))
      ensures pagedKV ==> pageSize == o.pageSize && FilledFrom(Tables(), s, orders)
                          && |pageTable| == numPagesPerSeq[s.batch]
      ensures !pagedKV ==> pageSize == 0
    {
      var t, sizes;
      s, t, sizes := SetUp(o, samples, orders, pagedKV, alignmentQ, alignmentKV, Tables());
      var blocks := AllocateBlocks(s, sizes, t.ShapeOf(s));
      SetBlocks(blocks);
      SetTables(t);
    }

    /** Initialises; with a readable draw, the launch will read back its pages. */
    method InitializeReadable(o: Options, samples: seq<Sample>, orders: seq<seq<nat>>) returns (s: LaunchShape)
      requires Configured() && Draws(o, samples, orders)
      requires pagedKV ==>
        Readable(orders, o.pageSize, Planned(o, samples).cache, isVarLen, o.shape.seqLenKVCache)
      modifies this
      ensures fresh(blockRefO) && Tables().Cover(s.batch) && Tables().ShapeOf(s) == Planned(o, samples)
      ensures Blocks(blockQ, blockK, blockV, blockKCache, blockVCache, blockRefO).Fit(Planned(o, samples))
      ensures pageSize > 0 ==> ReadsShuffles(Tables(), s)
    {
      s := Initialize(o, samples, orders);
      if pagedKV {
        ReadableAnyMaximum(orders, pageSize, Planned(o, samples).cache, isVarLen,
                           o.shape.seqLenKVCache, s.seqLenKVCache);
        ReadableDrawReads(Tables(), s, orders);
      }
    }

    /** The check of a launch that reads back its pages: what it leaves for the planned shape. */
    method VerifyLaunch(s: LaunchShape, ghost plan: Shape)
      requires Tables().Cover(s.batch) && Tables().ShapeOf(s) == plan && plan.Valid() && sm.Valid()
      requires Blocks(blockQ, blockK, blockV, blockKCache, blockVCache, blockRefO).Fit(plan)
      requires pageSize > 0 ==> ReadsShuffles(Tables(), s)
      modifies blockRefO
      ensures Problem(sm, isCausal, plan, InputBuffers(), CONTIGUOUS).Valid()
      ensures blockRefO[..] == Problem(sm, isCausal, plan, InputBuffers(), CONTIGUOUS).Output()
    {
      LaunchMeaning(sm, isCausal, s, Tables(), InputBuffers(), plan);
      var offsets := Verify(s, isCausal);
    }

    /** Initialises and checks. Whatever the buffers hold, whatever lengths were sampled and however
        the pages were shuffled, the reference output is grouped-query attention over the caches in
        their stored order. */
    method Run(o: Options, samples: seq<Sample>, orders: seq<seq<nat>>) returns (s: LaunchShape)
      requires Configured() && Draws(o, samples, orders) && sm.Valid() && Planned(o, samples).Valid()
      requires pagedKV ==>
        Readable(orders, o.pageSize, Planned(o, samples).cache, isVarLen, o.shape.seqLenKVCache)
      modifies this
      ensures Problem(sm, isCausal, Planned(o, samples), InputBuffers(), CONTIGUOUS).Valid()
      ensures blockRefO[..] == Problem(sm, isCausal, Planned(o, samples), InputBuffers(), CONTIGUOUS).Output()
    {
      s := InitializeReadable(o, samples, orders);
      VerifyLaunch(s, Planned(o, samples));
    }
  }
}
