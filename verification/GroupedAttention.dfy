/** The whole batch: grouped-query attention over flat buffers, and the flat output it must leave. */
module GroupedAttention {
  import opened Arithmetic
  import opened Attention
  import opened Bags
  import opened ExtendedReals
  import opened HeadLayout
  import opened Matrices
  import opened PagedCache

  lemma Runs(g: nat, r: nat, n: nat, kv: nat, h: nat, q: nat)
    requires h == g * n + r && r < n && q == n * kv && kv > 0
    ensures g * q <= h * kv < (g + 1) * q
  {
    assert h * kv == g * (n * kv) + r * kv;
    MulStrict(r, n, kv);
    MulSucc(g, q);
  }

  /** Head counts, head widths, and the three lengths of every sequence. */
  datatype Shape = Shape(numHeadsQ: nat, numHeadsKV: nat, headSizeQK: nat, headSizeVO: nat,
                         qo: seq<nat>, kv: seq<nat>, cache: seq<nat>)
  {
    predicate Valid() {
      && numHeadsQ > 0 && numHeadsKV > 0 && numHeadsQ % numHeadsKV == 0
      && |qo| == |kv| == |cache|
      && (forall b :: 0 <= b < |qo| && qo[b] > 0 ==> kv[b] + cache[b] > 0)
    }

    // How many query heads share one key/value head.
    function Group(): nat
      requires numHeadsKV > 0
    {
      numHeadsQ / numHeadsKV
    }

    /** The key/value head that query head h reads. */
    function KVHead(h: nat): (g: nat)
      requires Valid() && h < numHeadsQ
      ensures g < numHeadsKV
    {
      KVHeadInRange(h);
      h / Group()
    }

    /** Query heads share key/value heads in equal runs: head h lies as far along the query heads as its
        key/value head lies along the key/value heads. */
    lemma KVHeadShared(h: nat)
      requires Valid() && h < numHeadsQ
      ensures KVHead(h) * numHeadsQ <= h * numHeadsKV < (KVHead(h) + 1) * numHeadsQ
    {
      var g, n := KVHead(h), Group();
      KVHeadInRange(h);
      DivModEquation(numHeadsQ, numHeadsKV);
      DivModEquation(h, n);
      Runs(g, h % n, n, numHeadsKV, h, numHeadsQ);
    }

    lemma KVHeadInRange(h: nat)
      requires Valid() && h < numHeadsQ
      ensures Group() > 0 && h / Group() < numHeadsKV
    {
      DivModEquation(numHeadsQ, numHeadsKV);
      MulCommutes(Group(), numHeadsKV);
      QuotientBelow(h, numHeadsKV, Group());
    }
  }

  /** The input buffers, flat. */
  datatype Buffers = Buffers(q: seq<real>, k: seq<real>, v: seq<real>, kCache: seq<real>, vCache: seq<real>)
  {
    predicate Fit(s: Shape) {
      && |s.qo| == |s.kv| == |s.cache|
      && |q| == BatchStart(s.qo, s.numHeadsQ, s.headSizeQK, |s.qo|)
      && |k| == BatchStart(s.kv, s.numHeadsKV, s.headSizeQK, |s.kv|)
      && |v| == BatchStart(s.kv, s.numHeadsKV, s.headSizeVO, |s.kv|)
      && |kCache| == BatchStart(s.cache, s.numHeadsKV, s.headSizeQK, |s.cache|)
      && |vCache| == BatchStart(s.cache, s.numHeadsKV, s.headSizeVO, |s.cache|)
    }
  }

  /** How cached sequences are stored: in order when the page size is zero, otherwise in pages
      listed by one table per sequence. */
  datatype Paging = Paging(size: nat, tables: seq<seq<nat>>)
  {
    function Table(b: nat): seq<nat> {
      if b < |tables| then tables[b] else []
    }

    ghost predicate Fit(cache: seq<nat>) {
      size > 0 ==> forall b :: 0 <= b < |cache| && cache[b] > 0 ==> InSegment(Table(b), size, cache[b])
    }
  }

  const CONTIGUOUS := Paging(0, [])

  /** The rows of one head's segment. */
  function Segment(buf: seq<real>, lens: seq<nat>, heads: nat, width: nat, b: nat, h: nat): (rows: seq<seq<real>>)
    requires b < |lens| && h < heads && |buf| == BatchStart(lens, heads, width, |lens|)
    ensures |rows| == lens[b] && Uniform(rows, width)
  {
    HeadFits(lens, heads, width, b, h);
    RowsAt(buf, HeadStart(lens, heads, width, b, h), lens[b], width)
  }

  // The n rows that lie from start on.
  function RowsAt(buf: seq<real>, start: nat, n: nat, width: nat): (rows: seq<seq<real>>)
    requires start + n * width <= |buf|
    ensures |rows| == n && Uniform(rows, width)
  {
    Rows(buf[start..start + n * width], n, width)
  }

  function Zip(keys: seq<seq<real>>, values: seq<seq<real>>): (tokens: seq<Token>)
    requires |keys| == |values|
    ensures |tokens| == |keys|
  {
    seq(|keys|, j requires 0 <= j < |keys| => Token(keys[j], values[j]))
  }

  function Keys(tokens: seq<Token>): (rows: seq<seq<real>>)
    ensures |rows| == |tokens|
  {
    seq(|tokens|, j requires 0 <= j < |tokens| => tokens[j].key)
  }

  function Values(tokens: seq<Token>): (rows: seq<seq<real>>)
    ensures |rows| == |tokens|
  {
    seq(|tokens|, j requires 0 <= j < |tokens| => tokens[j].value)
  }

  lemma ZipKeysValues(tokens: seq<Token>)
    ensures Zip(Keys(tokens), Values(tokens)) == tokens
  {
  }

  function FinRows(rows: seq<seq<real>>): (r: seq<seq<Ext>>)
    ensures |r| == |rows| && forall i :: 0 <= i < |rows| ==> |r[i]| == |rows[i]|
  {
    seq(|rows|, i requires 0 <= i < |rows| => seq(|rows[i]|, d requires 0 <= d < |rows[i]| => Fin(rows[i][d])))
  }

  datatype Problem = Problem(sm: Softmax, causal: bool, shape: Shape, bufs: Buffers, paging: Paging)
  {
    ghost predicate Valid() {
      sm.Valid() && shape.Valid() && bufs.Fit(shape) && paging.Fit(shape.cache)
    }

    predicate InBatch(b: nat, h: nat) {
      b < |shape.qo| && h < shape.numHeadsQ
    }

    function Queries(b: nat, h: nat): (r: seq<seq<real>>)
      requires shape.Valid() && bufs.Fit(shape) && InBatch(b, h)
      ensures |r| == shape.qo[b]
    {
      Segment(bufs.q, shape.qo, shape.numHeadsQ, shape.headSizeQK, b, h)
    }

    /** The new tokens of key/value head g. */
    function Added(b: nat, g: nat): (r: seq<Token>)
      requires shape.Valid() && bufs.Fit(shape) && b < |shape.qo| && g < shape.numHeadsKV
      ensures |r| == shape.kv[b]
    {
      Zip(Segment(bufs.k, shape.kv, shape.numHeadsKV, shape.headSizeQK, b, g),
          Segment(bufs.v, shape.kv, shape.numHeadsKV, shape.headSizeVO, b, g))
    }

    function CachedKeys(b: nat, g: nat): (r: seq<seq<real>>)
      requires shape.Valid() && bufs.Fit(shape) && b < |shape.qo| && g < shape.numHeadsKV
      ensures |r| == shape.cache[b]
    {
      Segment(bufs.kCache, shape.cache, shape.numHeadsKV, shape.headSizeQK, b, g)
    }

    function CachedValues(b: nat, g: nat): (r: seq<seq<real>>)
      requires shape.Valid() && bufs.Fit(shape) && b < |shape.qo| && g < shape.numHeadsKV
      ensures |r| == shape.cache[b]
    {
      Segment(bufs.vCache, shape.cache, shape.numHeadsKV, shape.headSizeVO, b, g)
    }

    /** The cached tokens of key/value head g, in the order the page table presents them. */
    function Cached(b: nat, g: nat): (r: seq<Token>)
      requires shape.Valid() && bufs.Fit(shape) && paging.Fit(shape.cache) && b < |shape.qo| && g < shape.numHeadsKV
      ensures |r| == shape.cache[b]
    {
      Zip(Presented(CachedKeys(b, g), paging.size, paging.Table(b)),
          Presented(CachedValues(b, g), paging.size, paging.Table(b)))
    }

    /** The tensors that query head h of sequence b attends with: its own queries, and the tokens of
        key/value head h / Group(). */
    function HeadAt(b: nat, h: nat): (r: Head)
      requires shape.Valid() && bufs.Fit(shape) && paging.Fit(shape.cache) && InBatch(b, h)
      ensures |r.queries| == shape.qo[b] && |r.cached| == shape.cache[b] && |r.added| == shape.kv[b] && r.HasKeys()
    {
      var g := shape.KVHead(h);
      Head(Queries(b, h), Cached(b, g), Added(b, g))
    }

    /** The slice of the output that one head fills. */
    ghost function Block(b: nat, h: nat): seq<Ext>
      requires Valid() && InBatch(b, h)
    {
      Flatten(FinRows(HeadAt(b, h).Outputs(sm, causal, shape.headSizeVO)))
    }

    ghost function Blocks(): (nat, nat) -> seq<Ext>
      requires Valid()
    {
      (b: nat, h: nat) => if InBatch(b, h) then Block(b, h) else []
    }

    /** Everything written before head h of sequence b. */
    ghost function UpTo(b: nat, h: nat): seq<Ext>
      requires Valid()
    {
      Walk(Blocks(), shape.numHeadsQ, b, h)
    }

    /** The whole output buffer. */
    ghost function Output(): seq<Ext>
      requires Valid()
    {
      UpTo(|shape.qo|, 0)
    }

    lemma BlockRows(b: nat, h: nat)
      requires Valid() && InBatch(b, h)
      ensures var rows := FinRows(HeadAt(b, h).Outputs(sm, causal, shape.headSizeVO));
              && |rows| == shape.qo[b] && Uniform(rows, shape.headSizeVO)
              && (forall i: nat, d: nat :: i < shape.qo[b] && d < shape.headSizeVO ==>
                    rows[i][d] == Fin(HeadAt(b, h).Output(sm, causal, i, d)))
      ensures |Block(b, h)| == shape.qo[b] * shape.headSizeVO
    {
      FlattenLength(FinRows(HeadAt(b, h).Outputs(sm, causal, shape.headSizeVO)), shape.headSizeVO);
    }

    lemma BlockSizes()
      requires Valid()
      ensures BlocksSized(Blocks(), shape.qo, shape.numHeadsQ, shape.headSizeVO)
    {
      forall b: nat, h: nat | InBatch(b, h)
        ensures |Blocks()(b, h)| == shape.qo[b] * shape.headSizeVO
      {
        BlockRows(b, h);
      }
    }

    /** The flat output holds, at the position of (b, h, i, d), exactly that head's attention output. */
    lemma OutputElement(b: nat, h: nat, i: nat, d: nat)
      requires Valid() && InRange(shape.qo, shape.numHeadsQ, shape.headSizeVO, b, h, i, d)
      ensures |Output()| == BatchStart(shape.qo, shape.numHeadsQ, shape.headSizeVO, |shape.qo|)
      ensures Position(shape.qo, shape.numHeadsQ, shape.headSizeVO, b, h, i, d) < |Output()|
      ensures Output()[Position(shape.qo, shape.numHeadsQ, shape.headSizeVO, b, h, i, d)]
           == Fin(HeadAt(b, h).Output(sm, causal, i, d))
    {
      var start, o := HeadStart(shape.qo, shape.numHeadsQ, shape.headSizeVO, b, h), i * shape.headSizeVO + d;
      BlockElement(b, h, i, d, o);
      BlockInOutput(b, h, o, start);
      assert Position(shape.qo, shape.numHeadsQ, shape.headSizeVO, b, h, i, d) == start + o;
    }

    lemma BlockInOutput(b: nat, h: nat, o: nat, start: nat)
      requires Valid() && InBatch(b, h) && o < |Block(b, h)|
      requires start == HeadStart(shape.qo, shape.numHeadsQ, shape.headSizeVO, b, h)
      ensures |Output()| == BatchStart(shape.qo, shape.numHeadsQ, shape.headSizeVO, |shape.qo|)
      ensures start + o < |Output()| && Output()[start + o] == Block(b, h)[o]
    {
      BlockSizes();
      WalkElement(Blocks(), shape.qo, shape.numHeadsQ, shape.headSizeVO, b, h, o);
    }

    lemma BlockElement(b: nat, h: nat, i: nat, d: nat, o: nat)
      requires Valid() && InRange(shape.qo, shape.numHeadsQ, shape.headSizeVO, b, h, i, d)
      requires o == i * shape.headSizeVO + d
      ensures o < |Block(b, h)| && Block(b, h)[o] == Fin(HeadAt(b, h).Output(sm, causal, i, d))
    {
      BlockRows(b, h);
      FlattenAt(FinRows(HeadAt(b, h).Outputs(sm, causal, shape.headSizeVO)), shape.headSizeVO, i, d);
    }
  }

  /** An element of a block, found in the finished output. */
  lemma WalkElement<T>(block: (nat, nat) -> seq<T>, lens: seq<nat>, heads: nat, width: nat, b: nat, h: nat, o: nat)
    requires BlocksSized(block, lens, heads, width) && b < |lens| && h < heads && o < |block(b, h)|
    ensures |Walk(block, heads, |lens|, 0)| == BatchStart(lens, heads, width, |lens|)
    ensures HeadStart(lens, heads, width, b, h) + o < |Walk(block, heads, |lens|, 0)|
    ensures Walk(block, heads, |lens|, 0)[HeadStart(lens, heads, width, b, h) + o] == block(b, h)[o]
  {
    WalkBlock(block, lens, heads, width, b, h);
    SliceElement(Walk(block, heads, |lens|, 0), block(b, h), HeadStart(lens, heads, width, b, h), o);
  }

  lemma SliceElement<T>(s: seq<T>, block: seq<T>, start: nat, o: nat)
    requires start + |block| <= |s| && s[start..start + |block|] == block && o < |block|
    ensures s[start + o] == block[o]
  {
  }

  // ----- paging does not change the output

  /** Every table is a shuffle of its sequence's pages. */
  ghost predicate Shuffled(paging: Paging, cache: seq<nat>) {
    paging.size > 0 ==> forall b :: 0 <= b < |cache| ==> IsShuffle(paging.Table(b), CeilDiv(cache[b], paging.size))
  }

  lemma ZipGather(keys: seq<seq<real>>, values: seq<seq<real>>, table: seq<nat>, size: nat)
    requires |keys| == |values| && InSegment(table, size, |keys|)
    ensures Zip(Gather(keys, table, size), Gather(values, table, size)) == Gather(Zip(keys, values), table, size)
  {
    var x, y := Zip(Gather(keys, table, size), Gather(values, table, size)), Gather(Zip(keys, values), table, size);
    forall j | 0 <= j < |keys|
      ensures x[j] == y[j]
    {
      PhysicalRowInSegment(table, size, |keys|, j);
    }
  }

  /** Keys and values go through the same table, so the tokens of a head are only rearranged. */
  lemma PagedTokensRearranged(keys: seq<seq<real>>, values: seq<seq<real>>, size: nat, table: seq<nat>)
    requires |keys| == |values|
    requires size > 0 && |keys| > 0 ==> InSegment(table, size, |keys|) && IsShuffle(table, CeilDiv(|keys|, size))
    ensures multiset(Zip(Presented(keys, size, table), Presented(values, size, table))) == multiset(Zip(keys, values))
  {
    if size > 0 && |keys| > 0 {
      ZipGather(keys, values, table, size);
      GatherRearranges(Zip(keys, values), table, size);
    }
  }

  lemma HeadIgnoresPaging(p: Problem, b: nat, h: nat)
    requires p.Valid() && Shuffled(p.paging, p.shape.cache) && p.InBatch(b, h)
    ensures p.(paging := CONTIGUOUS).Block(b, h) == p.Block(b, h)
  {
    var g := p.shape.KVHead(h);
    PagedTokensRearranged(p.CachedKeys(b, g), p.CachedValues(b, g), p.paging.size, p.paging.Table(b));
    var plain := p.(paging := CONTIGUOUS).HeadAt(b, h);
    assert plain.cached == Zip(p.CachedKeys(b, g), p.CachedValues(b, g));
    assert plain.(cached := p.HeadAt(b, h).cached) == p.HeadAt(b, h);
    CacheOrderIrrelevant(p.sm, p.causal, plain, p.HeadAt(b, h).cached, p.shape.headSizeVO);
  }

  /** Reading the caches through shuffled page tables leaves the same output as reading them in
      order, for every batch, every head and every shuffle that stays inside its segments. */
  lemma PagingPreservesOutput(p: Problem)
    requires p.Valid() && Shuffled(p.paging, p.shape.cache)
    ensures p.(paging := CONTIGUOUS).Valid()
    ensures p.(paging := CONTIGUOUS).Output() == p.Output()
  {
    var plain := p.(paging := CONTIGUOUS);
    forall b: nat, h: nat
      ensures plain.Blocks()(b, h) == p.Blocks()(b, h)
    {
      if p.InBatch(b, h) {
        HeadIgnoresPaging(p, b, h);
      }
    }
    WalkAgrees(plain.Blocks(), p.Blocks(), p.shape.numHeadsQ, |p.shape.qo|, 0);
  }
}
