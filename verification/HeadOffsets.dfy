/** The six flat offsets that the check carries across its loops over sequences and heads. */
module HeadOffsets {
  import opened Arithmetic
  import opened GroupedAttention
  import opened HeadLayout

  datatype Offsets = Offsets(q: nat, k: nat, v: nat, kCache: nat, vCache: nat, o: nat)

  /** At head h of sequence b every offset is where the layout puts that head: query and output
      offsets at query head h, key and value offsets at the key/value head it shares. */
  ghost predicate OffsetsAt(off: Offsets, s: Shape, b: nat, h: nat)
    requires s.Valid() && b < |s.qo| && h < s.numHeadsQ
  {
    var g := s.KVHead(h);
    && off.q == HeadStart(s.qo, s.numHeadsQ, s.headSizeQK, b, h)
    && off.o == HeadStart(s.qo, s.numHeadsQ, s.headSizeVO, b, h)
    && off.k == HeadStart(s.kv, s.numHeadsKV, s.headSizeQK, b, g)
    && off.v == HeadStart(s.kv, s.numHeadsKV, s.headSizeVO, b, g)
    && off.kCache == HeadStart(s.cache, s.numHeadsKV, s.headSizeQK, b, g)
    && off.vCache == HeadStart(s.cache, s.numHeadsKV, s.headSizeVO, b, g)
  }

  /** Before the first head of sequence b, and after the last sequence, every offset is at a batch boundary. */
  ghost predicate OffsetsAtBatch(off: Offsets, s: Shape, b: nat)
    requires s.Valid() && b <= |s.qo|
  {
    && off.q == BatchStart(s.qo, s.numHeadsQ, s.headSizeQK, b)
    && off.o == BatchStart(s.qo, s.numHeadsQ, s.headSizeVO, b)
    && off.k == BatchStart(s.kv, s.numHeadsKV, s.headSizeQK, b)
    && off.v == BatchStart(s.kv, s.numHeadsKV, s.headSizeVO, b)
    && off.kCache == BatchStart(s.cache, s.numHeadsKV, s.headSizeQK, b)
    && off.vCache == BatchStart(s.cache, s.numHeadsKV, s.headSizeVO, b)
  }

  /** Where the walk stands when h heads of sequence b are done. */
  ghost predicate Walked(off: Offsets, s: Shape, b: nat, h: nat)
    requires s.Valid() && b < |s.qo| && h <= s.numHeadsQ
  {
    if h < s.numHeadsQ then OffsetsAt(off, s, b, h) else OffsetsAtBatch(off, s, b + 1)
  }

  lemma WalkStarts(off: Offsets, s: Shape, b: nat)
    requires s.Valid() && b < |s.qo| && OffsetsAtBatch(off, s, b)
    ensures OffsetsAt(off, s, b, 0)
  {
    s.KVHeadInRange(0);
    DivUnique(0, s.Group(), 0, 0);
    FirstHead(s.qo, s.numHeadsQ, s.headSizeQK, b);
    FirstHead(s.qo, s.numHeadsQ, s.headSizeVO, b);
    FirstHead(s.kv, s.numHeadsKV, s.headSizeQK, b);
    FirstHead(s.kv, s.numHeadsKV, s.headSizeVO, b);
    FirstHead(s.cache, s.numHeadsKV, s.headSizeQK, b);
    FirstHead(s.cache, s.numHeadsKV, s.headSizeVO, b);
  }

  /** One offset of a head-indexed buffer, moved to the next head or to the next batch. */
  lemma OffsetMoves(lens: seq<nat>, heads: nat, width: nat, b: nat, h: nat)
    requires b < |lens| && h < heads
    ensures HeadStart(lens, heads, width, b, h) + lens[b] * width
         == if h + 1 < heads then HeadStart(lens, heads, width, b, h + 1) else BatchStart(lens, heads, width, b + 1)
  {
    HeadStep(lens, heads, width, b, h);
    if h + 1 == heads {
      PastLastHead(lens, heads, width, b);
    }
  }

  /** The group counter reaches a multiple of the group size exactly at the last query head of
      each key/value head. */
  lemma GroupCounter(s: Shape, h: nat)
    requires s.Valid() && h < s.numHeadsQ
    ensures s.Group() > 0
    ensures h + 1 < s.numHeadsQ ==>
      s.KVHead(h + 1) == if (h + 1) % s.Group() == 0 then s.KVHead(h) + 1 else s.KVHead(h)
    ensures h + 1 == s.numHeadsQ ==> (h + 1) % s.Group() == 0 && s.KVHead(h) + 1 == s.numHeadsKV
  {
    s.KVHeadInRange(h);
    GroupStep(h, s.Group());
    if h + 1 == s.numHeadsQ {
      DivModEquation(s.numHeadsQ, s.numHeadsKV);
      MulCommutes(s.Group(), s.numHeadsKV);
      DivUnique(s.numHeadsQ, s.Group(), s.numHeadsKV, 0);
    }
  }

  lemma KVOffsetMoves(s: Shape, lens: seq<nat>, width: nat, b: nat, h: nat)
    requires s.Valid() && b < |lens| && h < s.numHeadsQ
    ensures s.Group() > 0
    ensures var from := HeadStart(lens, s.numHeadsKV, width, b, s.KVHead(h));
            (if (h + 1) % s.Group() == 0 then from + lens[b] * width else from)
            == if h + 1 < s.numHeadsQ then HeadStart(lens, s.numHeadsKV, width, b, s.KVHead(h + 1))
               else BatchStart(lens, s.numHeadsKV, width, b + 1)
  {
    GroupCounter(s, h);
    OffsetMoves(lens, s.numHeadsKV, width, b, s.KVHead(h));
  }

  /** The updates at the end of the head loop. */
  method Advance(off: Offsets, kvGroupUpdate: nat, qGroupSize: nat, seqLenQO: nat, seqLenKV: nat, seqLenKVCache: nat,
                 headSizeQK: nat, headSizeVO: nat, ghost s: Shape, ghost b: nat, ghost h: nat)
    returns (next: Offsets)
    requires s.Valid() && b < |s.qo| && h < s.numHeadsQ && OffsetsAt(off, s, b, h)
    requires kvGroupUpdate == h + 1 && qGroupSize == s.Group()
    requires headSizeQK == s.headSizeQK && headSizeVO == s.headSizeVO
    requires seqLenQO == s.qo[b] && seqLenKV == s.kv[b] && seqLenKVCache == s.cache[b]
    ensures Walked(next, s, b, h + 1)
    ensures next.o == off.o + seqLenQO * headSizeVO
  {
    OffsetMoves(s.qo, s.numHeadsQ, headSizeQK, b, h);
    OffsetMoves(s.qo, s.numHeadsQ, headSizeVO, b, h);
    KVOffsetMoves(s, s.kv, headSizeQK, b, h);
    KVOffsetMoves(s, s.kv, headSizeVO, b, h);
    KVOffsetMoves(s, s.cache, headSizeQK, b, h);
    KVOffsetMoves(s, s.cache, headSizeVO, b, h);
    next := off.(q := off.q + seqLenQO * headSizeQK);
    if kvGroupUpdate % qGroupSize == 0 {
      next := next.(k := next.k + seqLenKV * headSizeQK, v := next.v + seqLenKV * headSizeVO,
                    kCache := next.kCache + seqLenKVCache * headSizeQK,
                    vCache := next.vCache + seqLenKVCache * headSizeVO);
    }
    next := next.(o := next.o + seqLenQO * headSizeVO);
  }
}
