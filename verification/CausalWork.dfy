/** The benchmark's closed-form work count against the mask that the check applies. */
module CausalWork {
  import opened Arithmetic
  import opened Attention
  import opened SoftmaxRow

  /** (row, new key) pairs that the mask leaves visible. */
  ghost function UnmaskedPairs(causal: bool, seqLenQO: nat, seqLenKV: nat, seqLenKVCache: nat): set<(nat, nat)> {
    set r: nat, c: nat | r < seqLenQO && c < seqLenKV
      && !(causal && Masked(seqLenQO, seqLenKV, seqLenKVCache, r, seqLenKVCache + c)) :: (r, c)
  }

  function EffectiveSeqLenQO(causal: bool, seqLenQO: nat, seqLenKV: nat): nat {
    var offset := Min(seqLenQO, seqLenKV);
    var discardSeqCoord := seqLenQO - offset;
    if causal then seqLenQO - discardSeqCoord else seqLenQO
  }

  function EffectiveSeqLenKV(causal: bool, seqLenQO: nat, seqLenKV: nat): real {
    var offset := Min(seqLenQO, seqLenKV);
    var fullTileOffset := seqLenKV - offset;
    if causal then fullTileOffset as real + (offset + 1) as real / 2.0 else seqLenKV as real
  }

  // New keys that row r sees.
  function RowCount(causal: bool, q: nat, kv: nat, r: nat): nat {
    if !causal then kv
    else if r + kv < q then 0
    else if r < q then r + kv - q + 1
    else kv
  }

  function NewKeys(causal: bool, q: nat, kv: nat): nat -> nat {
    (r: nat) => RowCount(causal, q, kv, r)
  }

  ghost function Prefix(r: nat, n: nat): set<(nat, nat)> {
    set c: nat | c < n :: (r, c)
  }

  lemma {:induction false} PrefixSize(r: nat, n: nat)
    ensures |Prefix(r, n)| == n
  {
    if n > 0 {
      PrefixSize(r, n - 1);
      assert Prefix(r, n) == Prefix(r, n - 1) + {(r, n - 1)};
    }
  }

  /** The pairs of a matrix whose row r reaches up to column f(r). */
  ghost function PairsUpTo(f: nat -> nat, rows: nat): set<(nat, nat)> {
    set r: nat, c: nat | r < rows && c < f(r) :: (r, c)
  }

  function CountUpTo(f: nat -> nat, rows: nat): nat {
    if rows == 0 then 0 else CountUpTo(f, rows - 1) + f(rows - 1)
  }

  lemma {:induction false} PairsCounted(f: nat -> nat, rows: nat)
    ensures |PairsUpTo(f, rows)| == CountUpTo(f, rows)
  {
    if rows > 0 {
      var r := rows - 1;
      PairsCounted(f, r);
      PrefixSize(r, f(r));
      var a, b := PairsUpTo(f, r), Prefix(r, f(r));
      assert PairsUpTo(f, rows) == a + b;
      assert a !! b;
    }
  }

  lemma TriangleStep(k: nat, base: nat)
    requires k > 0
    ensures (k - 1) * (2 * base + k) + 2 * (base + k) == k * (2 * base + k + 1)
  {
  }

  /** Twice the count of the first rows, in closed form: nothing for the discarded rows, then one
      more per row. */
  lemma {:induction false} CountClosedForm(q: nat, kv: nat, rows: nat, start: nat, base: nat)
    requires rows <= q && start == q - Min(q, kv) && base == kv - Min(q, kv)
    ensures rows <= start ==> CountUpTo(NewKeys(true, q, kv), rows) == 0
    ensures rows >= start ==>
      2 * CountUpTo(NewKeys(true, q, kv), rows) == (rows - start) * (2 * base + (rows - start) + 1)
  {
    if rows > 0 {
      CountClosedForm(q, kv, rows - 1, start, base);
      if rows > start {
        var k := rows - start;
        assert RowCount(true, q, kv, rows - 1) == base + k;
        TriangleStep(k, base);
      }
    }
  }

  lemma {:induction false} CountUnmasked(q: nat, kv: nat, rows: nat)
    ensures CountUpTo(NewKeys(false, q, kv), rows) == rows * kv
  {
    if rows > 0 {
      CountUnmasked(q, kv, rows - 1);
      assert (rows - 1) * kv + kv == rows * kv;
    }
  }

  lemma CausalCountMatches(q: nat, kv: nat, m: nat, x: real, y: real)
    requires m == Min(q, kv) && x == m as real && y == (kv - m) as real + (m + 1) as real / 2.0
    ensures CountUpTo(NewKeys(true, q, kv), q) as real == x * y
  {
    CountClosedForm(q, kv, q, q - m, kv - m);
    RealHalf(CountUpTo(NewKeys(true, q, kv), q), m, kv - m);
  }

  lemma EffectiveLengths(causal: bool, q: nat, kv: nat, m: nat)
    requires m == Min(q, kv) && causal
    ensures EffectiveSeqLenQO(causal, q, kv) == m
    ensures EffectiveSeqLenKV(causal, q, kv) == (kv - m) as real + (m + 1) as real / 2.0
  {
  }

  // The count is x * y for the effective lengths x and y.
  lemma CountIsProduct(causal: bool, q: nat, kv: nat, x: real, y: real)
    requires x == EffectiveSeqLenQO(causal, q, kv) as real && y == EffectiveSeqLenKV(causal, q, kv)
    ensures CountUpTo(NewKeys(causal, q, kv), q) as real == x * y
  {
    if causal {
      EffectiveLengths(causal, q, kv, Min(q, kv));
      CausalCountMatches(q, kv, Min(q, kv), x, y);
    } else {
      CountUnmasked(q, kv, q);
      ProductAsReal(q, kv);
    }
  }

  lemma RealHalf(n: nat, m: nat, t: nat)
    requires 2 * n == m * (2 * t + m + 1)
    ensures n as real == m as real * (t as real + (m + 1) as real / 2.0)
  {
    assert 2.0 * n as real == (2 * n) as real == (m * (2 * t + m + 1)) as real;
    ProductAsReal(m, 2 * t + m + 1);
  }

  lemma {:induction false} ProductAsReal(a: nat, b: nat)
    ensures (a * b) as real == a as real * b as real
  {
  }

  lemma UnmaskedCount(causal: bool, q: nat, kv: nat, n: nat)
    ensures |UnmaskedPairs(causal, q, kv, n)| == CountUpTo(NewKeys(causal, q, kv), q)
  {
    assert UnmaskedPairs(causal, q, kv, n) == PairsUpTo(NewKeys(causal, q, kv), q);
    PairsCounted(NewKeys(causal, q, kv), q);
  }

  /** The pairs left unmasked number exactly effective_seq_len_qo times effective_seq_len_kv, for all
      lengths, causal or not, whichever of the two lengths is the larger. */
  lemma WorkFormulaExact(causal: bool, seqLenQO: nat, seqLenKV: nat, seqLenKVCache: nat)
    ensures |UnmaskedPairs(causal, seqLenQO, seqLenKV, seqLenKVCache)| as real
         == EffectiveSeqLenQO(causal, seqLenQO, seqLenKV) as real * EffectiveSeqLenKV(causal, seqLenQO, seqLenKV)
  {
    UnmaskedCount(causal, seqLenQO, seqLenKV, seqLenKVCache);
    CountIsProduct(causal, seqLenQO, seqLenKV, EffectiveSeqLenQO(causal, seqLenQO, seqLenKV) as real,
                   EffectiveSeqLenKV(causal, seqLenQO, seqLenKV));
  }

  // ----- the cached keys that the formula leaves out

  /** (row, key) pairs that the output depends on, cached keys included. */
  ghost function VisiblePairs(causal: bool, q: nat, kv: nat, cache: nat): set<(nat, nat)> {
    set r: nat, c: nat | r < q && c < cache + kv
      && !Discarded(causal, q, kv, r) && c < VisibleCount(causal, q, cache, kv, r) :: (r, c)
  }

  // All keys that row r sees.
  function AllKeys(causal: bool, q: nat, kv: nat, cache: nat): nat -> nat {
    (r: nat) => if r >= q || Discarded(causal, q, kv, r) then 0 else VisibleCount(causal, q, cache, kv, r)
  }

  lemma {:induction false} AllKeysCount(causal: bool, q: nat, kv: nat, cache: nat, rows: nat, start: nat)
    requires rows <= q && start == q - EffectiveSeqLenQO(causal, q, kv)
    ensures CountUpTo(AllKeys(causal, q, kv, cache), rows)
         == CountUpTo(NewKeys(causal, q, kv), rows) + (if rows <= start then 0 else rows - start) * cache
  {
    if rows > 0 {
      AllKeysCount(causal, q, kv, cache, rows - 1, start);
      if rows > start {
        MulSucc(rows - 1 - start, cache);
      }
    }
  }

  lemma VisibleCountAll(causal: bool, q: nat, kv: nat, cache: nat)
    ensures |VisiblePairs(causal, q, kv, cache)|
         == |UnmaskedPairs(causal, q, kv, cache)| + EffectiveSeqLenQO(causal, q, kv) * cache
  {
    assert VisiblePairs(causal, q, kv, cache) == PairsUpTo(AllKeys(causal, q, kv, cache), q);
    PairsCounted(AllKeys(causal, q, kv, cache), q);
    AllKeysCount(causal, q, kv, cache, q, q - EffectiveSeqLenQO(causal, q, kv));
    UnmaskedCount(causal, q, kv, cache);
  }

  /** The formula counts every pair that the output depends on exactly when there is no cache, or no
      row sees anything. */
  lemma FormulaCountsAllWork(causal: bool, seqLenQO: nat, seqLenKV: nat, seqLenKVCache: nat)
    ensures |VisiblePairs(causal, seqLenQO, seqLenKV, seqLenKVCache)| as real
         == EffectiveSeqLenQO(causal, seqLenQO, seqLenKV) as real * EffectiveSeqLenKV(causal, seqLenQO, seqLenKV)
       <==> seqLenKVCache == 0 || seqLenQO == 0 || (causal && seqLenKV == 0)
  {
    VisibleCountAll(causal, seqLenQO, seqLenKV, seqLenKVCache);
    WorkFormulaExact(causal, seqLenQO, seqLenKV, seqLenKVCache);
    ZeroProduct(EffectiveSeqLenQO(causal, seqLenQO, seqLenKV), seqLenKVCache);
  }

  lemma ZeroProduct(a: nat, b: nat)
    ensures a * b == 0 <==> a == 0 || b == 0
  {
  }

  /** The reported operation count of both products: two per unmasked pair and coordinate, for every
      sequence and query head. */
  function Flops(causal: bool, batch: nat, numHeadsQ: nat, seqLenQO: nat, seqLenKV: nat,
                 headSizeQK: nat, headSizeVO: nat): real
  {
    var effectiveQO := EffectiveSeqLenQO(causal, seqLenQO, seqLenKV) as real;
    var effectiveKV := EffectiveSeqLenKV(causal, seqLenQO, seqLenKV);
    var flopsQK := 2.0 * batch as real * numHeadsQ as real * effectiveQO * effectiveKV * headSizeQK as real;
    var flopsPV := 2.0 * batch as real * numHeadsQ as real * effectiveQO * headSizeVO as real * effectiveKV;
    flopsQK + flopsPV
  }

  /** With fixed lengths: two operations per unmasked pair and coordinate. */
  lemma FlopsCountPairs(causal: bool, batch: nat, numHeadsQ: nat, seqLenQO: nat, seqLenKV: nat,
                        seqLenKVCache: nat, headSizeQK: nat, headSizeVO: nat)
    ensures Flops(causal, batch, numHeadsQ, seqLenQO, seqLenKV, headSizeQK, headSizeVO)
         == 2.0 * batch as real * numHeadsQ as real * (headSizeQK as real + headSizeVO as real)
            * |UnmaskedPairs(causal, seqLenQO, seqLenKV, seqLenKVCache)| as real
  {
    WorkFormulaExact(causal, seqLenQO, seqLenKV, seqLenKVCache);
    Regroup(2.0 * batch as real * numHeadsQ as real, EffectiveSeqLenQO(causal, seqLenQO, seqLenKV) as real,
            EffectiveSeqLenKV(causal, seqLenQO, seqLenKV), headSizeQK as real, headSizeVO as real);
  }

  lemma Regroup(a: real, x: real, y: real, c: real, d: real)
    ensures a * x * y * c + a * x * d * y == a * (c + d) * (x * y)
  {
  }
}
