/** Softmax attention as mathematics: what one head of the host reference is meant
    to compute, and the laws that meaning obeys. */
module Attention {
  import opened Bags
  import opened Reals

  /** One key with the value stored beside it. */
  datatype Token = Token(key: seq<real>, value: seq<real>)
  {
    // Coordinate d of the value; coordinates past its width are zero.
    function At(d: nat): real {
      if d < |value| then value[d] else 0.0
    }
  }

  // Named so that the law below is only instantiated where a proof mentions it.
  ghost predicate ExpAdds(exp: real -> real, a: real, b: real) {
    exp(a + b) == exp(a) * exp(b)
  }

  /** The two facts about the exponential that the results rest on. */
  ghost predicate IsExponential(exp: real -> real) {
    && (forall x :: exp(x) > 0.0)
    && (forall a, b :: ExpAdds(exp, a, b))
  }

  /** The exponential, and the divisor (the square root of the key width) applied to scores. */
  datatype Softmax = Softmax(exp: real -> real, scale: PositiveReal)
  {
    ghost predicate Valid() {
      IsExponential(exp)
    }
  }

  function Products(x: seq<real>, y: seq<real>): seq<real> {
    seq(if |x| <= |y| then |x| else |y|, i requires 0 <= i < |x| && i < |y| => x[i] * y[i])
  }

  // Inner product over the common length.
  function Dot(x: seq<real>, y: seq<real>): real {
    Sum(Products(x, y))
  }

  lemma {:induction false} SumChange(xs: seq<real>, ys: seq<real>, k: nat)
    requires k < |xs| == |ys| && forall i :: 0 <= i < |xs| && i != k ==> xs[i] == ys[i]
    ensures Sum(ys) == Sum(xs) + (ys[k] - xs[k])
  {
    var n := |xs| - 1;
    if k == n {
      assert xs[..n] == ys[..n];
    } else {
      SumChange(xs[..n], ys[..n], k);
    }
  }

  lemma {:induction false} SumOfZeros(xs: seq<real>)
    requires forall i :: 0 <= i < |xs| ==> xs[i] == 0.0
    ensures Sum(xs) == 0.0
  {
    if |xs| > 0 {
      SumOfZeros(xs[..|xs| - 1]);
    }
  }

  /** A score is linear in every coordinate of the key ... */
  lemma DotMovesWithKey(q: seq<real>, key: seq<real>, k: nat, v: real)
    requires |q| == |key| && k < |key|
    ensures Dot(q, key[k := v]) == Dot(q, key) + q[k] * (v - key[k])
  {
    SumChange(Products(q, key), Products(q, key[k := v]), k);
    assert q[k] * v - q[k] * key[k] == q[k] * (v - key[k]);
  }

  /** ... and of the query ... */
  lemma DotMovesWithQuery(q: seq<real>, key: seq<real>, k: nat, v: real)
    requires |q| == |key| && k < |q|
    ensures Dot(q[k := v], key) == Dot(q, key) + (v - q[k]) * key[k]
  {
    SumChange(Products(q, key), Products(q[k := v], key), k);
    assert v * key[k] - q[k] * key[k] == (v - q[k]) * key[k];
  }

  /** ... and zero for a key or a query of zeros. */
  lemma DotOfZeros(q: seq<real>, key: seq<real>)
    requires |q| == |key|
    requires (forall k :: 0 <= k < |key| ==> key[k] == 0.0) || (forall k :: 0 <= k < |q| ==> q[k] == 0.0)
    ensures Dot(q, key) == 0.0
  {
    SumOfZeros(Products(q, key));
  }

  /** The unnormalised softmax weight a query gives to a token. */
  function Weight(sm: Softmax, q: seq<real>): Token -> real {
    (t: Token) => sm.exp(Dot(q, t.key) / sm.scale)
  }

  lemma ExpOfZero(exp: real -> real)
    requires IsExponential(exp)
    ensures exp(0.0) == 1.0
  {
    ExpOfDouble(exp, 0.0, 0.0);
    OnlyOneSquaresToItself(exp(0.0));
  }

  lemma ExpOfDouble(exp: real -> real, x: real, y: real)
    requires IsExponential(exp) && y == x + x
    ensures exp(x) > 0.0 && exp(y) == exp(x) * exp(x)
  {
    assert ExpAdds(exp, x, x);
  }

  lemma OnlyOneSquaresToItself(y: real)
    requires y > 0.0 && y == y * y
    ensures y == 1.0
  {
    assert y * (y - 1.0) == 0.0;
  }

  lemma SplitQuotient(a: real, b: real, c: PositiveReal)
    ensures (a + b) / c == a / c + b / c
  {
  }

  lemma ExpOfScaledSum(sm: Softmax, a: real, b: real)
    requires sm.Valid()
    ensures sm.exp((a + b) / sm.scale) == sm.exp(a / sm.scale) * sm.exp(b / sm.scale)
  {
    SplitQuotient(a, b, sm.scale);
    assert ExpAdds(sm.exp, a / sm.scale, b / sm.scale);
  }

  /** A key coordinate moves the weight by the exponential of its product with the query coordinate over the
      scale; a key of zeros weighs one. */
  lemma WeightMoves(sm: Softmax, q: seq<real>, t: Token, k: nat, v: real)
    requires sm.Valid() && |q| == |t.key| && k < |q|
    ensures Weight(sm, q)(t.(key := t.key[k := v]))
         == Weight(sm, q)(t) * sm.exp(q[k] * (v - t.key[k]) / sm.scale)
    ensures (forall c :: 0 <= c < |q| ==> t.key[c] == 0.0) ==> Weight(sm, q)(t) == 1.0
  {
    DotMovesWithKey(q, t.key, k, v);
    ExpOfScaledSum(sm, Dot(q, t.key), q[k] * (v - t.key[k]));
    if forall c :: 0 <= c < |q| ==> t.key[c] == 0.0 {
      DotOfZeros(q, t.key);
      ExpOfZero(sm.exp);
    }
  }

  function WeightedValue(sm: Softmax, q: seq<real>, d: nat): Token -> real {
    (t: Token) => Weight(sm, q)(t) * t.At(d)
  }

  function SumBy(f: Token -> real, tokens: seq<Token>): real {
    if |tokens| == 0 then 0.0
    else
      var n := |tokens| - 1;
      SumBy(f, tokens[..n]) + f(tokens[n])
  }

  lemma {:induction false} SumByPositive(f: Token -> real, tokens: seq<Token>)
    requires forall t :: f(t) > 0.0
    ensures SumBy(f, tokens) >= 0.0 && (|tokens| > 0 ==> SumBy(f, tokens) > 0.0)
  {
    if |tokens| > 0 {
      SumByPositive(f, tokens[..|tokens| - 1]);
    }
  }

  lemma TotalWeightPositive(sm: Softmax, q: seq<real>, tokens: seq<Token>)
    requires sm.Valid() && |tokens| > 0
    ensures SumBy(Weight(sm, q), tokens) > 0.0
  {
    SumByPositive(Weight(sm, q), tokens);
  }

  /** Softmax attention of one query over a non-empty list of tokens, output coordinate d. */
  ghost function Attend(sm: Softmax, q: seq<real>, tokens: seq<Token>, d: nat): real
    requires sm.Valid() && |tokens| > 0
  {
    TotalWeightPositive(sm, q, tokens);
    SumBy(WeightedValue(sm, q, d), tokens) / SumBy(Weight(sm, q), tokens)
  }

  /** Bottom-right aligned causal masking: the last of qLen query rows is level with the
      last of newLen new keys, so row i is level with new key i + newLen - qLen. Rows level
      with no new key are discarded. */
  predicate Discarded(causal: bool, qLen: nat, newLen: nat, i: nat) {
    causal && i + newLen < qLen
  }

  /** How many leading tokens (all cached ones, then new ones) a live row sees. */
  function VisibleCount(causal: bool, qLen: nat, cacheLen: nat, newLen: nat, i: nat): (n: nat)
    requires i < qLen && !Discarded(causal, qLen, newLen, i)
    ensures n <= cacheLen + newLen
    ensures causal ==> n > cacheLen
  {
    if causal then cacheLen + (i + newLen - qLen) + 1 else cacheLen + newLen
  }

  /** Bottom-right alignment: the last row sees every key, each live row sees one key more than the row
      before it, a first row after discarded ones sees one new key, and without a mask every row sees all. */
  lemma VisibleSteps(qLen: nat, cacheLen: nat, newLen: nat, i: nat)
    requires i < qLen
    ensures !Discarded(false, qLen, newLen, i) && VisibleCount(false, qLen, cacheLen, newLen, i) == cacheLen + newLen
    ensures i + 1 == qLen && newLen > 0 ==>
      (!Discarded(true, qLen, newLen, i) && VisibleCount(true, qLen, cacheLen, newLen, i) == cacheLen + newLen)
    ensures i + 1 < qLen && !Discarded(true, qLen, newLen, i) ==>
      (!Discarded(true, qLen, newLen, i + 1)
       && VisibleCount(true, qLen, cacheLen, newLen, i + 1) == VisibleCount(true, qLen, cacheLen, newLen, i) + 1)
    ensures i + 1 < qLen && Discarded(true, qLen, newLen, i) && !Discarded(true, qLen, newLen, i + 1) ==>
      VisibleCount(true, qLen, cacheLen, newLen, i + 1) == cacheLen + 1
  {
  }

  /** The queries, cached tokens and new tokens of one head. */
  datatype Head = Head(queries: seq<seq<real>>, cached: seq<Token>, added: seq<Token>)
  {
    // A query needs at least one key to attend to.
    predicate HasKeys() {
      |queries| > 0 ==> |cached| + |added| > 0
    }

    predicate Discards(causal: bool, i: nat) {
      Discarded(causal, |queries|, |added|, i)
    }

    function Visible(causal: bool, i: nat): seq<Token>
      requires i < |queries| && !Discards(causal, i)
    {
      (cached + added)[..VisibleCount(causal, |queries|, |cached|, |added|, i)]
    }

    /** Coordinate d of output row i: zero for a discarded row. */
    ghost function Output(sm: Softmax, causal: bool, i: nat, d: nat): real
      requires sm.Valid() && HasKeys() && i < |queries|
    {
      if Discards(causal, i) then 0.0 else Attend(sm, queries[i], Visible(causal, i), d)
    }

    /** All output rows, each of the given width. */
    ghost function Outputs(sm: Softmax, causal: bool, width: nat): (rows: seq<seq<real>>)
      requires sm.Valid() && HasKeys()
    {
      seq(|queries|, i requires 0 <= i < |queries| =>
        seq(width, d requires 0 <= d => Output(sm, causal, i, d)))
    }
  }

  lemma OutputsAgree(sm: Softmax, causal: bool, a: Head, b: Head, width: nat)
    requires sm.Valid() && a.HasKeys() && b.HasKeys() && |a.queries| == |b.queries|
    requires forall i, d :: 0 <= i < |a.queries| && 0 <= d < width ==>
                            a.Output(sm, causal, i, d) == b.Output(sm, causal, i, d)
    ensures a.Outputs(sm, causal, width) == b.Outputs(sm, causal, width)
  {
    var x, y := a.Outputs(sm, causal, width), b.Outputs(sm, causal, width);
    forall i | 0 <= i < |a.queries|
      ensures x[i] == y[i]
    {
      assert forall d :: 0 <= d < width ==> x[i][d] == a.Output(sm, causal, i, d) == y[i][d];
    }
  }

  // ----- the order of the tokens does not matter

  lemma {:induction false} SumByRemove(f: Token -> real, tokens: seq<Token>, k: nat)
    requires k < |tokens|
    ensures SumBy(f, tokens) == SumBy(f, tokens[..k] + tokens[k + 1..]) + f(tokens[k])
  {
    var n := |tokens| - 1;
    var rest := tokens[..k] + tokens[k + 1..];
    if k == n {
      assert rest == tokens[..n];
    } else {
      SumByRemove(f, tokens[..n], k);
      assert rest[..n - 1] == tokens[..n][..k] + tokens[..n][k + 1..];
    }
  }

  lemma {:induction false} SumByPermutes(f: Token -> real, a: seq<Token>, b: seq<Token>)
    requires multiset(a) == multiset(b)
    ensures SumBy(f, a) == SumBy(f, b)
    decreases |a|
  {
    SameLength(a, b);
    if |a| > 0 {
      var k := TakeLast(a, b);
      SumByRemove(f, b, k);
      SumByPermutes(f, a[..|a| - 1], b[..k] + b[k + 1..]);
    }
  }

  /** Attention sees the tokens of its context as a bag. */
  lemma AttendPermutes(sm: Softmax, q: seq<real>, a: seq<Token>, b: seq<Token>, d: nat)
    requires sm.Valid() && |a| > 0 && multiset(a) == multiset(b)
    ensures |b| > 0 && Attend(sm, q, a, d) == Attend(sm, q, b, d)
  {
    SameLength(a, b);
    SumByPermutes(Weight(sm, q), a, b);
    SumByPermutes(WeightedValue(sm, q, d), a, b);
  }

  /** Rearranging the cached tokens of a head changes none of its outputs: the mask never
      hides a cached token, so every live row sees the whole rearranged block. */
  lemma CacheOrderIrrelevant(sm: Softmax, causal: bool, h: Head, cached': seq<Token>, width: nat)
    requires sm.Valid() && h.HasKeys() && multiset(h.cached) == multiset(cached')
    ensures h.(cached := cached').HasKeys()
    ensures h.(cached := cached').Outputs(sm, causal, width) == h.Outputs(sm, causal, width)
  {
    SameLength(h.cached, cached');
    var h' := h.(cached := cached');
    forall i: nat, d: nat | i < |h.queries| && d < width
      ensures h.Output(sm, causal, i, d) == h'.Output(sm, causal, i, d)
    {
      if !h.Discards(causal, i) {
        var m := VisibleCount(causal, |h.queries|, |h.cached|, |h.added|, i) - |h.cached|;
        assert h.Visible(causal, i) == h.cached + h.added[..m];
        assert h'.Visible(causal, i) == cached' + h.added[..m];
        AttendPermutes(sm, h.queries[i], h.Visible(causal, i), h'.Visible(causal, i), d);
      }
    }
    OutputsAgree(sm, causal, h, h', width);
  }

  // ----- outputs are averages of the visible values

  lemma SumStep(c: real, x: real, y: real, p: real, q: real)
    requires c * x <= p && c * y <= q
    ensures c * (x + y) <= p + q
  {
  }

  lemma {:induction false} SumByAtLeast(f: Token -> real, g: Token -> real, tokens: seq<Token>, lo: real)
    requires forall t :: t in tokens ==> lo * f(t) <= g(t)
    ensures lo * SumBy(f, tokens) <= SumBy(g, tokens)
  {
    if |tokens| > 0 {
      var n := |tokens| - 1;
      SumByAtLeast(f, g, tokens[..n], lo);
      SumStep(lo, SumBy(f, tokens[..n]), f(tokens[n]), SumBy(g, tokens[..n]), g(tokens[n]));
    }
  }

  lemma {:induction false} SumByAtMost(f: Token -> real, g: Token -> real, tokens: seq<Token>, hi: real)
    requires forall t :: t in tokens ==> g(t) <= hi * f(t)
    ensures SumBy(g, tokens) <= hi * SumBy(f, tokens)
  {
    if |tokens| > 0 {
      var n := |tokens| - 1;
      SumByAtMost(f, g, tokens[..n], hi);
      SumStep(-hi, SumBy(f, tokens[..n]), f(tokens[n]), -SumBy(g, tokens[..n]), -g(tokens[n]));
    }
  }

  lemma DivideBounds(x: real, s: real, lo: real, hi: real)
    requires s > 0.0 && lo * s <= x <= hi * s
    ensures lo <= x / s <= hi
  {
    assert (x / s) * s == x;
  }

  lemma QuotientBounds(f: Token -> real, g: Token -> real, tokens: seq<Token>, lo: real, hi: real)
    requires (forall t :: f(t) > 0.0) && |tokens| > 0
    requires forall t :: t in tokens ==> lo * f(t) <= g(t) <= hi * f(t)
    ensures SumBy(f, tokens) > 0.0
    ensures lo <= SumBy(g, tokens) / SumBy(f, tokens) <= hi
  {
    SumByPositive(f, tokens);
    SumByAtLeast(f, g, tokens, lo);
    SumByAtMost(f, g, tokens, hi);
    DivideBounds(SumBy(g, tokens), SumBy(f, tokens), lo, hi);
  }

  lemma WeightedBounds(sm: Softmax, q: seq<real>, d: nat, t: Token, lo: real, hi: real)
    requires sm.Valid() && lo <= t.At(d) <= hi
    ensures lo * Weight(sm, q)(t) <= WeightedValue(sm, q, d)(t) <= hi * Weight(sm, q)(t)
  {
    var w, x := Weight(sm, q)(t), t.At(d);
    assert w > 0.0;
    assert lo * w <= w * x <= hi * w;
  }

  /** A live output coordinate lies between any bounds on that coordinate of the visible values. */
  lemma OutputIsAverage(sm: Softmax, causal: bool, h: Head, i: nat, d: nat, lo: real, hi: real)
    requires sm.Valid() && h.HasKeys() && i < |h.queries| && !h.Discards(causal, i)
    requires forall j :: 0 <= j < |h.Visible(causal, i)| ==> lo <= h.Visible(causal, i)[j].At(d) <= hi
    ensures lo <= h.Output(sm, causal, i, d) <= hi
  {
    var seen, q := h.Visible(causal, i), h.queries[i];
    forall t | t in seen
      ensures lo * Weight(sm, q)(t) <= WeightedValue(sm, q, d)(t) <= hi * Weight(sm, q)(t)
    {
      WeightedBounds(sm, q, d, t, lo, hi);
    }
    QuotientBounds(Weight(sm, q), WeightedValue(sm, q, d), seen, lo, hi);
  }

  // ----- exactly which tokens a row depends on

  /** The tokens have the same keys, and the same coordinate d of their values. */
  ghost predicate SameAt(t: Token, u: Token, d: nat) {
    t.key == u.key && t.At(d) == u.At(d)
  }

  lemma {:induction false} SumByAgrees(f: Token -> real, a: seq<Token>, b: seq<Token>)
    requires |a| == |b| && forall k :: 0 <= k < |a| ==> f(a[k]) == f(b[k])
    ensures SumBy(f, a) == SumBy(f, b)
  {
    if |a| > 0 {
      SumByAgrees(f, a[..|a| - 1], b[..|b| - 1]);
    }
  }

  /** Coordinate d of row i depends on nothing but its own query, and the keys and d-th value coordinates
      of its visible tokens; of a discarded row, on nothing. */
  lemma OutputIgnoresMasked(sm: Softmax, causal: bool, h: Head, h': Head, i: nat, d: nat)
    requires sm.Valid() && h.HasKeys() && h'.HasKeys() && i < |h.queries| == |h'.queries|
    requires |h'.cached| == |h.cached| && |h'.added| == |h.added|
    requires !h.Discards(causal, i) ==>
      h'.queries[i] == h.queries[i]
      && forall k :: 0 <= k < |h.Visible(causal, i)| ==> SameAt(h'.Visible(causal, i)[k], h.Visible(causal, i)[k], d)
    ensures h'.Output(sm, causal, i, d) == h.Output(sm, causal, i, d)
  {
    if !h.Discards(causal, i) {
      var q, a, b := h.queries[i], h.Visible(causal, i), h'.Visible(causal, i);
      SumByAgrees(Weight(sm, q), b, a);
      SumByAgrees(WeightedValue(sm, q, d), b, a);
    }
  }

  lemma SumByReplace(f: Token -> real, tokens: seq<Token>, k: nat, t: Token)
    requires k < |tokens|
    ensures SumBy(f, tokens[k := t]) == SumBy(f, tokens) - f(tokens[k]) + f(t)
  {
    SumByRemove(f, tokens, k);
    SumByRemove(f, tokens[k := t], k);
    assert tokens[..k] + tokens[k + 1..] == tokens[k := t][..k] + tokens[k := t][k + 1..];
  }

  lemma QuotientMoves(f: Token -> real, g: Token -> real, tokens: seq<Token>, k: nat, t: Token)
    requires (forall u :: f(u) > 0.0) && k < |tokens|
    requires f(t) == f(tokens[k]) && g(t) != g(tokens[k])
    ensures SumBy(f, tokens) > 0.0 && SumBy(f, tokens[k := t]) > 0.0
    ensures SumBy(g, tokens[k := t]) / SumBy(f, tokens[k := t]) != SumBy(g, tokens) / SumBy(f, tokens)
  {
    SumByReplace(f, tokens, k, t);
    SumByReplace(g, tokens, k, t);
    SumByPositive(f, tokens);
    var x, y, s := SumBy(g, tokens), SumBy(g, tokens[k := t]), SumBy(f, tokens);
    assert (x / s) * s == x && (y / s) * s == y;
  }

  lemma WeightedValueMoves(sm: Softmax, q: seq<real>, d: nat, t: Token, u: Token)
    requires sm.Valid() && t.key == u.key && t.At(d) != u.At(d)
    ensures Weight(sm, q)(t) == Weight(sm, q)(u)
    ensures WeightedValue(sm, q, d)(t) != WeightedValue(sm, q, d)(u)
  {
    var w := Weight(sm, q)(t);
    assert w > 0.0 && w * (t.At(d) - u.At(d)) != 0.0;
    assert w * t.At(d) - w * u.At(d) == w * (t.At(d) - u.At(d));
  }

  /** The head with its k-th token, cached or new, replaced. */
  function WithToken(h: Head, k: nat, t: Token): (h': Head)
    requires k < |h.cached| + |h.added|
    ensures h'.cached + h'.added == (h.cached + h.added)[k := t]
  {
    if k < |h.cached| then h.(cached := h.cached[k := t]) else h.(added := h.added[k - |h.cached| := t])
  }

  /** Every visible token matters, cached or new: moving coordinate d of its value moves the output. */
  lemma OutputSeesVisible(sm: Softmax, causal: bool, h: Head, i: nat, d: nat, k: nat, t: Token)
    requires sm.Valid() && h.HasKeys() && i < |h.queries| && !h.Discards(causal, i)
    requires k < |h.Visible(causal, i)|
    requires t.key == h.Visible(causal, i)[k].key && t.At(d) != h.Visible(causal, i)[k].At(d)
    ensures WithToken(h, k, t).HasKeys()
    ensures WithToken(h, k, t).Output(sm, causal, i, d) != h.Output(sm, causal, i, d)
  {
    var q, a, b := h.queries[i], h.Visible(causal, i), WithToken(h, k, t).Visible(causal, i);
    assert b == a[k := t];
    WeightedValueMoves(sm, q, d, t, a[k]);
    QuotientMoves(Weight(sm, q), WeightedValue(sm, q, d), a, k, t);
  }

  // ----- where the cache ends does not matter, exactly when no row is discarded because of it

  function WithoutCache(h: Head): Head {
    Head(h.queries, [], h.cached + h.added)
  }

  /** The sizes of one head's tensors. */
  datatype HeadSizes = HeadSizes(qLen: nat, cacheLen: nat, newLen: nat, keyWidth: nat, valueWidth: nat)

  predicate TokensSized(tokens: seq<Token>, z: HeadSizes) {
    forall j :: 0 <= j < |tokens| ==> |tokens[j].key| == z.keyWidth && |tokens[j].value| == z.valueWidth
  }

  /** Queries and keys of one width, values of another. */
  predicate Sized(h: Head, z: HeadSizes) {
    && |h.queries| == z.qLen && |h.cached| == z.cacheLen && |h.added| == z.newLen
    && (forall i :: 0 <= i < |h.queries| ==> |h.queries[i]| == z.keyWidth)
    && TokensSized(h.cached, z) && TokensSized(h.added, z)
  }

  /** Treating the cached tokens as new ones changes no output, whatever tensors of these sizes hold. */
  ghost predicate SplitInvisible(sm: Softmax, causal: bool, z: HeadSizes)
    requires sm.Valid() && z.cacheLen + z.newLen > 0
  {
    forall h :: Sized(h, z) ==>
      WithoutCache(h).Outputs(sm, causal, z.valueWidth) == h.Outputs(sm, causal, z.valueWidth)
  }

  lemma SplitAgrees(sm: Softmax, causal: bool, h: Head, width: nat)
    requires sm.Valid() && h.HasKeys()
    requires !causal || |h.queries| <= |h.added| || |h.cached| == 0
    ensures WithoutCache(h).Outputs(sm, causal, width) == h.Outputs(sm, causal, width)
  {
    assert [] + (h.cached + h.added) == h.cached + h.added;
    var h' := WithoutCache(h);
    forall i: nat, d: nat | i < |h.queries| && d < width
      ensures h'.Output(sm, causal, i, d) == h.Output(sm, causal, i, d)
    {
      assert h'.Discards(causal, i) == h.Discards(causal, i);
      if !h.Discards(causal, i) {
        assert h'.Visible(causal, i) == h.Visible(causal, i);
      }
    }
    OutputsAgree(sm, causal, h', h, width);
  }

  /** Zero queries and keys, and values of ones: without the cache, the last discarded row comes alive. */
  lemma SplitDiffers(sm: Softmax, z: HeadSizes) returns (h: Head)
    requires sm.Valid() && z.valueWidth > 0 && z.qLen > z.newLen && z.cacheLen > 0
    ensures Sized(h, z)
    ensures WithoutCache(h).Outputs(sm, true, z.valueWidth) != h.Outputs(sm, true, z.valueWidth)
  {
    var zeros, one := seq(z.keyWidth, _ => 0.0), Token(seq(z.keyWidth, _ => 0.0), seq(z.valueWidth, _ => 1.0));
    h := Head(seq(z.qLen, _ => zeros), seq(z.cacheLen, _ => one), seq(z.newLen, _ => one));
    var i := z.qLen - z.newLen - 1;
    OutputIsAverage(sm, true, WithoutCache(h), i, 0, 1.0, 1.0);
    assert WithoutCache(h).Outputs(sm, true, z.valueWidth)[i][0] == 1.0;
    assert h.Outputs(sm, true, z.valueWidth)[i][0] == 0.0;
  }

  /** For tensors of any given sizes, the cache boundary is invisible exactly when the head is not causal,
      has no more query rows than new keys, or has no cache. */
  lemma CacheBoundaryInvisible(sm: Softmax, causal: bool, z: HeadSizes)
    requires sm.Valid() && z.cacheLen + z.newLen > 0 && z.valueWidth > 0
    ensures SplitInvisible(sm, causal, z) <==> !causal || z.qLen <= z.newLen || z.cacheLen == 0
  {
    if !causal || z.qLen <= z.newLen || z.cacheLen == 0 {
      forall h | Sized(h, z)
        ensures WithoutCache(h).Outputs(sm, causal, z.valueWidth) == h.Outputs(sm, causal, z.valueWidth)
      {
        SplitAgrees(sm, causal, h, z.valueWidth);
      }
    } else {
      var h := SplitDiffers(sm, z);
    }
  }
}
