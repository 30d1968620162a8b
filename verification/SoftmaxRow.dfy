/** One row of the score matrix on its way through the host reference: mask, row maximum,
    shifted exponential, sum, division. The arithmetic is the extended one, because the mask
    writes -inf and a fully masked row turns into NaN before it is zeroed. */
module SoftmaxRow {
  import opened Arithmetic
  import opened ExtendedReals
  import opened Attention
  import opened Reals

  function ScoreRow(q: seq<real>, tokens: seq<Token>): (row: seq<Ext>)
    ensures |row| == |tokens|
  {
    seq(|tokens|, c requires 0 <= c < |tokens| => Fin(Dot(q, tokens[c].key)))
  }

  /** The loop's test for hiding a column: the new key it holds lies beyond the row's diagonal. */
  predicate Masked(qLen: nat, newLen: nat, cacheLen: nat, row: nat, col: nat) {
    var offset := Min(qLen, newLen);
    var discardSeqCoord, fullTileOffset := qLen - offset, newLen - offset;
    col >= cacheLen && col - cacheLen - fullTileOffset > row - discardSeqCoord
  }

  /** The test hides exactly the columns past the bottom-right diagonal: all new keys of a
      discarded row, and everything after the visible prefix of a live one. */
  lemma MaskedBeyondVisible(qLen: nat, newLen: nat, cacheLen: nat, row: nat, col: nat)
    requires row < qLen && col < cacheLen + newLen
    ensures Discarded(true, qLen, newLen, row) ==> (Masked(qLen, newLen, cacheLen, row, col) <==> col >= cacheLen)
    ensures !Discarded(true, qLen, newLen, row) ==>
      (Masked(qLen, newLen, cacheLen, row, col) <==> col >= VisibleCount(true, qLen, cacheLen, newLen, row))
    ensures Discarded(true, qLen, newLen, row) <==> row < qLen - Min(qLen, newLen)
  {
  }

  /** The same test as a diagonal of the score matrix, both ways round: the new key in the column, counted
      from the last one, comes after the row, counted from the last row. */
  lemma MaskedIsDiagonal(qLen: nat, newLen: nat, cacheLen: nat, row: nat, col: nat)
    ensures Masked(qLen, newLen, cacheLen, row, col) <==> col >= cacheLen && col - cacheLen + qLen > row + newLen
  {
  }

  function MaskRow(row: seq<Ext>, causal: bool, qLen: nat, newLen: nat, cacheLen: nat, i: nat): (r: seq<Ext>)
    ensures |r| == |row|
  {
    seq(|row|, c requires 0 <= c < |row| =>
      if causal && Masked(qLen, newLen, cacheLen, i, c) then NegInf else row[c])
  }

  function RowMax(row: seq<Ext>): Ext
    requires |row| > 0
  {
    var n := |row| - 1;
    if n == 0 then row[0]
    else if Less(RowMax(row[..n]), row[n]) then row[n] else RowMax(row[..n])
  }

  function ShiftedExp(sm: Softmax, m: Ext, x: Ext): Ext {
    Exp(sm.exp, Div(Sub(x, m), Fin(sm.scale)))
  }

  function ExpRow(sm: Softmax, m: Ext, row: seq<Ext>): (r: seq<Ext>)
    ensures |r| == |row|
  {
    seq(|row|, c requires 0 <= c < |row| => ShiftedExp(sm, m, row[c]))
  }

  function RowSum(row: seq<Ext>): Ext {
    if |row| == 0 then Fin(0.0) else Add(RowSum(row[..|row| - 1]), row[|row| - 1])
  }

  function Normalised(x: Ext, total: Ext, discard: bool): Ext {
    if discard then Fin(0.0) else Div(x, total)
  }

  function NormaliseRow(row: seq<Ext>, total: Ext, discard: bool): (r: seq<Ext>)
    ensures |r| == |row|
  {
    seq(|row|, c requires 0 <= c < |row| => Normalised(row[c], total, discard))
  }

  /** The whole journey of row i. */
  function Probabilities(sm: Softmax, causal: bool, scores: seq<Ext>,
                         qLen: nat, newLen: nat, cacheLen: nat, i: nat): (p: seq<Ext>)
    requires |scores| > 0
    ensures |p| == |scores|
  {
    var masked := MaskRow(scores, causal, qLen, newLen, cacheLen, i);
    var e := ExpRow(sm, RowMax(masked), masked);
    NormaliseRow(e, RowSum(e), causal && i < qLen - Min(qLen, newLen))
  }

  /** One element of the product of the probabilities with the values. */
  function MixColumn(p: seq<Ext>, tokens: seq<Token>, d: nat): Ext
    requires |p| == |tokens|
  {
    if |p| == 0 then Fin(0.0)
    else
      var n := |p| - 1;
      Add(MixColumn(p[..n], tokens[..n], d), Mul(p[n], Fin(tokens[n].At(d))))
  }

  function Terms(p: seq<Ext>, tokens: seq<Token>, d: nat): (xs: seq<real>)
    requires |p| == |tokens| && forall c :: 0 <= c < |p| ==> p[c].Fin?
    ensures |xs| == |p|
  {
    seq(|p|, c requires 0 <= c < |p| => p[c].v * tokens[c].At(d))
  }

  lemma TermsPrefix(p: seq<Ext>, tokens: seq<Token>, d: nat, n: nat)
    requires n <= |p| == |tokens| && forall c :: 0 <= c < |p| ==> p[c].Fin?
    ensures Terms(p, tokens, d)[..n] == Terms(p[..n], tokens[..n], d)
  {
    var x, y := Terms(p, tokens, d)[..n], Terms(p[..n], tokens[..n], d);
    forall c | 0 <= c < n
      ensures x[c] == y[c]
    {
      assert p[..n][c] == p[c] && tokens[..n][c] == tokens[c];
    }
  }

  /** The mixed column of finite probabilities is finite: the sum of probability times value. */
  lemma {:induction false} MixIsSum(p: seq<Ext>, tokens: seq<Token>, d: nat)
    requires |p| == |tokens| && forall c :: 0 <= c < |p| ==> p[c].Fin?
    ensures MixColumn(p, tokens, d) == Fin(Sum(Terms(p, tokens, d)))
  {
    var n := |p| - 1;
    if n >= 0 {
      MixIsSum(p[..n], tokens[..n], d);
      TermsPrefix(p, tokens, d, n);
    }
  }

  /** A value coordinate moves the mixed column by its probability ... */
  lemma MixMoves(p: seq<Ext>, tokens: seq<Token>, d: nat, k: nat, t: Token)
    requires |p| == |tokens| && k < |p| && forall c :: 0 <= c < |p| ==> p[c].Fin?
    ensures MixColumn(p, tokens, d).Fin? && MixColumn(p, tokens[k := t], d).Fin?
    ensures MixColumn(p, tokens[k := t], d).v == MixColumn(p, tokens, d).v + p[k].v * (t.At(d) - tokens[k].At(d))
  {
    MixIsSum(p, tokens, d);
    MixIsSum(p, tokens[k := t], d);
    TermsMove(p, tokens, d, k, t);
    SumChange(Terms(p, tokens, d), Terms(p, tokens[k := t], d), k);
  }

  lemma TermsMove(p: seq<Ext>, tokens: seq<Token>, d: nat, k: nat, t: Token)
    requires |p| == |tokens| && k < |p| && forall c :: 0 <= c < |p| ==> p[c].Fin?
    ensures forall c :: 0 <= c < |p| && c != k ==> Terms(p, tokens[k := t], d)[c] == Terms(p, tokens, d)[c]
    ensures Terms(p, tokens[k := t], d)[k] - Terms(p, tokens, d)[k] == p[k].v * (t.At(d) - tokens[k].At(d))
  {
    MovedProduct(p[k].v, tokens[k].At(d), t.At(d));
  }

  lemma MovedProduct(p: real, a: real, b: real)
    ensures p * b - p * a == p * (b - a)
  {
  }

  /** ... and values of zero mix to zero. */
  lemma MixOfZeros(p: seq<Ext>, tokens: seq<Token>, d: nat)
    requires |p| == |tokens| && forall c :: 0 <= c < |p| ==> p[c].Fin?
    requires forall c :: 0 <= c < |p| ==> tokens[c].At(d) == 0.0
    ensures MixColumn(p, tokens, d) == Fin(0.0)
  {
    MixIsSum(p, tokens, d);
    SumOfZeros(Terms(p, tokens, d));
  }

  // ----- a live row

  /** A row whose first n columns hold finite numbers and whose other columns are hidden. */
  ghost predicate PrefixRow(row: seq<Ext>, n: nat) {
    0 < n <= |row|
    && (forall c :: 0 <= c < n ==> row[c].Fin?)
    && (forall c :: n <= c < |row| ==> row[c] == NegInf)
  }

  /** The running maximum of a live row is finite, is one of its visible scores and bounds them all. */
  lemma {:induction false} RowMaxOfPrefixRow(row: seq<Ext>, n: nat)
    requires PrefixRow(row, n)
    ensures RowMax(row).Fin?
    ensures exists c :: 0 <= c < n && row[c] == RowMax(row)
    ensures forall c :: 0 <= c < n ==> row[c].v <= RowMax(row).v
  {
    var k := |row| - 1;
    if k > 0 {
      RowMaxOfPrefixRow(row[..k], if n == |row| then k else n);
      var c :| 0 <= c < |row[..k]| && row[..k][c] == RowMax(row[..k]);
      assert row[c] == RowMax(row[..k]);
    } else {
      assert row[0] == RowMax(row);
    }
  }

  lemma ShiftQuotient(s: real, m: real, c: PositiveReal)
    ensures (s - m) / c == s / c + (-m) / c
  {
  }

  function Scaled(f: Token -> real, z: real): Token -> real {
    (t: Token) => f(t) * z
  }

  lemma MulDistributes(a: real, b: real, z: real)
    ensures (a + b) * z == a * z + b * z
  {
  }

  lemma {:induction false} SumByScaled(f: Token -> real, z: real, tokens: seq<Token>)
    ensures SumBy(Scaled(f, z), tokens) == SumBy(f, tokens) * z
  {
    if |tokens| > 0 {
      var n := |tokens| - 1;
      SumByScaled(f, z, tokens[..n]);
      MulDistributes(SumBy(f, tokens[..n]), f(tokens[n]), z);
    }
  }

  /** Subtracting the maximum scales every weight by one common positive factor. */
  lemma ShiftScalesWeight(sm: Softmax, q: seq<real>, t: Token, m: real)
    requires sm.Valid()
    ensures ShiftedExp(sm, Fin(m), Fin(Dot(q, t.key))) == Fin(Scaled(Weight(sm, q), sm.exp(-m / sm.scale))(t))
  {
    var s := Dot(q, t.key);
    ShiftQuotient(s, m, sm.scale);
    assert ExpAdds(sm.exp, s / sm.scale, -m / sm.scale);
  }

  /** A row that holds w of its token up to column n, and zero from there on. */
  ghost predicate WeightRow(w: Token -> real, tokens: seq<Token>, n: nat, row: seq<Ext>) {
    n <= |tokens| == |row|
    && (forall c :: 0 <= c < n ==> row[c] == Fin(w(tokens[c])))
    && (forall c :: n <= c < |row| ==> row[c] == Fin(0.0))
  }

  lemma {:induction false} WeightRowSum(w: Token -> real, tokens: seq<Token>, n: nat, row: seq<Ext>)
    requires WeightRow(w, tokens, n, row)
    ensures RowSum(row) == Fin(SumBy(w, tokens[..n]))
  {
    var k := |row| - 1;
    if n == |row| > 0 {
      assert tokens[..n] == tokens;
      assert tokens[..k][..k] == tokens[..k];
      WeightRowSum(w, tokens[..k], k, row[..k]);
    } else if k >= 0 {
      assert tokens[..k][..n] == tokens[..n];
      WeightRowSum(w, tokens[..k], n, row[..k]);
    }
  }

  lemma CancelFactor(w: real, s: PositiveReal, z: PositiveReal)
    ensures s * z > 0.0
    ensures (w * z) / (s * z) == w * (1.0 / s)
  {
    var y := w * (1.0 / s);
    assert (1.0 / s) * s == 1.0;
    assert y * (s * z) == w * ((1.0 / s) * s) * z == w * z;
  }

  ghost function Total(f: Token -> real, tokens: seq<Token>): (s: PositiveReal)
    requires (forall t :: f(t) > 0.0) && |tokens| > 0
    ensures s == SumBy(f, tokens)
  {
    SumByPositive(f, tokens);
    SumBy(f, tokens)
  }

  // Each token's part of a total.
  function Share(f: Token -> real, s: PositiveReal): Token -> real {
    Scaled(f, 1.0 / s)
  }

  lemma NormalisedShare(f: Token -> real, t: Token, s: PositiveReal, z: PositiveReal)
    ensures Normalised(Fin(Scaled(f, z)(t)), Fin(s * z), false) == Fin(Share(f, s)(t))
  {
    CancelFactor(f(t), s, z);
  }

  lemma NormalisedZero(s: PositiveReal, z: PositiveReal)
    ensures Normalised(Fin(0.0), Fin(s * z), false) == Fin(0.0)
  {
    CancelFactor(0.0, s, z);
  }

  /** Dividing a scaled row by its sum leaves each weight over the total, whatever the scale was. */
  lemma NormaliseWeightRow(f: Token -> real, z: PositiveReal, tokens: seq<Token>, n: nat, row: seq<Ext>)
    requires (forall t :: f(t) > 0.0) && 0 < n <= |tokens|
    requires WeightRow(Scaled(f, z), tokens, n, row)
    ensures WeightRow(Share(f, Total(f, tokens[..n])), tokens, n, NormaliseRow(row, RowSum(row), false))
  {
    var s := Total(f, tokens[..n]);
    assert RowSum(row) == Fin(s * z) by {
      WeightRowSum(Scaled(f, z), tokens, n, row);
      SumByScaled(f, z, tokens[..n]);
    }
    NormalisedZero(s, z);
    forall c | 0 <= c < n
      ensures Normalised(row[c], RowSum(row), false) == Fin(Share(f, s)(tokens[c]))
    {
      NormalisedShare(f, tokens[c], s, z);
    }
  }

  lemma MaskedScoreRow(h: Head, causal: bool, i: nat)
    requires i < |h.queries| && h.HasKeys() && !h.Discards(causal, i)
    ensures var q, tokens, n := h.queries[i], h.cached + h.added, |h.Visible(causal, i)|;
            var masked := MaskRow(ScoreRow(q, tokens), causal, |h.queries|, |h.added|, |h.cached|, i);
            && PrefixRow(masked, n)
            && forall c :: 0 <= c < n ==> masked[c] == Fin(Dot(q, tokens[c].key))
  {
    forall c: nat | c < |h.cached| + |h.added|
      ensures causal ==> (Masked(|h.queries|, |h.added|, |h.cached|, i, c) <==> c >= |h.Visible(causal, i)|)
    {
      MaskedBeyondVisible(|h.queries|, |h.added|, |h.cached|, i, c);
    }
  }

  function HeadProbabilities(sm: Softmax, causal: bool, h: Head, i: nat): (p: seq<Ext>)
    requires h.HasKeys() && i < |h.queries|
    ensures |p| == |h.cached| + |h.added|
  {
    Probabilities(sm, causal, ScoreRow(h.queries[i], h.cached + h.added), |h.queries|, |h.added|, |h.cached|, i)
  }

  lemma ShiftScalesWeights(sm: Softmax, q: seq<real>, m: real) returns (z: PositiveReal)
    requires sm.Valid()
    ensures forall t: Token :: ShiftedExp(sm, Fin(m), Fin(Dot(q, t.key))) == Fin(Scaled(Weight(sm, q), z)(t))
  {
    z := sm.exp(-m / sm.scale);
    forall t: Token
      ensures ShiftedExp(sm, Fin(m), Fin(Dot(q, t.key))) == Fin(Scaled(Weight(sm, q), z)(t))
    {
      ShiftScalesWeight(sm, q, t, m);
    }
  }

  lemma ShiftHidden(sm: Softmax, m: real)
    ensures ShiftedExp(sm, Fin(m), NegInf) == Fin(0.0)
  {
  }

  lemma ExpRowIsWeightRow(sm: Softmax, w: Token -> real, q: seq<real>, tokens: seq<Token>, n: nat,
                          masked: seq<Ext>, m: real)
    requires |masked| == |tokens| && PrefixRow(masked, n)
    requires forall c :: 0 <= c < n ==> masked[c] == Fin(Dot(q, tokens[c].key))
    requires forall t: Token :: ShiftedExp(sm, Fin(m), Fin(Dot(q, t.key))) == Fin(w(t))
    ensures WeightRow(w, tokens, n, ExpRow(sm, Fin(m), masked))
  {
    ShiftHidden(sm, m);
    assert forall c :: 0 <= c < n ==> ShiftedExp(sm, Fin(m), masked[c]) == Fin(w(tokens[c]));
  }

  lemma ShiftedScoreRow(sm: Softmax, q: seq<real>, tokens: seq<Token>, n: nat, masked: seq<Ext>)
    returns (z: PositiveReal)
    requires sm.Valid() && |masked| == |tokens| && PrefixRow(masked, n)
    requires forall c :: 0 <= c < n ==> masked[c] == Fin(Dot(q, tokens[c].key))
    ensures WeightRow(Scaled(Weight(sm, q), z), tokens, n, ExpRow(sm, RowMax(masked), masked))
  {
    RowMaxOfPrefixRow(masked, n);
    var m := RowMax(masked).v;
    z := ShiftScalesWeights(sm, q, m);
    ExpRowIsWeightRow(sm, Scaled(Weight(sm, q), z), q, tokens, n, masked, m);
  }

  /** The three passes over a live row produce the softmax weights of its visible tokens. */
  lemma LiveRowWeights(sm: Softmax, causal: bool, h: Head, i: nat)
    requires sm.Valid() && h.HasKeys() && i < |h.queries| && !h.Discards(causal, i)
    ensures var f, seen := Weight(sm, h.queries[i]), h.Visible(causal, i);
            WeightRow(Share(f, Total(f, seen)), h.cached + h.added, |seen|, HeadProbabilities(sm, causal, h, i))
  {
    var q, tokens, n := h.queries[i], h.cached + h.added, |h.Visible(causal, i)|;
    var masked := MaskRow(ScoreRow(q, tokens), causal, |h.queries|, |h.added|, |h.cached|, i);
    MaskedScoreRow(h, causal, i);
    var z := ShiftedScoreRow(sm, q, tokens, n, masked);
    NormaliseWeightRow(Weight(sm, q), z, tokens, n, ExpRow(sm, RowMax(masked), masked));
    MaskedBeyondVisible(|h.queries|, |h.added|, |h.cached|, i, 0);
  }

  lemma PartOfTotal(f: Token -> real, tokens: seq<Token>, c: nat)
    requires (forall t :: f(t) > 0.0) && c < |tokens|
    ensures 0.0 < Share(f, Total(f, tokens))(tokens[c]) <= 1.0
  {
    SumByRemove(f, tokens, c);
    SumByPositive(f, tokens[..c] + tokens[c + 1..]);
    ShareInUnit(f(tokens[c]), SumBy(f, tokens));
  }

  lemma SharesSumToOne(f: Token -> real, tokens: seq<Token>)
    requires (forall t :: f(t) > 0.0) && |tokens| > 0
    ensures SumBy(Share(f, Total(f, tokens)), tokens) == 1.0
  {
    SumByScaled(f, 1.0 / Total(f, tokens), tokens);
  }

  lemma ShareInUnit(w: real, s: real)
    requires 0.0 < w <= s
    ensures 0.0 < w * (1.0 / s) <= 1.0
  {
    assert (1.0 / s) * s == 1.0;
  }

  /** A row that is strictly positive before column n, zero from there on, and sums to one. */
  ghost predicate DistributionOver(p: seq<Ext>, n: nat) {
    && RowSum(p) == Fin(1.0)
    && (forall c :: 0 <= c < |p| ==> p[c].Fin? && 0.0 <= p[c].v <= 1.0)
    && (forall c :: 0 <= c < |p| ==> (p[c] == Fin(0.0) <==> c >= n))
  }

  lemma SharesAreDistribution(w: Token -> real, tokens: seq<Token>, n: nat, p: seq<Ext>)
    requires WeightRow(w, tokens, n, p)
    requires forall c :: 0 <= c < n ==> 0.0 < w(tokens[c]) <= 1.0
    requires SumBy(w, tokens[..n]) == 1.0
    ensures DistributionOver(p, n)
  {
    assert RowSum(p) == Fin(1.0) by {
      WeightRowSum(w, tokens, n, p);
    }
    forall c | 0 <= c < |p|
      ensures p[c].Fin? && 0.0 <= p[c].v <= 1.0 && (p[c] == Fin(0.0) <==> c >= n)
    {
      if c < n {
        assert p[c] == Fin(w(tokens[c]));
      }
    }
  }

  /** Every live row of probabilities is a distribution over its visible columns, and the columns
      it leaves out are exactly the masked ones. No live row divides by zero or sees NaN. */
  lemma LiveRowIsDistribution(sm: Softmax, causal: bool, h: Head, i: nat)
    requires sm.Valid() && h.HasKeys() && i < |h.queries| && !h.Discards(causal, i)
    ensures DistributionOver(HeadProbabilities(sm, causal, h, i), |h.Visible(causal, i)|)
    ensures forall c: nat :: c < |h.cached| + |h.added| ==>
              (c >= |h.Visible(causal, i)| <==> causal && Masked(|h.queries|, |h.added|, |h.cached|, i, c))
  {
    var f, tokens, n := Weight(sm, h.queries[i]), h.cached + h.added, |h.Visible(causal, i)|;
    var seen := tokens[..n];
    LiveRowWeights(sm, causal, h, i);
    SharesSumToOne(f, seen);
    forall c | 0 <= c < n
      ensures 0.0 < Share(f, Total(f, seen))(tokens[c]) <= 1.0
    {
      PartOfTotal(f, seen, c);
      assert tokens[c] == seen[c];
    }
    SharesAreDistribution(Share(f, Total(f, seen)), tokens, n, HeadProbabilities(sm, causal, h, i));
    forall c: nat | c < |tokens|
      ensures c >= n <==> causal && Masked(|h.queries|, |h.added|, |h.cached|, i, c)
    {
      MaskedBeyondVisible(|h.queries|, |h.added|, |h.cached|, i, c);
    }
  }

  /** The probabilities of two visible columns are to each other as the exponentials of their scaled scores:
      with their sum of one, this is softmax. */
  lemma LiveRowRatios(sm: Softmax, causal: bool, h: Head, i: nat, c: nat, c': nat)
    requires sm.Valid() && h.HasKeys() && i < |h.queries| && !h.Discards(causal, i)
    requires c < |h.Visible(causal, i)| && c' < |h.Visible(causal, i)|
    ensures var p, q, tokens := HeadProbabilities(sm, causal, h, i), h.queries[i], h.cached + h.added;
            && p[c].Fin? && p[c'].Fin?
            && InRatio(p[c].v, sm.exp(Dot(q, tokens[c].key) / sm.scale),
                       p[c'].v, sm.exp(Dot(q, tokens[c'].key) / sm.scale))
  {
    var s := Total(Weight(sm, h.queries[i]), h.Visible(causal, i));
    LiveRowWeights(sm, causal, h, i);
    WeightRowRatios(Weight(sm, h.queries[i]), s, h.cached + h.added, |h.Visible(causal, i)|,
                    HeadProbabilities(sm, causal, h, i), c, c');
  }

  predicate InRatio(p: real, x: real, p': real, x': real) {
    p * x' == p' * x
  }

  lemma WeightRowRatios(w: Token -> real, s: PositiveReal, tokens: seq<Token>, n: nat, row: seq<Ext>, c: nat, c': nat)
    requires WeightRow(Share(w, s), tokens, n, row) && c < n && c' < n
    ensures row[c].Fin? && row[c'].Fin? && InRatio(row[c].v, w(tokens[c]), row[c'].v, w(tokens[c']))
  {
    CrossProducts(w(tokens[c]), w(tokens[c']), 1.0 / s);
  }

  lemma CrossProducts(x: real, y: real, z: real)
    ensures InRatio(x * z, x, y * z, y)
  {
    assert (x * z) * y == (y * z) * x;
  }

  // ----- the row times the values

  // Named so that the product appears only where a proof mentions it.
  ghost predicate IsTerm(w: Token -> real, g: Token -> real, d: nat, t: Token) {
    g(t) == w(t) * t.At(d)
  }

  lemma {:induction false} WeightRowMix(w: Token -> real, g: Token -> real, tokens: seq<Token>, n: nat,
                                        row: seq<Ext>, d: nat)
    requires WeightRow(w, tokens, n, row)
    requires forall t :: IsTerm(w, g, d, t)
    ensures MixColumn(row, tokens, d) == Fin(SumBy(g, tokens[..n]))
  {
    var k := |row| - 1;
    if n == |row| > 0 {
      assert tokens[..n] == tokens;
      assert tokens[..k][..k] == tokens[..k];
      WeightRowMix(w, g, tokens[..k], k, row[..k], d);
      assert IsTerm(w, g, d, tokens[k]);
    } else if k >= 0 {
      assert tokens[..k][..n] == tokens[..n];
      WeightRowMix(w, g, tokens[..k], n, row[..k], d);
    }
  }

  lemma ShareOfWeightedValue(sm: Softmax, q: seq<real>, d: nat, s: PositiveReal)
    ensures forall t :: IsTerm(Share(Weight(sm, q), s), Share(WeightedValue(sm, q, d), s), d, t)
  {
    forall t
      ensures IsTerm(Share(Weight(sm, q), s), Share(WeightedValue(sm, q, d), s), d, t)
    {
      var w, x, z := Weight(sm, q)(t), t.At(d), 1.0 / s;
      assert (w * x) * z == (w * z) * x;
    }
  }

  lemma SharesSum(g: Token -> real, s: PositiveReal, tokens: seq<Token>)
    ensures SumBy(Share(g, s), tokens) == SumBy(g, tokens) / s
  {
    SumByScaled(g, 1.0 / s, tokens);
  }

  lemma {:induction false} ZeroRowMix(row: seq<Ext>, tokens: seq<Token>, d: nat)
    requires |row| == |tokens| && forall c :: 0 <= c < |row| ==> row[c] == Fin(0.0)
    ensures MixColumn(row, tokens, d) == Fin(0.0)
  {
    if |row| > 0 {
      ZeroRowMix(row[..|row| - 1], tokens[..|row| - 1], d);
    }
  }

  lemma LiveRowMix(sm: Softmax, causal: bool, h: Head, i: nat, d: nat)
    requires sm.Valid() && h.HasKeys() && i < |h.queries| && !h.Discards(causal, i)
    ensures MixColumn(HeadProbabilities(sm, causal, h, i), h.cached + h.added, d)
         == Fin(Attend(sm, h.queries[i], h.Visible(causal, i), d))
  {
    var q, seen := h.queries[i], h.Visible(causal, i);
    var f, g := Weight(sm, q), WeightedValue(sm, q, d);
    var s := Total(f, seen);
    LiveRowWeights(sm, causal, h, i);
    ShareOfWeightedValue(sm, q, d, s);
    WeightRowMix(Share(f, s), Share(g, s), h.cached + h.added, |seen|, HeadProbabilities(sm, causal, h, i), d);
    SharesSum(g, s, seen);
  }

  /** Mask, maximum, exponential, sum, division and product together give the attention output,
      and a finite one: the NaN of a fully masked row never gets out. */
  lemma RowRefinesAttention(sm: Softmax, causal: bool, h: Head, i: nat, d: nat)
    requires sm.Valid() && h.HasKeys() && i < |h.queries|
    ensures MixColumn(HeadProbabilities(sm, causal, h, i), h.cached + h.added, d)
         == Fin(h.Output(sm, causal, i, d))
  {
    if h.Discards(causal, i) {
      ZeroRowMix(HeadProbabilities(sm, causal, h, i), h.cached + h.added, d);
    } else {
      LiveRowMix(sm, causal, h, i, d);
    }
  }

  // ----- the output of a row, from first principles

  function Each(f: Token -> real, tokens: seq<Token>): (xs: seq<real>)
    ensures |xs| == |tokens|
  {
    seq(|tokens|, c requires 0 <= c < |tokens| => f(tokens[c]))
  }

  lemma {:induction false} SumByIsSum(f: Token -> real, tokens: seq<Token>)
    ensures SumBy(f, tokens) == Sum(Each(f, tokens))
  {
    if |tokens| > 0 {
      SumByIsSum(f, tokens[..|tokens| - 1]);
      assert Each(f, tokens)[..|tokens| - 1] == Each(f, tokens[..|tokens| - 1]);
    }
  }

  // The d-th value coordinates of the tokens, each times its weight.
  function Weighted(w: seq<real>, tokens: seq<Token>, d: nat): (xs: seq<real>)
    requires |w| == |tokens|
    ensures |xs| == |w|
  {
    seq(|w|, c requires 0 <= c < |w| => w[c] * tokens[c].At(d))
  }

  lemma WeightedShares(sm: Softmax, q: seq<real>, tokens: seq<Token>, d: nat, s: PositiveReal)
    ensures Each(Share(WeightedValue(sm, q, d), s), tokens)
         == Weighted(Each(Share(Weight(sm, q), s), tokens), tokens, d)
  {
    var x := Each(Share(WeightedValue(sm, q, d), s), tokens);
    var y := Weighted(Each(Share(Weight(sm, q), s), tokens), tokens, d);
    ShareOfWeightedValue(sm, q, d, s);
    forall c | 0 <= c < |tokens|
      ensures x[c] == y[c]
    {
      assert IsTerm(Share(Weight(sm, q), s), Share(WeightedValue(sm, q, d), s), d, tokens[c]);
    }
  }

  /** A live row has positive weights, one for each token it sees, that sum to one and are to each other as
      the exponentials of the tokens' scaled scores; its output is the sum of its values, so weighted. */
  lemma OutputIsSoftmaxAverage(sm: Softmax, causal: bool, h: Head, i: nat, d: nat) returns (w: seq<real>)
    requires sm.Valid() && h.HasKeys() && i < |h.queries| && !h.Discards(causal, i)
    ensures |w| == |h.Visible(causal, i)| && Sum(w) == 1.0 && forall c :: 0 <= c < |w| ==> w[c] > 0.0
    ensures forall c, c' :: 0 <= c < |w| && 0 <= c' < |w| ==>
      InRatio(w[c], sm.exp(Dot(h.queries[i], h.Visible(causal, i)[c].key) / sm.scale),
              w[c'], sm.exp(Dot(h.queries[i], h.Visible(causal, i)[c'].key) / sm.scale))
    ensures h.Output(sm, causal, i, d) == Sum(Weighted(w, h.Visible(causal, i), d))
  {
    var q, seen := h.queries[i], h.Visible(causal, i);
    var s := Total(Weight(sm, q), seen);
    w := Each(Share(Weight(sm, q), s), seen);
    SumByIsSum(Share(Weight(sm, q), s), seen);
    SharesSumToOne(Weight(sm, q), seen);
    SumByIsSum(Share(WeightedValue(sm, q, d), s), seen);
    WeightedShares(sm, q, seen, d, s);
    SharesSum(WeightedValue(sm, q, d), s, seen);
    ShareRatios(sm, q, seen, s);
  }

  lemma ShareRatios(sm: Softmax, q: seq<real>, seen: seq<Token>, s: PositiveReal)
    requires sm.Valid()
    ensures var w := Each(Share(Weight(sm, q), s), seen);
            (forall c :: 0 <= c < |w| ==> w[c] > 0.0)
            && forall c, c' :: 0 <= c < |w| && 0 <= c' < |w| ==>
                 InRatio(w[c], sm.exp(Dot(q, seen[c].key) / sm.scale), w[c'], sm.exp(Dot(q, seen[c'].key) / sm.scale))
  {
    var w := Each(Share(Weight(sm, q), s), seen);
    forall c | 0 <= c < |w|
      ensures w[c] > 0.0
    {
      PositiveShare(Weight(sm, q)(seen[c]), s);
    }
    forall c, c' | 0 <= c < |w| && 0 <= c' < |w|
      ensures InRatio(w[c], sm.exp(Dot(q, seen[c].key) / sm.scale), w[c'], sm.exp(Dot(q, seen[c'].key) / sm.scale))
    {
      CrossProducts(Weight(sm, q)(seen[c]), Weight(sm, q)(seen[c']), 1.0 / s);
    }
  }

  lemma PositiveShare(x: real, s: PositiveReal)
    requires x > 0.0
    ensures x * (1.0 / s) > 0.0
  {
  }

  lemma {:induction false} RatioOfSums(w: seq<real>, xs: seq<real>, p: real, x: real)
    requires |w| == |xs| && forall c :: 0 <= c < |w| ==> InRatio(p, x, w[c], xs[c])
    ensures InRatio(p, x, Sum(w), Sum(xs))
  {
    var n := |w| - 1;
    if n >= 0 {
      RatioOfSums(w[..n], xs[..n], p, x);
      RatioAdds(p, x, Sum(w[..n]), Sum(xs[..n]), w[n], xs[n]);
    }
  }

  lemma RatioAdds(p: real, x: real, a: real, b: real, a': real, b': real)
    requires InRatio(p, x, a, b) && InRatio(p, x, a', b')
    ensures InRatio(p, x, a + a', b + b')
  {
    assert p * (b + b') == p * b + p * b';
    assert (a + a') * x == a * x + a' * x;
  }

  /** Only one list of weights sums to one and is in those ratios. */
  lemma SoftmaxWeightsUnique(w: seq<real>, w': seq<real>, xs: seq<real>)
    requires |w| == |w'| == |xs| && Sum(w) == 1.0 && Sum(w') == 1.0 && (forall c :: 0 <= c < |xs| ==> xs[c] > 0.0)
    requires forall c, c' :: 0 <= c < |w| && 0 <= c' < |w| ==> InRatio(w[c], xs[c], w[c'], xs[c'])
    requires forall c, c' :: 0 <= c < |w| && 0 <= c' < |w| ==> InRatio(w'[c], xs[c], w'[c'], xs[c'])
    ensures w == w'
  {
    forall c | 0 <= c < |w|
      ensures w[c] == w'[c]
    {
      RatioOfSums(w, xs, w[c], xs[c]);
      RatioOfSums(w', xs, w'[c], xs[c]);
      SameShare(w[c], w'[c], xs[c], Sum(xs));
    }
  }

  lemma SameShare(p: real, p': real, x: real, total: real)
    requires x > 0.0 && p * total == 1.0 * x && p' * total == 1.0 * x
    ensures p == p'
  {
    assert (p - p') * total == 0.0;
  }
}
