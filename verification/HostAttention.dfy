/** One head of the host reference: product with the keys, softmax in place, product with the values. */
module HostAttention {
  import opened Attention
  import opened ExtendedReals
  import opened GroupedAttention
  import opened HostSoftmax
  import opened KVGather
  import opened Matrices
  import opened SoftmaxRow

  /** The first matrix product: row i, column j is the inner product of query i and key j. */
  function ScoreMatrix(q: seq<seq<real>>, tokens: seq<Token>): (rows: seq<seq<Ext>>)
    ensures |rows| == |q| && Uniform(rows, |tokens|)
  {
    seq(|q|, i requires 0 <= i < |q| => ScoreRow(q[i], tokens))
  }

  /** A key coordinate moves the score of its column by its product with the query coordinate, and moves
      no other column; a query coordinate moves its row likewise. */
  lemma ScoreMovesWithKey(q: seq<seq<real>>, tokens: seq<Token>, i: nat, j: nat, k: nat, v: real)
    requires i < |q| && j < |tokens| && k < |tokens[j].key| == |q[i]|
    ensures var t := tokens[j].(key := tokens[j].key[k := v]);
            var before, after := ScoreMatrix(q, tokens)[i], ScoreMatrix(q, tokens[j := t])[i];
            && before[j].Fin? && after[j] == Fin(before[j].v + q[i][k] * (v - tokens[j].key[k]))
            && (forall c :: 0 <= c < |tokens| && c != j ==> after[c] == before[c])
  {
    DotMovesWithKey(q[i], tokens[j].key, k, v);
    var t := tokens[j].(key := tokens[j].key[k := v]);
    assert ScoreMatrix(q, tokens)[i] == ScoreRow(q[i], tokens);
    assert ScoreMatrix(q, tokens[j := t])[i] == ScoreRow(q[i], tokens[j := t]);
  }

  lemma ScoreMovesWithQuery(q: seq<seq<real>>, tokens: seq<Token>, i: nat, j: nat, k: nat, v: real)
    requires i < |q| && j < |tokens| && k < |q[i]| == |tokens[j].key|
    ensures var before, after := ScoreMatrix(q, tokens), ScoreMatrix(q[i := q[i][k := v]], tokens);
            && before[i][j].Fin? && after[i][j] == Fin(before[i][j].v + (v - q[i][k]) * tokens[j].key[k])
            && (forall r :: 0 <= r < |q| && r != i ==> after[r] == before[r])
  {
    DotMovesWithQuery(q[i], tokens[j].key, k, v);
    assert ScoreMatrix(q, tokens)[i] == ScoreRow(q[i], tokens);
    assert ScoreMatrix(q[i := q[i][k := v]], tokens)[i] == ScoreRow(q[i][k := v], tokens);
  }

  /** Zero keys and zero queries score zero: with the two laws above, the score is the inner product. */
  lemma ZeroScore(q: seq<seq<real>>, tokens: seq<Token>, i: nat, j: nat)
    requires i < |q| && j < |tokens| && |q[i]| == |tokens[j].key|
    requires (forall k :: 0 <= k < |tokens[j].key| ==> tokens[j].key[k] == 0.0)
             || (forall k :: 0 <= k < |q[i]| ==> q[i][k] == 0.0)
    ensures ScoreMatrix(q, tokens)[i][j] == Fin(0.0)
  {
    DotOfZeros(q[i], tokens[j].key);
  }

  /** The second matrix product: row i, column d is row i of the probabilities times column d of the values. */
  function MixMatrix(p: seq<seq<Ext>>, tokens: seq<Token>, width: nat): (rows: seq<seq<Ext>>)
    requires Uniform(p, |tokens|)
    ensures |rows| == |p| && Uniform(rows, width)
  {
    seq(|p|, i requires 0 <= i < |p| => seq(width, d requires 0 <= d => MixColumn(p[i], tokens, d)))
  }

  lemma MixMatrixIsOutput(sm: Softmax, causal: bool, h: Head, width: nat)
    requires sm.Valid() && h.HasKeys()
    ensures var tokens := h.cached + h.added;
            var p := ProbabilityRows(sm, causal, ScoreMatrix(h.queries, tokens), |h.added|, |h.cached|);
            Uniform(p, |tokens|) && MixMatrix(p, tokens, width) == FinRows(h.Outputs(sm, causal, width))
  {
    var tokens := h.cached + h.added;
    var p := ProbabilityRows(sm, causal, ScoreMatrix(h.queries, tokens), |h.added|, |h.cached|);
    var x, y := MixMatrix(p, tokens, width), FinRows(h.Outputs(sm, causal, width));
    forall i | 0 <= i < |h.queries|
      ensures x[i] == y[i]
    {
      assert p[i] == HeadProbabilities(sm, causal, h, i);
      forall d | 0 <= d < width
        ensures x[i][d] == y[i][d]
      {
        RowRefinesAttention(sm, causal, h, i, d);
      }
    }
  }

  /** The tokens read back out of the flat key and value views. */
  lemma ViewTokens(tokens: seq<Token>, keyWidth: nat, valueWidth: nat)
    requires Uniform(Keys(tokens), keyWidth) && Uniform(Values(tokens), valueWidth)
    ensures |Flatten(Keys(tokens))| == |tokens| * keyWidth && |Flatten(Values(tokens))| == |tokens| * valueWidth
    ensures Zip(Rows(Flatten(Keys(tokens)), |tokens|, keyWidth),
                Rows(Flatten(Values(tokens)), |tokens|, valueWidth)) == tokens
  {
    RowsFlatten(Keys(tokens), keyWidth);
    RowsFlatten(Values(tokens), valueWidth);
    ZipKeysValues(tokens);
  }

  lemma ViewQueries(q: seq<real>, offsetQ: nat, rows: seq<seq<real>>, width: nat)
    requires SegmentAt(q, offsetQ, rows, width)
    ensures |rows| * width == |Flatten(rows)|
    ensures Rows(q[offsetQ..offsetQ + |rows| * width], |rows|, width) == rows
  {
    RowsFlatten(rows, width);
  }

  /** Everything the check computes for one head, ready to copy out. */
  method AttendHead(sm: Softmax, isCausal: bool, q: seq<real>, offsetQ: nat, kView: seq<real>, vView: seq<real>,
                    seqLenQO: nat, seqLenKV: nat, seqLenKVCache: nat, headSizeQK: nat, headSizeVO: nat, ghost h: Head)
    returns (vecOut: array<Ext>)
    requires sm.Valid() && h.HasKeys()
    requires |h.queries| == seqLenQO && |h.added| == seqLenKV && |h.cached| == seqLenKVCache
    requires SegmentAt(q, offsetQ, h.queries, headSizeQK)
    requires Uniform(Keys(h.cached + h.added), headSizeQK) && kView == Flatten(Keys(h.cached + h.added))
    requires Uniform(Values(h.cached + h.added), headSizeVO) && vView == Flatten(Values(h.cached + h.added))
    ensures fresh(vecOut) && vecOut[..] == Flatten(FinRows(h.Outputs(sm, isCausal, headSizeVO)))
  {
    var total := seqLenKV + seqLenKVCache;
    ViewQueries(q, offsetQ, h.queries, headSizeQK);
    ViewTokens(h.cached + h.added, headSizeQK, headSizeVO);
    var queries := Rows(q[offsetQ..offsetQ + seqLenQO * headSizeQK], seqLenQO, headSizeQK);
    var tokens := Zip(Rows(kView, total, headSizeQK), Rows(vView, total, headSizeVO));
    assert queries == h.queries && tokens == h.cached + h.added;
    vecOut := HeadFromRows(sm, isCausal, queries, tokens, seqLenKV, seqLenKVCache, headSizeVO, h);
  }

  method HeadFromRows(sm: Softmax, isCausal: bool, queries: seq<seq<real>>, tokens: seq<Token>,
                      seqLenKV: nat, seqLenKVCache: nat, headSizeVO: nat, ghost h: Head)
    returns (vecOut: array<Ext>)
    requires sm.Valid() && h.HasKeys() && queries == h.queries && tokens == h.cached + h.added
    requires |h.added| == seqLenKV && |h.cached| == seqLenKVCache
    ensures fresh(vecOut) && vecOut[..] == Flatten(FinRows(h.Outputs(sm, isCausal, headSizeVO)))
  {
    var scores := ScoreMatrix(queries, tokens);
    var hostS := ToArray(Flatten(scores));
    SoftmaxInPlace(hostS, scores, sm, isCausal, |queries|, seqLenKV, seqLenKVCache);
    ghost var p := ProbabilityRows(sm, isCausal, scores, seqLenKV, seqLenKVCache);
    RowsFlatten(p, |tokens|);
    MixMatrixIsOutput(sm, isCausal, h, headSizeVO);
    vecOut := ToArray(Flatten(MixMatrix(Rows(hostS[..], |queries|, |tokens|), tokens, headSizeVO)));
  }

  method ToArray(s: seq<Ext>) returns (a: array<Ext>)
    ensures fresh(a) && a[..] == s
  {
    a := new Ext[|s|](i requires 0 <= i < |s| => s[i]);
  }
}
