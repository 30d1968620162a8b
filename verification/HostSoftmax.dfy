/** The host passes over the score matrix, in place on one row-major array. A ghost
    matrix mirrors the array row by row, so every claim is about rows. */
module HostSoftmax {
  import opened Arithmetic
  import opened ExtendedReals
  import opened Matrices
  import opened Attention
  import opened SoftmaxRow

  function MaskRows(rows: seq<seq<Ext>>, causal: bool, qLen: nat, newLen: nat, cacheLen: nat): (r: seq<seq<Ext>>)
    ensures |r| == |rows|
  {
    seq(|rows|, i requires 0 <= i < |rows| => MaskRow(rows[i], causal, qLen, newLen, cacheLen, i))
  }

  function ExpRows(sm: Softmax, rows: seq<seq<Ext>>): (r: seq<seq<Ext>>)
    requires forall i :: 0 <= i < |rows| ==> |rows[i]| > 0
    ensures |r| == |rows|
  {
    seq(|rows|, i requires 0 <= i < |rows| => ExpRow(sm, RowMax(rows[i]), rows[i]))
  }

  function NormaliseRows(rows: seq<seq<Ext>>, causal: bool, discardSeqCoord: nat): (r: seq<seq<Ext>>)
    ensures |r| == |rows|
  {
    seq(|rows|, i requires 0 <= i < |rows| =>
      NormaliseRow(rows[i], RowSum(rows[i]), causal && i < discardSeqCoord))
  }

  // -inf past the bottom-right diagonal, and the score everywhere else.
  ghost predicate MaskWritten(s: seq<Ext>, rows: seq<seq<Ext>>, qLen: nat, newLen: nat, cacheLen: nat,
                              row: nat, col: nat)
    requires |rows| == qLen && Uniform(rows, newLen + cacheLen) && row < qLen && col < newLen + cacheLen
  {
    && row * (newLen + cacheLen) + col < |s|
    && s[row * (newLen + cacheLen) + col]
       == if col >= cacheLen && col - cacheLen + qLen > row + newLen then NegInf else rows[row][col]
  }

  lemma MaskedElements(rows: seq<seq<Ext>>, qLen: nat, newLen: nat, cacheLen: nat)
    requires |rows| == qLen && Uniform(rows, newLen + cacheLen)
    ensures forall row: nat, col: nat :: row < qLen && col < newLen + cacheLen ==>
      MaskWritten(Flatten(MaskRows(rows, true, qLen, newLen, cacheLen)), rows, qLen, newLen, cacheLen, row, col)
  {
    var masked := MaskRows(rows, true, qLen, newLen, cacheLen);
    forall row: nat, col: nat | row < qLen && col < newLen + cacheLen
      ensures MaskWritten(Flatten(masked), rows, qLen, newLen, cacheLen, row, col)
    {
      FlattenAt(masked, newLen + cacheLen, row, col);
      MaskedIsDiagonal(qLen, newLen, cacheLen, row, col);
    }
  }

  method ApplyCausalMask(s: array<Ext>, ghost rows: seq<seq<Ext>>, qLen: nat, newLen: nat, cacheLen: nat)
    requires |rows| == qLen && Uniform(rows, newLen + cacheLen) && s[..] == Flatten(rows)
    modifies s
    ensures Uniform(MaskRows(rows, true, qLen, newLen, cacheLen), newLen + cacheLen)
    ensures s[..] == Flatten(MaskRows(rows, true, qLen, newLen, cacheLen))
    ensures forall row: nat, col: nat :: row < qLen && col < newLen + cacheLen ==>
      MaskWritten(s[..], rows, qLen, newLen, cacheLen, row, col)
  {
    var total := newLen + cacheLen;
    ghost var masked := MaskRows(rows, true, qLen, newLen, cacheLen);
    RewritingStart(s[..], masked, rows, total);
    for row := 0 to qLen
      invariant Rewriting(s[..], masked, rows, total, row, 0)
    {
      RewritingSkip(s[..], masked, rows, total, row, 0, cacheLen);
      for col := cacheLen to total
        invariant Rewriting(s[..], masked, rows, total, row, col)
      {
        if Masked(qLen, newLen, cacheLen, row, col) {
          RewritingRead(s[..], masked, rows, total, row, col);
          StoreElement(s, masked, rows, total, row, col, col + row * total, NegInf);
        } else {
          RewritingSkip(s[..], masked, rows, total, row, col, col + 1);
        }
      }
      RewritingNextRow(s[..], masked, rows, total, row);
    }
    MaskedElements(rows, qLen, newLen, cacheLen);
  }

  method RowMaxima(s: array<Ext>, ghost rows: seq<seq<Ext>>, qLen: nat, total: nat) returns (maxVec: array<Ext>)
    requires |rows| == qLen && Uniform(rows, total) && s[..] == Flatten(rows) && (qLen > 0 ==> total > 0)
    ensures fresh(maxVec) && maxVec.Length == qLen
    ensures forall r :: 0 <= r < qLen ==> maxVec[r] == RowMax(rows[r])
  {
    maxVec := new Ext[qLen](_ => NegInf);
    for row := 0 to qLen
      invariant forall r :: 0 <= r < row ==> maxVec[r] == RowMax(rows[r])
    {
      var idx := row * total;
      FlattenAt(rows, total, row, 0);
      maxVec[row] := s[idx];
      idx := idx + 1;
      assert rows[row][..1] == [rows[row][0]];
      for col := 1 to total
        invariant idx == row * total + col
        invariant forall r :: 0 <= r < row ==> maxVec[r] == RowMax(rows[r])
        invariant maxVec[row] == RowMax(rows[row][..col])
      {
        FlattenAt(rows, total, row, col);
        assert rows[row][..col + 1][..col] == rows[row][..col];
        if Less(maxVec[row], s[idx]) {
          maxVec[row] := s[idx];
        }
        idx := idx + 1;
      }
      assert rows[row][..total] == rows[row];
    }
  }

  method ExpInPlace(s: array<Ext>, ghost rows: seq<seq<Ext>>, maxVec: array<Ext>, sm: Softmax, qLen: nat, total: nat)
    requires |rows| == qLen && Uniform(rows, total) && s[..] == Flatten(rows) && (qLen > 0 ==> total > 0)
    requires maxVec != s && maxVec.Length == qLen
    requires forall r :: 0 <= r < qLen ==> maxVec[r] == RowMax(rows[r])
    modifies s
    ensures Uniform(ExpRows(sm, rows), total) && s[..] == Flatten(ExpRows(sm, rows))
  {
    ghost var exps := ExpRows(sm, rows);
    RewritingStart(s[..], exps, rows, total);
    for row := 0 to qLen
      invariant Rewriting(s[..], exps, rows, total, row, 0)
    {
      ExpOneRow(s, exps, rows, row, total, maxVec[row], sm);
    }
  }

  /** Replaces one row by its shifted exponentials. */
  method ExpOneRow(s: array<Ext>, ghost exps: seq<seq<Ext>>, ghost rows: seq<seq<Ext>>, row: nat, total: nat,
                   max: Ext, sm: Softmax)
    requires Rewriting(s[..], exps, rows, total, row, 0) && row < |rows|
    requires exps[row] == ExpRow(sm, max, rows[row])
    modifies s
    ensures Rewriting(s[..], exps, rows, total, row + 1, 0)
  {
    var idx := row * total;
    for col := 0 to total
      invariant idx == row * total + col
      invariant Rewriting(s[..], exps, rows, total, row, col)
    {
      RewritingRead(s[..], exps, rows, total, row, col);
      StoreElement(s, exps, rows, total, row, col, idx, ShiftedExp(sm, max, s[idx]));
      idx := idx + 1;
    }
    RewritingNextRow(s[..], exps, rows, total, row);
  }

  lemma RowElement(s: seq<Ext>, done: seq<seq<Ext>>, todo: seq<seq<Ext>>, w: nat, r: nat, c: nat)
    requires Rewriting(s, done, todo, w, r, 0) && r < |done| && c < w
    ensures r * w + c < |s| && s[r * w + c] == todo[r][c]
  {
    FlattenAt(Half(done, todo, r, 0), w, r, c);
  }

  /** The sum of one row, as the running total of its elements. */
  method SumRow(s: array<Ext>, ghost done: seq<seq<Ext>>, ghost rows: seq<seq<Ext>>, row: nat, total: nat)
    returns (sum: Ext)
    requires Rewriting(s[..], done, rows, total, row, 0) && row < |rows|
    ensures sum == RowSum(rows[row])
  {
    var idx := row * total;
    sum := Fin(0.0);
    for col := 0 to total
      invariant idx == row * total + col
      invariant sum == RowSum(rows[row][..col])
    {
      RowElement(s[..], done, rows, total, row, col);
      assert rows[row][..col + 1][..col] == rows[row][..col];
      sum := Add(sum, s[idx]);
      idx := idx + 1;
    }
    assert rows[row][..total] == rows[row];
  }

  /** Divides one row by its sum, or zeroes it when it is discarded. */
  method ScaleRow(s: array<Ext>, ghost scaled: seq<seq<Ext>>, ghost rows: seq<seq<Ext>>, row: nat, total: nat,
                  sum: Ext, discard: bool)
    requires Rewriting(s[..], scaled, rows, total, row, 0) && row < |rows|
    requires scaled[row] == NormaliseRow(rows[row], sum, discard)
    modifies s
    ensures Rewriting(s[..], scaled, rows, total, row + 1, 0)
  {
    var idx := row * total;
    for col := 0 to total
      invariant idx == row * total + col
      invariant Rewriting(s[..], scaled, rows, total, row, col)
    {
      RewritingRead(s[..], scaled, rows, total, row, col);
      StoreElement(s, scaled, rows, total, row, col, idx, if discard then Fin(0.0) else Div(s[idx], sum));
      idx := idx + 1;
    }
    RewritingNextRow(s[..], scaled, rows, total, row);
  }

  method NormaliseInPlace(s: array<Ext>, ghost rows: seq<seq<Ext>>, causal: bool, discardSeqCoord: nat,
                          qLen: nat, total: nat)
    requires |rows| == qLen && Uniform(rows, total) && s[..] == Flatten(rows)
    modifies s
    ensures Uniform(NormaliseRows(rows, causal, discardSeqCoord), total)
    ensures s[..] == Flatten(NormaliseRows(rows, causal, discardSeqCoord))
  {
    ghost var scaled := NormaliseRows(rows, causal, discardSeqCoord);
    RewritingStart(s[..], scaled, rows, total);
    var sumVec := new Ext[qLen](_ => Fin(0.0));
    for row := 0 to qLen
      invariant Rewriting(s[..], scaled, rows, total, row, 0)
    {
      sumVec[row] := SumRow(s, scaled, rows, row, total);
      ScaleRow(s, scaled, rows, row, total, sumVec[row], causal && row < discardSeqCoord);
    }
  }

  function ProbabilityRows(sm: Softmax, causal: bool, rows: seq<seq<Ext>>, newLen: nat, cacheLen: nat)
    : (p: seq<seq<Ext>>)
    requires forall i :: 0 <= i < |rows| ==> |rows[i]| > 0
    ensures |p| == |rows|
  {
    seq(|rows|, i requires 0 <= i < |rows| => Probabilities(sm, causal, rows[i], |rows|, newLen, cacheLen, i))
  }

  /** The passes between the two matrix products, in order. */
  method SoftmaxInPlace(s: array<Ext>, ghost rows: seq<seq<Ext>>, sm: Softmax, causal: bool,
                        qLen: nat, newLen: nat, cacheLen: nat)
    requires |rows| == qLen && Uniform(rows, newLen + cacheLen) && s[..] == Flatten(rows)
    requires qLen > 0 ==> newLen + cacheLen > 0
    modifies s
    ensures Uniform(ProbabilityRows(sm, causal, rows, newLen, cacheLen), newLen + cacheLen)
    ensures s[..] == Flatten(ProbabilityRows(sm, causal, rows, newLen, cacheLen))
  {
    var total := newLen + cacheLen;
    var offset := Min(qLen, newLen);
    var discardSeqCoord := qLen - offset;
    ghost var masked := MaskRows(rows, causal, qLen, newLen, cacheLen);
    if causal {
      ApplyCausalMask(s, rows, qLen, newLen, cacheLen);
    } else {
      assert forall i :: 0 <= i < qLen ==> masked[i] == rows[i];
      assert masked == rows;
    }
    var maxVec := RowMaxima(s, masked, qLen, total);
    ExpInPlace(s, masked, maxVec, sm, qLen, total);
    ghost var exps := ExpRows(sm, masked);
    NormaliseInPlace(s, exps, causal, discardSeqCoord, qLen, total);
    PassesCompose(sm, causal, rows, newLen, cacheLen);
  }

  lemma PassesCompose(sm: Softmax, causal: bool, rows: seq<seq<Ext>>, newLen: nat, cacheLen: nat)
    requires forall i :: 0 <= i < |rows| ==> |rows[i]| > 0
    ensures var exps := ExpRows(sm, MaskRows(rows, causal, |rows|, newLen, cacheLen));
            NormaliseRows(exps, causal, |rows| - Min(|rows|, newLen))
            == ProbabilityRows(sm, causal, rows, newLen, cacheLen)
  {
    var exps := ExpRows(sm, MaskRows(rows, causal, |rows|, newLen, cacheLen));
    var p := NormaliseRows(exps, causal, |rows| - Min(|rows|, newLen));
    var p' := ProbabilityRows(sm, causal, rows, newLen, cacheLen);
    forall i | 0 <= i < |rows|
      ensures p[i] == p'[i]
    {
    }
  }
}
