/** Grouped quantization: every element of an operand is shifted by its group's zero point and
    multiplied by its group's scale, or divided by it on the way back. */
module Dequantization {
  import opened Arithmetic
  import opened MixedRadix
  import opened OperandLayout
  import opened Reals
  import opened ZeroPoints

  /** The scale and zero-point tensors belong to the operand, and every group is whole. */
  predicate Compatible(o: Operand, gr: Groups, groupSize: nat) {
    && groupSize > 0 && o.k % groupSize == 0
    && gr.mn == o.mn && gr.l == o.l && gr.scaleK == o.k / groupSize
    && PacksSuit(gr)
  }

  /** The group index of every column is in range exactly when the group size divides the column count. */
  lemma GroupIndicesFit(k: nat, groupSize: nat)
    requires groupSize > 0
    ensures (forall j: nat :: j < k ==> j / groupSize < k / groupSize) <==> k % groupSize == 0
  {
    DivModEquation(k, groupSize);
    if k % groupSize == 0 {
      forall j: nat | j < k
        ensures j / groupSize < k / groupSize
      {
        QuotientBelow(j, k / groupSize, groupSize);
      }
    } else {
      LastGroup(k, groupSize);
      assert (k - 1) / groupSize == k / groupSize;
    }
  }

  function Group(o: Operand, groupSize: nat, p: nat): nat
    requires groupSize > 0 && p < o.Size()
  {
    Quotient(o.KAt(p), groupSize)
  }

  /** The group of a column is the one whose run of groupSize columns holds it. */
  lemma GroupHolds(o: Operand, groupSize: nat, p: nat, g: nat)
    requires groupSize > 0 && p < o.Size()
    ensures InGroup(o.KAt(p), g, groupSize) <==> g == Group(o, groupSize, p)
  {
    var j := o.KAt(p);
    DivModEquation(j, groupSize);
    MulSucc(g, groupSize);
    MulSucc(j / groupSize, groupSize);
    if InGroup(j, g, groupSize) {
      DivUnique(j, groupSize, g, j - g * groupSize);
    }
  }

  predicate InGroup(j: nat, g: nat, groupSize: nat) {
    g * groupSize <= j < (g + 1) * groupSize
  }

  /** The positions of an element's scale and zero point. */
  function ScaleAt(o: Operand, gr: Groups, groupSize: nat, p: nat): nat
    requires groupSize > 0 && p < o.Size()
  {
    gr.ScaleOffset(o.XAt(p), Group(o, groupSize, p), o.LAt(p))
  }

  function ZeroAt(o: Operand, gr: Groups, groupSize: nat, p: nat): nat
    requires groupSize > 0 && p < o.Size()
  {
    gr.ZeroOffset(o.XAt(p), Group(o, groupSize, p), o.LAt(p))
  }

  lemma GroupDataInRange(o: Operand, gr: Groups, groupSize: nat, p: nat)
    requires Compatible(o, gr, groupSize) && p < o.Size()
    ensures ScaleAt(o, gr, groupSize, p) < gr.Size() && ZeroAt(o, gr, groupSize, p) < gr.Size()
  {
    o.CoordinatesAt(p);
    GroupIndicesFit(o.k, groupSize);
    gr.ScaleInRange(o.XAt(p), Group(o, groupSize, p), o.LAt(p));
    ZeroInRange(gr, o.XAt(p), Group(o, groupSize, p), o.LAt(p));
  }

  /** An operation applied to every element with its own scale and zero point. */
  function Apply<T, S, U>(op: (T, S, int) -> U, src: seq<T>, scale: seq<S>, zero: seq<int>,
                          o: Operand, gr: Groups, groupSize: nat): (r: seq<U>)
    requires Compatible(o, gr, groupSize) && |src| == o.Size() && |scale| == |zero| == gr.Size()
    ensures |r| == o.Size()
  {
    seq(o.Size(), p requires 0 <= p < o.Size() =>
      GroupDataInRange(o, gr, groupSize, p);
      op(src[p], scale[ScaleAt(o, gr, groupSize, p)], zero[ZeroAt(o, gr, groupSize, p)]))
  }

  // The element of row x, column j and batch i is the operation applied to its source, and to the scale
  // and zero point of that row and batch and of the group that holds the column.
  ghost predicate ElementIs<T, S, U(!new)>(op: (T, S, int) -> U, dst: seq<U>, src: seq<T>, scale: seq<S>,
                                           zero: seq<int>, o: Operand, gr: Groups, x: nat, j: nat, i: nat, g: nat)
  {
    && o.Offset(x, j, i) < |dst| == |src|
    && gr.ScaleOffset(x, g, i) < |scale| && gr.ZeroOffset(x, g, i) < |zero|
    && dst[o.Offset(x, j, i)]
       == op(src[o.Offset(x, j, i)], scale[gr.ScaleOffset(x, g, i)], zero[gr.ZeroOffset(x, g, i)])
  }

  ghost predicate ElementsAre<T, S, U(!new)>(op: (T, S, int) -> U, dst: seq<U>, src: seq<T>, scale: seq<S>,
                                             zero: seq<int>, o: Operand, gr: Groups, groupSize: nat)
  {
    forall x: nat, j: nat, i: nat, g: nat :: o.InShape(x, j, i) && InGroup(j, g, groupSize) ==>
      ElementIs(op, dst, src, scale, zero, o, gr, x, j, i, g)
  }

  lemma ApplyElements<T, S, U(!new)>(op: (T, S, int) -> U, src: seq<T>, scale: seq<S>, zero: seq<int>,
                                     o: Operand, gr: Groups, groupSize: nat)
    requires Compatible(o, gr, groupSize) && |src| == o.Size() && |scale| == |zero| == gr.Size()
    ensures ElementsAre(op, Apply(op, src, scale, zero, o, gr, groupSize), src, scale, zero, o, gr, groupSize)
  {
    forall x: nat, j: nat, i: nat, g: nat | o.InShape(x, j, i) && InGroup(j, g, groupSize)
      ensures ElementIs(op, Apply(op, src, scale, zero, o, gr, groupSize), src, scale, zero, o, gr, x, j, i, g)
    {
      o.OffsetHolds(x, j, i);
      GroupHolds(o, groupSize, o.Offset(x, j, i), g);
      GroupDataInRange(o, gr, groupSize, o.Offset(x, j, i));
    }
  }

  // Every position whose turn has come holds its result.
  ghost predicate Done<U(!new)>(dst: seq<U>, result: seq<U>, o: Operand, t: nat) {
    |dst| == |result| == o.Size()
    && forall p: nat :: p < o.Size() && o.VisitTime(p) < t ==> dst[p] == result[p]
  }

  lemma DoneStep<U(!new)>(dst: seq<U>, result: seq<U>, o: Operand, x: nat, j: nat, i: nat)
    requires o.InShape(x, j, i) && Done(dst, result, o, Mix(x, o.mn, j, o.k, i))
    ensures o.Offset(x, j, i) < |dst|
    ensures Done(dst[o.Offset(x, j, i) := result[o.Offset(x, j, i)]], result, o, Mix(x + 1, o.mn, j, o.k, i))
  {
    o.OffsetHolds(x, j, i);
    var off, t := o.Offset(x, j, i), Mix(x, o.mn, j, o.k, i);
    var dst' := dst[off := result[off]];
    forall p: nat | p < o.Size() && o.VisitTime(p) < t + 1
      ensures dst'[p] == result[p]
    {
      if o.VisitTime(p) == t {
        o.VisitTimeNames(p, x, j, i);
      }
    }
  }

  lemma DoneAll<U(!new)>(dst: seq<U>, result: seq<U>, o: Operand)
    requires Done(dst, result, o, Mix(0, o.mn, 0, o.k, o.l))
    ensures dst == result
  {
    forall p: nat | p < o.Size()
      ensures dst[p] == result[p]
    {
      o.VisitTimeBound(p);
    }
  }

  /** One element of the innermost loop body, addressed by strides. */
  method WriteElement<T, S, U(!new)>(dst: array<U>, src: seq<T>, scale: seq<S>, zero: seq<int>, o: Operand, gr: Groups,
                                     groupSize: nat, op: (T, S, int) -> U, x: nat, j: nat, i: nat)
    requires Compatible(o, gr, groupSize) && |src| == o.Size() && |scale| == |zero| == gr.Size() && o.InShape(x, j, i)
    requires Done(dst[..], Apply(op, src, scale, zero, o, gr, groupSize), o, Mix(x, o.mn, j, o.k, i))
    modifies dst
    ensures Done(dst[..], Apply(op, src, scale, zero, o, gr, groupSize), o, Mix(x + 1, o.mn, j, o.k, i))
  {
    o.OffsetHolds(x, j, i);
    var off := o.Offset(x, j, i);
    GroupDataInRange(o, gr, groupSize, off);
    DoneStep(dst[..], Apply(op, src, scale, zero, o, gr, groupSize), o, x, j, i);
    var g := Quotient(j, groupSize);
    dst[off] := op(src[off], scale[gr.ScaleOffset(x, g, i)], zero[gr.ZeroOffset(x, g, i)]);
  }

  /** The triple loop of both operands' conversions: batch, then column, then row. */
  method ForEachElement<T, S, U(!new)>(dst: array<U>, src: seq<T>, scale: seq<S>, zero: seq<int>,
                                       o: Operand, gr: Groups, groupSize: nat, op: (T, S, int) -> U)
    requires Compatible(o, gr, groupSize) && |src| == dst.Length == o.Size() && |scale| == |zero| == gr.Size()
    modifies dst
    ensures dst[..] == Apply(op, src, scale, zero, o, gr, groupSize)
    ensures ElementsAre(op, dst[..], src, scale, zero, o, gr, groupSize)
  {
    ghost var result := Apply(op, src, scale, zero, o, gr, groupSize);
    for i := 0 to o.l
      invariant Done(dst[..], result, o, Mix(0, o.mn, 0, o.k, i))
    {
      for j := 0 to o.k
        invariant Done(dst[..], result, o, Mix(0, o.mn, j, o.k, i))
      {
        for x := 0 to o.mn
          invariant Done(dst[..], result, o, Mix(x, o.mn, j, o.k, i))
        {
          WriteElement(dst, src, scale, zero, o, gr, groupSize, op, x, j, i);
        }
        MixStep(o.mn, j, o.k, i);
      }
      MixStep(o.mn, o.k, o.k, i);
    }
    DoneAll(dst[..], result, o);
    ApplyElements(op, src, scale, zero, o, gr, groupSize);
  }

  // ----- the two conversions

  /** Conversion to integer, towards zero. */
  function Truncate(x: real): int {
    if x >= 0.0 then x.Floor else -((-x).Floor)
  }

  function Dequantize(q: int, scale: PositiveReal, zero: int): real {
    (q - zero) as real * scale
  }

  function Quantize(x: real, scale: PositiveReal, zero: int): int {
    Truncate(x / scale) + zero
  }

  /** The zero point dequantizes to zero, and every quantum more adds one scale: so an element is
      (q - zero) * scale. */
  lemma DequantizeSteps(q: int, scale: PositiveReal, zero: int)
    ensures Dequantize(zero, scale, zero) == 0.0
    ensures Dequantize(q + 1, scale, zero) == Dequantize(q, scale, zero) + scale
  {
    MulSuccReal((q - zero) as real, scale);
  }

  lemma MulSuccReal(a: real, b: real)
    ensures (a + 1.0) * b == a * b + b
  {
  }

  /** n quanta of the scale reach from zero towards x, and one more would pass it. */
  predicate Quanta(x: real, scale: real, n: int) {
    && (x >= 0.0 ==> n as real * scale <= x < (n + 1) as real * scale)
    && (x <= 0.0 ==> (n - 1) as real * scale < x <= n as real * scale)
  }

  /** Quantizing counts the whole quanta from zero and adds the zero point, and no other number does. */
  lemma QuantizeCounts(x: real, scale: PositiveReal, zero: int, q: int)
    ensures Quanta(x, scale, q - zero) <==> q == Quantize(x, scale, zero)
  {
    var y := x / scale;
    QuotientSigns(x, scale, q - zero);
    TruncateExactly(y, q - zero);
  }

  lemma QuotientSigns(x: real, scale: PositiveReal, n: int)
    ensures Quanta(x, scale, n) <==> Quanta(x / scale, 1.0, n)
  {
    var y := x / scale;
    assert y * scale == x;
    Compare(y, 0.0, scale);
    Compare(y, n as real, scale);
    Compare(y, (n + 1) as real, scale);
    Compare(y, (n - 1) as real, scale);
  }

  lemma Compare(a: real, b: real, scale: PositiveReal)
    ensures a < b <==> a * scale < b * scale
    ensures a == b <==> a * scale == b * scale
  {
    assert (b - a) * scale == b * scale - a * scale;
  }

  lemma TruncateExactly(y: real, n: int)
    ensures Quanta(y, 1.0, n) <==> n == Truncate(y)
  {
  }

  // Where the conversion reads and writes the element (x, j, i) of group g.
  ghost predicate Addressed<T, U(!new)>(dst: seq<U>, src: seq<T>, scale: seq<PositiveReal>, zero: seq<int>,
                                        o: Operand, gr: Groups, x: nat, j: nat, i: nat, g: nat)
  {
    o.Offset(x, j, i) < |dst| == |src| && gr.ScaleOffset(x, g, i) < |scale| && gr.ZeroOffset(x, g, i) < |zero|
  }

  /** (q - zero) * scale for every element, into the buffer. */
  method DequantizeOperand(dst: array<real>, src: seq<int>, scale: seq<PositiveReal>, zero: seq<int>,
                           o: Operand, gr: Groups, groupSize: nat)
    requires Compatible(o, gr, groupSize) && |src| == dst.Length == o.Size() && |scale| == |zero| == gr.Size()
    modifies dst
    ensures dst[..] == Apply(Dequantize, src, scale, zero, o, gr, groupSize)
    ensures forall x: nat, j: nat, i: nat, g: nat :: o.InShape(x, j, i) && InGroup(j, g, groupSize) ==>
      Addressed(dst[..], src, scale, zero, o, gr, x, j, i, g)
      && dst[o.Offset(x, j, i)] == (src[o.Offset(x, j, i)] - zero[gr.ZeroOffset(x, g, i)]) as real
                                   * scale[gr.ScaleOffset(x, g, i)]
  {
    ForEachElement(dst, src, scale, zero, o, gr, groupSize, Dequantize);
    forall x: nat, j: nat, i: nat, g: nat | o.InShape(x, j, i) && InGroup(j, g, groupSize)
      ensures Addressed(dst[..], src, scale, zero, o, gr, x, j, i, g)
      ensures dst[o.Offset(x, j, i)] == (src[o.Offset(x, j, i)] - zero[gr.ZeroOffset(x, g, i)]) as real
                                        * scale[gr.ScaleOffset(x, g, i)]
    {
      assert ElementIs(Dequantize, dst[..], src, scale, zero, o, gr, x, j, i, g);
    }
  }

  /** trunc(x / scale) + zero for every element, into the buffer. */
  method QuantizeOperand(dst: array<int>, src: seq<real>, scale: seq<PositiveReal>, zero: seq<int>,
                         o: Operand, gr: Groups, groupSize: nat)
    requires Compatible(o, gr, groupSize) && |src| == dst.Length == o.Size() && |scale| == |zero| == gr.Size()
    modifies dst
    ensures dst[..] == Apply(Quantize, src, scale, zero, o, gr, groupSize)
    ensures forall x: nat, j: nat, i: nat, g: nat :: o.InShape(x, j, i) && InGroup(j, g, groupSize) ==>
      Addressed(dst[..], src, scale, zero, o, gr, x, j, i, g)
      && Quanta(src[o.Offset(x, j, i)], scale[gr.ScaleOffset(x, g, i)],
                dst[o.Offset(x, j, i)] - zero[gr.ZeroOffset(x, g, i)])
  {
    ForEachElement(dst, src, scale, zero, o, gr, groupSize, Quantize);
    forall x: nat, j: nat, i: nat, g: nat | o.InShape(x, j, i) && InGroup(j, g, groupSize)
      ensures Addressed(dst[..], src, scale, zero, o, gr, x, j, i, g)
      ensures Quanta(src[o.Offset(x, j, i)], scale[gr.ScaleOffset(x, g, i)],
                     dst[o.Offset(x, j, i)] - zero[gr.ZeroOffset(x, g, i)])
    {
      assert ElementIs(Quantize, dst[..], src, scale, zero, o, gr, x, j, i, g);
      QuantizeCounts(src[o.Offset(x, j, i)], scale[gr.ScaleOffset(x, g, i)], zero[gr.ZeroOffset(x, g, i)],
                     dst[o.Offset(x, j, i)]);
    }
  }

  // ----- going there and back

  lemma TruncateInteger(n: int)
    ensures Truncate(n as real) == n
  {
    assert -(n as real) == (-n) as real;
  }

  lemma QuantizeUndoes(q: int, scale: PositiveReal, zero: int)
    ensures Quantize(Dequantize(q, scale, zero), scale, zero) == q
  {
    assert ((q - zero) as real * scale) / scale == (q - zero) as real;
    TruncateInteger(q - zero);
  }

  lemma TruncateClose(x: real)
    ensures -1.0 < x - Truncate(x) as real < 1.0
    ensures x >= 0.0 ==> 0.0 <= Truncate(x) as real <= x
    ensures x <= 0.0 ==> x <= Truncate(x) as real <= 0.0
  {
  }

  lemma ScaleBack(x: real, n: real, scale: real)
    requires scale > 0.0 && -1.0 < x / scale - n < 1.0
    ensures -scale < x - n * scale < scale
  {
    var e := x / scale - n;
    assert (x / scale) * scale == x;
    assert e * scale == x - n * scale;
    assert e * scale < 1.0 * scale && (-1.0) * scale < e * scale;
  }

  predicate Within(x: real, y: real, step: real) {
    -step < x - y < step
  }

  /** Quantizing and coming back lands within one scale step of the original. */
  lemma DequantizeNears(x: real, scale: PositiveReal, zero: int)
    ensures Within(x, Dequantize(Quantize(x, scale, zero), scale, zero), scale)
  {
    var n := Truncate(x / scale);
    TruncateClose(x / scale);
    assert Quantize(x, scale, zero) - zero == n;
    ScaleBack(x, n as real, scale);
  }

  /** The integer conversion undoes the floating one on the whole tensor. */
  lemma TensorRoundTrip(src: seq<int>, scale: seq<PositiveReal>, zero: seq<int>, o: Operand, gr: Groups, groupSize: nat)
    requires Compatible(o, gr, groupSize) && |src| == o.Size() && |scale| == |zero| == gr.Size()
    ensures Apply(Quantize, Apply(Dequantize, src, scale, zero, o, gr, groupSize), scale, zero, o, gr, groupSize) == src
  {
    var there := Apply(Dequantize, src, scale, zero, o, gr, groupSize);
    var back := Apply(Quantize, there, scale, zero, o, gr, groupSize);
    forall p: nat | p < o.Size()
      ensures back[p] == src[p]
    {
      GroupDataInRange(o, gr, groupSize, p);
      QuantizeUndoes(src[p], scale[ScaleAt(o, gr, groupSize, p)], zero[ZeroAt(o, gr, groupSize, p)]);
    }
  }

  /** The other way round, every element of the tensor comes back within one step of its own scale. */
  lemma TensorNearRoundTrip(src: seq<real>, scale: seq<PositiveReal>, zero: seq<int>, o: Operand, gr: Groups,
                            groupSize: nat, p: nat)
    requires Compatible(o, gr, groupSize) && |src| == o.Size() && |scale| == |zero| == gr.Size() && p < o.Size()
    ensures ScaleAt(o, gr, groupSize, p) < gr.Size()
    ensures var there := Apply(Quantize, src, scale, zero, o, gr, groupSize);
            var back := Apply(Dequantize, there, scale, zero, o, gr, groupSize);
            Within(src[p], back[p], scale[ScaleAt(o, gr, groupSize, p)])
  {
    GroupDataInRange(o, gr, groupSize, p);
    DequantizeNears(src[p], scale[ScaleAt(o, gr, groupSize, p)], zero[ZeroAt(o, gr, groupSize, p)]);
  }
}
