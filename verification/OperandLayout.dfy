/** Packed operands and the scale and zero-point tensors that go with them. */
module OperandLayout {
  import opened Arithmetic
  import opened MixedRadix

  /** Which index of a packed operand varies fastest. */
  datatype Order = KFastest | MNFastest

  /** An operand of shape (mn, k, l), packed. */
  datatype Operand = Operand(order: Order, mn: nat, k: nat, l: nat)
  {
    function Size(): nat {
      (l * k) * mn
    }

    function StrideMN(): nat {
      if order.KFastest? then k else 1
    }

    function StrideK(): nat {
      if order.KFastest? then 1 else mn
    }

    function StrideL(): nat {
      mn * k
    }

    /** Where the element of coordinates (x, j, i) is stored. */
    function Offset(x: nat, j: nat, i: nat): nat {
      x * StrideMN() + j * StrideK() + i * StrideL()
    }

    predicate InShape(x: nat, j: nat, i: nat) {
      x < mn && j < k && i < l
    }

    /** The packed strides, one step at a time: the next element along the fastest index is the next in
        memory, the other index of the matrix steps over a run of those, and the batch over a matrix. */
    lemma OffsetSteps(x: nat, j: nat, i: nat)
      ensures Offset(0, 0, 0) == 0
      ensures Offset(x + 1, j, i) == Offset(x, j, i) + (if order == KFastest then k else 1)
      ensures Offset(x, j + 1, i) == Offset(x, j, i) + (if order == KFastest then 1 else mn)
      ensures Offset(x, j, i + 1) == Offset(x, j, i) + mn * k
    {
      MulSucc(x, StrideMN());
      MulSucc(j, StrideK());
      MulSucc(i, mn * k);
    }

    lemma OffsetMix(x: nat, j: nat, i: nat)
      ensures Offset(x, j, i) == if order.KFastest? then Mix(j, k, x, mn, i) else Mix(x, mn, j, k, i)
    {
      if order.KFastest? {
        StridesMix(j, k, x, mn, i);
        MulCommutes(k, mn);
      } else {
        StridesMix(x, mn, j, k, i);
      }
    }

    // The coordinates stored at a position.
    function XAt(p: nat): nat
      requires p < Size()
    {
      SizePositive(p);
      if order.KFastest? then Quotient(p, k) % mn else p % mn
    }

    function KAt(p: nat): nat
      requires p < Size()
    {
      SizePositive(p);
      if order.KFastest? then p % k else Quotient(p, mn) % k
    }

    function LAt(p: nat): nat
      requires p < Size()
    {
      SizePositive(p);
      if order.KFastest? then Quotient(Quotient(p, k), mn) else Quotient(Quotient(p, mn), k)
    }

    lemma SizePositive(p: nat)
      requires p < Size()
      ensures mn > 0 && k > 0
    {
      UnmixBound(p, mn, k, l);
    }

    lemma SizeSwapped()
      ensures Size() == (l * mn) * k
    {
      SwapFactors(l, k, mn);
    }

    /** Every position holds the element of exactly one coordinate triple. */
    lemma CoordinatesAt(p: nat)
      requires p < Size()
      ensures InShape(XAt(p), KAt(p), LAt(p)) && Offset(XAt(p), KAt(p), LAt(p)) == p
    {
      SizePositive(p);
      if order.KFastest? {
        SizeSwapped();
        Remix(p, k, mn);
        UnmixBound(p, k, mn, l);
      } else {
        Remix(p, mn, k);
        UnmixBound(p, mn, k, l);
      }
      OffsetMix(XAt(p), KAt(p), LAt(p));
    }

    lemma OffsetHolds(x: nat, j: nat, i: nat)
      requires InShape(x, j, i)
      ensures Offset(x, j, i) < Size()
      ensures XAt(Offset(x, j, i)) == x && KAt(Offset(x, j, i)) == j && LAt(Offset(x, j, i)) == i
    {
      OffsetMix(x, j, i);
      if order.KFastest? {
        SizeSwapped();
        MixBound(j, k, x, mn, i, l);
        Unmix(j, k, x, mn, i);
      } else {
        MixBound(x, mn, j, k, i, l);
        Unmix(x, mn, j, k, i);
      }
    }

    /** When the triple loop (l, then k, then mn) reaches a position. */
    function VisitTime(p: nat): nat
      requires p < Size()
    {
      Mix(XAt(p), mn, KAt(p), k, LAt(p))
    }

    /** Step t of the triple loop writes one position, and no other step writes it. */
    lemma VisitedOnce(t: nat) returns (p: nat)
      requires t < Size()
      ensures p < Size() && VisitTime(p) == t
      ensures forall p': nat :: p' < Size() && VisitTime(p') == t ==> p' == p
    {
      var x, j, i := VisitCoordinates(t);
      OffsetHolds(x, j, i);
      p := Offset(x, j, i);
      forall p': nat | p' < Size() && VisitTime(p') == t
        ensures p' == p
      {
        VisitTimeNames(p', x, j, i);
      }
    }

    lemma VisitCoordinates(t: nat) returns (x: nat, j: nat, i: nat)
      requires t < Size()
      ensures InShape(x, j, i) && Mix(x, mn, j, k, i) == t
    {
      UnmixBound(t, mn, k, l);
      Remix(t, mn, k);
      x, j, i := t % mn, Quotient(t, mn) % k, Quotient(Quotient(t, mn), k);
    }

    lemma VisitTimeNames(p: nat, x: nat, j: nat, i: nat)
      requires p < Size() && InShape(x, j, i) && VisitTime(p) == Mix(x, mn, j, k, i)
      ensures p == Offset(x, j, i)
    {
      CoordinatesAt(p);
      MixInjective(XAt(p), KAt(p), LAt(p), x, j, i, mn, k);
    }

    lemma VisitTimeBound(p: nat)
      requires p < Size()
      ensures VisitTime(p) < Size()
    {
      CoordinatesAt(p);
      MixBound(XAt(p), mn, KAt(p), k, LAt(p), l);
    }
  }

  lemma NextInPack(g: nat, packed: nat)
    requires packed > 0
    ensures (g + 1) % packed != 0 ==> (g + 1) / packed == g / packed && (g + 1) % packed == g % packed + 1
  {
    NextQuotient(g, packed);
    DivModEquation(g, packed);
    DivModEquation(g + 1, packed);
  }

  /** The scale tensor of shape (mn, scaleK, l), and a zero-point tensor of the same size: laid out like
      the scales, or with packed zero points along k first. */
  datatype Groups = Groups(mn: nat, scaleK: nat, l: nat, packed: nat)
  {
    function Size(): nat {
      (l * scaleK) * mn
    }

    predicate InShape(x: nat, g: nat, i: nat) {
      x < mn && g < scaleK && i < l
    }

    function ScaleOffset(x: nat, g: nat, i: nat): nat {
      x + g * mn + i * (mn * scaleK)
    }

    /** Zero when zero points are not packed. */
    function ZeroOffset(x: nat, g: nat, i: nat): nat {
      if packed == 0 then ScaleOffset(x, g, i)
      else g % packed + x * packed + (g / packed) * (packed * mn) + i * (mn * scaleK)
    }

    /** The scales are packed with rows fastest, then groups, then batches. */
    lemma ScaleOffsetSteps(x: nat, g: nat, i: nat)
      ensures ScaleOffset(0, 0, 0) == 0
      ensures ScaleOffset(x + 1, g, i) == ScaleOffset(x, g, i) + 1
      ensures ScaleOffset(x, g + 1, i) == ScaleOffset(x, g, i) + mn
      ensures ScaleOffset(x, g, i + 1) == ScaleOffset(x, g, i) + mn * scaleK
    {
      MulSucc(g, mn);
      MulSucc(i, mn * scaleK);
    }

    /** Packed zero points put the groups of one pack next to each other, then the rows, then the next pack,
        then the next batch. */
    lemma ZeroOffsetSteps(x: nat, g: nat, i: nat)
      requires packed > 0
      ensures ZeroOffset(0, 0, 0) == 0 && this.(packed := 0).ZeroOffset(x, g, i) == ScaleOffset(x, g, i)
      ensures ZeroOffset(x + 1, g, i) == ZeroOffset(x, g, i) + packed
      ensures (g + 1) % packed != 0 ==> ZeroOffset(x, g + 1, i) == ZeroOffset(x, g, i) + 1
      ensures ZeroOffset(x, g + packed, i) == ZeroOffset(x, g, i) + packed * mn
      ensures ZeroOffset(x, g, i + 1) == ZeroOffset(x, g, i) + mn * scaleK
    {
      DivUnique(0, packed, 0, 0);
      DivModEquation(g, packed);
      MulSucc(g / packed, packed);
      DivUnique(g + packed, packed, g / packed + 1, g % packed);
      NextInPack(g, packed);
      MulSucc(x, packed);
      MulSucc(g / packed, packed * mn);
      MulSucc(i, mn * scaleK);
    }

    lemma ScaleOffsetMix(x: nat, g: nat, i: nat)
      ensures ScaleOffset(x, g, i) == Mix(x, mn, g, scaleK, i)
    {
      StridesMix(x, mn, g, scaleK, i);
    }

    lemma ScaleInRange(x: nat, g: nat, i: nat)
      requires InShape(x, g, i)
      ensures ScaleOffset(x, g, i) < Size()
    {
      ScaleOffsetMix(x, g, i);
      MixBound(x, mn, g, scaleK, i, l);
    }
  }
}
