/** The packed zero-point layout: which offsets it produces, and when they fill the buffer. */
module ZeroPoints {
  import opened Arithmetic
  import opened MixedRadix
  import opened OperandLayout

  /** The layout is sound for these sizes: whole packs, or a single row. */
  predicate PacksSuit(gr: Groups) {
    gr.packed == 0 || gr.scaleK % gr.packed == 0 || gr.mn == 1
  }

  // Packs of all earlier batches, then of this row's earlier groups.
  function PackIndex(gr: Groups, g: nat, i: nat): nat
    requires gr.packed > 0
  {
    i * Quotient(gr.scaleK, gr.packed) + Quotient(g, gr.packed)
  }

  lemma WholePacks(gr: Groups)
    requires gr.packed > 0 && gr.scaleK % gr.packed == 0
    ensures gr.scaleK == Quotient(gr.scaleK, gr.packed) * gr.packed
    ensures gr.mn * gr.scaleK == Quotient(gr.scaleK, gr.packed) * (gr.packed * gr.mn)
  {
    var n, kp, mn := Quotient(gr.scaleK, gr.packed), gr.packed, gr.mn;
    DivModEquation(gr.scaleK, kp);
    PackProduct(n, kp, mn, gr.scaleK);
  }

  lemma PackProduct(n: nat, kp: nat, mn: nat, scaleK: nat)
    requires scaleK == n * kp
    ensures mn * scaleK == n * (kp * mn)
  {
    MulCommutes(mn, scaleK);
    assert (n * kp) * mn == n * (kp * mn);
  }

  /** With whole packs, an offset is a number with digits (place in the pack, row, pack). */
  lemma PackedOffsetMix(gr: Groups, x: nat, g: nat, i: nat)
    requires gr.packed > 0 && gr.scaleK % gr.packed == 0
    ensures gr.ZeroOffset(x, g, i) == Mix(g % gr.packed, gr.packed, x, gr.mn, PackIndex(gr, g, i))
  {
    var n, kp, mn := Quotient(gr.scaleK, gr.packed), gr.packed, gr.mn;
    WholePacks(gr);
    StridesMix(g % kp, kp, x, mn, PackIndex(gr, g, i));
    PackStrides(n, Quotient(g, kp), i, kp * mn, mn * gr.scaleK);
  }

  lemma PackStrides(n: nat, q: nat, i: nat, packStride: nat, batchStride: nat)
    requires batchStride == n * packStride
    ensures q * packStride + i * batchStride == (i * n + q) * packStride
  {
    assert i * (n * packStride) == (i * n) * packStride;
  }

  lemma PackInRange(gr: Groups, x: nat, g: nat, i: nat)
    requires gr.packed > 0 && gr.scaleK % gr.packed == 0 && gr.InShape(x, g, i)
    ensures Quotient(g, gr.packed) < Quotient(gr.scaleK, gr.packed)
    ensures PackIndex(gr, g, i) < gr.l * Quotient(gr.scaleK, gr.packed)
    ensures g % gr.packed < gr.packed
  {
    WholePacks(gr);
    QuotientBelow(g, Quotient(gr.scaleK, gr.packed), gr.packed);
    MulStrict(i, gr.l, Quotient(gr.scaleK, gr.packed));
  }

  lemma PackedSize(gr: Groups)
    requires gr.packed > 0 && gr.scaleK % gr.packed == 0
    ensures gr.Size() == ((gr.l * Quotient(gr.scaleK, gr.packed)) * gr.mn) * gr.packed
  {
    WholePacks(gr);
    SizeProduct(gr.l, Quotient(gr.scaleK, gr.packed), gr.packed, gr.mn, gr.scaleK);
  }

  lemma SizeProduct(l: nat, n: nat, kp: nat, mn: nat, scaleK: nat)
    requires scaleK == n * kp
    ensures (l * scaleK) * mn == ((l * n) * mn) * kp
  {
    assert l * (n * kp) == (l * n) * kp;
    SwapFactors(l * n, kp, mn);
  }

  /** With a single row the packed layout is the plain one. */
  lemma SingleRow(gr: Groups, g: nat, i: nat)
    requires gr.packed > 0 && gr.mn == 1
    ensures gr.ZeroOffset(0, g, i) == gr.ScaleOffset(0, g, i)
  {
    DivModEquation(g, gr.packed);
  }

  lemma ZeroInRange(gr: Groups, x: nat, g: nat, i: nat)
    requires PacksSuit(gr) && gr.InShape(x, g, i)
    ensures gr.ZeroOffset(x, g, i) < gr.Size()
  {
    if gr.packed == 0 {
      gr.ScaleInRange(x, g, i);
    } else if gr.scaleK % gr.packed == 0 {
      PackedOffsetMix(gr, x, g, i);
      PackInRange(gr, x, g, i);
      PackedSize(gr);
      MixBound(g % gr.packed, gr.packed, x, gr.mn, PackIndex(gr, g, i), gr.l * Quotient(gr.scaleK, gr.packed));
    } else {
      SingleRow(gr, g, i);
      gr.ScaleInRange(x, g, i);
    }
  }

  /** Different (row, group, batch) triples read different zero points. */
  lemma ZeroInjective(gr: Groups, x: nat, g: nat, i: nat, x': nat, g': nat, i': nat)
    requires PacksSuit(gr) && gr.InShape(x, g, i) && gr.InShape(x', g', i')
    requires gr.ZeroOffset(x, g, i) == gr.ZeroOffset(x', g', i')
    ensures x == x' && g == g' && i == i'
  {
    if gr.packed > 0 && gr.scaleK % gr.packed == 0 {
      PackedInjective(gr, x, g, i, x', g', i');
    } else {
      if gr.packed > 0 {
        SingleRow(gr, g, i);
        SingleRow(gr, g', i');
      }
      gr.ScaleOffsetMix(x, g, i);
      gr.ScaleOffsetMix(x', g', i');
      MixInjective(x, g, i, x', g', i', gr.mn, gr.scaleK);
    }
  }

  lemma PackedInjective(gr: Groups, x: nat, g: nat, i: nat, x': nat, g': nat, i': nat)
    requires gr.packed > 0 && gr.scaleK % gr.packed == 0 && gr.InShape(x, g, i) && gr.InShape(x', g', i')
    requires gr.ZeroOffset(x, g, i) == gr.ZeroOffset(x', g', i')
    ensures x == x' && g == g' && i == i'
  {
    var kp := gr.packed;
    PackedOffsetMix(gr, x, g, i);
    PackedOffsetMix(gr, x', g', i');
    PackInRange(gr, x, g, i);
    PackInRange(gr, x', g', i');
    MixInjective(g % kp, x, PackIndex(gr, g, i), g' % kp, x', PackIndex(gr, g', i'), kp, gr.mn);
    QuotientUnique(i, Quotient(g, kp), i', Quotient(g', kp), Quotient(gr.scaleK, kp));
    DivModEquation(g, kp);
    DivModEquation(g', kp);
  }

  /** Every element of the zero-point buffer is read by some triple. */
  lemma ZeroSurjective(gr: Groups, p: nat) returns (x: nat, g: nat, i: nat)
    requires PacksSuit(gr) && p < gr.Size()
    ensures gr.InShape(x, g, i) && gr.ZeroOffset(x, g, i) == p
  {
    if gr.packed > 0 && gr.scaleK % gr.packed == 0 {
      x, g, i := PackedSurjective(gr, p);
    } else {
      UnmixBound(p, gr.mn, gr.scaleK, gr.l);
      Remix(p, gr.mn, gr.scaleK);
      x, g, i := p % gr.mn, Quotient(p, gr.mn) % gr.scaleK, Quotient(Quotient(p, gr.mn), gr.scaleK);
      gr.ScaleOffsetMix(x, g, i);
      if gr.packed > 0 {
        SingleRow(gr, g, i);
      }
    }
  }

  lemma PackedSurjective(gr: Groups, p: nat) returns (x: nat, g: nat, i: nat)
    requires gr.packed > 0 && gr.scaleK % gr.packed == 0 && p < gr.Size()
    ensures gr.InShape(x, g, i) && gr.ZeroOffset(x, g, i) == p
  {
    var n, kp := Quotient(gr.scaleK, gr.packed), gr.packed;
    PackedSize(gr);
    WholePacks(gr);
    UnmixBound(p, kp, gr.mn, gr.l * n);
    Remix(p, kp, gr.mn);
    var a, c := p % kp, Quotient(Quotient(p, kp), gr.mn);
    x := Quotient(p, kp) % gr.mn;
    QuotientBelow(c, gr.l, n);
    i := Quotient(c, n);
    g := (c % n) * kp + a;
    DivUnique(g, kp, c % n, a);
    MulStrict(c % n, n, kp);
    PackedOffsetMix(gr, x, g, i);
  }

  lemma OverrunArithmetic(l: nat, mn: nat, scaleK: nat, kp: nat, q: nat, r: nat)
    requires l > 0 && mn >= 2 && 0 < r < kp && scaleK == q * kp + r
    ensures (r - 1) + (mn - 1) * kp + q * (kp * mn) + (l - 1) * (mn * scaleK) >= (l * scaleK) * mn
  {
    assert (l * scaleK) * mn == (l - 1) * (mn * scaleK) + mn * scaleK;
    assert mn * scaleK == q * (kp * mn) + mn * r;
    RowOverrun(mn, kp, r);
  }

  lemma RowOverrun(mn: nat, kp: nat, r: nat)
    requires mn >= 2 && 0 < r < kp
    ensures (r - 1) + (mn - 1) * kp >= mn * r
  {
    MulStrict(r, kp, mn - 1);
    MulCommutes(mn - 1, kp);
    MulSucc(mn - 1, r);
    MulCommutes(r, mn - 1);
  }

  lemma LastGroup(scaleK: nat, kp: nat)
    requires kp > 0 && scaleK % kp != 0
    ensures scaleK > 0 && (scaleK - 1) / kp == scaleK / kp && (scaleK - 1) % kp == scaleK % kp - 1
  {
    DivModEquation(scaleK, kp);
    DivUnique(scaleK - 1, kp, scaleK / kp, scaleK % kp - 1);
  }

  /** Every zero-point read stays inside the scale_k * L * dq_mn_size elements allocated exactly when the
      pack size divides the group count, or there is a single row. */
  lemma ZeroOffsetsFit(gr: Groups)
    requires gr.packed > 0 && gr.mn > 0 && gr.l > 0
    ensures (forall x: nat, g: nat, i: nat :: gr.InShape(x, g, i) ==> gr.ZeroOffset(x, g, i) < gr.Size())
       <==> PacksSuit(gr)
  {
    if PacksSuit(gr) {
      forall x: nat, g: nat, i: nat | gr.InShape(x, g, i)
        ensures gr.ZeroOffset(x, g, i) < gr.Size()
      {
        ZeroInRange(gr, x, g, i);
      }
    } else {
      LastGroup(gr.scaleK, gr.packed);
      DivModEquation(gr.scaleK, gr.packed);
      OverrunArithmetic(gr.l, gr.mn, gr.scaleK, gr.packed, gr.scaleK / gr.packed, gr.scaleK % gr.packed);
      assert gr.InShape(gr.mn - 1, gr.scaleK - 1, gr.l - 1);
      assert gr.ZeroOffset(gr.mn - 1, gr.scaleK - 1, gr.l - 1) >= gr.Size();
    }
  }
}
