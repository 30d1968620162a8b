/** Numbers with two digits of fixed radix and one free leading digit: the shape of every packed
    three-dimensional offset. */
module MixedRadix {
  import opened Arithmetic

  /** Digits a (radix A, fastest), b (radix B) and c. */
  function Mix(a: nat, A: nat, b: nat, B: nat, c: nat): nat {
    (c * B + b) * A + a
  }

  /** Taking the digits apart. */
  lemma Unmix(a: nat, A: nat, b: nat, B: nat, c: nat)
    requires a < A && b < B
    ensures Mix(a, A, b, B, c) % A == a && (Mix(a, A, b, B, c) / A) % B == b && Mix(a, A, b, B, c) / A / B == c
  {
    DivUnique(Mix(a, A, b, B, c), A, c * B + b, a);
    DivUnique(c * B + b, B, c, b);
  }

  /** Putting them back together. */
  lemma Remix(x: nat, A: nat, B: nat)
    requires A > 0 && B > 0
    ensures x % A < A && (x / A) % B < B && Mix(x % A, A, (x / A) % B, B, x / A / B) == x
  {
    DivModEquation(x, A);
    DivModEquation(x / A, B);
  }

  lemma MixBound(a: nat, A: nat, b: nat, B: nat, c: nat, C: nat)
    requires a < A && b < B && c < C
    ensures Mix(a, A, b, B, c) < (C * B) * A
  {
    MulStrict(c, C, B);
    MulStrict(c * B + b, C * B, A);
  }

  lemma UnmixBound(x: nat, A: nat, B: nat, C: nat)
    requires x < (C * B) * A
    ensures A > 0 && B > 0 && x / A / B < C
  {
    QuotientBelow(x, C * B, A);
    QuotientBelow(x / A, C, B);
  }

  /** Different digits give different numbers. */
  lemma MixInjective(a: nat, b: nat, c: nat, a': nat, b': nat, c': nat, A: nat, B: nat)
    requires a < A && b < B && a' < A && b' < B && Mix(a, A, b, B, c) == Mix(a', A, b', B, c')
    ensures a == a' && b == b' && c == c'
  {
    Unmix(a, A, b, B, c);
    Unmix(a', A, b', B, c');
  }

  // A strided offset with the strides of a packed layout.
  lemma StridesMix(a: nat, A: nat, b: nat, B: nat, c: nat)
    ensures a + b * A + c * (A * B) == Mix(a, A, b, B, c)
  {
    MulCommutes(A, B);
    assert c * (B * A) == (c * B) * A;
  }

  // One step of the innermost digit, or a carry into the next.
  lemma MixStep(A: nat, b: nat, B: nat, c: nat)
    ensures Mix(A, A, b, B, c) == Mix(0, A, b + 1, B, c)
    ensures Mix(0, A, B, B, c) == Mix(0, A, 0, B, c + 1)
  {
    MulSucc(c * B + b, A);
    MulSucc(c, B);
  }
}
