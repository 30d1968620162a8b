/** Small facts about products, quotients and remainders, each proved on its own. */
module Arithmetic {
  function Min(a: int, b: int): int {
    if a < b then a else b
  }

  function Max(a: int, b: int): int {
    if a < b then b else a
  }

  lemma MulMonotone(a: nat, b: nat, d: nat)
    requires a <= b
    ensures a * d <= b * d
  {
  }

  lemma MulSucc(a: int, d: int)
    ensures (a + 1) * d == a * d + d
  {
  }

  lemma MulStrict(a: int, b: int, d: nat)
    requires a < b && d > 0
    ensures a * d + d <= b * d
  {
    var k := b - a - 1;
    assert b * d == a * d + d + k * d;
    assert k * d >= 0;
  }

  lemma QuotientUnique(q: int, r: nat, q': int, r': nat, d: nat)
    requires r < d && r' < d && q * d + r == q' * d + r'
    ensures q == q' && r == r'
  {
    if q < q' {
      MulStrict(q, q', d);
    } else if q' < q {
      MulStrict(q', q, d);
    }
  }

  lemma DivModEquation(a: nat, d: nat)
    requires d > 0
    ensures a == (a / d) * d + a % d && a % d < d
  {
  }

  function Quotient(a: nat, d: nat): nat
    requires d > 0
  {
    a / d
  }

  /** The quotient and remainder are the only way to write a as q * d + r with r below d. */
  lemma DivUnique(a: nat, d: nat, q: nat, r: nat)
    requires d > 0 && r < d && a == q * d + r
    ensures a / d == q && a % d == r
  {
    DivModEquation(a, d);
    QuotientUnique(q, r, a / d, a % d, d);
  }

  lemma MulCommutes(a: int, b: int)
    ensures a * b == b * a
  {
  }

  lemma SwapFactors(a: nat, b: nat, c: nat)
    ensures (a * b) * c == (a * c) * b
  {
    assert (a * b) * c == a * (b * c);
    MulCommutes(b, c);
    assert a * (c * b) == (a * c) * b;
  }

  /** A number below m * n has a quotient by n below m. */
  lemma QuotientBelow(a: nat, m: nat, n: nat)
    requires a < m * n
    ensures m > 0 && n > 0
    ensures a / n < m && a % n < n && a == (a / n) * n + a % n
  {
    DivModEquation(a, n);
    if a / n >= m {
      MulMonotone(m, a / n, n);
    }
  }

  lemma NextQuotient(a: nat, d: nat)
    requires d > 0
    ensures (a + 1) / d == (if (a + 1) % d == 0 then a / d + 1 else a / d)
  {
    var q, r := a / d, a % d;
    DivModEquation(a, d);
    if r + 1 == d {
      MulSucc(q, d);
      DivUnique(a + 1, d, q + 1, 0);
    } else {
      DivUnique(a + 1, d, q, r + 1);
    }
  }

  function CeilDiv(a: nat, b: nat): nat
    requires b > 0
  {
    (a + b - 1) / b
  }

  lemma CeilDivCases(len: nat, size: nat)
    requires size > 0
    ensures CeilDiv(len, size) == len / size + (if len % size == 0 then 0 else 1)
  {
    var q, r := len / size, len % size;
    DivModEquation(len, size);
    if r == 0 {
      DivUnique(len + size - 1, size, q, size - 1);
    } else {
      MulSucc(q, size);
      DivUnique(len + size - 1, size, q + 1, r - 1);
    }
  }

  /** CeilDiv counts the pages that len rows need: together they reach the end, and each of
      them starts before it. */
  lemma CeilDivCounts(len: nat, size: nat)
    requires size > 0
    ensures CeilDiv(len, size) * size >= len
    ensures len > 0 ==> CeilDiv(len, size) > 0 && (CeilDiv(len, size) - 1) * size < len
    ensures len % size == 0 ==> CeilDiv(len, size) * size == len
  {
    CeilDivCases(len, size);
    DivModEquation(len, size);
    MulSucc(len / size, size);
    MulSucc(CeilDiv(len, size) - 1, size);
  }

  lemma StartsBefore(i: nat, size: nat, len: nat)
    requires size > 0 && i < CeilDiv(len, size)
    ensures i * size < len
    ensures i + 1 < CeilDiv(len, size) || len % size == 0 ==> i * size + size <= len
  {
    var n := CeilDiv(len, size);
    CeilDivCounts(len, size);
    CeilDivCases(len, size);
    MulMonotone(i, n - 1, size);
    MulSucc(i, size);
    if i + 1 < n {
      MulMonotone(i + 1, n - 1, size);
    }
    if len % size == 0 {
      MulMonotone(i + 1, n, size);
    }
  }
}
