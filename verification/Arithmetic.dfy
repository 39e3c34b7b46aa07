/** Small nonlinear steps, kept apart so that each is one cheap query. */
module Arithmetic {
  lemma MulLe(a: int, b: int, c: int)
    requires a <= b && 0 <= c
    ensures a * c <= b * c && c * a <= c * b
  {
  }

  lemma CancelLe(a: int, b: int, c: int)
    requires a * c <= b * c && 0 < c
    ensures a <= b
  {
    if b + 1 <= a {
      MulLe(b + 1, a, c);
    }
  }

  lemma CancelLt(a: int, b: int, c: int)
    requires a * c < b * c && 0 < c
    ensures a < b
  {
    if b <= a {
      MulLe(b, a, c);
    }
  }

  lemma MulPositive(a: int, b: int)
    requires 0 < a && 0 < b
    ensures 0 < a * b
  {
  }

  lemma MulAssoc(a: int, b: int, c: int)
    ensures (a * b) * c == a * (b * c) == b * (a * c)
  {
  }

  lemma Distribute(a: int, b: int, c: int)
    ensures (a + b) * c == a * c + b * c
    ensures c * (a + b) == c * a + c * b
  {
  }

  /** Floor division, zero when the denominator is zero.  Counted out, so that a proof meets it
      through its bracket only and never as a nonlinear division by a wide constant. */
  function Quotient(n: nat, m: nat): nat {
    if m == 0 || n < m then 0 else 1 + Quotient(n - m, m)
  }

  lemma {:induction false} DivBracket(n: nat, m: nat)
    requires m > 0
    ensures Quotient(n, m) * m <= n < (Quotient(n, m) + 1) * m
  {
    if n >= m {
      DivBracket(n - m, m);
      Distribute(Quotient(n - m, m), 1, m);
      Distribute(Quotient(n - m, m) + 1, 1, m);
    }
  }

  /** `q` is the floor of `n / m` when it brackets it. */
  lemma DivUnique(n: nat, m: nat, q: nat)
    requires m > 0 && q * m <= n < (q + 1) * m
    ensures Quotient(n, m) == q
  {
    DivBracket(n, m);
    hide Quotient;
    CancelLt(q, Quotient(n, m) + 1, m);
    CancelLt(Quotient(n, m), q + 1, m);
  }

  lemma QuotientIs(n: nat, m: nat, q: nat)
    requires q * m <= n < q * m + m
    ensures Quotient(n, m) == q
  {
    Distribute(q, 1, m);
    DivUnique(n, m, q);
    hide Quotient;
  }

  lemma QuotientIsDivision(n: nat, m: nat)
    requires m > 0
    ensures Quotient(n, m) == n / m
  {
    hide Quotient;
    var q := n / m;
    assert n == q * m + n % m;
    Distribute(q, 1, m);
    DivUnique(n, m, q);
  }

  /** Multiplication counted out, for the same reason. */
  function Product(a: nat, b: nat): nat {
    if b == 0 then 0 else Product(a, b - 1) + a
  }

  lemma {:induction false} ProductIs(a: nat, b: nat)
    ensures Product(a, b) == a * b
  {
    if b > 0 {
      ProductIs(a, b - 1);
      Distribute(b - 1, 1, a);
    }
  }

  lemma RealMulLe(a: real, b: real, c: real)
    requires a <= b && 0.0 <= c
    ensures a * c <= b * c && c * a <= c * b
  {
  }

  lemma RealAssoc(a: real, b: real, c: real)
    ensures (a * b) * c == a * (b * c) == b * (a * c)
  {
  }

  lemma RealMulNonNegative(a: real, b: real)
    requires 0.0 <= a && 0.0 <= b
    ensures 0.0 <= a * b
  {
  }

  lemma RealMulPositive(a: real, b: real)
    requires 0.0 < a && 0.0 < b
    ensures 0.0 < a * b
  {
  }

  lemma RealDistribute(a: real, b: real, c: real)
    ensures (a + b) * c == a * c + b * c
    ensures (a - b) * c == a * c - b * c
  {
  }

  lemma AtMostOne(m: real, p: real)
    requires 0.0 <= m <= 1.0 && 0.0 <= p <= 1.0
    ensures 0.0 <= m * p <= 1.0
  {
    RealMulNonNegative(m, p);
    RealMulNonNegative(1.0 - m, p);
    RealDistribute(1.0, m, p);
  }

  lemma Reciprocal(x: real, y: real)
    requires x > 0.0 && y > 0.0
    ensures (y / x) * (x / y) == 1.0
  {
    var r := y / x;
    assert r * x == y;
    assert r * (x / y) == (r * x) / y;
  }
}
