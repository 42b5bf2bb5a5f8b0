/** Products, floor quotients and powers of naturals. */
module Arithmetic {

  lemma MulMonotone(a: nat, b: nat, x: nat, y: nat)
    requires a <= b && x <= y
    ensures a * x <= b * y
  {
    assert a * x <= b * x <= b * y;
  }

  lemma MulAssoc(a: int, b: int, c: int)
    ensures a * b * c == a * (b * c) == a * (c * b)
  {
  }

  lemma MulDistributes(a: int, b: int, c: int)
    ensures (a + b) * c == a * c + b * c
    ensures (a - b) * c == a * c - b * c
  {
  }

  /** The floor quotient is the one number these bounds admit. */
  lemma Quotient(n: nat, d: nat)
    requires d > 0
    ensures n / d * d <= n < (n / d + 1) * d
  {
  }

  lemma QuotientUnique(n: nat, d: nat, q: nat)
    requires d > 0 && q * d <= n < (q + 1) * d
    ensures n / d == q
  {
    var k := n / d;
    Quotient(n, d);
    if k < q { MulMonotone(k + 1, q, d, d); }
    if k > q { MulMonotone(q + 1, k, d, d); }
  }

  lemma QuotientMonotone(m: nat, n: nat, d: nat)
    requires d > 0 && m <= n
    ensures m / d <= n / d
  {
    Quotient(m, d);
    Quotient(n, d);
    if n / d < m / d { MulMonotone(n / d + 1, m / d, d, d); }
  }

  lemma QuotientShrinks(n: nat, d: nat)
    requires d > 0
    ensures n / d <= n
  {
    MulMonotone(n / d, n / d, 1, d);
  }

  lemma NestedBounds(n: nat, a: nat, b: nat, q: nat, k: nat)
    requires q * a <= n < (q + 1) * a && k * b <= q < (k + 1) * b
    ensures k * (a * b) <= n < (k + 1) * (a * b)
  {
    MulMonotone(k * b, q, a, a);
    MulMonotone(q + 1, (k + 1) * b, a, a);
    MulAssoc(k, b, a);
    MulAssoc(k + 1, b, a);
  }

  lemma NestedQuotient(n: nat, a: nat, b: nat, q: nat, k: nat)
    requires a * b > 0
    requires q * a <= n < (q + 1) * a && k * b <= q < (k + 1) * b
    ensures n / (a * b) == k
  {
    NestedBounds(n, a, b, q, k);
    QuotientUnique(n, a * b, k);
  }

  lemma MulPositive(a: nat, b: nat)
    requires a > 0 && b > 0
    ensures a * b > 0
  {
    MulMonotone(1, a, 1, b);
  }

  /** Dividing twice is dividing once by the product. */
  lemma QuotientOfQuotient(n: nat, a: nat, b: nat)
    requires a > 0 && b > 0
    ensures a * b > 0 && n / a / b == n / (a * b)
  {
    var q := n / a;
    Quotient(n, a);
    var k := q / b;
    Quotient(q, b);
    MulPositive(a, b);
    NestedQuotient(n, a, b, q, k);
  }

  function Pow(b: nat, e: nat): nat {
    if e == 0 then 1 else b * Pow(b, e - 1)
  }

  lemma {:induction false} PowPositive(b: nat, e: nat)
    requires b > 0
    ensures Pow(b, e) > 0
  {
    if e > 0 {
      PowPositive(b, e - 1);
      MulMonotone(1, b, 1, Pow(b, e - 1));
    }
  }

  lemma {:induction false} PowMonotone(b: nat, m: nat, n: nat)
    requires b > 0 && m <= n
    ensures Pow(b, m) <= Pow(b, n)
  {
    if m < n {
      PowMonotone(b, m, n - 1);
      MulMonotone(1, b, Pow(b, n - 1), Pow(b, n - 1));
    }
  }

  lemma {:induction false} PowSum(b: nat, m: nat, n: nat)
    ensures Pow(b, m + n) == Pow(b, m) * Pow(b, n)
  {
    if m > 0 {
      PowSum(b, m - 1, n);
      MulAssoc(b, Pow(b, m - 1), Pow(b, n));
    }
  }
}
