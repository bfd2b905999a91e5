/** Division facts used by the coordinate and floor-quotient rules. */
module Arithmetic {

  function Abs(n: int): nat {
    if n < 0 then -n else n
  }

  lemma DivParts(n: int, d: int)
    requires d > 0
    ensures n == d * (n / d) + n % d && 0 <= n % d < d
  {
  }

  lemma MulAssociate(a: int, b: int, c: int)
    ensures a * (b * c) == (a * b) * c
  {
  }

  lemma DivSmaller(n: nat, d: nat)
    requires 2 <= d <= n
    ensures 0 <= n / d < n
  {
    DivNonNegative(n, d);
    DivParts(n, d);
    MulMonotone(n / d, 2, d);
  }

  lemma MulMonotone(d: int, a: int, b: int)
    requires d >= 0 && a <= b
    ensures d * a <= d * b
  {
    assert d * (b - a) >= 0;
  }

  lemma MultipleIsLarge(d: int, k: int)
    requires k != 0
    ensures Abs(d * k) >= Abs(d)
  {
    if k > 0 {
      MulMonotone(Abs(d), 1, k);
    } else {
      MulMonotone(Abs(d), 1, -k);
    }
  }

  /** Quotient and remainder are determined by `n == d * q + r` with a remainder in range. */
  lemma DivUnique(n: int, d: int, q: int, r: int)
    requires d != 0 && n == d * q + r && 0 <= r < Abs(d)
    ensures n / d == q && n % d == r
  {
    var k := n / d - q;
    assert n == d * (n / d) + n % d;
    assert d * k == d * (n / d) - d * q;
    assert Abs(d * k) < Abs(d);
    if k != 0 {
      MultipleIsLarge(d, k);
    }
  }

  lemma DivBelow(n: int, d: int, q: int)
    requires d > 0 && 0 <= n < d * q
    ensures 0 <= n / d < q
  {
    assert n == d * (n / d) + n % d;
    DivNonNegative(n, d);
    MulImplies(d, q, n / d);
  }

  lemma MulImplies(d: int, a: int, b: int)
    requires d >= 0
    ensures a <= b ==> d * a <= d * b
  {
    if a <= b {
      MulMonotone(d, a, b);
    }
  }

  lemma PlaceBelow(d: int, r: int, q: int, m: int)
    requires 0 <= r < d && 0 <= q < m
    ensures 0 <= r + d * q < d * m
  {
    MulMonotone(d, 0, q);
    MulMonotone(d, q + 1, m);
  }

  lemma DivNonNegative(n: int, d: int)
    requires n >= 0 && d > 0
    ensures n / d >= 0
  {
  }

  lemma DivZeroIffSmall(n: int, d: int)
    requires n >= 0 && d > 0
    ensures n / d == 0 <==> n < d
  {
    if n < d {
      DivUnique(n, d, 0, n);
    }
    assert n == d * (n / d) + n % d;
  }

  lemma ModAdd(s: int, b: int, m: int)
    requires m > 0
    ensures (s % m + b) % m == (s + b) % m
  {
    var t := s % m + b;
    assert s == m * (s / m) + s % m && t == m * (t / m) + t % m;
    assert s + b == m * (s / m + t / m) + t % m;
    DivUnique(s + b, m, s / m + t / m, t % m);
  }

  lemma DivTwice(n: nat, a: nat, b: nat)
    requires a > 0 && b > 0
    ensures a * b > 0 && n / a / b == n / (a * b)
  {
    var q := n / a / b;
    DivParts(n, a);
    DivParts(n / a, b);
    DivNonNegative(n, a);
    PlaceBelow(a, n % a, n / a % b, b);
    MulAssociate(a, b, q);
    assert n == a * b * q + (n % a + a * (n / a % b));
    DivUnique(n, a * b, q, n % a + a * (n / a % b));
  }
}
