/** Facts about products and quotients of reals that the solver is given one at a time. */
module RealOrder {

  function Max(a: real, b: real): real { if a >= b then a else b }

  function Min(a: real, b: real): real { if a <= b then a else b }

  lemma Nonnegative(a: real, b: real)
    requires a >= 0.0 && b >= 0.0
    ensures a * b >= 0.0
  {
  }

  lemma Positive(a: real, b: real)
    requires a > 0.0 && b > 0.0
    ensures a * b > 0.0
  {
  }

  lemma Negatives(a: real, b: real)
    requires a < 0.0 && b < 0.0
    ensures a * b > 0.0
  {
    Positive(-a, -b);
  }

  /** A positive product, named. */
  lemma Times(a: real, b: real) returns (c: real)
    requires a > 0.0 && b > 0.0
    ensures c == a * b && c > 0.0
  {
    c := a * b;
  }

  lemma ProductZero(a: real, b: real)
    ensures a * b == 0.0 <==> a == 0.0 || b == 0.0
  {
  }

  lemma Square(a: real)
    ensures a * a >= 0.0
    ensures a * a == 0.0 <==> a == 0.0
  {
    ProductZero(a, a);
    if a > 0.0 { Positive(a, a); }
    if a < 0.0 { Negatives(a, a); }
  }

  lemma Distribute(a: real, b: real, c: real)
    ensures (a + b) * c == a * c + b * c
  {
  }

  /** A factor has the sign of its multiple by a positive number. */
  lemma Sign(a: real, d: real)
    requires d > 0.0
    ensures a > 0.0 ==> a * d > 0.0
    ensures a < 0.0 ==> a * d < 0.0
    ensures a == 0.0 ==> a * d == 0.0
  {
  }

  /** Numbers compare like their multiples by a positive factor. */
  lemma ScaledOrder(a: real, b: real, d: real, ad: real, bd: real)
    requires d > 0.0 && a * d == ad && b * d == bd
    ensures ad <= bd <==> a <= b
    ensures ad == bd <==> a == b
  {
    Sign(b - a, d);
    assert (b - a) * d == b * d - a * d;
  }

  lemma SameQuotient(a: real, b: real, d: real)
    requires d > 0.0 && a * d == b * d
    ensures a == b
  {
    ProductZero(a - b, d);
    assert (a - b) * d == a * d - b * d;
  }

  /** Division is the inverse of multiplication. */
  lemma Quotient(a: real, d: real) returns (q: real)
    requires d > 0.0
    ensures q == a / d && q * d == a
    ensures a >= 0.0 ==> q >= 0.0
    ensures a <= d ==> q <= 1.0
    ensures a > 0.0 ==> q > 0.0
  {
    q := a / d;
    ScaledOrder(0.0, q, d, 0.0, a);
    ScaledOrder(q, 1.0, d, a, d);
  }
}
