/**
 Facts about products and quotients of reals, each proved on its own so that no larger proof reasons about
 products.
 */
module RealArithmetic {

  lemma MulAssoc(x: real, y: real, z: real)
    ensures (x * y) * z == x * (y * z)
  {
  }

  lemma Distribute(x: real, y: real, a: real)
    ensures (x + y) * a == x * a + y * a
  {
  }

  lemma Interchange(p: real, w: real, d: real, t: real)
    ensures (p * w) * (d * t) == (w * d) * (p * t)
  {
  }

  lemma PositiveProduct(x: real, y: real)
    requires 0.0 < x && 0.0 < y
    ensures 0.0 < x * y
  {
  }

  lemma NegativeProduct(x: real, y: real)
    requires x < 0.0 && 0.0 < y
    ensures x * y < 0.0
  {
  }

  lemma MulMonotone(x: real, y: real, a: real)
    requires x <= y && 0.0 <= a
    ensures x * a <= y * a
  {
  }

  lemma StrictMulMonotone(x: real, y: real, a: real)
    requires x < y && 0.0 < a
    ensures x * a < y * a
  {
  }

  lemma CancelFactor(x: real, y: real, c: real)
    requires 0.0 < c && x * c <= y * c
    ensures x <= y
  {
    if y < x {
      NegativeProduct(y - x, c);
      Distribute(x, y - x, c);
    }
  }

  lemma DivideMultiply(x: real, t: real)
    requires t != 0.0
    ensures x == (x / t) * t
  {
  }

  lemma QuotientOfSelf(t: real)
    requires t != 0.0
    ensures t / t == 1.0
  {
  }

  lemma NonNegativeQuotient(x: real, t: real)
    requires 0.0 <= x && 0.0 < t
    ensures 0.0 <= x / t
  {
  }

  lemma PositiveQuotient(x: real, t: real)
    requires 0.0 < x && 0.0 < t
    ensures 0.0 < x / t
  {
  }

  lemma QuotientOrder(x: real, y: real, t: real)
    requires 0.0 < t
    ensures x <= y <==> x / t <= y / t
  {
    DivideMultiply(x, t);
    DivideMultiply(y, t);
    ScaleOrder(x / t, y / t, x, y, t);
  }

  lemma ScaleOrder(p: real, q: real, x: real, y: real, t: real)
    requires 0.0 < t && x == p * t && y == q * t
    ensures p <= q <==> x <= y
  {
    if p <= q {
      MulMonotone(p, q, t);
    }
    if x <= y {
      CancelFactor(p, q, t);
    }
  }

  lemma ProperFraction(x: real, t: real)
    requires 0.0 < t && x < t
    ensures x / t < 1.0
  {
    QuotientOrder(t, x, t);
    QuotientOfSelf(t);
  }

  lemma CancelCommonFactor(x: real, t: real, c: real)
    requires 0.0 < t && 0.0 < c
    ensures 0.0 < t * c
    ensures (x * c) / (t * c) == x / t
  {
    PositiveProduct(t, c);
    DivideMultiply(x, t);
    MulAssoc(x / t, t, c);
    QuotientIsUnique(x * c, x / t, t * c);
  }

  lemma QuotientIsUnique(x: real, q: real, t: real)
    requires t != 0.0 && x == q * t
    ensures x / t == q
  {
  }

  lemma AddQuotients(x: real, y: real, t: real)
    requires t != 0.0
    ensures x / t + y / t == (x + y) / t
  {
  }
}
