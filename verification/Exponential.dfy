/**
 The laws of the exponential that the distributed computation relies on.

 The service computes with the machine's `exp`; here every theorem takes an arbitrary
 function `e` with `IsExp(e)`. Nothing else about the exponential is ever used.
 */
module Exponential {

  function Exp(e: real -> real, x: real): real {
    e(x)
  }

  // The laws, each at given points. They are named so that a proof uses a law only where it asks for it.

  ghost predicate Multiplies(e: real -> real, x: real, y: real) {
    Exp(e, x + y) == Exp(e, x) * Exp(e, y)
  }

  ghost predicate Positive(e: real -> real, x: real) {
    0.0 < Exp(e, x)
  }

  ghost predicate Increases(e: real -> real, x: real, y: real) {
    x < y ==> Exp(e, x) < Exp(e, y)
  }

  ghost predicate IsExp(e: real -> real) {
    && (forall x, y :: Multiplies(e, x, y))
    && (forall x :: Positive(e, x))
    && (forall x, y :: Increases(e, x, y))
  }

  lemma AtZero(e: real -> real)
    requires IsExp(e)
    ensures Exp(e, 0.0) == 1.0
  {
    UnitAt(e, 0.0, 0.0);
  }

  lemma UnitAt(e: real -> real, zero: real, twice: real)
    requires IsExp(e) && zero == twice && twice == zero + zero
    ensures Exp(e, zero) == 1.0
  {
    assert Multiplies(e, zero, zero) && Positive(e, zero);
    assert Exp(e, zero + zero) == Exp(e, twice);
    OnlyUnitIsIdempotent(Exp(e, zero), Exp(e, twice));
  }

  lemma OnlyUnitIsIdempotent(x: real, square: real)
    requires 0.0 < x && square == x * x && square == x
    ensures x == 1.0
  {
  }

  lemma AtMostZero(e: real -> real, d: real)
    requires IsExp(e) && d <= 0.0
    ensures 0.0 < Exp(e, d) <= 1.0
    ensures d == 0.0 ==> Exp(e, d) == 1.0
  {
    if d == 0.0 {
      UnitAt(e, d, d + d);
    } else {
      AtZero(e);
      assert Positive(e, d) && Increases(e, d, 0.0);
    }
  }

  /** Moving a value from shift `m` to shift `g` is one multiplication by the exponential of `m - g`. */
  lemma Reshift(e: real -> real, x: real, m: real, g: real)
    requires IsExp(e)
    ensures Exp(e, x - m) * Exp(e, m - g) == Exp(e, x - g)
  {
    assert Multiplies(e, x - m, m - g);
    assert (x - m) + (m - g) == x - g;
  }

  /** A real exponential with base two, exact at the integers. */
  function PowerOfTwo(k: int): (p: real)
    ensures 0.0 < p
    decreases if k < 0 then -k else k
  {
    if k == 0 then 1.0
    else if k > 0 then 2.0 * PowerOfTwo(k - 1)
    else PowerOfTwo(k + 1) / 2.0
  }

  lemma PowerStep(k: int)
    ensures PowerOfTwo(k + 1) == 2.0 * PowerOfTwo(k)
  {
  }

  ghost predicate DoublesAt(f: int -> real, k: int) {
    f(k + 1) == 2.0 * f(k)
  }

  lemma {:induction false} DoublingMultiplies(f: int -> real, j: int, k: int)
    requires f(0) == 1.0
    requires forall i :: DoublesAt(f, i)
    ensures f(j + k) == f(j) * f(k)
    decreases if k < 0 then -k else k
  {
    if k == 0 {
      assert j + k == j;
    } else if k > 0 {
      DoublingMultiplies(f, j, k - 1);
      assert DoublesAt(f, k - 1) && DoublesAt(f, j + k - 1);
      assert j + k - 1 + 1 == j + k && k - 1 + 1 == k && j + (k - 1) == j + k - 1;
      DoubleBoth(f(j + k - 1), f(j), f(k - 1));
    } else {
      DoublingMultiplies(f, j, k + 1);
      assert DoublesAt(f, k) && DoublesAt(f, j + k);
      assert j + (k + 1) == j + k + 1;
      DoubleBoth(f(j + k), f(j), f(k));
    }
  }

  lemma DoubleBoth(p: real, x: real, y: real)
    ensures p == x * y <==> 2.0 * p == x * (2.0 * y)
  {
    assert x * (2.0 * y) == 2.0 * (x * y);
  }

  lemma {:induction false} DoublingIncreases(f: int -> real, j: int, k: int)
    requires j < k
    requires forall i :: DoublesAt(f, i)
    requires forall i :: 0.0 < f(i)
    ensures f(j) < f(k)
    decreases k - j
  {
    assert DoublesAt(f, k - 1) && k - 1 + 1 == k;
    if j < k - 1 {
      DoublingIncreases(f, j, k - 1);
    }
  }

  ghost predicate IsExpOnIntegers(f: int -> real) {
    && (forall j, k :: MultipliesAt(f, j, k))
    && (forall k :: 0.0 < f(k))
    && (forall j, k :: j < k ==> f(j) < f(k))
  }

  ghost predicate MultipliesAt(f: int -> real, j: int, k: int) {
    f(j + k) == f(j) * f(k)
  }

  /** The laws are consistent with one another: the powers of two satisfy all of them on the integers. */
  lemma LawsAreConsistent()
    ensures exists f: int -> real :: IsExpOnIntegers(f)
  {
    var f := (k: int) => PowerOfTwo(k);
    forall k ensures DoublesAt(f, k) {
      PowerStep(k);
    }
    forall j, k ensures MultipliesAt(f, j, k) {
      DoublingMultiplies(f, j, k);
    }
    forall j, k | j < k ensures f(j) < f(k) {
      DoublingIncreases(f, j, k);
    }
    assert IsExpOnIntegers(f);
  }
}
