/**
 The effect of rounding each exponential once, when the worker converts it for the wire.

 The rounding is any function with a relative error of at most `u`, which is what binary32
 guarantees in its normal range (section 4.3.1 of IEEE 754-2019). Everything after the
 conversion is exact.
 */
module Rounding {
  import opened Exponential
  import opened RealArithmetic
  import opened Vectors
  import opened Aggregation

  /** `y` is `x` up to a relative error of `u`. */
  ghost predicate Within(y: real, x: real, u: real) {
    (1.0 - u) * x <= y <= (1.0 + u) * x
  }

  ghost predicate RoundsAt(rnd: real -> real, u: real, x: real) {
    0.0 < x ==> Within(rnd(x), x, u)
  }

  ghost predicate Rounds(rnd: real -> real, u: real) {
    forall x :: RoundsAt(rnd, u, x)
  }

  function RoundAll(rnd: real -> real, s: seq<real>): (r: seq<real>)
    ensures |r| == |s|
    ensures forall k :: 0 <= k < |s| ==> r[k] == rnd(s[k])
  {
    seq(|s|, k requires 0 <= k < |s| => rnd(s[k]))
  }

  /** What a worker sends: the sum is taken over the rounded values. */
  function RoundedStatsAt(e: real -> real, rnd: real -> real, data: seq<real>, m: real): SliceStats {
    var values := RoundAll(rnd, Exps(e, data, m));
    SliceStats(values, m, Sum(values), false)
  }

  // ----- The outputs sum to one, whatever the rounding

  lemma {:induction false} NormalizedSum(values: seq<real>, adjust: real, sum: real)
    requires sum != 0.0
    ensures Sum(NormalizeSlice(values, adjust, sum)) == Sum(values) * adjust / sum
  {
    if values != [] {
      NormalizedSum(values[1..], adjust, sum);
      assert NormalizeSlice(values, adjust, sum)[1..] == NormalizeSlice(values[1..], adjust, sum);
      AddFractions(values[0], Sum(values[1..]), adjust, sum);
    }
  }

  lemma AddFractions(x: real, y: real, a: real, t: real)
    requires t != 0.0
    ensures x * a / t + y * a / t == (x + y) * a / t
  {
    Distribute(x, y, a);
    AddQuotients(x * a, y * a, t);
  }

  lemma AdjustedSlice(e: real -> real, s: SliceStats, g: real, sum: real)
    requires sum != 0.0 && s.partialSum == Sum(s.expValues)
    ensures Sum(NormalizeSlice(s.expValues, Exp(e, s.localMax - g), sum)) == AdjustedSum(e, s, g) / sum
  {
    NormalizedSum(s.expValues, Exp(e, s.localMax - g), sum);
  }

  lemma {:induction false} NormalizeAllSum(e: real -> real, stats: seq<SliceStats>, g: real, sum: real)
    requires sum != 0.0
    requires forall i :: 0 <= i < |stats| ==> stats[i].partialSum == Sum(stats[i].expValues)
    ensures Sum(NormalizeAll(e, stats, g, sum)) == GlobalSum(e, stats, g) / sum
  {
    if stats != [] {
      NormalizeAllSum(e, stats[1..], g, sum);
      var first := NormalizeSlice(stats[0].expValues, Exp(e, stats[0].localMax - g), sum);
      SumConcat(first, NormalizeAll(e, stats[1..], g, sum));
      AdjustedSlice(e, stats[0], g, sum);
      AddQuotients(AdjustedSum(e, stats[0], g), GlobalSum(e, stats[1..], g), sum);
    }
  }

  /**
   As long as every partial sum adds up the very values sent along with it, the recombined outputs
   sum to exactly one, however inaccurate those values are.
   */
  lemma OutputsSumToOne(e: real -> real, stats: seq<SliceStats>, g: real)
    requires forall i :: 0 <= i < |stats| ==> stats[i].partialSum == Sum(stats[i].expValues)
    requires GlobalSum(e, stats, g) != 0.0
    ensures Sum(Recombine(e, stats, g)) == 1.0
  {
    NormalizeAllSum(e, stats, g, GlobalSum(e, stats, g));
    QuotientOfSelf(GlobalSum(e, stats, g));
  }

  // ----- Accuracy

  lemma {:induction false} SumWithin(s: seq<real>, t: seq<real>, u: real)
    requires |s| == |t|
    requires forall k :: 0 <= k < |s| ==> Within(s[k], t[k], u)
    ensures Within(Sum(s), Sum(t), u)
  {
    if s != [] {
      SumWithin(s[1..], t[1..], u);
      AddWithin(s[0], t[0], Sum(s[1..]), Sum(t[1..]), u);
    }
  }

  lemma AddWithin(y: real, x: real, y': real, x': real, u: real)
    requires Within(y, x, u) && Within(y', x', u)
    ensures Within(y + y', x + x', u)
  {
    Distribute(x, x', 1.0 - u);
    Distribute(x, x', 1.0 + u);
  }

  lemma WithinIsPositive(y: real, x: real, u: real)
    requires Within(y, x, u) && 0.0 < x && u < 1.0
    ensures 0.0 < y
  {
    PositiveProduct(1.0 - u, x);
  }

  lemma ScaleWithin(y: real, x: real, a: real, u: real)
    requires Within(y, x, u) && 0.0 <= a
    ensures Within(y * a, x * a, u)
  {
    MulAssoc(1.0 - u, x, a);
    MulAssoc(1.0 + u, x, a);
    MulMonotone((1.0 - u) * x, y, a);
    MulMonotone(y, (1.0 + u) * x, a);
  }

  /** Slice by slice, the same shifts with values and sums up to the relative error. */
  ghost predicate StatsWithin(rounded: seq<SliceStats>, exact: seq<SliceStats>, u: real) {
    && |rounded| == |exact|
    && forall i :: 0 <= i < |rounded| ==> SliceWithin(rounded[i], exact[i], u)
  }

  ghost predicate SliceWithin(rounded: SliceStats, exact: SliceStats, u: real) {
    && rounded.localMax == exact.localMax
    && Within(rounded.partialSum, exact.partialSum, u)
    && ValuesWithin(rounded.expValues, exact.expValues, u)
  }

  ghost predicate ValuesWithin(s: seq<real>, t: seq<real>, u: real) {
    && |s| == |t|
    && forall k :: 0 <= k < |s| ==> Within(s[k], t[k], u) && 0.0 <= t[k]
  }

  lemma {:induction false} GlobalSumWithin(e: real -> real, rounded: seq<SliceStats>, exact: seq<SliceStats>, g: real,
                                           u: real)
    requires IsExp(e) && StatsWithin(rounded, exact, u)
    ensures Within(GlobalSum(e, rounded, g), GlobalSum(e, exact, g), u)
  {
    if rounded != [] {
      assert SliceWithin(rounded[0], exact[0], u);
      assert Positive(e, exact[0].localMax - g);
      GlobalSumWithin(e, rounded[1..], exact[1..], g, u);
      ScaleWithin(rounded[0].partialSum, exact[0].partialSum, Exp(e, exact[0].localMax - g), u);
      AddWithin(AdjustedSum(e, rounded[0], g), AdjustedSum(e, exact[0], g),
                GlobalSum(e, rounded[1..], g), GlobalSum(e, exact[1..], g), u);
    }
  }

  /** The bound on a single output. */
  ghost predicate Near(r: real, p: real, u: real)
    requires u < 1.0
  {
    var bound := p * (2.0 * u / (1.0 - u));
    p - bound <= r <= p + bound
  }

  lemma QuotientNear(y: real, x: real, s: real, t: real, u: real)
    requires 0.0 <= u < 1.0
    requires Within(y, x, u) && Within(s, t, u)
    requires 0.0 <= x && 0.0 < t && 0.0 < s
    ensures Near(y / s, x / t, u)
  {
    DivideMultiply(x, t);
    DivideMultiply(y, s);
    NonNegativeQuotient(x, t);
    UpperNear(y / s, x / t, x, s, t, u);
    LowerNear(y / s, x / t, x, s, t, u);
  }

  lemma RelativeError(u: real, q: real)
    requires 0.0 <= u < 1.0 && q == 2.0 * u / (1.0 - u)
    ensures 0.0 <= q
    ensures (1.0 + q) * (1.0 - u) == 1.0 + u
    ensures (1.0 - q) * (1.0 + u) <= 1.0 - u
  {
    NonNegativeQuotient(2.0 * u, 1.0 - u);
    DivideMultiply(2.0 * u, 1.0 - u);
    MulMonotone(1.0 - u, 1.0 + u, q);
  }

  lemma UpperNear(r: real, p: real, x: real, s: real, t: real, u: real)
    requires 0.0 <= u < 1.0 && 0.0 <= p && 0.0 < t && 0.0 < s
    requires x == p * t && r * s <= (1.0 + u) * x
    requires (1.0 - u) * t <= s
    ensures r <= p + p * (2.0 * u / (1.0 - u))
  {
    var q := 2.0 * u / (1.0 - u);
    RelativeError(u, q);
    var w := 1.0 + q;
    MulMonotone(0.0, w, p);
    assert p + p * q == p * w;
    Interchange(p, w, 1.0 - u, t);
    MulMonotone((1.0 - u) * t, s, p * w);
    CancelFactor(r, p * w, s);
  }

  lemma LowerNear(r: real, p: real, x: real, s: real, t: real, u: real)
    requires 0.0 <= u < 1.0 && 0.0 <= p && 0.0 < t && 0.0 < s
    requires x == p * t && (1.0 - u) * x <= r * s
    requires s <= (1.0 + u) * t
    ensures p - p * (2.0 * u / (1.0 - u)) <= r
  {
    var q := 2.0 * u / (1.0 - u);
    RelativeError(u, q);
    var w := 1.0 - q;
    assert p - p * q == p * w;
    MulMonotone(0.0, p, t);
    MulMonotone(w * (1.0 + u), 1.0 - u, x);
    Interchange(p, w, 1.0 + u, t);
    if 0.0 <= w {
      MulMonotone(0.0, w, p);
      MulMonotone(s, (1.0 + u) * t, p * w);
      CancelFactor(p * w, r, s);
    } else {
      MulMonotone(w, 0.0, p);
      MulMonotone(0.0, 1.0 - u, x);
      CancelFactor(0.0, r, s);
    }
  }

  lemma {:induction false} OutputsNear(e: real -> real, rounded: seq<SliceStats>, exact: seq<SliceStats>, g: real,
                                       s: real, t: real, u: real)
    requires IsExp(e) && 0.0 <= u < 1.0
    requires StatsWithin(rounded, exact, u)
    requires Within(s, t, u) && 0.0 < t && 0.0 < s
    ensures AllNear(NormalizeAll(e, rounded, g, s), NormalizeAll(e, exact, g, t), u)
  {
    if rounded != [] {
      assert SliceWithin(rounded[0], exact[0], u);
      OutputsNear(e, rounded[1..], exact[1..], g, s, t, u);
      SliceNear(rounded[0].expValues, exact[0].expValues, Exp(e, exact[0].localMax - g), s, t, u) by {
        assert Positive(e, exact[0].localMax - g);
      }
    }
  }

  ghost predicate AllNear(r: seq<real>, p: seq<real>, u: real)
    requires u < 1.0
  {
    && |r| == |p|
    && forall k :: 0 <= k < |r| ==> Near(r[k], p[k], u)
  }

  lemma SliceNear(values: seq<real>, exact: seq<real>, adjust: real, s: real, t: real, u: real)
    requires 0.0 <= u < 1.0 && 0.0 < adjust
    requires ValuesWithin(values, exact, u)
    requires Within(s, t, u) && 0.0 < t && 0.0 < s
    ensures AllNear(NormalizeSlice(values, adjust, s), NormalizeSlice(exact, adjust, t), u)
  {
    forall k | 0 <= k < |values|
      ensures Near(NormalizeSlice(values, adjust, s)[k], NormalizeSlice(exact, adjust, t)[k], u)
    {
      assert Within(values[k], exact[k], u) && 0.0 <= exact[k];
      CellNear(values[k], exact[k], adjust, s, t, u);
    }
  }

  lemma CellNear(y: real, x: real, adjust: real, s: real, t: real, u: real)
    requires 0.0 <= u < 1.0 && 0.0 < adjust
    requires Within(y, x, u) && 0.0 <= x
    requires Within(s, t, u) && 0.0 < t && 0.0 < s
    ensures Near(NormalizeCell(y, adjust, s), NormalizeCell(x, adjust, t), u)
  {
    ScaleWithin(y, x, adjust, u);
    MulMonotone(0.0, x, adjust);
    QuotientNear(y * adjust, x * adjust, s, t, u);
  }

  lemma RoundedSliceWithin(e: real -> real, rnd: real -> real, u: real, data: seq<real>, m: real)
    requires IsExp(e) && Rounds(rnd, u)
    ensures SliceWithin(RoundedStatsAt(e, rnd, data, m), StatsAt(e, data, m), u)
  {
    var exact := Exps(e, data, m);
    var rounded := RoundAll(rnd, exact);
    forall k | 0 <= k < |data| ensures Within(rounded[k], exact[k], u) && 0.0 <= exact[k] {
      assert Positive(e, data[k] - m);
      assert RoundsAt(rnd, u, exact[k]);
    }
    SumWithin(rounded, exact, u);
  }

  /**
   End to end with rounding: the gateway's outputs sum to exactly one, and each differs from the
   true softmax value `p` by at most `p * 2u / (1 - u)`, for every partition and every choice of shifts.
   */
  lemma RoundingBound(e: real -> real, rnd: real -> real, u: real, slices: seq<seq<real>>, shifts: seq<real>, g: real)
    requires IsExp(e) && Rounds(rnd, u) && 0.0 <= u < 1.0
    requires |shifts| == |slices| && Flatten(slices) != []
    ensures var stats := seq(|slices|, i requires 0 <= i < |slices| => RoundedStatsAt(e, rnd, slices[i], shifts[i]));
            && Sum(Recombine(e, stats, g)) == 1.0
            && AllNear(Recombine(e, stats, g), Softmax(e, Flatten(slices)), u)
  {
    var stats := seq(|slices|, i requires 0 <= i < |slices| => RoundedStatsAt(e, rnd, slices[i], shifts[i]));
    var exact := seq(|slices|, i requires 0 <= i < |slices| => StatsAt(e, slices[i], shifts[i]));
    forall i | 0 <= i < |slices| ensures SliceWithin(stats[i], exact[i], u) {
      RoundedSliceWithin(e, rnd, u, slices[i], shifts[i]);
    }
    RoundedStatsAreNear(e, stats, exact, slices, g, u);
  }

  lemma RoundedStatsAreNear(e: real -> real, rounded: seq<SliceStats>, exact: seq<SliceStats>, slices: seq<seq<real>>,
                            g: real, u: real)
    requires IsExp(e) && 0.0 <= u < 1.0
    requires StatsWithin(rounded, exact, u) && Describes(e, exact, slices) && Flatten(slices) != []
    requires forall i :: 0 <= i < |rounded| ==> rounded[i].partialSum == Sum(rounded[i].expValues)
    ensures Sum(Recombine(e, rounded, g)) == 1.0
    ensures AllNear(Recombine(e, rounded, g), Softmax(e, Flatten(slices)), u)
  {
    var s, t := GlobalSum(e, rounded, g), GlobalSum(e, exact, g);
    GlobalSumIsPositive(e, exact, slices, g);
    GlobalSumWithin(e, rounded, exact, g, u);
    WithinIsPositive(s, t, u);
    OutputsSumToOne(e, rounded, g);
    OutputsNear(e, rounded, exact, g, s, t, u);
    ShiftAndPartitionIndependence(e, exact, slices, g);
  }
}
