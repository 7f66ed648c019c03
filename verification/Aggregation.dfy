/**
 Softmax of a whole vector, and its computation from slices: the statistics a worker sends back
 and the two-pass recombination in the gateway.
 */
module Aggregation {
  import opened Exponential
  import opened RealArithmetic
  import opened Vectors

  // ----- Reference definition

  function Total(e: real -> real, v: seq<real>): real {
    if v == [] then 0.0 else Exp(e, v[0]) + Total(e, v[1..])
  }

  /**
   Division by zero is a special value of the machine's floats that the reals do not have; the result is then
   unspecified, here 0.
   */
  function Quotient(x: real, y: real): real {
    if y == 0.0 then 0.0 else x / y
  }

  /** Each `Exp(e, x)` divided by `total`. */
  function Divided(e: real -> real, v: seq<real>, total: real): (p: seq<real>)
    ensures |p| == |v|
    ensures forall k :: 0 <= k < |v| ==> p[k] == Quotient(Exp(e, v[k]), total)
  {
    seq(|v|, k requires 0 <= k < |v| => Quotient(Exp(e, v[k]), total))
  }

  function Softmax(e: real -> real, v: seq<real>): seq<real> {
    Divided(e, v, Total(e, v))
  }

  // ----- Worker side

  /** What the gateway holds for one slice, once decoded. */
  datatype SliceStats = SliceStats(expValues: seq<real>, localMax: real, partialSum: real, isNormalized: bool)

  /** The exponentials of a slice shifted down by `m`. */
  function Exps(e: real -> real, data: seq<real>, m: real): (r: seq<real>)
    ensures |r| == |data|
    ensures forall k :: 0 <= k < |data| ==> r[k] == Exp(e, data[k] - m)
  {
    seq(|data|, k requires 0 <= k < |data| => Exp(e, data[k] - m))
  }

  /** The statistics of a slice relative to an arbitrary shift `m`. */
  function StatsAt(e: real -> real, data: seq<real>, m: real): SliceStats {
    SliceStats(Exps(e, data, m), m, Sum(Exps(e, data, m)), false)
  }

  /** The CPU worker: the shift is the slice's maximum. */
  function SoftmaxPartial(e: real -> real, data: seq<real>): SliceStats {
    if data == [] then SliceStats([], 0.0, 0.0, false) else StatsAt(e, data, MaxOf(data))
  }

  /** The statistics of an empty slice are those of nothing: they change neither the global sum nor the outputs. */
  lemma EmptySliceAddsNothing(e: real -> real, stats: seq<SliceStats>, g: real, sum: real)
    ensures GlobalSum(e, [SoftmaxPartial(e, [])] + stats, g) == GlobalSum(e, stats, g)
    ensures NormalizeAll(e, [SoftmaxPartial(e, [])] + stats, g, sum) == NormalizeAll(e, stats, g, sum)
  {
    var all := [SoftmaxPartial(e, [])] + stats;
    assert all[1..] == stats && NormalizeSlice([], Exp(e, 0.0 - g), sum) == [];
  }

  // ----- Gateway side

  function LocalMaxes(stats: seq<SliceStats>): (r: seq<real>)
    ensures |r| == |stats|
    ensures forall i :: 0 <= i < |stats| ==> r[i] == stats[i].localMax
  {
    seq(|stats|, i requires 0 <= i < |stats| => stats[i].localMax)
  }

  function GlobalSum(e: real -> real, stats: seq<SliceStats>, g: real): real {
    if stats == [] then 0.0 else AdjustedSum(e, stats[0], g) + GlobalSum(e, stats[1..], g)
  }

  function AdjustedSum(e: real -> real, s: SliceStats, g: real): real {
    s.partialSum * Exp(e, s.localMax - g)
  }

  function NormalizeCell(value: real, adjust: real, sum: real): real {
    Quotient(value * adjust, sum)
  }

  function NormalizeSlice(values: seq<real>, adjust: real, sum: real): (r: seq<real>)
    ensures |r| == |values|
    ensures forall k :: 0 <= k < |values| ==> r[k] == NormalizeCell(values[k], adjust, sum)
  {
    seq(|values|, k requires 0 <= k < |values| => NormalizeCell(values[k], adjust, sum))
  }

  function NormalizeAll(e: real -> real, stats: seq<SliceStats>, g: real, sum: real): seq<real> {
    if stats == [] then []
    else NormalizeSlice(stats[0].expValues, Exp(e, stats[0].localMax - g), sum) + NormalizeAll(e, stats[1..], g, sum)
  }

  /** Recombination relative to a global shift `g`. */
  function Recombine(e: real -> real, stats: seq<SliceStats>, g: real): seq<real> {
    NormalizeAll(e, stats, g, GlobalSum(e, stats, g))
  }

  function AggregateCpu(e: real -> real, stats: seq<SliceStats>): seq<real> {
    if stats == [] then [] else Recombine(e, stats, MaxOf(LocalMaxes(stats)))
  }

  function ConcatValues(stats: seq<SliceStats>): seq<real> {
    if stats == [] then [] else stats[0].expValues + ConcatValues(stats[1..])
  }

  /** The gateway looks at the first slice only to tell the two modes apart. */
  function Aggregate(e: real -> real, stats: seq<SliceStats>): seq<real> {
    if stats != [] && stats[0].isNormalized then ConcatValues(stats) else AggregateCpu(e, stats)
  }

  // ----- Shift and partition independence

  lemma {:induction false} TotalConcat(e: real -> real, v: seq<real>, w: seq<real>)
    ensures Total(e, v + w) == Total(e, v) + Total(e, w)
  {
    if v == [] {
      assert v + w == w;
    } else {
      TotalConcat(e, v[1..], w);
      assert (v + w)[1..] == v[1..] + w;
    }
  }

  lemma {:induction false} TotalIsPositive(e: real -> real, v: seq<real>)
    requires IsExp(e)
    ensures 0.0 <= Total(e, v)
    ensures v != [] ==> 0.0 < Total(e, v)
  {
    if v != [] {
      TotalIsPositive(e, v[1..]);
      assert Positive(e, v[0]);
    }
  }

  lemma ExpsTail(e: real -> real, data: seq<real>, m: real)
    requires data != []
    ensures Exps(e, data, m)[1..] == Exps(e, data[1..], m)
  {
  }

  /** Shifting every exponent by `m` scales the sum by `Exp(e, -m)`. */
  lemma {:induction false} ShiftedSum(e: real -> real, data: seq<real>, m: real)
    requires IsExp(e)
    ensures Sum(Exps(e, data, m)) == ShiftedTotal(e, data, m)
  {
    if data != [] {
      ShiftedSum(e, data[1..], m);
      ExpsTail(e, data, m);
      ShiftOne(e, data[0], m);
      Distribute(Exp(e, data[0]), Total(e, data[1..]), Exp(e, -m));
    }
  }

  lemma ShiftOne(e: real -> real, x: real, m: real)
    requires IsExp(e)
    ensures Exp(e, x - m) == Exp(e, x) * Exp(e, -m)
  {
    assert Multiplies(e, x, -m);
    assert x + (-m) == x - m;
  }

  /** Values and sum are those of the slice relative to the shift given. */
  ghost predicate Fits(e: real -> real, s: SliceStats, slice: seq<real>) {
    s.expValues == Exps(e, slice, s.localMax) && s.partialSum == Sum(s.expValues)
  }

  /** The statistics describe the slices, each relative to a shift of its own. */
  ghost predicate Describes(e: real -> real, stats: seq<SliceStats>, slices: seq<seq<real>>) {
    && |stats| == |slices|
    && forall i :: 0 <= i < |stats| ==> Fits(e, stats[i], slices[i])
  }

  lemma DescribesTail(e: real -> real, stats: seq<SliceStats>, slices: seq<seq<real>>)
    requires stats != [] && Describes(e, stats, slices)
    ensures Fits(e, stats[0], slices[0])
    ensures Describes(e, stats[1..], slices[1..])
  {
  }

  /** The total of a vector when every exponent is shifted by `g`. */
  function ShiftedTotal(e: real -> real, v: seq<real>, g: real): real {
    Total(e, v) * Exp(e, -g)
  }

  lemma ShiftedTotalConcat(e: real -> real, v: seq<real>, w: seq<real>, g: real)
    ensures ShiftedTotal(e, v + w, g) == ShiftedTotal(e, v, g) + ShiftedTotal(e, w, g)
  {
    TotalConcat(e, v, w);
    Distribute(Total(e, v), Total(e, w), Exp(e, -g));
  }

  /** The global sum is the whole vector's total, shifted by the global shift only. */
  lemma {:induction false} GlobalSumIsTotal(e: real -> real, stats: seq<SliceStats>, slices: seq<seq<real>>, g: real)
    requires IsExp(e) && Describes(e, stats, slices)
    ensures GlobalSum(e, stats, g) == ShiftedTotal(e, Flatten(slices), g)
  {
    if stats != [] {
      DescribesTail(e, stats, slices);
      GlobalSumIsTotal(e, stats[1..], slices[1..], g);
      ShiftedTotalConcat(e, slices[0], Flatten(slices[1..]), g);
      AdjustedSumIsTotal(e, slices[0], stats[0], g);
    }
  }

  lemma GlobalSumIsPositive(e: real -> real, stats: seq<SliceStats>, slices: seq<seq<real>>, g: real)
    requires IsExp(e) && Describes(e, stats, slices) && Flatten(slices) != []
    ensures 0.0 < GlobalSum(e, stats, g)
  {
    GlobalSumIsTotal(e, stats, slices, g);
    TotalIsPositive(e, Flatten(slices));
    assert Positive(e, -g);
    PositiveProduct(Total(e, Flatten(slices)), Exp(e, -g));
  }

  lemma AdjustedSumIsTotal(e: real -> real, data: seq<real>, s: SliceStats, g: real)
    requires IsExp(e)
    requires Fits(e, s, data)
    ensures AdjustedSum(e, s, g) == ShiftedTotal(e, data, g)
  {
    var m := s.localMax;
    ShiftedSum(e, data, m);
    Reshift(e, 0.0, m, g);
    assert 0.0 - m == -m && 0.0 - g == -g;
    MulAssoc(Total(e, data), Exp(e, -m), Exp(e, m - g));
  }

  /** One output value: every shift cancels. */
  lemma OutputCell(e: real -> real, x: real, m: real, g: real, total: real, sum: real)
    requires IsExp(e)
    requires 0.0 < total && sum == total * Exp(e, -g)
    ensures NormalizeCell(Exp(e, x - m), Exp(e, m - g), sum) == Quotient(Exp(e, x), total)
    ensures Quotient(Exp(e, x - g), sum) == Quotient(Exp(e, x), total)
  {
    Reshift(e, x, m, g);
    ShiftOne(e, x, g);
    assert Positive(e, -g);
    CancelCommonFactor(Exp(e, x), total, Exp(e, -g));
  }

  lemma NormalizedSlice(e: real -> real, data: seq<real>, m: real, g: real, total: real, sum: real)
    requires IsExp(e)
    requires 0.0 < total && sum == total * Exp(e, -g)
    ensures NormalizeSlice(Exps(e, data, m), Exp(e, m - g), sum) == Divided(e, data, total)
  {
    var r := NormalizeSlice(Exps(e, data, m), Exp(e, m - g), sum);
    forall k | 0 <= k < |data| ensures r[k] == Divided(e, data, total)[k] {
      OutputCell(e, data[k], m, g, total, sum);
    }
  }

  lemma DividedConcat(e: real -> real, v: seq<real>, w: seq<real>, total: real)
    ensures Divided(e, v + w, total) == Divided(e, v, total) + Divided(e, w, total)
  {
  }

  lemma {:induction false} NormalizedSlices(e: real -> real, stats: seq<SliceStats>, slices: seq<seq<real>>, g: real,
                                            total: real, sum: real)
    requires IsExp(e) && Describes(e, stats, slices)
    requires 0.0 < total && sum == total * Exp(e, -g)
    ensures NormalizeAll(e, stats, g, sum) == Divided(e, Flatten(slices), total)
  {
    if stats != [] {
      DescribesTail(e, stats, slices);
      NormalizedSlices(e, stats[1..], slices[1..], g, total, sum);
      NormalizedSlice(e, slices[0], stats[0].localMax, g, total, sum);
      DividedConcat(e, slices[0], Flatten(slices[1..]), total);
    }
  }

  lemma {:induction false} NothingToNormalize(e: real -> real, stats: seq<SliceStats>, slices: seq<seq<real>>,
                                              g: real, sum: real)
    requires Describes(e, stats, slices)
    requires Flatten(slices) == []
    ensures NormalizeAll(e, stats, g, sum) == []
  {
    if stats != [] {
      NothingToNormalize(e, stats[1..], slices[1..], g, sum);
    }
  }

  /**
   Whatever the partition, whatever the shift used for each slice and whatever the global shift,
   recombination yields the softmax of the whole vector.
   */
  lemma ShiftAndPartitionIndependence(e: real -> real, stats: seq<SliceStats>, slices: seq<seq<real>>, g: real)
    requires IsExp(e) && Describes(e, stats, slices)
    ensures Recombine(e, stats, g) == Softmax(e, Flatten(slices))
  {
    var v := Flatten(slices);
    GlobalSumIsTotal(e, stats, slices, g);
    if v == [] {
      NothingToNormalize(e, stats, slices, g, GlobalSum(e, stats, g));
    } else {
      TotalIsPositive(e, v);
      NormalizedSlices(e, stats, slices, g, Total(e, v), GlobalSum(e, stats, g));
    }
  }

  /** The gateway's CPU path, for statistics taken at any shifts at all. */
  lemma AggregateIsSoftmax(e: real -> real, stats: seq<SliceStats>, slices: seq<seq<real>>)
    requires IsExp(e) && Describes(e, stats, slices)
    requires stats != [] ==> !stats[0].isNormalized
    ensures Aggregate(e, stats) == Softmax(e, Flatten(slices))
  {
    if stats != [] {
      ShiftAndPartitionIndependence(e, stats, slices, MaxOf(LocalMaxes(stats)));
    }
  }

  /** The values relate to each other as the exponentials of the slice do. */
  ghost predicate InProportion(e: real -> real, values: seq<real>, slice: seq<real>) {
    |values| == |slice| && forall k :: 0 <= k < |values| ==> values[k] == values[0] * Exp(e, slice[k] - slice[0])
  }

  /** Statistics that give the softmax of a slice on their own: in proportion, and with the sum they are divided by. */
  ghost predicate RightAlone(e: real -> real, s: SliceStats, slice: seq<real>) {
    var divisor := if s.isNormalized then 1.0 else s.partialSum;
    InProportion(e, s.expValues, slice) && Sum(s.expValues) == divisor != 0.0
  }

  lemma SingleSlice(e: real -> real, s: SliceStats, slice: seq<real>)
    requires IsExp(e) && slice != []
    ensures Aggregate(e, [s]) == Softmax(e, slice) <==> RightAlone(e, s, slice)
  {
    if s.isNormalized {
      assert ConcatValues([s]) == s.expValues + ConcatValues([]) == s.expValues;
      ShareAlone(e, s, slice);
    } else {
      SingleRecombined(e, s);
      SoftmaxIsDistribution(e, slice);
      AllInProportion(s.expValues, s.partialSum, Aggregate(e, [s]), Softmax(e, slice));
      ScaledExactlyInProportion(e, s.expValues, slice, s.partialSum);
    }
  }

  lemma ShareAlone(e: real -> real, s: SliceStats, slice: seq<real>)
    requires IsExp(e) && slice != [] && s.isNormalized
    ensures s.expValues == Softmax(e, slice) <==> RightAlone(e, s, slice)
  {
    assert Scale(Softmax(e, slice), 1.0) == Softmax(e, slice);
    ScaledExactlyInProportion(e, s.expValues, slice, 1.0);
  }

  /** A multiple of the softmax is recognised by its proportions and its sum. */
  lemma ScaledExactlyInProportion(e: real -> real, values: seq<real>, slice: seq<real>, sum: real)
    requires IsExp(e) && slice != []
    ensures values == Scale(Softmax(e, slice), sum) <==> InProportion(e, values, slice) && Sum(values) == sum
  {
    var p := Softmax(e, slice);
    SoftmaxIsDistribution(e, slice);
    if values == Scale(p, sum) {
      SumScale(p, sum);
      ScaledInProportion(e, values, slice, sum);
    } else if InProportion(e, values, slice) && Sum(values) == sum {
      var c := InProportionScaled(e, values, slice);
      SumScale(p, c);
    }
  }

  lemma ScaledInProportion(e: real -> real, values: seq<real>, slice: seq<real>, c: real)
    requires IsExp(e) && slice != [] && values == Scale(Softmax(e, slice), c)
    ensures InProportion(e, values, slice)
  {
    var p := Softmax(e, slice);
    forall k | 0 <= k < |values| ensures values[k] == values[0] * Exp(e, slice[k] - slice[0]) {
      SoftmaxRatio(e, slice, k);
      MulSwap(p[0], Exp(e, slice[k] - slice[0]), c);
    }
  }

  lemma InProportionScaled(e: real -> real, values: seq<real>, slice: seq<real>) returns (c: real)
    requires IsExp(e) && slice != [] && InProportion(e, values, slice)
    ensures values == Scale(Softmax(e, slice), c)
  {
    var p := Softmax(e, slice);
    SoftmaxRatio(e, slice, 0);
    c := values[0] / p[0];
    DivideMultiply(values[0], p[0]);
    forall k | 0 <= k < |values| ensures values[k] == Scale(p, c)[k] {
      SoftmaxRatio(e, slice, k);
      MulSwap(p[0], Exp(e, slice[k] - slice[0]), c);
    }
  }

  lemma MulSwap(x: real, y: real, z: real)
    ensures (x * y) * z == (x * z) * y
  {
  }

  lemma AllInProportion(values: seq<real>, sum: real, r: seq<real>, p: seq<real>)
    requires p != [] && forall k :: 0 <= k < |p| ==> 0.0 < p[k]
    requires |r| == |values| && forall k :: 0 <= k < |r| ==> r[k] == Quotient(values[k], sum)
    ensures r == p <==> sum != 0.0 && values == Scale(p, sum)
  {
    var q := Scale(p, sum);
    if |r| == |p| {
      forall k | 0 <= k < |p| ensures r[k] == p[k] <==> sum != 0.0 && values[k] == q[k] {
        SingleCell(values[k], sum, p[k]);
      }
      assert r[0] == p[0] ==> sum != 0.0;
    }
  }

  lemma SingleCell(value: real, sum: real, p: real)
    requires 0.0 < p
    ensures Quotient(value, sum) == p <==> sum != 0.0 && value == p * sum
  {
    if sum != 0.0 {
      DivideMultiply(value, sum);
      if value == p * sum {
        QuotientIsUnique(value, p, sum);
      }
    }
  }

  lemma SingleRecombined(e: real -> real, s: SliceStats)
    requires IsExp(e) && !s.isNormalized
    ensures |Aggregate(e, [s])| == |s.expValues|
    ensures forall k :: 0 <= k < |s.expValues| ==> Aggregate(e, [s])[k] == Quotient(s.expValues[k], s.partialSum)
  {
    var g := MaxOf(LocalMaxes([s]));
    assert [s][1..] == [] && g == s.localMax;
    UnitAt(e, s.localMax - g, 0.0);
    assert GlobalSum(e, [s], g) == AdjustedSum(e, s, g) + GlobalSum(e, [], g) == s.partialSum;
    assert Aggregate(e, [s]) == NormalizeSlice(s.expValues, 1.0, s.partialSum) + NormalizeAll(e, [], g, s.partialSum);
  }

  // ----- AllReduce mode

  /** A rank's output after both collectives: shift `g` and sum `sum` are common to all ranks. */
  function AllReduceSlice(e: real -> real, data: seq<real>, g: real, sum: real): (r: seq<real>)
    ensures |r| == |data|
    ensures forall k :: 0 <= k < |data| ==> r[k] == Quotient(Exp(e, data[k] - g), sum)
  {
    seq(|data|, k requires 0 <= k < |data| => Quotient(Exp(e, data[k] - g), sum))
  }

  /** The result of the AllReduce-sum over the ranks' slices. */
  function AllReduceSum(e: real -> real, slices: seq<seq<real>>, g: real): real {
    if slices == [] then 0.0 else Sum(Exps(e, slices[0], g)) + AllReduceSum(e, slices[1..], g)
  }

  function NormalizedStats(probs: seq<real>): SliceStats {
    SliceStats(probs, 0.0, 1.0, true)
  }

  /** The statistics all ranks send back for one job. */
  function AllReduceStats(e: real -> real, slices: seq<seq<real>>, g: real, sum: real): (stats: seq<SliceStats>)
    ensures |stats| == |slices|
    ensures forall i :: 0 <= i < |slices| ==> stats[i] == NormalizedStats(AllReduceSlice(e, slices[i], g, sum))
  {
    seq(|slices|, i requires 0 <= i < |slices| => NormalizedStats(AllReduceSlice(e, slices[i], g, sum)))
  }

  lemma {:induction false} AllReduceSumIsTotal(e: real -> real, slices: seq<seq<real>>, g: real)
    requires IsExp(e)
    ensures AllReduceSum(e, slices, g) == ShiftedTotal(e, Flatten(slices), g)
  {
    if slices != [] {
      AllReduceSumIsTotal(e, slices[1..], g);
      ShiftedTotalConcat(e, slices[0], Flatten(slices[1..]), g);
      ShiftedSum(e, slices[0], g);
    }
  }

  lemma ReducedSlice(e: real -> real, data: seq<real>, g: real, total: real, sum: real)
    requires IsExp(e)
    requires 0.0 < total && sum == total * Exp(e, -g)
    ensures AllReduceSlice(e, data, g, sum) == Divided(e, data, total)
  {
    forall k | 0 <= k < |data| ensures AllReduceSlice(e, data, g, sum)[k] == Divided(e, data, total)[k] {
      OutputCell(e, data[k], g, g, total, sum);
    }
  }

  lemma ReducedSlices(e: real -> real, slices: seq<seq<real>>, g: real, total: real, sum: real)
    requires IsExp(e)
    requires 0.0 < total && sum == total * Exp(e, -g)
    ensures forall i :: 0 <= i < |slices| ==>
      AllReduceStats(e, slices, g, sum)[i] == NormalizedStats(Divided(e, slices[i], total))
  {
    forall i | 0 <= i < |slices| ensures AllReduceSlice(e, slices[i], g, sum) == Divided(e, slices[i], total) {
      ReducedSlice(e, slices[i], g, total, sum);
    }
  }

  /**
   AllReduce, normalisation on each rank, and concatenation in the gateway yield the softmax of the whole
   vector, for any common shift.
   */
  lemma AllReduceIsSoftmax(e: real -> real, slices: seq<seq<real>>, g: real)
    requires IsExp(e)
    requires Flatten(slices) != []
    ensures Aggregate(e, AllReduceStats(e, slices, g, AllReduceSum(e, slices, g))) == Softmax(e, Flatten(slices))
  {
    AllReduceSumIsTotal(e, slices, g);
    TotalIsPositive(e, Flatten(slices));
    var sum := AllReduceSum(e, slices, g);
    ReducedSlices(e, slices, g, Total(e, Flatten(slices)), sum);
    SharesConcatenate(e, AllReduceStats(e, slices, g, sum), slices, Total(e, Flatten(slices)));
    assert AllReduceStats(e, slices, g, sum)[0].isNormalized;
  }

  /** Ranks' shares of the softmax concatenate to the softmax. */
  lemma {:induction false} SharesConcatenate(e: real -> real, stats: seq<SliceStats>, slices: seq<seq<real>>,
                                             total: real)
    requires |stats| == |slices|
    requires forall i :: 0 <= i < |stats| ==> stats[i].expValues == Divided(e, slices[i], total)
    ensures ConcatValues(stats) == Divided(e, Flatten(slices), total)
  {
    if stats != [] {
      SharesConcatenate(e, stats[1..], slices[1..], total);
      DividedConcat(e, slices[0], Flatten(slices[1..]), total);
    }
  }

  // ----- The result is a probability distribution in the order of the inputs

  lemma {:induction false} DividedSum(e: real -> real, v: seq<real>, total: real)
    requires 0.0 < total
    ensures Sum(Divided(e, v, total)) == Total(e, v) / total
  {
    if v != [] {
      DividedSum(e, v[1..], total);
      assert Divided(e, v, total)[1..] == Divided(e, v[1..], total);
    }
  }

  lemma {:induction false} TermAtMostTotal(e: real -> real, v: seq<real>, k: nat)
    requires IsExp(e) && k < |v|
    ensures Exp(e, v[k]) <= Total(e, v)
  {
    TotalIsPositive(e, v[1..]);
    assert Positive(e, v[0]);
    if k > 0 {
      TermAtMostTotal(e, v[1..], k - 1);
    }
  }

  lemma SoftmaxIsDistribution(e: real -> real, v: seq<real>)
    requires IsExp(e) && v != []
    ensures |Softmax(e, v)| == |v|
    ensures Sum(Softmax(e, v)) == 1.0
    ensures forall k :: 0 <= k < |v| ==> 0.0 < Softmax(e, v)[k] <= 1.0
    ensures forall j, k :: 0 <= j < |v| && 0 <= k < |v| ==> (v[j] <= v[k] <==> Softmax(e, v)[j] <= Softmax(e, v)[k])
  {
    var t := Total(e, v);
    TotalIsPositive(e, v);
    DividedSum(e, v, t);
    forall k | 0 <= k < |v| ensures 0.0 < Softmax(e, v)[k] <= 1.0 {
      TermAtMostTotal(e, v, k);
      assert Positive(e, v[k]);
      QuotientOrder(Exp(e, v[k]), t, t);
      QuotientOrder(Exp(e, v[k]), 0.0, t);
    }
    forall j, k | 0 <= j < |v| && 0 <= k < |v| ensures v[j] <= v[k] <==> Softmax(e, v)[j] <= Softmax(e, v)[k] {
      assert Increases(e, v[j], v[k]) && Increases(e, v[k], v[j]);
      QuotientOrder(Exp(e, v[j]), Exp(e, v[k]), t);
    }
  }

  // ----- Moving all elements by a constant is all that softmax does not see

  predicate Moved(v: seq<real>, w: seq<real>) {
    |v| == |w| && forall k :: 0 <= k < |v| ==> v[k] - v[0] == w[k] - w[0]
  }

  /** Quotients of softmax values are exponentials of differences. */
  lemma SoftmaxRatio(e: real -> real, v: seq<real>, k: nat)
    requires IsExp(e) && k < |v|
    ensures 0.0 < Softmax(e, v)[0] && Softmax(e, v)[k] == Softmax(e, v)[0] * Exp(e, v[k] - v[0])
  {
    var t := Total(e, v);
    TotalIsPositive(e, v);
    assert Positive(e, v[0]) && Multiplies(e, v[0], v[k] - v[0]) && v[0] + (v[k] - v[0]) == v[k];
    PositiveQuotient(Exp(e, v[0]), t);
    DivideMultiply(Exp(e, v[0]), t);
    QuotientIsUnique(Exp(e, v[k]), (Exp(e, v[0]) / t) * Exp(e, v[k] - v[0]), t) by {
      Interchange(Exp(e, v[0]) / t, Exp(e, v[k] - v[0]), 1.0, t);
    }
  }

  lemma SameSoftmaxThenMoved(e: real -> real, v: seq<real>, w: seq<real>)
    requires IsExp(e) && v != [] && Softmax(e, v) == Softmax(e, w)
    ensures Moved(v, w)
  {
    assert |v| == |Softmax(e, v)| == |Softmax(e, w)| == |w|;
    forall k | 0 <= k < |v| ensures v[k] - v[0] == w[k] - w[0] {
      SoftmaxRatio(e, v, k);
      SoftmaxRatio(e, w, k);
      CancelPositive(Softmax(e, v)[0], Exp(e, v[k] - v[0]), Exp(e, w[k] - w[0]));
      assert Increases(e, v[k] - v[0], w[k] - w[0]) && Increases(e, w[k] - w[0], v[k] - v[0]);
    }
  }

  lemma CancelPositive(p: real, x: real, y: real)
    requires 0.0 < p && p * x == p * y
    ensures x == y
  {
  }

  /** Moving a vector by `d` scales its total. */
  lemma {:induction false} MovedTotal(e: real -> real, v: seq<real>, w: seq<real>, d: real)
    requires IsExp(e) && |v| == |w| && forall k :: 0 <= k < |v| ==> v[k] == w[k] - d
    ensures Total(e, v) == ShiftedTotal(e, w, d)
  {
    if v != [] {
      MovedTotal(e, v[1..], w[1..], d);
      ShiftOne(e, w[0], d);
      Distribute(Exp(e, w[0]), Total(e, w[1..]), Exp(e, -d));
    }
  }

  lemma MovedThenSameSoftmax(e: real -> real, v: seq<real>, w: seq<real>)
    requires IsExp(e) && v != [] && Moved(v, w)
    ensures Softmax(e, v) == Softmax(e, w)
  {
    var d := w[0] - v[0];
    MovedTotal(e, v, w, d);
    TotalIsPositive(e, w);
    forall k | 0 <= k < |v| ensures Softmax(e, v)[k] == Softmax(e, w)[k] {
      assert v[k] == w[k] - d;
      OutputCell(e, w[k], d, d, Total(e, w), Total(e, v));
    }
  }

  lemma SameSoftmaxExactlyIfMoved(e: real -> real, v: seq<real>, w: seq<real>)
    requires IsExp(e) && v != []
    ensures Softmax(e, v) == Softmax(e, w) <==> Moved(v, w)
  {
    if Moved(v, w) {
      MovedThenSameSoftmax(e, v, w);
    } else if Softmax(e, v) == Softmax(e, w) {
      SameSoftmaxThenMoved(e, v, w);
    }
  }

  lemma ExpsAtMaximum(e: real -> real, data: seq<real>, k: nat)
    requires IsExp(e) && k < |data|
    ensures 0.0 < Exps(e, data, MaxOf(data))[k] <= 1.0
    ensures data[k] == MaxOf(data) ==> Exps(e, data, MaxOf(data))[k] == 1.0
  {
    AtMostZero(e, data[k] - MaxOf(data));
  }

  /** A sum of exponentials relative to the true maximum lies between 1 and the number of terms. */
  lemma SumAtMaximum(e: real -> real, data: seq<real>)
    requires IsExp(e) && data != []
    ensures 1.0 <= Sum(Exps(e, data, MaxOf(data))) <= |data| as real
  {
    var m := MaxOf(data);
    var r := Exps(e, data, m);
    forall j | 0 <= j < |r| ensures 0.0 <= r[j] <= 1.0 {
      ExpsAtMaximum(e, data, j);
    }
    var k :| 0 <= k < |data| && data[k] == m;
    ExpsAtMaximum(e, data, k);
    TermAtMostSum(r, k);
    SumOfUnitsBounds(r);
  }

  /** No partial sum and no global sum is ever zero, so no division in the recombination is by zero. */
  lemma SumsAreBounded(e: real -> real, slices: seq<seq<real>>, stats: seq<SliceStats>)
    requires IsExp(e)
    requires slices != [] && |stats| == |slices|
    requires forall i :: 0 <= i < |slices| ==> slices[i] != [] && stats[i] == SoftmaxPartial(e, slices[i])
    ensures forall i :: 0 <= i < |slices| ==> 1.0 <= stats[i].partialSum <= |slices[i]| as real
    ensures 1.0 <= GlobalSum(e, stats, MaxOf(LocalMaxes(stats))) <= |Flatten(slices)| as real
  {
    forall i | 0 <= i < |slices| ensures 1.0 <= stats[i].partialSum <= |slices[i]| as real {
      SumAtMaximum(e, slices[i]);
    }
    var g, v := MaxOf(LocalMaxes(stats)), Flatten(slices);
    MaximumOfMaxima(e, slices, stats);
    GlobalSumIsTotal(e, stats, slices, g);
    ShiftedSum(e, v, g);
    SumAtMaximum(e, v);
  }

  lemma {:induction false} MaximumOfMaxima(e: real -> real, slices: seq<seq<real>>, stats: seq<SliceStats>)
    requires slices != [] && |stats| == |slices|
    requires forall i :: 0 <= i < |slices| ==> slices[i] != [] && stats[i] == SoftmaxPartial(e, slices[i])
    ensures Flatten(slices) != []
    ensures MaxOf(LocalMaxes(stats)) == MaxOf(Flatten(slices))
  {
    if |slices| == 1 {
      assert Flatten(slices) == slices[0] + Flatten([]) == slices[0];
    } else {
      MaximumOfMaxima(e, slices[1..], stats[1..]);
      assert LocalMaxes(stats)[1..] == LocalMaxes(stats[1..]);
      MaxOfConcat(slices[0], Flatten(slices[1..]));
    }
  }

  lemma {:induction false} MaxOfConcat(v: seq<real>, w: seq<real>)
    requires v != [] && w != []
    ensures MaxOf(v + w) == Max(MaxOf(v), MaxOf(w))
  {
    if |v| == 1 {
      assert (v + w)[1..] == w;
    } else {
      MaxOfConcat(v[1..], w);
      assert (v + w)[1..] == v[1..] + w;
    }
  }

  // ----- Slices of different modes in one job

  /**
   A job whose first slice is normalised and some other slice is not never yields the softmax:
   the other slice contributes an exact 1 for its maximum, and with two or more elements no probability is 1.
   */
  lemma MixedModesAreWrong(e: real -> real, stats: seq<SliceStats>, slices: seq<seq<real>>, i: nat)
    requires IsExp(e)
    requires |stats| == |slices| && 0 < i < |slices|
    requires forall j :: 0 <= j < |slices| ==> slices[j] != [] && |stats[j].expValues| == |slices[j]|
    requires stats[0].isNormalized
    requires stats[i] == SoftmaxPartial(e, slices[i])
    ensures Aggregate(e, stats) != Softmax(e, Flatten(slices))
  {
    var k :| 0 <= k < |slices[i]| && slices[i][k] == MaxOf(slices[i]);
    ExpsAtMaximum(e, slices[i], k);
    var j := PositionOf(stats, i, k);
    FlattenSameShape(slices, ValuesOf(stats), i);
    NoCertainty(e, Flatten(slices), j);
  }

  /** Value `k` of slice `i` stands somewhere in the concatenation. */
  lemma PositionOf(stats: seq<SliceStats>, i: nat, k: nat) returns (j: nat)
    requires i < |stats| && k < |stats[i].expValues|
    ensures j < |ConcatValues(stats)| == |Flatten(ValuesOf(stats))|
    ensures ConcatValues(stats)[j] == stats[i].expValues[k]
  {
    var values := ValuesOf(stats);
    ConcatIsFlatten(stats);
    FlattenAt(values, i);
    j := Offset(values, i) + k;
    assert Flatten(values)[j] == Flatten(values)[Offset(values, i)..Offset(values, i + 1)][k];
  }

  function ValuesOf(stats: seq<SliceStats>): (r: seq<seq<real>>)
    ensures |r| == |stats|
    ensures forall i :: 0 <= i < |stats| ==> r[i] == stats[i].expValues
  {
    seq(|stats|, i requires 0 <= i < |stats| => stats[i].expValues)
  }

  lemma {:induction false} ConcatIsFlatten(stats: seq<SliceStats>)
    ensures ConcatValues(stats) == Flatten(ValuesOf(stats))
  {
    if stats != [] {
      ConcatIsFlatten(stats[1..]);
      assert ValuesOf(stats)[1..] == ValuesOf(stats[1..]);
    }
  }

  lemma {:induction false} FlattenSameShape<S, T>(ss: seq<seq<S>>, tt: seq<seq<T>>, i: nat)
    requires |ss| == |tt| && i < |ss|
    requires forall j :: 0 <= j < |ss| ==> |ss[j]| == |tt[j]|
    ensures |Flatten(ss)| == |Flatten(tt)|
    ensures Offset(ss, i) == Offset(tt, i)
    ensures |ss| <= |Flatten(ss)| || exists j :: 0 <= j < |ss| && ss[j] == []
  {
    if |ss| > 1 {
      FlattenSameShape(ss[1..], tt[1..], if i == 0 then 0 else i - 1);
    }
  }

  /** In a vector of two or more elements no softmax value is 1. */
  lemma NoCertainty(e: real -> real, v: seq<real>, k: nat)
    requires IsExp(e) && k < |v| && 2 <= |v|
    ensures Softmax(e, v)[k] < 1.0
  {
    assert v == v[..k] + ([v[k]] + v[k + 1..]);
    TotalConcat(e, v[..k], [v[k]] + v[k + 1..]);
    TotalConcat(e, [v[k]], v[k + 1..]);
    TotalIsPositive(e, v[..k]);
    TotalIsPositive(e, v[k + 1..]);
    assert Positive(e, v[k]);
    ProperFraction(Exp(e, v[k]), Total(e, v));
  }
}
