/** The gateway's GPU path: the slices are flattened and one thread normalises each element. */
module GpuAggregator {
  import opened Exponential
  import opened RealArithmetic
  import opened Vectors
  import opened Aggregation
  import opened GpuWorker

  // ----- Flattening

  lemma {:induction false} OffsetOfPrefix<T>(ss: seq<seq<T>>, i: nat)
    requires i <= |ss|
    ensures Offset(ss, i) == |Flatten(ss[..i])|
  {
    if i > 0 {
      OffsetOfPrefix(ss[1..], i - 1);
      assert ss[..i][1..] == ss[1..][..i - 1];
    }
  }

  lemma {:induction false} OffsetMonotone<T>(ss: seq<seq<T>>, i: nat, j: nat)
    requires i <= j <= |ss|
    ensures Offset(ss, i) <= Offset(ss, j)
    decreases j
  {
    if i < j {
      OffsetMonotone(ss, i, j - 1);
      FlattenAt(ss, j - 1);
    }
  }

  /** Offsets cut the flat vector into disjoint ranges. */
  lemma RangesAreDisjoint<T>(ss: seq<seq<T>>, i: nat, j: nat, k: nat)
    requires i < |ss| && j < |ss|
    requires Offset(ss, i) <= k < Offset(ss, i + 1)
    ensures Offset(ss, j) <= k < Offset(ss, j + 1) <==> i == j
  {
    if i < j {
      OffsetMonotone(ss, i + 1, j);
    } else if j < i {
      OffsetMonotone(ss, j + 1, i);
    }
  }

  ghost predicate NamesItsSlice(values: seq<seq<real>>, id: nat, k: nat) {
    id < |values| && Offset(values, id) <= k < Offset(values, id + 1)
  }

  lemma IdsAreExact(values: seq<seq<real>>, sliceIds: seq<nat>)
    requires forall k :: 0 <= k < |sliceIds| ==> NamesItsSlice(values, sliceIds[k], k)
    ensures forall i, k :: 0 <= i < |values| && 0 <= k < |sliceIds| ==>
      (NamesItsSlice(values, i, k) <==> sliceIds[k] == i)
  {
    forall i, k | 0 <= i < |values| && 0 <= k < |sliceIds|
      ensures NamesItsSlice(values, i, k) <==> sliceIds[k] == i
    {
      assert NamesItsSlice(values, sliceIds[k], k);
      RangesAreDisjoint(values, sliceIds[k], i, k);
    }
  }

  lemma FlattenNext<T>(ss: seq<seq<T>>, i: nat)
    requires i < |ss|
    ensures Flatten(ss[..i + 1]) == Flatten(ss[..i]) + ss[i]
    ensures |Flatten(ss[..i])| == Offset(ss, i)
    ensures Offset(ss, i + 1) == Offset(ss, i) + |ss[i]|
  {
    OffsetOfPrefix(ss, i);
    FlattenAt(ss, i);
    FlattenConcat(ss[..i], [ss[i]]);
    assert ss[..i + 1] == ss[..i] + [ss[i]] && Flatten([ss[i]]) == ss[i] + Flatten([]) == ss[i];
  }

  /** `sliceIds[k]` is `i` exactly when element `k` comes from slice `i`. */
  method FlattenSlices(stats: seq<SliceStats>) returns (expVals: seq<real>, sliceIds: seq<nat>)
    ensures expVals == Flatten(ValuesOf(stats))
    ensures |sliceIds| == |expVals|
    ensures forall k :: 0 <= k < |sliceIds| ==> NamesItsSlice(ValuesOf(stats), sliceIds[k], k)
    ensures forall i, k :: 0 <= i < |stats| && 0 <= k < |sliceIds| ==>
      (NamesItsSlice(ValuesOf(stats), i, k) <==> sliceIds[k] == i)
  {
    ghost var values := ValuesOf(stats);
    expVals, sliceIds := [], [];
    for i := 0 to |stats|
      invariant expVals == Flatten(values[..i])
      invariant |sliceIds| == |expVals|
      invariant forall k :: 0 <= k < |sliceIds| ==> NamesItsSlice(values, sliceIds[k], k)
    {
      var s := stats[i].expValues;
      ghost var before := expVals;
      FlattenNext(values, i);
      for j := 0 to |s|
        invariant expVals == before + s[..j]
        invariant |sliceIds| == |expVals|
        invariant forall k :: 0 <= k < |sliceIds| ==> NamesItsSlice(values, sliceIds[k], k)
      {
        assert NamesItsSlice(values, i, |sliceIds|);
        expVals := expVals + [s[j]];
        sliceIds := sliceIds + [i];
      }
    }
    assert values[..|stats|] == values;
    IdsAreExact(values, sliceIds);
  }

  // ----- The kernel

  function Adjusts(e: real -> real, stats: seq<SliceStats>, g: real): (r: seq<real>)
    ensures |r| == |stats|
    ensures forall i :: 0 <= i < |stats| ==> r[i] == Exp(e, stats[i].localMax - g)
  {
    seq(|stats|, i requires 0 <= i < |stats| => Exp(e, stats[i].localMax - g))
  }

  function GpuCell(value: real, adjust: real, inv: real): real {
    value * adjust * inv
  }

  lemma GpuCellIsNormalizeCell(value: real, adjust: real, sum: real)
    ensures GpuCell(value, adjust, Quotient(1.0, sum)) == NormalizeCell(value, adjust, sum)
  {
    if sum != 0.0 {
      var x := value * adjust;
      DivideMultiply(1.0, sum);
      MulAssoc(x, 1.0 / sum, sum);
      QuotientIsUnique(x, x * (1.0 / sum), sum);
    }
  }

  function GpuCells(expVals: seq<real>, adjusts: seq<real>, sliceIds: seq<nat>, inv: real): (r: seq<real>)
    requires |sliceIds| == |expVals|
    requires forall k :: 0 <= k < |sliceIds| ==> sliceIds[k] < |adjusts|
    ensures |r| == |expVals|
    ensures forall k :: 0 <= k < |r| ==> r[k] == GpuCell(expVals[k], adjusts[sliceIds[k]], inv)
  {
    seq(|expVals|, k requires 0 <= k < |expVals| => GpuCell(expVals[k], adjusts[sliceIds[k]], inv))
  }

  method LaunchAggregateNormalize(expVals: seq<real>, adjusts: seq<real>, sliceIds: seq<nat>, out: array<real>,
                                  invGlobalSum: real, blocks: nat, blockDim: nat, order: seq<Thread>)
    requires |sliceIds| == |expVals| == out.Length
    requires forall k :: 0 <= k < |sliceIds| ==> sliceIds[k] < |adjusts|
    requires 0 < blockDim && |expVals| <= blocks * blockDim
    requires CoversThreads(order, blocks, blockDim)
    modifies out
    ensures out[..] == GpuCells(expVals, adjusts, sliceIds, invGlobalSum)
  {
    var n := |expVals|;
    ghost var cells := GpuCells(expVals, adjusts, sliceIds, invGlobalSum);
    for i := 0 to |order|
      invariant forall j :: 0 <= j < i && GlobalIndex(order[j], blockDim) < n ==>
        out[GlobalIndex(order[j], blockDim)] == cells[GlobalIndex(order[j], blockDim)]
    {
      var k := GlobalIndex(order[i], blockDim);
      if k < n {
        out[k] := GpuCell(expVals[k], adjusts[sliceIds[k]], invGlobalSum);
      }
    }
    forall k | 0 <= k < n ensures out[k] == cells[k] {
      var j := TurnOf(order, n, blocks, blockDim, k);
    }
  }

  // ----- The flat form computes what the nested form computes

  lemma {:induction false} NormalizeAllAt(e: real -> real, stats: seq<SliceStats>, g: real, sum: real, i: nat, k: nat)
    requires i < |stats| && NamesItsSlice(ValuesOf(stats), i, k)
    ensures |NormalizeAll(e, stats, g, sum)| == |Flatten(ValuesOf(stats))|
    ensures k < |Flatten(ValuesOf(stats))|
    ensures NormalizeAll(e, stats, g, sum)[k]
         == NormalizeCell(Flatten(ValuesOf(stats))[k], Exp(e, stats[i].localMax - g), sum)
  {
    var values := ValuesOf(stats);
    NormalizeAllLength(e, stats, g, sum);
    FlattenAt(values, i);
    assert values[1..] == ValuesOf(stats[1..]);
    if i > 0 {
      NormalizeAllAt(e, stats[1..], g, sum, i - 1, k - |values[0]|);
    }
  }

  lemma {:induction false} NormalizeAllLength(e: real -> real, stats: seq<SliceStats>, g: real, sum: real)
    ensures |NormalizeAll(e, stats, g, sum)| == |Flatten(ValuesOf(stats))|
  {
    if stats != [] {
      NormalizeAllLength(e, stats[1..], g, sum);
      assert ValuesOf(stats)[1..] == ValuesOf(stats[1..]);
    }
  }

  /** The whole GPU path returns exactly what the CPU path returns, for any statistics and any thread order. */
  method AggregateGpu(e: real -> real, stats: seq<SliceStats>, blocks: nat, blockDim: nat, order: seq<Thread>)
    returns (result: seq<real>)
    requires 0 < blockDim && |Flatten(ValuesOf(stats))| <= blocks * blockDim
    requires CoversThreads(order, blocks, blockDim)
    ensures result == AggregateCpu(e, stats)
  {
    if stats == [] {
      return [];
    }
    var globalMax := MaxOf(LocalMaxes(stats));
    var adjusts := Adjusts(e, stats, globalMax);
    var globalSum := GlobalSum(e, stats, globalMax);
    var invGlobalSum := Quotient(1.0, globalSum);
    var expVals, sliceIds := FlattenSlices(stats);
    var out := new real[|expVals|];
    assert forall k :: 0 <= k < |sliceIds| ==> NamesItsSlice(ValuesOf(stats), sliceIds[k], k);
    LaunchAggregateNormalize(expVals, adjusts, sliceIds, out, invGlobalSum, blocks, blockDim, order);
    result := out[..];
    NormalizeAllLength(e, stats, globalMax, globalSum);
    forall k | 0 <= k < |result| ensures result[k] == NormalizeAll(e, stats, globalMax, globalSum)[k] {
      NormalizeAllAt(e, stats, globalMax, globalSum, sliceIds[k], k);
      GpuCellIsNormalizeCell(expVals[k], adjusts[sliceIds[k]], globalSum);
    }
  }
}
