/** The ways a job can take through the system, side by side. */
module Paths {
  import opened Exponential
  import opened RealArithmetic
  import opened Vectors
  import opened Aggregation
  import opened Kernels
  import opened GpuWorker
  import opened Slicing
  import opened Rounding
  import opened Leftovers
  import opened System

  /** Each slice computed by a CPU or by a GPU worker. */
  function AllWorkerStats(e: real -> real, slices: seq<seq<real>>, gpu: seq<bool>): (stats: seq<SliceStats>)
    requires |gpu| == |slices| && forall i :: 0 <= i < |slices| ==> slices[i] != []
    ensures |stats| == |slices|
    ensures forall i :: 0 <= i < |slices| ==> stats[i] == WorkerStats(e, slices[i], if gpu[i] then Gpu else Cpu)
  {
    seq(|slices|, i requires 0 <= i < |slices| => WorkerStats(e, slices[i], if gpu[i] then Gpu else Cpu))
  }

  lemma PartialPath(e: real -> real, vector: seq<real>, slices: seq<seq<real>>, gpu: seq<bool>)
    requires IsExp(e) && IsPartition(slices, vector) && |gpu| == |slices|
    ensures Aggregate(e, AllWorkerStats(e, slices, gpu)) == Softmax(e, vector)
  {
    AggregateIsSoftmax(e, AllWorkerStats(e, slices, gpu), slices);
  }

  /**
   For every vector and any two partitions of it: partial statistics from any mix of CPU and GPU workers
   over the one, and AllReduce with normalisation on the ranks over the other, give the same result, whatever
   the common maximum the collective returns. The fallback without CUDA is the first path over the second
   partition.
   */
  lemma AllPathsAgree(e: real -> real, vector: seq<real>, slices: seq<seq<real>>, gpu: seq<bool>,
                      rankSlices: seq<seq<real>>, rankGpu: seq<bool>, globalMax: real)
    requires IsExp(e) && vector != []
    requires IsPartition(slices, vector) && |gpu| == |slices|
    requires IsPartition(rankSlices, vector) && |rankGpu| == |rankSlices|
    ensures var allReduce := AllReduceStats(e, rankSlices, globalMax, AllReduceSum(e, rankSlices, globalMax));
            && Aggregate(e, AllWorkerStats(e, slices, gpu)) == Aggregate(e, allReduce)
            && Aggregate(e, AllWorkerStats(e, rankSlices, rankGpu)) == Aggregate(e, allReduce)
            && Aggregate(e, allReduce) == Softmax(e, vector)
  {
    PartialPath(e, vector, slices, gpu);
    PartialPath(e, vector, rankSlices, rankGpu);
    AllReduceIsSoftmax(e, rankSlices, globalMax);
  }

  // ----- Slices of different modes in one job

  /** What the gateway can find for a slice: partial statistics at whatever shift, or a rank's share of the softmax. */
  ghost predicate FromWorker(e: real -> real, s: SliceStats, slice: seq<real>, total: real) {
    (Fits(e, s, slice) && !s.isNormalized) || s == NormalizedStats(Divided(e, slice, total))
  }

  ghost predicate FromWorkers(e: real -> real, stats: seq<SliceStats>, slices: seq<seq<real>>, total: real) {
    && |stats| == |slices|
    && forall i :: 0 <= i < |slices| ==> slices[i] != [] && FromWorker(e, stats[i], slices[i], total)
  }

  /** The statistics with every partial sum replaced by the sum of the values sent. */
  function Resummed(stats: seq<SliceStats>): (r: seq<SliceStats>)
    ensures |r| == |stats|
    ensures forall i :: 0 <= i < |stats| ==> r[i] == stats[i].(partialSum := Sum(stats[i].expValues))
  {
    seq(|stats|, i requires 0 <= i < |stats| => stats[i].(partialSum := Sum(stats[i].expValues)))
  }

  lemma {:induction false} NormalizeAllIgnoresSums(e: real -> real, stats: seq<SliceStats>, g: real, sum: real)
    ensures NormalizeAll(e, Resummed(stats), g, sum) == NormalizeAll(e, stats, g, sum)
  {
    if stats != [] {
      NormalizeAllIgnoresSums(e, stats[1..], g, sum);
      assert Resummed(stats)[1..] == Resummed(stats[1..]);
    }
  }

  lemma {:induction false} GlobalSumMonotone(e: real -> real, a: seq<SliceStats>, b: seq<SliceStats>, g: real, k: nat)
    requires IsExp(e) && |a| == |b| && k <= |a|
    requires forall i :: 0 <= i < |a| ==> a[i].localMax == b[i].localMax && a[i].partialSum <= b[i].partialSum
    requires k < |a| ==> a[k].partialSum < b[k].partialSum
    ensures GlobalSum(e, a, g) <= GlobalSum(e, b, g)
    ensures k < |a| ==> GlobalSum(e, a, g) < GlobalSum(e, b, g)
  {
    if a != [] {
      GlobalSumMonotone(e, a[1..], b[1..], g, if k == 0 then |a[1..]| else k - 1);
      var f := Exp(e, a[0].localMax - g);
      assert Positive(e, a[0].localMax - g);
      MulMonotone(a[0].partialSum, b[0].partialSum, f);
      if k == 0 {
        StrictMulMonotone(a[0].partialSum, b[0].partialSum, f);
      }
    }
  }

  /** The values of a slice add up to its partial sum, except that a rank's share adds up to less than one. */
  lemma ValuesAndSums(e: real -> real, s: SliceStats, slice: seq<real>, total: real)
    requires IsExp(e) && slice != [] && FromWorker(e, s, slice, total) && Total(e, slice) < total
    ensures if s.isNormalized then 0.0 < Sum(s.expValues) < s.partialSum else 0.0 < Sum(s.expValues) == s.partialSum
  {
    TotalIsPositive(e, slice);
    if s.isNormalized {
      DividedSum(e, slice, total);
      ProperFraction(Total(e, slice), total);
      PositiveQuotient(Total(e, slice), total);
    } else {
      ShiftedSum(e, slice, s.localMax);
      assert Positive(e, -s.localMax);
      PositiveProduct(Total(e, slice), Exp(e, -s.localMax));
    }
  }

  lemma {:induction false} SliceIsSmaller(e: real -> real, slices: seq<seq<real>>, i: nat)
    requires IsExp(e) && i < |slices| && forall j :: 0 <= j < |slices| ==> slices[j] != []
    ensures Total(e, slices[i]) <= Total(e, Flatten(slices))
    ensures 2 <= |slices| ==> Total(e, slices[i]) < Total(e, Flatten(slices))
  {
    TotalConcat(e, slices[0], Flatten(slices[1..]));
    TotalIsPositive(e, Flatten(slices[1..]));
    TotalIsPositive(e, slices[0]);
    if i > 0 {
      SliceIsSmaller(e, slices[1..], i - 1);
    } else if 2 <= |slices| {
      assert slices[1] == slices[1..][0];
      assert Flatten(slices[1..]) == slices[1] + Flatten(slices[1..][1..]);
    }
  }

  /** With a partial first slice and a normalised one among the rest, the outputs sum to less than one. */
  lemma NormalizedAmongPartial(e: real -> real, stats: seq<SliceStats>, slices: seq<seq<real>>, k: nat)
    requires IsExp(e) && FromWorkers(e, stats, slices, Total(e, Flatten(slices)))
    requires 0 < k < |stats| && !stats[0].isNormalized && stats[k].isNormalized
    ensures Aggregate(e, stats) != Softmax(e, Flatten(slices))
  {
    var g, r := MaxOf(LocalMaxes(stats)), Resummed(stats);
    var sum := GlobalSum(e, stats, g);
    forall i | 0 <= i < |stats|
      ensures 0.0 < r[i].partialSum <= stats[i].partialSum
      ensures (stats[i].isNormalized ==> r[i].partialSum < stats[i].partialSum)
    {
      SliceIsSmaller(e, slices, i);
      ValuesAndSums(e, stats[i], slices[i], Total(e, Flatten(slices)));
    }
    GlobalSumMonotone(e, r, stats, g, k);
    PositiveGlobalSum(e, stats, g);
    NormalizeAllIgnoresSums(e, stats, g, sum);
    NormalizeAllSum(e, r, g, sum);
    ProperFraction(GlobalSum(e, r, g), sum);
    SoftmaxIsDistribution(e, Flatten(slices));
  }

  lemma {:induction false} PositiveGlobalSum(e: real -> real, stats: seq<SliceStats>, g: real)
    requires IsExp(e) && forall i :: 0 <= i < |stats| ==> 0.0 < stats[i].partialSum
    ensures 0.0 <= GlobalSum(e, stats, g)
    ensures stats != [] ==> 0.0 < GlobalSum(e, stats, g)
  {
    if stats != [] {
      PositiveGlobalSum(e, stats[1..], g);
      assert Positive(e, stats[0].localMax - g);
      PositiveProduct(stats[0].partialSum, Exp(e, stats[0].localMax - g));
    }
  }

  ghost predicate OneMode(stats: seq<SliceStats>) {
    forall i :: 0 <= i < |stats| ==> stats[i].isNormalized == stats[0].isNormalized
  }

  /** Exponentials relative to a shift are shares of a total exactly if the shift's exponential is that total. */
  lemma ShareExactlyAtTotal(e: real -> real, slice: seq<real>, m: real, total: real)
    requires IsExp(e) && slice != [] && 0.0 < total
    ensures Exps(e, slice, m) == Divided(e, slice, total) <==> Exp(e, m) == total
  {
    forall k | 0 <= k < |slice| ensures Exps(e, slice, m)[k] == Divided(e, slice, total)[k] <==> Exp(e, m) == total {
      CellExactlyAtTotal(e, slice[k], m, total);
    }
    if Exps(e, slice, m) == Divided(e, slice, total) {
      assert Exps(e, slice, m)[0] == Divided(e, slice, total)[0];
    }
  }

  lemma CellExactlyAtTotal(e: real -> real, x: real, m: real, total: real)
    requires IsExp(e) && 0.0 < total
    ensures Exp(e, x - m) == Quotient(Exp(e, x), total) <==> Exp(e, m) == total
  {
    var d := Exp(e, x - m);
    assert Multiplies(e, x - m, m) && (x - m) + m == x;
    assert Positive(e, x - m);
    if Exp(e, m) == total {
      QuotientIsUnique(Exp(e, x), d, total);
    } else if d == Quotient(Exp(e, x), total) {
      DivideMultiply(Exp(e, x), total);
      CancelNonZero(Exp(e, m), total, d);
    }
  }

  /** Partial statistics that pass for shares of the total. */
  ghost predicate PassForShares(e: real -> real, stats: seq<SliceStats>, total: real) {
    forall j :: 0 <= j < |stats| && !stats[j].isNormalized ==> Exp(e, stats[j].localMax) == total
  }

  /** With a normalised first slice, the answer is the softmax exactly if all others are shares or pass for them. */
  lemma NormalizedFirst(e: real -> real, stats: seq<SliceStats>, slices: seq<seq<real>>)
    requires IsExp(e) && slices != [] && FromWorkers(e, stats, slices, Total(e, Flatten(slices)))
    requires stats[0].isNormalized
    ensures Aggregate(e, stats) == Softmax(e, Flatten(slices)) <==> PassForShares(e, stats, Total(e, Flatten(slices)))
  {
    var total := Total(e, Flatten(slices));
    TotalOfSlices(e, slices);
    forall j | 0 <= j < |stats| && !stats[j].isNormalized
      ensures stats[j].expValues == Divided(e, slices[j], total) <==> Exp(e, stats[j].localMax) == total
    {
      ShareExactlyAtTotal(e, slices[j], stats[j].localMax, total);
    }
    if Aggregate(e, stats) == Softmax(e, Flatten(slices)) {
      RightConcatenation(e, stats, slices, 0);
      forall j | 0 <= j < |stats| ensures stats[j].expValues == Divided(e, slices[j], total) {
        assert ValuesOf(stats)[j] == Shares(e, slices, total)[j];
      }
    } else if PassForShares(e, stats, total) {
      SharesConcatenate(e, stats, slices, total);
    }
  }

  /**
   The gateway's answer is the softmax exactly if all slices of the job come in the same mode, or the first is
   normalised and every partial one happens to be taken at a shift whose exponential is the total.
   */
  lemma SoftmaxExactlyWhen(e: real -> real, stats: seq<SliceStats>, slices: seq<seq<real>>)
    requires IsExp(e) && slices != [] && FromWorkers(e, stats, slices, Total(e, Flatten(slices)))
    ensures Aggregate(e, stats) == Softmax(e, Flatten(slices)) <==>
            OneMode(stats) || (stats[0].isNormalized && PassForShares(e, stats, Total(e, Flatten(slices))))
  {
    if stats[0].isNormalized {
      NormalizedFirst(e, stats, slices);
    } else if OneMode(stats) {
      AggregateIsSoftmax(e, stats, slices);
    } else {
      var k :| 0 <= k < |stats| && stats[k].isNormalized != stats[0].isNormalized;
      NormalizedAmongPartial(e, stats, slices, k);
    }
  }

  /** The GPU's shift is the slice's maximum unless the slice is padded and lies below the padding value. */
  predicate PadsInvisibly(slice: seq<real>) {
    |slice| % BLOCK_SIZE == 0 || exists k :: 0 <= k < |slice| && MAX_PAD <= slice[k]
  }

  /** What a CPU worker, a GPU worker at the slice's maximum, or a rank sends back. */
  ghost predicate Sent(e: real -> real, s: SliceStats, slice: seq<real>, total: real)
    requires slice != []
  {
    || s == WorkerStats(e, slice, Cpu)
    || (s == WorkerStats(e, slice, Gpu) && PadsInvisibly(slice))
    || s == NormalizedStats(Divided(e, slice, total))
  }

  /**
   For slices from such workers, the answer is the softmax exactly when all slices of the job come in the same
   mode.
   */
  lemma SoftmaxExactlyInOneMode(e: real -> real, stats: seq<SliceStats>, slices: seq<seq<real>>)
    requires IsExp(e) && slices != [] && |stats| == |slices|
    requires forall i :: 0 <= i < |slices| ==>
      slices[i] != [] && Sent(e, stats[i], slices[i], Total(e, Flatten(slices)))
    ensures Aggregate(e, stats) == Softmax(e, Flatten(slices)) <==> OneMode(stats)
  {
    var total := Total(e, Flatten(slices));
    forall i | 0 <= i < |slices| ensures FromWorker(e, stats[i], slices[i], total) {
      assert Sent(e, stats[i], slices[i], total);
    }
    SoftmaxExactlyWhen(e, stats, slices);
    if !OneMode(stats) && stats[0].isNormalized {
      var k :| 0 <= k < |stats| && !stats[k].isNormalized;
      assert Sent(e, stats[k], slices[k], total);
      MaximumIsBelowTotal(e, slices, k);
      GpuMaxIsMaximum(slices[k]);
    }
  }

  lemma MaximumIsBelowTotal(e: real -> real, slices: seq<seq<real>>, i: nat)
    requires IsExp(e) && 2 <= |slices| && i < |slices| && forall j :: 0 <= j < |slices| ==> slices[j] != []
    ensures Exp(e, MaxOf(slices[i])) < Total(e, Flatten(slices))
  {
    var k :| 0 <= k < |slices[i]| && slices[i][k] == MaxOf(slices[i]);
    TermAtMostTotal(e, slices[i], k);
    SliceIsSmaller(e, slices, i);
  }
}
