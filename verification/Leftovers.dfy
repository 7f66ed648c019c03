/**
 Submitting under an id that was used before. Slice keys never expire, so slices of an earlier submission
 may still be readable; when does that matter?
 */
module Leftovers {
  import opened Exponential
  import opened RealArithmetic
  import opened Vectors
  import opened Aggregation
  import opened Keys
  import opened Messages
  import opened System

  // ----- Recombining one slice from elsewhere with slices of the job

  /** Two sequences of pieces that agree in all lengths but one, and flatten to the same, are the same. */
  lemma {:induction false} SameFlattenSamePieces(ss: seq<seq<real>>, tt: seq<seq<real>>, i: nat)
    requires |ss| == |tt| && forall j :: 0 <= j < |ss| && j != i ==> |ss[j]| == |tt[j]|
    requires Flatten(ss) == Flatten(tt)
    ensures ss == tt
  {
    if ss != [] {
      if i == 0 {
        SameLength(ss[1..], tt[1..]);
      }
      assert ss[0] == Flatten(ss)[..|ss[0]|] && tt[0] == Flatten(tt)[..|tt[0]|];
      assert Flatten(ss[1..]) == Flatten(ss)[|ss[0]|..] && Flatten(tt[1..]) == Flatten(tt)[|tt[0]|..];
      SameFlattenSamePieces(ss[1..], tt[1..], if i == 0 then |ss| else i - 1);
    }
  }

  lemma {:induction false} SameLength(ss: seq<seq<real>>, tt: seq<seq<real>>)
    requires |ss| == |tt| && forall j :: 0 <= j < |ss| ==> |ss[j]| == |tt[j]|
    ensures |Flatten(ss)| == |Flatten(tt)|
  {
    if ss != [] {
      SameLength(ss[1..], tt[1..]);
    }
  }

  /** The shares of the softmax, slice by slice. */
  function Shares(e: real -> real, slices: seq<seq<real>>, total: real): (r: seq<seq<real>>)
    ensures |r| == |slices| && forall j :: 0 <= j < |r| ==> r[j] == Divided(e, slices[j], total)
  {
    seq(|slices|, j requires 0 <= j < |slices| => Divided(e, slices[j], total))
  }

  lemma {:induction false} SharesFlatten(e: real -> real, slices: seq<seq<real>>, total: real)
    ensures Flatten(Shares(e, slices, total)) == Divided(e, Flatten(slices), total)
  {
    if slices != [] {
      SharesFlatten(e, slices[1..], total);
      assert Shares(e, slices, total)[1..] == Shares(e, slices[1..], total);
      DividedConcat(e, slices[0], Flatten(slices[1..]), total);
    }
  }

  /** The recombination's output, slice by slice. */
  function Normalized(e: real -> real, stats: seq<SliceStats>, g: real, sum: real): (r: seq<seq<real>>)
    ensures |r| == |stats|
    ensures forall j :: 0 <= j < |r| ==> r[j] == NormalizeSlice(stats[j].expValues, Exp(e, stats[j].localMax - g), sum)
  {
    if stats == [] then []
    else [NormalizeSlice(stats[0].expValues, Exp(e, stats[0].localMax - g), sum)] + Normalized(e, stats[1..], g, sum)
  }

  lemma {:induction false} NormalizedFlatten(e: real -> real, stats: seq<SliceStats>, g: real, sum: real)
    ensures Flatten(Normalized(e, stats, g, sum)) == NormalizeAll(e, stats, g, sum)
  {
    if stats != [] {
      var parts := Normalized(e, stats, g, sum);
      NormalizedFlatten(e, stats[1..], g, sum);
      assert parts[1..] == Normalized(e, stats[1..], g, sum);
    }
  }

  /** One output value is right for a positive exponential exactly if the sum is. */
  lemma SumFromCell(e: real -> real, x: real, m: real, g: real, total: real, sum: real)
    requires IsExp(e) && 0.0 < total
    requires NormalizeCell(Exp(e, x - m), Exp(e, m - g), sum) == Quotient(Exp(e, x), total)
    ensures sum == total * Exp(e, -g)
  {
    var a, right := Exp(e, x - g), total * Exp(e, -g);
    Reshift(e, x, m, g);
    OutputCell(e, x, m, g, total, right);
    assert Positive(e, x - g) && Positive(e, x) && Positive(e, -g);
    PositiveProduct(total, Exp(e, -g));
    PositiveQuotient(Exp(e, x), total);
    assert sum != 0.0 && a / sum == a / right;
    SameQuotientSameDivisor(a, sum, right);
  }

  lemma SameQuotientSameDivisor(a: real, s: real, t: real)
    requires a != 0.0 && s != 0.0 && t != 0.0 && a / s == a / t
    ensures s == t
  {
    var q := a / s;
    DivideMultiply(a, s);
    DivideMultiply(a, t);
    assert q * s == q * t && q != 0.0;
    CancelNonZero(s, t, q);
  }

  lemma CancelNonZero(s: real, t: real, q: real)
    requires q != 0.0 && q * s == q * t
    ensures s == t
  {
    assert q * (s - t) == 0.0;
  }

  /** A right output value under the right sum comes from the right exponential. */
  lemma ValueFromCell(e: real -> real, value: real, x: real, m: real, g: real, total: real, sum: real)
    requires IsExp(e) && 0.0 < total && sum == total * Exp(e, -g)
    requires NormalizeCell(value, Exp(e, m - g), sum) == Quotient(Exp(e, x), total)
    ensures value == Exp(e, x - m)
  {
    var f := Exp(e, m - g);
    OutputCell(e, x, m, g, total, sum);
    assert Positive(e, -g) && Positive(e, m - g);
    PositiveProduct(total, Exp(e, -g));
    DivideMultiply(value * f, sum);
    DivideMultiply(Exp(e, x - m) * f, sum);
    CancelNonZero(value, Exp(e, x - m), f);
  }

  lemma {:induction false} GlobalSumUpdate(e: real -> real, stats: seq<SliceStats>, g: real, i: nat, s: SliceStats)
    requires i < |stats|
    ensures GlobalSum(e, stats[i := s], g) ==
      GlobalSum(e, stats, g) - AdjustedSum(e, stats[i], g) + AdjustedSum(e, s, g)
  {
    if i == 0 {
      assert stats[0 := s][1..] == stats[1..];
    } else {
      GlobalSumUpdate(e, stats[1..], g, i - 1, s);
      assert stats[i := s][1..] == stats[1..][i - 1 := s];
    }
  }

  /** All slices but slice `i` are the job's own, from CPU workers. */
  ghost predicate AllButOne(e: real -> real, stats: seq<SliceStats>, slices: seq<seq<real>>, i: nat) {
    && i < |slices| == |stats|
    && (forall j :: 0 <= j < |slices| ==> slices[j] != [])
    && (forall j :: 0 <= j < |slices| && j != i ==> stats[j] == SoftmaxPartial(e, slices[j]))
  }

  /** If the outputs add up to the softmax, they are right slice by slice. */
  lemma RightPieces(e: real -> real, stats: seq<SliceStats>, slices: seq<seq<real>>, i: nat, g: real, sum: real)
    requires |stats| == |slices| && forall j :: 0 <= j < |slices| && j != i ==> |stats[j].expValues| == |slices[j]|
    requires NormalizeAll(e, stats, g, sum) == Softmax(e, Flatten(slices))
    ensures Normalized(e, stats, g, sum) == Shares(e, slices, Total(e, Flatten(slices)))
  {
    NormalizedFlatten(e, stats, g, sum);
    SharesFlatten(e, slices, Total(e, Flatten(slices)));
    SameFlattenSamePieces(Normalized(e, stats, g, sum), Shares(e, slices, Total(e, Flatten(slices))), i);
  }

  lemma SumFromSlice(e: real -> real, s: SliceStats, slice: seq<real>, g: real, total: real, sum: real)
    requires IsExp(e) && 0.0 < total && slice != [] && Fits(e, s, slice)
    requires NormalizeSlice(s.expValues, Exp(e, s.localMax - g), sum) == Divided(e, slice, total)
    ensures sum == total * Exp(e, -g)
  {
    var left, right := NormalizeSlice(s.expValues, Exp(e, s.localMax - g), sum), Divided(e, slice, total);
    assert left[0] == right[0];
    SumFromCell(e, slice[0], s.localMax, g, total, sum);
  }

  lemma ValuesFromSlice(e: real -> real, values: seq<real>, slice: seq<real>, m: real, g: real, total: real, sum: real)
    requires IsExp(e) && 0.0 < total && sum == total * Exp(e, -g)
    requires NormalizeSlice(values, Exp(e, m - g), sum) == Divided(e, slice, total)
    ensures values == Exps(e, slice, m)
  {
    var left, right := NormalizeSlice(values, Exp(e, m - g), sum), Divided(e, slice, total);
    assert |left| == |right|;
    forall k | 0 <= k < |slice| ensures values[k] == Exps(e, slice, m)[k] {
      assert left[k] == right[k];
      ValueFromCell(e, values[k], slice[k], m, g, total, sum);
    }
  }

  lemma WorkerFits(e: real -> real, slice: seq<real>)
    requires slice != []
    ensures Fits(e, SoftmaxPartial(e, slice), slice) && !SoftmaxPartial(e, slice).isNormalized
  {
  }

  /** With the job's own statistics in place of the foreign slice, all slices are described. */
  lemma OwnInstead(e: real -> real, stats: seq<SliceStats>, slices: seq<seq<real>>, i: nat)
    requires AllButOne(e, stats, slices, i)
    ensures Describes(e, stats[i := StatsAt(e, slices[i], stats[i].localMax)], slices)
  {
    forall j | 0 <= j < |slices| && j != i ensures Fits(e, stats[j], slices[j]) {
      WorkerFits(e, slices[j]);
    }
  }

  lemma {:induction false} SumFits(e: real -> real, stats: seq<SliceStats>, slices: seq<seq<real>>, i: nat, g: real)
    requires IsExp(e) && AllButOne(e, stats, slices, i)
    requires GlobalSum(e, stats, g) == ShiftedTotal(e, Flatten(slices), g)
    ensures stats[i].partialSum == Sum(Exps(e, slices[i], stats[i].localMax))
  {
    var own := StatsAt(e, slices[i], stats[i].localMax);
    OwnInstead(e, stats, slices, i);
    GlobalSumUpdate(e, stats, g, i, own);
    GlobalSumIsTotal(e, stats[i := own], slices, g);
    SumFromAdjusted(e, stats[i], own, g);
  }

  lemma SumFromAdjusted(e: real -> real, s: SliceStats, own: SliceStats, g: real)
    requires IsExp(e) && s.localMax == own.localMax && AdjustedSum(e, s, g) == AdjustedSum(e, own, g)
    ensures s.partialSum == own.partialSum
  {
    assert Positive(e, s.localMax - g);
    CancelNonZero(s.partialSum, own.partialSum, Exp(e, s.localMax - g));
  }

  /** Each slice's part of a right result is right. */
  lemma RightSlice(e: real -> real, stats: seq<SliceStats>, slices: seq<seq<real>>, i: nat, g: real, sum: real, j: nat)
    requires AllButOne(e, stats, slices, i) && j < |slices|
    requires NormalizeAll(e, stats, g, sum) == Softmax(e, Flatten(slices))
    ensures NormalizeSlice(stats[j].expValues, Exp(e, stats[j].localMax - g), sum) ==
      Divided(e, slices[j], Total(e, Flatten(slices)))
  {
    RightPieces(e, stats, slices, i, g, sum);
    assert Normalized(e, stats, g, sum)[j] == Shares(e, slices, Total(e, Flatten(slices)))[j];
  }

  lemma TotalOfSlices(e: real -> real, slices: seq<seq<real>>)
    requires IsExp(e) && slices != [] && slices[0] != []
    ensures 0.0 < Total(e, Flatten(slices))
  {
    assert Flatten(slices) == slices[0] + Flatten(slices[1..]);
    TotalIsPositive(e, Flatten(slices));
  }

  /** Any of the job's own slices forces the sum. */
  lemma {:induction false} RightSum(e: real -> real, stats: seq<SliceStats>, slices: seq<seq<real>>, i: nat, g: real,
                                    sum: real, o: nat)
    requires IsExp(e) && AllButOne(e, stats, slices, i) && o < |slices| && o != i
    requires NormalizeAll(e, stats, g, sum) == Softmax(e, Flatten(slices))
    ensures 0.0 < Total(e, Flatten(slices)) && sum == ShiftedTotal(e, Flatten(slices), g)
  {
    var s, slice, total := stats[o], slices[o], Total(e, Flatten(slices));
    assert slice != [] && slices[0] != [] && s == SoftmaxPartial(e, slice);
    TotalOfSlices(e, slices);
    RightSlice(e, stats, slices, i, g, sum, o);
    WorkerFits(e, slice);
    SumFromSlice(e, s, slice, g, total, sum);
  }

  /** Under that sum, the values of the foreign slice are those of the job's. */
  lemma {:induction false} RightValues(e: real -> real, stats: seq<SliceStats>, slices: seq<seq<real>>, i: nat,
                                       g: real, sum: real)
    requires IsExp(e) && AllButOne(e, stats, slices, i)
    requires 0.0 < Total(e, Flatten(slices)) && sum == ShiftedTotal(e, Flatten(slices), g)
    requires NormalizeAll(e, stats, g, sum) == Softmax(e, Flatten(slices))
    ensures stats[i].expValues == Exps(e, slices[i], stats[i].localMax)
  {
    RightSlice(e, stats, slices, i, g, sum, i);
    ValuesFromSlice(e, stats[i].expValues, slices[i], stats[i].localMax, g, Total(e, Flatten(slices)), sum);
  }

  /**
   From a right result, whichever shift is used, the sum and the values of the foreign slice are those of the
   job's.
   */
  lemma {:induction false} RightResultFits(e: real -> real, stats: seq<SliceStats>, slices: seq<seq<real>>, i: nat,
                                           g: real, sum: real)
    requires IsExp(e) && AllButOne(e, stats, slices, i) && 2 <= |slices|
    requires sum == GlobalSum(e, stats, g) && NormalizeAll(e, stats, g, sum) == Softmax(e, Flatten(slices))
    ensures Fits(e, stats[i], slices[i])
  {
    RightSum(e, stats, slices, i, g, sum, if i == 0 then 1 else 0);
    RightValues(e, stats, slices, i, g, sum);
    SumFits(e, stats, slices, i, g);
  }

  lemma RightConcatenation(e: real -> real, stats: seq<SliceStats>, slices: seq<seq<real>>, i: nat)
    requires |stats| == |slices| && forall j :: 0 <= j < |slices| && j != i ==> |stats[j].expValues| == |slices[j]|
    requires ConcatValues(stats) == Softmax(e, Flatten(slices))
    ensures ValuesOf(stats) == Shares(e, slices, Total(e, Flatten(slices)))
  {
    ConcatIsFlatten(stats);
    SharesFlatten(e, slices, Total(e, Flatten(slices)));
    SameFlattenSamePieces(ValuesOf(stats), Shares(e, slices, Total(e, Flatten(slices))), i);
  }

  lemma ShareBeforePartial(e: real -> real, stats: seq<SliceStats>, slices: seq<seq<real>>)
    requires IsExp(e) && AllButOne(e, stats, slices, 0) && 2 <= |slices| && stats[0].isNormalized
    ensures Aggregate(e, stats) != Softmax(e, Flatten(slices))
  {
    if Aggregate(e, stats) == Softmax(e, Flatten(slices)) {
      RightConcatenation(e, stats, slices, 0);
      var values, shares := ValuesOf(stats), Shares(e, slices, Total(e, Flatten(slices)));
      assert values[0] == shares[0];
      MixedModesAreWrong(e, stats, slices, 1);
    }
  }

  /**
   With slices of partial statistics otherwise, a foreign slice gives the softmax exactly if it describes the
   job's slice.
   */
  lemma PartialWithOneForeign(e: real -> real, stats: seq<SliceStats>, slices: seq<seq<real>>, i: nat)
    requires IsExp(e) && AllButOne(e, stats, slices, i) && 2 <= |slices|
    ensures Aggregate(e, stats) == Softmax(e, Flatten(slices)) <==>
            Fits(e, stats[i], slices[i]) && (i == 0 ==> !stats[i].isNormalized)
  {
    if i == 0 && stats[0].isNormalized {
      ShareBeforePartial(e, stats, slices);
    } else {
      if i != 0 { WorkerFits(e, slices[0]); }
      if Aggregate(e, stats) == Softmax(e, Flatten(slices)) {
        var g := MaxOf(LocalMaxes(stats));
        RightResultFits(e, stats, slices, i, g, GlobalSum(e, stats, g));
      } else if Fits(e, stats[i], slices[i]) {
        OwnInstead(e, stats, slices, i);
        AggregateIsSoftmax(e, stats, slices);
      }
    }
  }

  // ----- The same among ranks' shares

  ghost predicate AllButOneShare(e: real -> real, stats: seq<SliceStats>, slices: seq<seq<real>>, i: nat) {
    && i < |slices| == |stats|
    && (forall j :: 0 <= j < |slices| ==> slices[j] != [])
    && (forall j :: 0 <= j < |slices| && j != i ==>
          stats[j] == NormalizedStats(Divided(e, slices[j], Total(e, Flatten(slices)))))
  }

  lemma {:induction false} SumOfShares(e: real -> real, stats: seq<SliceStats>, g: real)
    requires IsExp(e) && forall j :: 0 <= j < |stats| ==> stats[j].localMax == 0.0 && stats[j].partialSum == 1.0
    ensures 0.0 <= GlobalSum(e, stats, g)
    ensures stats != [] ==> Exp(e, -g) <= GlobalSum(e, stats, g)
  {
    if stats != [] {
      SumOfShares(e, stats[1..], g);
      assert 0.0 - g == -g;
      assert Positive(e, -g);
    }
  }

  /** A share recombined as if it were partial statistics is right only under the sum it had as a share. */
  lemma SumFromShare(share: real, f: real, sum: real)
    requires 0.0 < share && 0.0 < f
    requires NormalizeCell(share, f, sum) == share
    ensures sum == f
  {
    PositiveProduct(share, f);
    DivideMultiply(share * f, sum);
    CancelNonZero(sum, f, share);
  }

  lemma SumFromShares(e: real -> real, slice: seq<real>, g: real, total: real, sum: real)
    requires IsExp(e) && 0.0 < total && slice != []
    requires NormalizeSlice(Divided(e, slice, total), Exp(e, 0.0 - g), sum) == Divided(e, slice, total)
    ensures sum == Exp(e, -g)
  {
    var left, right := NormalizeSlice(Divided(e, slice, total), Exp(e, 0.0 - g), sum), Divided(e, slice, total);
    assert 0.0 - g == -g;
    assert Positive(e, slice[0]) && Positive(e, -g);
    PositiveQuotient(Exp(e, slice[0]), total);
    assert left[0] == right[0];
    SumFromShare(right[0], Exp(e, -g), sum);
  }

  lemma SumBeyondShares(e: real -> real, stats: seq<SliceStats>, g: real)
    requires IsExp(e) && 2 <= |stats| && 0.0 < stats[0].partialSum
    requires forall j :: 0 < j < |stats| ==> stats[j].localMax == 0.0 && stats[j].partialSum == 1.0
    ensures Exp(e, -g) < GlobalSum(e, stats, g)
  {
    SumOfShares(e, stats[1..], g);
    assert Positive(e, stats[0].localMax - g);
    PositiveProduct(stats[0].partialSum, Exp(e, stats[0].localMax - g));
  }

  /** Partial statistics of positive sum in front of shares are never right. */
  lemma {:induction false} PartialBeforeShares(e: real -> real, stats: seq<SliceStats>, slices: seq<seq<real>>, g: real)
    requires IsExp(e) && AllButOneShare(e, stats, slices, 0) && 2 <= |slices| && 0.0 < stats[0].partialSum
    ensures Recombine(e, stats, g) != Softmax(e, Flatten(slices))
  {
    var total, sum := Total(e, Flatten(slices)), GlobalSum(e, stats, g);
    SumBeyondShares(e, stats, g);
    TotalOfSlices(e, slices);
    if Recombine(e, stats, g) == Softmax(e, Flatten(slices)) {
      RightPieces(e, stats, slices, 0, g, sum);
      assert Normalized(e, stats, g, sum)[1] == Shares(e, slices, total)[1];
      SumFromShares(e, slices[1], g, total, sum);
    }
  }

  /**
   Among ranks' shares, a foreign slice gives the softmax exactly if it is the share itself and, when first,
   marked as one.
   */
  lemma SharesWithOneForeign(e: real -> real, stats: seq<SliceStats>, slices: seq<seq<real>>, i: nat)
    requires IsExp(e) && AllButOneShare(e, stats, slices, i) && 2 <= |slices| && 0.0 < stats[i].partialSum
    ensures Aggregate(e, stats) == Softmax(e, Flatten(slices)) <==>
            stats[i].expValues == Divided(e, slices[i], Total(e, Flatten(slices))) && (i == 0 ==> stats[i].isNormalized)
  {
    var total := Total(e, Flatten(slices));
    if !stats[0].isNormalized {
      PartialBeforeShares(e, stats, slices, MaxOf(LocalMaxes(stats)));
    } else if Aggregate(e, stats) == Softmax(e, Flatten(slices)) {
      RightConcatenation(e, stats, slices, i);
      assert ValuesOf(stats)[i] == Shares(e, slices, total)[i];
    } else if stats[i].expValues == Divided(e, slices[i], total) {
      SharesConcatenate(e, stats, slices, total);
    }
  }

  // ----- A run in which the slice left over is read, because the job's own worker is slow

  /** A run that submits `c` and then respects the rules. */
  ghost predicate Submits(e: real -> real, states: seq<State>, steps: seq<Step>, c: Call) {
    && IsRun(e, states, steps)
    && steps != [] && steps[0] == Submit(c.job, c.vector, c.slices, c.collective)
    && forall t :: 1 <= t < |steps| ==> RespectfulAt(e, states, steps, t)
  }

  function OwnWorker(e: real -> real, c: Call): Worker {
    if c.collective then Rank(0.0, AllReduceSum(e, c.slices, 0.0)) else Cpu
  }

  /** What there is to read for slice `j`, when `left` is left over for slice `i` and never replaced. */
  function ToRead(e: real -> real, c: Call, i: nat, left: SliceStats, j: nat): SliceStats
    requires j < |c.slices| && c.slices[j] != []
  {
    if j == i then left else WorkerStats(e, c.slices[j], OwnWorker(e, c))
  }

  function AllToRead(e: real -> real, c: Call, i: nat, left: SliceStats): (stats: seq<SliceStats>)
    requires forall j :: 0 <= j < |c.slices| ==> c.slices[j] != []
    ensures |stats| == |c.slices| && forall j :: 0 <= j < |stats| ==> stats[j] == ToRead(e, c, i, left, j)
  {
    seq(|c.slices|, j requires 0 <= j < |c.slices| => ToRead(e, c, i, left, j))
  }

  /** Of the submissions under the id of `c`, only the last one, which is `c` itself, has not ended. */
  ghost predicate Alone(s: State, n: nat, c: Call) {
    && |s.calls| == n + 1 && s.calls[n].slices == c.slices && s.calls[n].collective == c.collective
    && s.calls[n].job == c.job
    && forall m :: 0 <= m < n && s.calls[m].job == c.job ==> !Active(s.calls[m])
  }

  /**
   Submission `n`, which is `c`, has published `k` slices; those can be read, and so can slice `i`, if there is
   one.
   */
  ghost predicate Served(e: real -> real, s: State, n: nat, c: Call, k: nat, i: nat, left: SliceStats) {
    && Submittable(c) && i <= |c.slices| && k <= |c.slices|
    && Alone(s, n, c) && s.calls[n] == c.(published := k)
    && forall j :: 0 <= j < |c.slices| && (j < k || j == i) ==>
         ReadableAt(s.store, c.job, j) == Some(ToRead(e, c, i, left, j))
  }

  /** All slices are published, and the first `k` have been read. */
  ghost predicate ReadBack(e: real -> real, s: State, n: nat, c: Call, k: nat, i: nat, left: SliceStats) {
    && Submittable(c) && i <= |c.slices| && k <= |c.slices|
    && |s.calls| == n + 1 && s.calls[n] == c.(published := |c.slices|, seen := s.calls[n].seen)
    && (forall j :: 0 <= j < |c.slices| ==> ReadableAt(s.store, c.job, j) == Some(ToRead(e, c, i, left, j)))
    && (forall j :: 0 <= j < k ==> (j, ToRead(e, c, i, left, j)) in s.calls[n].seen)
  }

  lemma ExtendRespectfully(e: real -> real, states: seq<State>, steps: seq<Step>, step: Step, c: Call)
    returns (states': seq<State>, steps': seq<Step>)
    requires Submits(e, states, steps, c) && Respectful(e, states[|steps|], step)
    ensures Submits(e, states', steps', c)
    ensures states' == states + [Apply(e, states[|steps|], step)] && steps' == steps + [step]
  {
    states', steps' := Extend(e, states, steps, step);
    forall t | 1 <= t < |steps'| ensures RespectfulAt(e, states', steps', t) {
      assert t < |steps| ==> RespectfulAt(e, states, steps, t);
    }
  }

  lemma OwnWorkerInMode(e: real -> real, s: State, n: nat, c: Call, m: Message)
    requires Alone(s, n, c) && m.job == c.job
    ensures Respectful(e, s, Write(m, OwnWorker(e, c)))
  {
    forall k | 0 <= k < |s.calls| && s.calls[k].job == m.job && Current(s.calls, k)
      ensures InMode(e, s.calls[k], OwnWorker(e, c))
    {
      assert k < n ==> SameWork(s.calls[n], s.calls[k]);
    }
  }

  /** What a write does to the readable slices of the job. */
  lemma WriteMakesReadable(e: real -> real, s: State, c: Call, k: nat, worker: Worker)
    requires k < |c.slices| && c.slices[k] != [] && Message(c.job, k, c.slices[k]) in s.held
    ensures var s' := Apply(e, s, Write(Message(c.job, k, c.slices[k]), worker));
            && s'.calls == s.calls && ReadableAt(s'.store, c.job, k) == Some(WorkerStats(e, c.slices[k], worker))
            && forall j :: 0 <= j != k ==> ReadableAt(s'.store, c.job, j) == ReadableAt(s.store, c.job, j)
  {
    forall j: nat | j != k ensures SliceKey(c.job, j) != SliceKey(c.job, k) {
      if SliceKey(c.job, j) == SliceKey(c.job, k) { SliceKeyIsInjective(c.job, j, c.job, k); }
    }
  }

  /** Slice `k` is published and pulled; unless it is slice `i`, it is also computed. */
  lemma ServeNext(e: real -> real, states: seq<State>, steps: seq<Step>, c: Call, n: nat, k: nat, i: nat,
                  left: SliceStats)
    returns (states': seq<State>, steps': seq<Step>)
    requires Submits(e, states, steps, c)
    requires Served(e, states[|steps|], n, c, k, i, left) && k < |c.slices|
    ensures Submits(e, states', steps', c) && states'[0] == states[0]
    ensures Served(e, states'[|steps'|], n, c, k + 1, i, left)
  {
    var s, m := states[|steps|], Message(c.job, k, c.slices[k]);
    states', steps' := ExtendRespectfully(e, states, steps, Publish(n), c);
    var s1 := Apply(e, s, Publish(n));
    assert s1.queue == s.queue + [m] && s1.calls == s.calls[n := c.(published := k + 1)] && s1.store == s.store;
    states', steps' := ExtendRespectfully(e, states', steps', Pull(|s.queue|), c);
    var s2 := Apply(e, s1, Pull(|s.queue|));
    assert s2.calls == s1.calls && s2.store == s1.store && m in s2.held;
    if k != i {
      OwnWorkerInMode(e, s2, n, c, m);
      states', steps' := ExtendRespectfully(e, states', steps', Write(m, OwnWorker(e, c)), c);
      WriteMakesReadable(e, s2, c, k, OwnWorker(e, c));
    }
    var s' := states'[|steps'|];
    assert s'.calls == s1.calls && Alone(s', n, c);
    assert forall j :: 0 <= j < |c.slices| && j != k ==>
      ReadableAt(s'.store, c.job, j) == ReadableAt(s.store, c.job, j);
  }

  lemma ReadNext(e: real -> real, states: seq<State>, steps: seq<Step>, c: Call, n: nat, k: nat, i: nat,
                 left: SliceStats)
    returns (states': seq<State>, steps': seq<Step>)
    requires Submits(e, states, steps, c)
    requires ReadBack(e, states[|steps|], n, c, k, i, left) && k < |c.slices|
    ensures Submits(e, states', steps', c) && states'[0] == states[0]
    ensures ReadBack(e, states'[|steps'|], n, c, k + 1, i, left)
  {
    states', steps' := ExtendRespectfully(e, states, steps, Read(n, k), c);
  }

  lemma ServeAll(e: real -> real, states0: seq<State>, steps0: seq<Step>, c: Call, n: nat, i: nat, left: SliceStats)
    returns (states: seq<State>, steps: seq<Step>)
    requires Submits(e, states0, steps0, c) && Served(e, states0[|steps0|], n, c, 0, i, left)
    ensures Submits(e, states, steps, c) && states[0] == states0[0]
    ensures Served(e, states[|steps|], n, c, |c.slices|, i, left)
  {
    states, steps := states0, steps0;
    for k := 0 to |c.slices|
      invariant Submits(e, states, steps, c) && states[0] == states0[0]
      invariant Served(e, states[|steps|], n, c, k, i, left)
    {
      states, steps := ServeNext(e, states, steps, c, n, k, i, left);
    }
  }

  lemma ReadAll(e: real -> real, states0: seq<State>, steps0: seq<Step>, c: Call, n: nat, i: nat, left: SliceStats)
    returns (states: seq<State>, steps: seq<Step>)
    requires Submits(e, states0, steps0, c) && ReadBack(e, states0[|steps0|], n, c, 0, i, left)
    ensures Submits(e, states, steps, c) && states[0] == states0[0]
    ensures ReadBack(e, states[|steps|], n, c, |c.slices|, i, left)
  {
    states, steps := states0, steps0;
    for k := 0 to |c.slices|
      invariant Submits(e, states, steps, c) && states[0] == states0[0]
      invariant ReadBack(e, states[|steps|], n, c, k, i, left)
    {
      states, steps := ReadNext(e, states, steps, c, n, k, i, left);
    }
  }

  /** From there to the result, in which slice `i` is `left`. */
  lemma Finish(e: real -> real, states0: seq<State>, steps0: seq<Step>, c: Call, i: nat, left: SliceStats)
    returns (states: seq<State>, steps: seq<Step>)
    requires Submits(e, states0, steps0, c)
    requires Served(e, states0[|steps0|], |states0[0].calls|, c, 0, i, left)
    ensures Submits(e, states, steps, c) && states[0] == states0[0]
    ensures |states[|steps|].calls| == |states[0].calls| + 1
    ensures states[|steps|].calls[|states[0].calls|].outcome == Stored(Aggregate(e, AllToRead(e, c, i, left)))
  {
    var n, stats := |states0[0].calls|, AllToRead(e, c, i, left);
    states, steps := ServeAll(e, states0, steps0, c, n, i, left);
    states, steps := ReadAll(e, states, steps, c, n, i, left);
    assert Collected(states[|steps|].calls[n], stats);
    states, steps := ExtendRespectfully(e, states, steps, StoreResult(n, stats), c);
  }

  // ----- How the slice came to be there

  /** The submission `c` has just been made: nothing else has happened to it. */
  ghost predicate Made(s0: State, s: State, c: Call) {
    Submittable(c) && |s.calls| == |s0.calls| + 1 && s.calls[|s0.calls|] == c
  }

  lemma Make(e: real -> real, s: State, c: Call) returns (states: seq<State>, steps: seq<Step>)
    requires Submittable(c)
    ensures Submits(e, states, steps, c) && states[0] == s && Made(s, states[|steps|], c)
    ensures var s' := states[|steps|];
            && s'.calls == s.calls + [c] && s'.queue == s.queue && s'.held == s.held
            && forall i :: 0 <= i ==> ReadableAt(s'.store, c.job, i) == ReadableAt(s.store, c.job, i)
  {
    states, steps := Extend(e, [s], [], Submit(c.job, c.vector, c.slices, c.collective));
    forall i: nat ensures SliceKey(c.job, i) != MetadataKey(c.job) {
      SliceKeyIsNotMetadataKey(c.job, i, c.job);
    }
  }

  /** All other submissions under the id time out. */
  lemma GiveUpOthers(e: real -> real, states0: seq<State>, steps0: seq<Step>, c: Call)
    returns (states: seq<State>, steps: seq<Step>)
    requires Submits(e, states0, steps0, c) && Made(states0[0], states0[|steps0|], c)
    ensures Submits(e, states, steps, c) && states[0] == states0[0] && Made(states[0], states[|steps|], c)
    ensures Alone(states[|steps|], |states[0].calls|, c)
    ensures states[|steps|].store == states0[|steps0|].store && states[|steps|].held == states0[|steps0|].held
  {
    states, steps := states0, steps0;
    var n := |states[0].calls|;
    for k := 0 to n
      invariant Submits(e, states, steps, c) && states[0] == states0[0] && Made(states[0], states[|steps|], c)
      invariant forall m :: 0 <= m < k && states[|steps|].calls[m].job == c.job ==> !Active(states[|steps|].calls[m])
      invariant states[|steps|].store == states0[|steps0|].store && states[|steps|].held == states0[|steps0|].held
    {
      states, steps := ExtendRespectfully(e, states, steps, GiveUp(k), c);
    }
  }

  /** A slice left over stays where it is. */
  lemma LeaveSlice(e: real -> real, s: State, c: Call, i: nat, left: SliceStats)
    returns (states: seq<State>, steps: seq<Step>)
    requires Submittable(c) && i < |c.slices| && ReadableAt(s.store, c.job, i) == Some(left)
    ensures Submits(e, states, steps, c) && states[0] == s
    ensures Served(e, states[|steps|], |s.calls|, c, 0, i, left)
  {
    states, steps := Make(e, s, c);
    states, steps := GiveUpOthers(e, states, steps, c);
    assert c.(published := 0) == c;
  }

  /** A message some worker holds is worked on. */
  lemma WriteHeld(e: real -> real, states0: seq<State>, steps0: seq<Step>, c: Call, m: Message)
    returns (states: seq<State>, steps: seq<Step>)
    requires Submits(e, states0, steps0, c) && Made(states0[0], states0[|steps0|], c)
    requires m.job == c.job && m.sliceId < |c.slices| && m.data != [] && m in states0[|steps0|].held
    ensures Submits(e, states, steps, c) && states[0] == states0[0]
    ensures Served(e, states[|steps|], |states[0].calls|, c, 0, m.sliceId, WorkerStats(e, m.data, OwnWorker(e, c)))
  {
    states, steps := GiveUpOthers(e, states0, steps0, c);
    OwnWorkerInMode(e, states[|steps|], |states[0].calls|, c, m);
    states, steps := ExtendRespectfully(e, states, steps, Write(m, OwnWorker(e, c)), c);
    assert c.(published := 0) == c;
  }

  lemma PullQueued(e: real -> real, states0: seq<State>, steps0: seq<Step>, c: Call, k: nat)
    returns (states: seq<State>, steps: seq<Step>)
    requires Submits(e, states0, steps0, c) && Made(states0[0], states0[|steps0|], c) && k < |states0[|steps0|].queue|
    ensures Submits(e, states, steps, c) && states[0] == states0[0] && Made(states[0], states[|steps|], c)
    ensures states0[|steps0|].queue[k] in states[|steps|].held
  {
    states, steps := ExtendRespectfully(e, states0, steps0, Pull(k), c);
  }

  /** A message left over under the id is worked on after the submission. */
  lemma WriteLeftover(e: real -> real, s: State, c: Call, m: Message) returns (states: seq<State>, steps: seq<Step>)
    requires Submittable(c)
    requires m.job == c.job && m.sliceId < |c.slices| && m.data != [] && (m in s.queue || m in s.held)
    ensures Submits(e, states, steps, c) && states[0] == s
    ensures Served(e, states[|steps|], |s.calls|, c, 0, m.sliceId, WorkerStats(e, m.data, OwnWorker(e, c)))
  {
    states, steps := Make(e, s, c);
    if m !in s.held {
      var k :| 0 <= k < |s.queue| && s.queue[k] == m;
      states, steps := PullQueued(e, states, steps, c, k);
    }
    states, steps := WriteHeld(e, states, steps, c, m);
  }

  /** An earlier submission under the id publishes up to and including slice `i`. */
  lemma PublishUpTo(e: real -> real, s: State, c: Call, p: nat, i: nat) returns (states: seq<State>, steps: seq<Step>)
    requires Submittable(c) && p < |s.calls| && Active(s.calls[p]) && s.calls[p].published <= i < |s.calls[p].slices|
    ensures Submits(e, states, steps, c) && states[0] == s && Made(s, states[|steps|], c)
    ensures var q := states[|steps|].queue; q != [] && q[|q| - 1] == Message(s.calls[p].job, i, s.calls[p].slices[i])
  {
    var o := s.calls[p];
    states, steps := Make(e, s, c);
    assert states[|steps|].calls[p] == o.(published := o.published);
    for k := o.published to i
      invariant Submits(e, states, steps, c) && states[0] == s && Made(s, states[|steps|], c)
      invariant states[|steps|].calls[p] == o.(published := k)
    {
      states, steps := ExtendRespectfully(e, states, steps, Publish(p), c);
    }
    states, steps := ExtendRespectfully(e, states, steps, Publish(p), c);
  }

  /** What an earlier submission under the id had yet to publish is worked on after the submission. */
  lemma WritePublished(e: real -> real, s: State, c: Call, p: nat, i: nat)
    returns (states: seq<State>, steps: seq<Step>)
    requires Submittable(c) && p < |s.calls| && Active(s.calls[p]) && s.calls[p].published <= i < |s.calls[p].slices|
    requires s.calls[p].job == c.job && i < |c.slices| && s.calls[p].slices[i] != []
    ensures Submits(e, states, steps, c) && states[0] == s
    ensures Served(e, states[|steps|], |s.calls|, c, 0, i, WorkerStats(e, s.calls[p].slices[i], OwnWorker(e, c)))
  {
    states, steps := PublishUpTo(e, s, c, p, i);
    states, steps := PullQueued(e, states, steps, c, |states[|steps|].queue| - 1);
    states, steps := WriteHeld(e, states, steps, c, Message(c.job, i, s.calls[p].slices[i]));
  }

  // ----- When a submission is safe

  /** However the run goes on after the submission, if it stores a result, that is the softmax. */
  ghost predicate SafeToSubmit(e: real -> real, s: State, c: Call) {
    forall states, steps :: Submits(e, states, steps, c) && states[0] == s ==>
         StoresOnlySoftmax(e, states, steps, c, |s.calls|)
  }

  ghost predicate StoresOnlySoftmax(e: real -> real, states: seq<State>, steps: seq<Step>, c: Call, n: nat)
    requires |states| == |steps| + 1
  {
    n < |states[|steps|].calls| && states[|steps|].calls[n].outcome.Stored? ==>
      states[|steps|].calls[n].outcome.values == Softmax(e, c.vector)
  }

  /** An id that nothing active and nothing left over carries is clear, whatever was submitted under it before. */
  lemma UnusedIdIsClear(e: real -> real, s: State, c: Call)
    requires forall n :: 0 <= n < |s.calls| && Active(s.calls[n]) ==> s.calls[n].job != c.job
    requires (forall m :: m in s.queue ==> m.job != c.job) && (forall m :: m in s.held ==> m.job != c.job)
    requires forall i :: 0 <= i < |c.slices| ==> SliceKey(c.job, i) !in s.store
    ensures Clear(e, s, c)
  {
  }

  /** A submission can always be made and come to its end: from any state, some run stores the softmax of the vector. */
  lemma CanComplete(e: real -> real, s: State, c: Call) returns (states: seq<State>, steps: seq<Step>)
    requires IsExp(e) && Submittable(c)
    ensures Submits(e, states, steps, c) && states[0] == s && |states[|steps|].calls| == |s.calls| + 1
    ensures states[|steps|].calls[|s.calls|].outcome == Stored(Softmax(e, c.vector))
  {
    var none := WorkerStats(e, c.slices[0], Cpu);
    states, steps := Make(e, s, c);
    states, steps := GiveUpOthers(e, states, steps, c);
    assert c.(published := 0) == c;
    states, steps := Finish(e, states, steps, c, |c.slices|, none);
    var stats := AllToRead(e, c, |c.slices|, none);
    OwnResult(e, c, stats);
  }

  lemma OwnResult(e: real -> real, c: Call, stats: seq<SliceStats>)
    requires IsExp(e) && Submittable(c) && |stats| == |c.slices|
    requires forall j :: 0 <= j < |stats| ==> stats[j] == WorkerStats(e, c.slices[j], OwnWorker(e, c))
    ensures Aggregate(e, stats) == Softmax(e, c.vector)
  {
    if c.collective {
      forall j | 0 <= j < |c.slices| ensures stats[j].expValues == Divided(e, c.slices[j], Total(e, c.vector)) {
        OwnShare(e, c, j);
      }
      SharesConcatenate(e, stats, c.slices, Total(e, c.vector));
      assert stats[0].isNormalized;
    } else {
      AggregateIsSoftmax(e, stats, c.slices);
    }
  }

  /**
   Doing the same work again under an id is clear, whatever became of it before: it may be under way, have timed
   out, or be done.
   */
  lemma RetryIsClear(e: real -> real, s: State, n: nat)
    requires Inv(e, s) && n < |s.calls| && Undisputed(s.calls, n)
    ensures var c := s.calls[n]; Clear(e, s, NewCall(c.job, c.vector, c.slices, c.collective))
  {
    var o := s.calls[n];
    var c := NewCall(o.job, o.vector, o.slices, o.collective);
    assert JobOk(e, s, n);
    SameForMoved(e, s, o, c);
    forall m | 0 <= m < |s.calls| && Active(s.calls[m])
      ensures PublishesOk(e, s.calls[m], c) && PublishesOk(e, c, s.calls[m])
    {
      assert s.calls[m].job == c.job ==> SameWork(s.calls[m], o);
    }
  }

  /**
   Where whatever is left under an id belongs to it, a submission is safe, whatever it does to others under the
   id.
   */
  lemma ClearIsSafe(e: real -> real, s: State, c: Call)
    requires IsExp(e) && Submittable(c) && SafeFor(e, s, c)
    ensures SafeToSubmit(e, s, c)
  {
    forall states, steps | Submits(e, states, steps, c) && states[0] == s
      ensures StoresOnlySoftmax(e, states, steps, c, |s.calls|)
    {
      assert StepAt(e, states, steps, 0);
      SubmittedOk(e, s, c);
      JobRun(e, states, steps, |s.calls|, 1, |steps|);
      SubmittedStays(e, states, steps, c);
    }
  }

  lemma SubmittedStays(e: real -> real, states: seq<State>, steps: seq<Step>, c: Call)
    requires Submits(e, states, steps, c) && Submittable(c)
    ensures var n := |states[0].calls|;
            n < |states[|steps|].calls| && states[|steps|].calls[n].vector == c.vector
  {
    assert StepAt(e, states, steps, 0);
    KeptRun(e, states, steps, 1, |steps|);
  }

  /**
   A readable slice of the wrong length left over under the id makes some run go wrong, in either mode and for
   any slicing.
   */
  lemma WrongLengthIsUnsafe(e: real -> real, s: State, c: Call, i: nat)
    requires IsExp(e) && Submittable(c)
    requires i < |c.slices| && ReadableAt(s.store, c.job, i).Some?
    requires |ReadableAt(s.store, c.job, i).value.expValues| != |c.slices[i]|
    ensures !SafeToSubmit(e, s, c)
  {
    var left := ReadableAt(s.store, c.job, i).value;
    var states, steps := LeaveSlice(e, s, c, i, left);
    states, steps := Finish(e, states, steps, c, i, left);
    var stats := AllToRead(e, c, i, left);
    AggregateLength(e, stats);
    OneLengthDiffers(ValuesOf(stats), c.slices, i);
    assert !StoresOnlySoftmax(e, states, steps, c, |s.calls|);
  }

  lemma {:induction false} OneLengthDiffers(ss: seq<seq<real>>, tt: seq<seq<real>>, i: nat)
    requires |ss| == |tt| && i < |ss| && |ss[i]| != |tt[i]|
    requires forall j :: 0 <= j < |ss| && j != i ==> |ss[j]| == |tt[j]|
    ensures |Flatten(ss)| != |Flatten(tt)|
  {
    if i == 0 {
      SameLength(ss[1..], tt[1..]);
    } else {
      OneLengthDiffers(ss[1..], tt[1..], i - 1);
    }
  }

  lemma AggregateLength(e: real -> real, stats: seq<SliceStats>)
    ensures |Aggregate(e, stats)| == |Flatten(ValuesOf(stats))|
  {
    ConcatIsFlatten(stats);
    if stats != [] {
      var g := MaxOf(LocalMaxes(stats));
      NormalizedFlatten(e, stats, g, GlobalSum(e, stats, g));
      SameLength(Normalized(e, stats, g, GlobalSum(e, stats, g)), ValuesOf(stats));
    }
  }

  /**
   From any state: submitting is safe exactly if every readable slice left over describes the job's slice, and
   every message left over, or yet to be published by other submissions active under the id, carries it. In rank
   mode this is said of leftovers of positive sum, which is all that workers write.
   */
  lemma SafeExactlyIfLeftoversBelong(e: real -> real, s: State, c: Call)
    requires IsExp(e) && Submittable(c)
    requires c.collective ==> forall i :: 0 <= i < |c.slices| && ReadableAt(s.store, c.job, i).Some? ==>
               0.0 < ReadableAt(s.store, c.job, i).value.partialSum
    ensures SafeToSubmit(e, s, c) <==> SafeFor(e, s, c)
  {
    if !FramesOk(e, s.store, c) {
      var i :| 0 <= i < |c.slices| && ReadableAt(s.store, c.job, i).Some?
               && !DescribesSlice(e, ReadableAt(s.store, c.job, i).value, c, i);
      OtherSliceIsUnsafe(e, s, c, i);
    } else if !MessagesOk(e, s, c) {
      var m :| (m in s.queue || m in s.held) && !MessageOk(e, m, c);
      OtherMessageIsUnsafe(e, s, c, m);
    } else if p :| 0 <= p < |s.calls| && Active(s.calls[p]) && !PublishesOk(e, s.calls[p], c) {
      OtherPublishIsUnsafe(e, s, c, p);
    } else {
      ClearIsSafe(e, s, c);
    }
  }

  lemma OtherSliceIsUnsafe(e: real -> real, s: State, c: Call, i: nat)
    requires IsExp(e) && Submittable(c)
    requires i < |c.slices| && ReadableAt(s.store, c.job, i).Some?
    requires !DescribesSlice(e, ReadableAt(s.store, c.job, i).value, c, i)
    requires c.collective ==> 0.0 < ReadableAt(s.store, c.job, i).value.partialSum
    ensures !SafeToSubmit(e, s, c)
  {
    var left := ReadableAt(s.store, c.job, i).value;
    var states, steps := LeaveSlice(e, s, c, i, left);
    states, steps := Finish(e, states, steps, c, i, left);
    WrongWithLeftover(e, c, i, left);
    assert !StoresOnlySoftmax(e, states, steps, c, |s.calls|);
  }

  lemma OtherMessageIsUnsafe(e: real -> real, s: State, c: Call, m: Message)
    requires IsExp(e) && Submittable(c)
    requires (m in s.queue || m in s.held) && !MessageOk(e, m, c)
    ensures !SafeToSubmit(e, s, c)
  {
    var left := WorkerStats(e, m.data, OwnWorker(e, c));
    var states, steps := WriteLeftover(e, s, c, m);
    states, steps := Finish(e, states, steps, c, m.sliceId, left);
    OtherDataOtherStats(e, c, m);
    WrongWithLeftover(e, c, m.sliceId, left);
    assert !StoresOnlySoftmax(e, states, steps, c, |s.calls|);
  }

  lemma OtherPublishIsUnsafe(e: real -> real, s: State, c: Call, p: nat)
    requires IsExp(e) && Submittable(c)
    requires p < |s.calls| && Active(s.calls[p]) && !PublishesOk(e, s.calls[p], c)
    ensures !SafeToSubmit(e, s, c)
  {
    var o := s.calls[p];
    var i :| o.published <= i < |o.slices| && !MessageOk(e, Message(o.job, i, o.slices[i]), c);
    var left := WorkerStats(e, o.slices[i], OwnWorker(e, c));
    var states, steps := WritePublished(e, s, c, p, i);
    states, steps := Finish(e, states, steps, c, i, left);
    OtherDataOtherStats(e, c, Message(o.job, i, o.slices[i]));
    WrongWithLeftover(e, c, i, left);
    assert !StoresOnlySoftmax(e, states, steps, c, |s.calls|);
  }

  lemma DifferentExponentials(e: real -> real, x: real, y: real)
    requires IsExp(e) && x != y
    ensures Exp(e, x) != Exp(e, y)
  {
    assert Increases(e, x, y) && Increases(e, y, x);
  }

  lemma DifferentShares(e: real -> real, v: seq<real>, w: seq<real>, total: real)
    requires IsExp(e) && v != w && 0.0 < total
    ensures Divided(e, v, total) != Divided(e, w, total)
  {
    if |v| == |w| {
      var k :| 0 <= k < |v| && v[k] != w[k];
      DifferentExponentials(e, v[k], w[k]);
      DivideMultiply(Exp(e, v[k]), total);
      DivideMultiply(Exp(e, w[k]), total);
      assert Divided(e, v, total)[k] != Divided(e, w, total)[k];
    }
  }

  lemma DifferentExps(e: real -> real, v: seq<real>, w: seq<real>, m: real)
    requires IsExp(e) && v != w
    ensures Exps(e, v, m) != Exps(e, w, m)
  {
    if |v| == |w| {
      var k :| 0 <= k < |v| && v[k] != w[k];
      DifferentExponentials(e, v[k] - m, w[k] - m);
      assert Exps(e, v, m)[k] != Exps(e, w, m)[k];
    }
  }

  /** What a worker makes of other data does not describe the slice. */
  lemma OtherDataOtherStats(e: real -> real, c: Call, m: Message)
    requires IsExp(e) && Submittable(c) && m.job == c.job && m.sliceId < |c.slices| && m.data != []
    requires !MessageOk(e, m, c)
    ensures !DescribesSlice(e, WorkerStats(e, m.data, OwnWorker(e, c)), c, m.sliceId)
    ensures 0.0 < WorkerStats(e, m.data, OwnWorker(e, c)).partialSum
  {
    var s, slice := WorkerStats(e, m.data, OwnWorker(e, c)), c.slices[m.sliceId];
    if |c.slices| == 1 {
      assert c.slices == [slice];
      FlattenOne(slice);
    }
    if c.collective {
      AllReduceSumIsTotal(e, c.slices, 0.0);
      TotalIsPositive(e, c.vector);
      ReducedSlice(e, m.data, 0.0, Total(e, c.vector), AllReduceSum(e, c.slices, 0.0));
      DifferentShares(e, m.data, slice, Total(e, c.vector));
      ShareAlone(e, s, slice);
    } else {
      SumAtMaximum(e, m.data);
      if |c.slices| == 1 {
        OtherSoftmaxIsWrong(e, m.data, slice);
      } else {
        DifferentExps(e, m.data, slice, MaxOf(m.data));
      }
    }
  }

  lemma OtherSoftmaxIsWrong(e: real -> real, data: seq<real>, slice: seq<real>)
    requires IsExp(e) && data != [] && slice != [] && !Moved(data, slice)
    ensures !RightAlone(e, SoftmaxPartial(e, data), slice)
  {
    SameSoftmaxExactlyIfMoved(e, data, slice);
    FlattenOne(data);
    AggregateIsSoftmax(e, [SoftmaxPartial(e, data)], [data]);
    SingleSlice(e, SoftmaxPartial(e, data), slice);
  }

  lemma WrongWithLeftover(e: real -> real, c: Call, i: nat, left: SliceStats)
    requires IsExp(e) && Submittable(c) && i < |c.slices|
    requires !DescribesSlice(e, left, c, i)
    requires c.collective ==> 0.0 < left.partialSum
    ensures Aggregate(e, AllToRead(e, c, i, left)) != Softmax(e, c.vector)
  {
    var stats := AllToRead(e, c, i, left);
    if |c.slices| == 1 {
      assert stats == [left] && c.slices == [c.slices[0]];
      FlattenOne(c.slices[0]);
      SingleSlice(e, left, c.slices[0]);
    } else if c.collective {
      forall j | 0 <= j < |c.slices| && j != i
        ensures stats[j] == NormalizedStats(Divided(e, c.slices[j], Total(e, c.vector)))
      {
        OwnShare(e, c, j);
      }
      SharesWithOneForeign(e, stats, c.slices, i);
    } else {
      PartialWithOneForeign(e, stats, c.slices, i);
    }
  }

  lemma OwnShare(e: real -> real, c: Call, j: nat)
    requires IsExp(e) && Submittable(c) && c.collective && j < |c.slices|
    ensures WorkerStats(e, c.slices[j], OwnWorker(e, c)) == NormalizedStats(Divided(e, c.slices[j], Total(e, c.vector)))
  {
    AllReduceSumIsTotal(e, c.slices, 0.0);
    TotalIsPositive(e, c.vector);
    ReducedSlice(e, c.slices[j], 0.0, Total(e, c.vector), AllReduceSum(e, c.slices, 0.0));
  }
}
