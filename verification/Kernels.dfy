/**
 The worker's CUDA kernels: tree reductions over a block's shared memory, with the threads of a
 block running in any order between two barriers, and the host code around them.
 */
module Kernels {
  import opened Exponential
  import opened Vectors
  import opened Aggregation
  import opened Slicing

  const BLOCK_SIZE := 256

  /** The value that fills up the last block of the max reduction, `-1e38f`. */
  const MAX_PAD := -100000000000000000000000000000000000000.0

  // ----- Reductions

  datatype Op = Add | Maximum

  function Combine(op: Op, x: real, y: real): real {
    match op
    case Add => x + y
    case Maximum => Max(x, y)
  }

  function Fold(op: Op, s: seq<real>): real
    requires s != []
  {
    if |s| == 1 then s[0] else Combine(op, s[0], Fold(op, s[1..]))
  }

  lemma {:induction false} FoldIsSum(s: seq<real>)
    requires s != []
    ensures Fold(Add, s) == Sum(s)
  {
    if |s| > 1 {
      FoldIsSum(s[1..]);
    }
  }

  lemma {:induction false} FoldIsMax(s: seq<real>)
    requires s != []
    ensures Fold(Maximum, s) == MaxOf(s)
  {
    if |s| > 1 {
      FoldIsMax(s[1..]);
    }
  }

  /** What one stride does to shared memory: the lower `s` cells absorb the `s` cells above them. */
  function Stride(op: Op, a: seq<real>, s: nat): (r: seq<real>)
    requires 2 * s <= |a|
    ensures |r| == |a|
    ensures forall k :: 0 <= k < |a| ==> r[k] == if k < s then Combine(op, a[k], a[k + s]) else a[k]
  {
    seq(|a|, k requires 0 <= k < |a| => if k < s then Combine(op, a[k], a[k + s]) else a[k])
  }

  lemma {:induction false} FoldConcat(op: Op, s: seq<real>, t: seq<real>)
    requires s != [] && t != []
    ensures Fold(op, s + t) == Combine(op, Fold(op, s), Fold(op, t))
  {
    if |s| == 1 {
      assert (s + t)[1..] == t;
    } else {
      FoldConcat(op, s[1..], t);
      assert (s + t)[1..] == s[1..] + t;
    }
  }

  lemma {:induction false} FoldPairwise(op: Op, s: seq<real>, t: seq<real>, r: seq<real>)
    requires 0 < |s| == |t| == |r|
    requires forall k :: 0 <= k < |r| ==> r[k] == Combine(op, s[k], t[k])
    ensures Fold(op, r) == Combine(op, Fold(op, s), Fold(op, t))
  {
    if |s| > 1 {
      FoldPairwise(op, s[1..], t[1..], r[1..]);
    }
  }

  /** A stride halves the range to reduce and keeps its reduction. */
  lemma StrideKeepsFold(op: Op, a: seq<real>, s: nat)
    requires 0 < s && 2 * s <= |a|
    ensures Fold(op, Stride(op, a, s)[..s]) == Fold(op, a[..2 * s])
  {
    assert a[..2 * s] == a[..s] + a[s..2 * s];
    FoldConcat(op, a[..s], a[s..2 * s]);
    FoldPairwise(op, a[..s], a[s..2 * s], Stride(op, a, s)[..s]);
  }

  // ----- One block

  /**
   An interleaving of the threads of each block, for each phase between two barriers. Every
   occurrence of a thread is its next memory access; a barrier is passed once every thread is through.
   */
  type Schedule = (nat, nat) -> seq<nat>

  ghost predicate Complete(steps: seq<nat>, threads: nat) {
    forall t :: 0 <= t < threads ==> 3 <= multiset(steps)[t]
  }

  lemma AllThreadsRun(steps: seq<nat>, threads: nat)
    requires Complete(steps, threads)
    ensures forall t :: 0 <= t < threads ==> t in steps[..|steps|]
  {
    assert steps[..|steps|] == steps;
    forall t | 0 <= t < threads ensures t in steps {
      assert 3 <= multiset(steps)[t];
    }
  }

  ghost predicate Fair(schedule: Schedule) {
    forall b, s :: Complete(schedule(b, s), s)
  }

  /** One thread after the other. */
  function InTurn(s: nat): seq<nat> {
    seq(3 * s, i requires 0 <= i < 3 * s => i / 3)
  }

  lemma OneMoreTurn(steps: seq<nat>, turn: nat, t: nat)
    ensures multiset(steps + [turn])[t] == multiset(steps)[t] + if t == turn then 1 else 0
  {
  }

  lemma ThreeTurns(before: seq<nat>, t: nat, after: seq<nat>)
    ensures 3 <= multiset(before + [t] + [t] + [t] + after)[t]
  {
    OneMoreTurn(before, t, t);
    OneMoreTurn(before + [t], t, t);
    OneMoreTurn(before + [t] + [t], t, t);
    var steps := before + [t] + [t] + [t];
    assert multiset(steps + after) == multiset(steps) + multiset(after);
  }

  lemma InTurnIsComplete(s: nat)
    ensures Complete(InTurn(s), s)
  {
    forall t: nat | t < s ensures 3 <= multiset(InTurn(s))[t] {
      var steps := InTurn(s);
      assert steps == steps[..3 * t] + [t] + [t] + [t] + steps[3 * t + 3..];
      ThreeTurns(steps[..3 * t], t, steps[3 * t + 3..]);
    }
  }

  /** Some schedule is fair. */
  lemma InTurnIsFair()
    ensures Fair((b, s) => InTurn(s))
  {
    forall s: nat ensures Complete(InTurn(s), s) {
      InTurnIsComplete(s);
    }
  }

  /** A thread between two barriers: how many of its three accesses are done, and its two registers. */
  datatype Lane = Lane(pc: nat, low: real, high: real)

  ghost predicate LaneOk(op: Op, was: seq<real>, s: nat, t: nat, lane: Lane, cell: real)
    requires t < s && 2 * s <= |was|
  {
    && lane.pc <= 3
    && (1 <= lane.pc ==> lane.low == was[t])
    && (2 <= lane.pc ==> lane.high == was[t + s])
    && cell == if lane.pc == 3 then Combine(op, was[t], was[t + s]) else was[t]
  }

  lemma OneMoreStep(steps: seq<nat>, i: nat)
    requires i < |steps|
    ensures forall t :: multiset(steps[..i + 1])[t] == multiset(steps[..i])[t] + if t == steps[i] then 1 else 0
  {
    assert steps[..i + 1] == steps[..i] + [steps[i]];
  }

  /**
   The threads `tid < s` each load two cells and store one, in any interleaving of the single
   accesses. All interleavings lead to the same shared memory.
   */
  method RunStride(op: Op, sdata: array<real>, s: nat, steps: seq<nat>)
    requires 2 * s <= sdata.Length
    requires Complete(steps, s)
    modifies sdata
    ensures sdata[..] == Stride(op, old(sdata[..]), s)
  {
    ghost var was := sdata[..];
    var lanes: seq<Lane> := seq(s, _ => Lane(0, 0.0, 0.0));
    for i := 0 to |steps|
      invariant |lanes| == s
      invariant forall t :: 0 <= t < s ==> LaneOk(op, was, s, t, lanes[t], sdata[t])
      invariant forall k :: s <= k < |was| ==> sdata[k] == was[k]
      invariant forall t :: 0 <= t < s ==> multiset(steps[..i])[t] <= lanes[t].pc || lanes[t].pc == 3
    {
      var tid := steps[i];
      OneMoreStep(steps, i);
      if tid < s {
        var lane := lanes[tid];
        assert LaneOk(op, was, s, tid, lane, sdata[tid]);
        if lane.pc == 0 {
          lane := lane.(pc := 1, low := sdata[tid]);
        } else if lane.pc == 1 {
          lane := lane.(pc := 2, high := sdata[tid + s]);
        } else if lane.pc == 2 {
          sdata[tid] := Combine(op, lane.low, lane.high);
          lane := lane.(pc := 3);
        }
        lanes := lanes[tid := lane];
        assert LaneOk(op, was, s, tid, lane, sdata[tid]);
      }
    }
    assert steps[..|steps|] == steps;
  }

  /** All strides of a block: cell 0 ends up holding the reduction of the loaded values. */
  method BlockReduce(op: Op, sdata: array<real>, block: nat, schedule: Schedule)
    requires sdata.Length == BLOCK_SIZE
    requires Fair(schedule)
    modifies sdata
    ensures sdata[0] == Fold(op, old(sdata[..]))
  {
    ghost var was := sdata[..];
    var s := BLOCK_SIZE / 2;
    ghost var width := BLOCK_SIZE;
    assert sdata[..width] == was;
    while s > 0
      invariant s in {0, 1, 2, 4, 8, 16, 32, 64, 128}
      invariant width == if s == 0 then 1 else 2 * s
      invariant Fold(op, sdata[..width]) == Fold(op, was)
    {
      ghost var before := sdata[..];
      assert Complete(schedule(block, s), s);
      RunStride(op, sdata, s, schedule(block, s));
      StrideKeepsFold(op, before, s);
      assert sdata[..s] == Stride(op, before, s)[..s];
      width := s;
      s := s / 2;
    }
  }

  // ----- Loading

  /** The part before the reduction: every thread stores its element's exponential and loads it into shared memory. */
  method ExpAndLoad(e: real -> real, data: seq<real>, expOut: array<real>, sdata: array<real>, globalMax: real,
                    block: nat, steps: seq<nat>)
    requires expOut.Length == |data| && sdata.Length == BLOCK_SIZE && expOut != sdata
    requires Complete(steps, BLOCK_SIZE)
    modifies expOut, sdata
    ensures forall k :: 0 <= k < |data| ==>
      expOut[k] == if block * BLOCK_SIZE <= k < block * BLOCK_SIZE + BLOCK_SIZE then Exp(e, data[k] - globalMax)
                  else old(expOut[k])
    ensures sdata[..] == Loaded(Exps(e, data, globalMax), block, 0.0)
  {
    var n, base := |data|, block * BLOCK_SIZE;
    ghost var loaded := Loaded(Exps(e, data, globalMax), block, 0.0);
    for i := 0 to |steps|
      invariant forall t :: 0 <= t < BLOCK_SIZE && t in steps[..i] ==> sdata[t] == loaded[t]
      invariant forall t :: 0 <= t < BLOCK_SIZE && t in steps[..i] && base + t < n ==> expOut[base + t] == loaded[t]
      invariant forall k :: 0 <= k < n && !(base <= k < base + BLOCK_SIZE) ==> expOut[k] == old(expOut[k])
    {
      var tid := steps[i];
      assert steps[..i + 1] == steps[..i] + [tid];
      if tid < BLOCK_SIZE {
        var k := base + tid;
        var val := 0.0;
        if k < n {
          val := Exp(e, data[k] - globalMax);
          expOut[k] := val;
        }
        sdata[tid] := val;
      }
    }
    AllThreadsRun(steps, BLOCK_SIZE);
    assert sdata[..] == loaded;
    forall k | base <= k < base + BLOCK_SIZE && k < n ensures expOut[k] == Exp(e, data[k] - globalMax) {
      assert expOut[base + (k - base)] == loaded[k - base];
    }
  }

  /** The values block `b` works on; threads past the end of the data contribute `pad`. */
  function Loaded(data: seq<real>, b: nat, pad: real): (r: seq<real>)
    ensures |r| == BLOCK_SIZE
    ensures forall t :: 0 <= t < BLOCK_SIZE ==>
      r[t] == if b * BLOCK_SIZE + t < |data| then data[b * BLOCK_SIZE + t] else pad
  {
    seq(BLOCK_SIZE, t requires 0 <= t < BLOCK_SIZE =>
      if b * BLOCK_SIZE + t < |data| then data[b * BLOCK_SIZE + t] else pad)
  }

  function NumBlocks(n: nat): nat {
    CeilDiv(n, BLOCK_SIZE)
  }

  function BlockResults(op: Op, data: seq<real>, pad: real): (r: seq<real>)
    ensures |r| == NumBlocks(|data|)
    ensures forall b :: 0 <= b < |r| ==> r[b] == Fold(op, Loaded(data, b, pad))
  {
    seq(NumBlocks(|data|), b requires 0 <= b < NumBlocks(|data|) => Fold(op, Loaded(data, b, pad)))
  }

  // ----- Kernels

  method BlockMaxKernel(data: seq<real>, blockMaxes: array<real>, block: nat, schedule: Schedule)
    requires block < blockMaxes.Length
    requires Fair(schedule)
    modifies blockMaxes
    ensures blockMaxes[..] == old(blockMaxes[..])[block := Fold(Maximum, Loaded(data, block, MAX_PAD))]
  {
    var n := |data|;
    var sdata := new real[BLOCK_SIZE];
    var steps := schedule(block, BLOCK_SIZE);
    assert Complete(steps, BLOCK_SIZE);
    for i := 0 to |steps|
      invariant blockMaxes[..] == old(blockMaxes[..])
      invariant forall t :: 0 <= t < BLOCK_SIZE && t in steps[..i] ==> sdata[t] == Loaded(data, block, MAX_PAD)[t]
    {
      var tid := steps[i];
      assert steps[..i + 1] == steps[..i] + [tid];
      if tid < BLOCK_SIZE {
        var k := block * BLOCK_SIZE + tid;
        sdata[tid] := if k < n then data[k] else MAX_PAD;
      }
    }
    AllThreadsRun(steps, BLOCK_SIZE);
    assert sdata[..] == Loaded(data, block, MAX_PAD);
    BlockReduce(Maximum, sdata, block, schedule);
    blockMaxes[block] := sdata[0];
  }

  method ExpAndBlockSumKernel(e: real -> real, data: seq<real>, expOut: array<real>, blockSums: array<real>,
                              globalMax: real, block: nat, schedule: Schedule)
    requires expOut.Length == |data| && block < blockSums.Length && expOut != blockSums
    requires Fair(schedule)
    modifies expOut, blockSums
    ensures forall k :: 0 <= k < |data| ==>
      expOut[k] == if block * BLOCK_SIZE <= k < block * BLOCK_SIZE + BLOCK_SIZE then Exp(e, data[k] - globalMax)
                  else old(expOut[k])
    ensures blockSums[..] == old(blockSums[..])[block := Fold(Add, Loaded(Exps(e, data, globalMax), block, 0.0))]
  {
    var sdata := new real[BLOCK_SIZE];
    ExpAndLoad(e, data, expOut, sdata, globalMax, block, schedule(block, BLOCK_SIZE));
    BlockReduce(Add, sdata, block, schedule);
    blockSums[block] := sdata[0];
  }
}
