/** The worker's host code around the kernels: launches, the folds over block results, and the AllReduce variant. */
module GpuWorker {
  import opened Vectors
  import opened Aggregation
  import opened Kernels

  // ----- Block results add up to the result for the whole slice

  lemma BlockCount(n: nat)
    ensures NumBlocks(n) * BLOCK_SIZE < n + BLOCK_SIZE
    ensures n <= NumBlocks(n) * BLOCK_SIZE
    ensures n % BLOCK_SIZE == 0 <==> NumBlocks(n) * BLOCK_SIZE == n
  {
  }

  /** The shift the GPU worker uses: the slice's maximum, except that padding can push it up to the padding value. */
  function GpuMax(data: seq<real>): real
    requires data != []
  {
    if |data| % BLOCK_SIZE == 0 then MaxOf(data) else Max(MaxOf(data), MAX_PAD)
  }

  lemma MaxIs(s: seq<real>, m: real)
    requires m in s && forall k :: 0 <= k < |s| ==> s[k] <= m
    ensures MaxOf(s) == m
  {
  }

  lemma LoadedMax(data: seq<real>, b: nat)
    requires data != [] && b < NumBlocks(|data|)
    ensures Fold(Maximum, Loaded(data, b, MAX_PAD)) <= GpuMax(data)
    ensures forall t :: 0 <= t < BLOCK_SIZE ==> Loaded(data, b, MAX_PAD)[t] <= Fold(Maximum, Loaded(data, b, MAX_PAD))
  {
    var l := Loaded(data, b, MAX_PAD);
    FoldIsMax(l);
    BlockCount(|data|);
    forall t | 0 <= t < BLOCK_SIZE ensures l[t] <= GpuMax(data) {
      if |data| <= b * BLOCK_SIZE + t {
        assert |data| % BLOCK_SIZE != 0;
      }
    }
  }

  /** Folding the block maxima yields the worker's shift. */
  lemma BlockMaximaFold(data: seq<real>)
    requires data != []
    ensures BlockResults(Maximum, data, MAX_PAD) != []
    ensures MaxOf(BlockResults(Maximum, data, MAX_PAD)) == GpuMax(data)
  {
    BlockCount(|data|);
    var r := BlockResults(Maximum, data, MAX_PAD);
    forall b | 0 <= b < |r| ensures r[b] <= GpuMax(data) {
      LoadedMax(data, b);
    }
    if |data| % BLOCK_SIZE != 0 && MaxOf(data) < MAX_PAD {
      LoadedMax(data, |r| - 1);
      assert Loaded(data, |r| - 1, MAX_PAD)[BLOCK_SIZE - 1] == MAX_PAD;
      assert r[|r| - 1] == GpuMax(data);
    } else {
      var k :| 0 <= k < |data| && data[k] == MaxOf(data);
      var b, t := k / BLOCK_SIZE, k % BLOCK_SIZE;
      LoadedMax(data, b);
      assert Loaded(data, b, MAX_PAD)[t] == data[k];
      assert r[b] == GpuMax(data);
    }
    MaxIs(r, GpuMax(data));
  }

  /** The shift is the true maximum exactly when there is no padding or it is outranked by some element. */
  lemma GpuMaxIsMaximum(data: seq<real>)
    requires data != []
    ensures GpuMax(data) == MaxOf(data) <==>
      |data| % BLOCK_SIZE == 0 || exists k :: 0 <= k < |data| && MAX_PAD <= data[k]
  {
    var k :| 0 <= k < |data| && data[k] == MaxOf(data);
  }

  /**
   The maximum of a slice, or of the padding of its last block of 256 if that is larger: it is the slice's maximum
   exactly if there is no padding or some element is at least -1e38, and otherwise -1e38.
   */
  ghost predicate PaddedMax(data: seq<real>, m: real)
    requires data != []
  {
    && (m == MaxOf(data) <==>
          |data| % 256 == 0
          || exists k :: 0 <= k < |data| && -100000000000000000000000000000000000000.0 <= data[k])
    && (m == MaxOf(data) || m == -100000000000000000000000000000000000000.0)
  }

  lemma GpuMaxIsPadded(data: seq<real>)
    requires data != []
    ensures PaddedMax(data, GpuMax(data))
  {
    GpuMaxIsMaximum(data);
  }

  lemma {:induction false} SumOfZeros(s: seq<real>)
    requires forall k :: 0 <= k < |s| ==> s[k] == 0.0
    ensures Sum(s) == 0.0
  {
    if s != [] {
      SumOfZeros(s[1..]);
    }
  }

  lemma LoadedSum(values: seq<real>, b: nat)
    requires b * BLOCK_SIZE <= |values|
    ensures var end := if (b + 1) * BLOCK_SIZE <= |values| then (b + 1) * BLOCK_SIZE else |values|;
            Fold(Add, Loaded(values, b, 0.0)) == Sum(values[b * BLOCK_SIZE..end])
  {
    var end := if (b + 1) * BLOCK_SIZE <= |values| then (b + 1) * BLOCK_SIZE else |values|;
    var l, part := Loaded(values, b, 0.0), values[b * BLOCK_SIZE..end];
    FoldIsSum(l);
    assert l == part + l[|part|..];
    SumConcat(part, l[|part|..]);
    SumOfZeros(l[|part|..]);
  }

  lemma {:induction false} BlockSumsUpTo(values: seq<real>, b: nat)
    requires b <= NumBlocks(|values|)
    ensures var end := if b * BLOCK_SIZE <= |values| then b * BLOCK_SIZE else |values|;
            Sum(BlockResults(Add, values, 0.0)[..b]) == Sum(values[..end])
  {
    var r := BlockResults(Add, values, 0.0);
    if b > 0 {
      BlockCount(|values|);
      BlockSumsUpTo(values, b - 1);
      LoadedSum(values, b - 1);
      var start, end := (b - 1) * BLOCK_SIZE, if b * BLOCK_SIZE <= |values| then b * BLOCK_SIZE else |values|;
      assert r[..b] == r[..b - 1] + [r[b - 1]];
      SumConcat(r[..b - 1], [r[b - 1]]);
      assert values[..end] == values[..start] + values[start..end];
      SumConcat(values[..start], values[start..end]);
    }
  }

  /** Folding the block sums yields the sum of the whole slice. */
  lemma BlockSumsFold(values: seq<real>)
    ensures Sum(BlockResults(Add, values, 0.0)) == Sum(values)
  {
    var r := BlockResults(Add, values, 0.0);
    BlockCount(|values|);
    BlockSumsUpTo(values, |r|);
    assert r[..|r|] == r && values[..|values|] == values;
  }

  // ----- Launches: the blocks of a grid run in any order

  ghost predicate CoversGrid(order: seq<nat>, blocks: nat) {
    && (forall i :: 0 <= i < |order| ==> order[i] < blocks)
    && (forall b :: 0 <= b < blocks ==> b in order)
  }

  method LaunchBlockMax(data: seq<real>, blockMaxes: array<real>, order: seq<nat>, schedule: Schedule)
    requires blockMaxes.Length == NumBlocks(|data|)
    requires CoversGrid(order, NumBlocks(|data|)) && Fair(schedule)
    modifies blockMaxes
    ensures blockMaxes[..] == BlockResults(Maximum, data, MAX_PAD)
  {
    for i := 0 to |order|
      invariant forall b :: 0 <= b < blockMaxes.Length && b in order[..i] ==>
        blockMaxes[b] == Fold(Maximum, Loaded(data, b, MAX_PAD))
    {
      ghost var before := blockMaxes[..];
      BlockMaxKernel(data, blockMaxes, order[i], schedule);
      assert order[..i + 1] == order[..i] + [order[i]];
      assert forall b :: 0 <= b < blockMaxes.Length && b != order[i] ==> blockMaxes[b] == before[b];
    }
    assert order[..|order|] == order;
  }

  method LaunchExp(e: real -> real, data: seq<real>, expOut: array<real>, blockSums: array<real>, globalMax: real,
                   order: seq<nat>, schedule: Schedule)
    requires expOut.Length == |data| && blockSums.Length == NumBlocks(|data|) && expOut != blockSums
    requires CoversGrid(order, NumBlocks(|data|)) && Fair(schedule)
    modifies expOut, blockSums
    ensures expOut[..] == Exps(e, data, globalMax)
    ensures blockSums[..] == BlockResults(Add, Exps(e, data, globalMax), 0.0)
  {
    ghost var exps := Exps(e, data, globalMax);
    for i := 0 to |order|
      invariant forall b :: 0 <= b < blockSums.Length && b in order[..i] ==>
        blockSums[b] == Fold(Add, Loaded(exps, b, 0.0))
      invariant forall k :: 0 <= k < |data| && k / BLOCK_SIZE in order[..i] ==> expOut[k] == exps[k]
    {
      ghost var before := blockSums[..];
      ExpAndBlockSumKernel(e, data, expOut, blockSums, globalMax, order[i], schedule);
      assert order[..i + 1] == order[..i] + [order[i]];
      assert forall b :: 0 <= b < blockSums.Length && b != order[i] ==> blockSums[b] == before[b];
      assert forall k :: 0 <= k < |data| && k / BLOCK_SIZE == order[i] ==>
          order[i] * BLOCK_SIZE <= k < order[i] * BLOCK_SIZE + BLOCK_SIZE;
    }
    assert order[..|order|] == order;
    forall k | 0 <= k < |data| ensures expOut[k] == exps[k] {
      assert k / BLOCK_SIZE < NumBlocks(|data|);
    }
  }

  /** A thread of a one-dimensional grid. */
  datatype Thread = Thread(block: nat, tid: nat)

  function GlobalIndex(th: Thread, blockDim: nat): nat {
    th.block * blockDim + th.tid
  }

  ghost predicate InGrid(th: Thread, blocks: nat, blockDim: nat) {
    th.block < blocks && th.tid < blockDim
  }

  /** With enough blocks, every element is the business of exactly one thread. */
  lemma ExactlyOneThread(n: nat, blocks: nat, blockDim: nat, k: nat)
    requires 0 < blockDim && n <= blocks * blockDim && k < n
    ensures InGrid(Thread(k / blockDim, k % blockDim), blocks, blockDim)
    ensures forall th :: InGrid(th, blocks, blockDim) ==>
      (GlobalIndex(th, blockDim) == k <==> th == Thread(k / blockDim, k % blockDim))
  {
    assert k == (k / blockDim) * blockDim + k % blockDim;
    QuotientBelow(k / blockDim, blocks, blockDim, k);
    forall th | InGrid(th, blocks, blockDim)
      ensures GlobalIndex(th, blockDim) == k <==> th == Thread(k / blockDim, k % blockDim)
    {
      UniqueQuotient(th.block, th.tid, k / blockDim, k % blockDim, blockDim);
    }
  }

  lemma QuotientBelow(q: nat, blocks: nat, d: nat, k: nat)
    requires q * d <= k < blocks * d
    ensures q < blocks
  {
    if blocks <= q {
      ProductOrder(blocks, q, d);
    }
  }

  lemma ProductOrder(p: nat, q: nat, d: nat)
    requires p <= q
    ensures p * d <= q * d
  {
  }

  lemma UniqueQuotient(b: nat, t: nat, b': nat, t': nat, d: nat)
    requires t < d && t' < d
    ensures b * d + t == b' * d + t' <==> b == b' && t == t'
  {
    if b < b' {
      ProductOrder(b + 1, b', d);
    } else if b' < b {
      ProductOrder(b' + 1, b, d);
    }
  }

  ghost predicate CoversThreads(order: seq<Thread>, blocks: nat, blockDim: nat) {
    && (forall i :: 0 <= i < |order| ==> InGrid(order[i], blocks, blockDim))
    && (forall th :: InGrid(th, blocks, blockDim) ==> th in order)
  }

  /** The one thread for element `k`, where it stands in the order of execution. */
  lemma TurnOf(order: seq<Thread>, n: nat, blocks: nat, blockDim: nat, k: nat) returns (j: nat)
    requires 0 < blockDim && n <= blocks * blockDim && k < n
    requires CoversThreads(order, blocks, blockDim)
    ensures j < |order| && GlobalIndex(order[j], blockDim) == k
  {
    ExactlyOneThread(n, blocks, blockDim, k);
    j :| 0 <= j < |order| && order[j] == Thread(k / blockDim, k % blockDim);
  }

  /** Every thread divides one element; the threads run in any order. */
  method LaunchNormalize(expVals: seq<real>, out: array<real>, globalSum: real, order: seq<Thread>)
    requires out.Length == |expVals|
    requires CoversThreads(order, NumBlocks(|expVals|), BLOCK_SIZE)
    modifies out
    ensures forall k :: 0 <= k < |expVals| ==> out[k] == Quotient(expVals[k], globalSum)
  {
    var n := |expVals|;
    for i := 0 to |order|
      invariant forall j :: 0 <= j < i && GlobalIndex(order[j], BLOCK_SIZE) < n ==>
        out[GlobalIndex(order[j], BLOCK_SIZE)] == Quotient(expVals[GlobalIndex(order[j], BLOCK_SIZE)], globalSum)
    {
      var k := GlobalIndex(order[i], BLOCK_SIZE);
      if k < n {
        out[k] := Quotient(expVals[k], globalSum);
      }
    }
    forall k | 0 <= k < n ensures out[k] == Quotient(expVals[k], globalSum) {
      BlockCount(n);
      var j := TurnOf(order, n, NumBlocks(n), BLOCK_SIZE, k);
    }
  }

  // ----- The worker's entry points

  /** The orders in which the launches for one slice run. */
  datatype Launch = Launch(blocks: seq<nat>, threads: Schedule)

  ghost predicate ValidLaunch(l: Launch, n: nat) {
    CoversGrid(l.blocks, NumBlocks(n)) && Fair(l.threads)
  }

  /** A slice of any length can be launched. */
  lemma SomeLaunch(n: nat) returns (l: Launch, threads: seq<Thread>)
    ensures ValidLaunch(l, n) && CoversThreads(threads, NumBlocks(n), BLOCK_SIZE)
  {
    InTurnIsFair();
    var blocks := seq(NumBlocks(n), b requires 0 <= b < NumBlocks(n) => b);
    forall b | 0 <= b < NumBlocks(n) ensures b in blocks {
      assert blocks[b] == b;
    }
    l := Launch(blocks, (b, s) => InTurn(s));
    threads := AllThreads(NumBlocks(n), BLOCK_SIZE);
  }

  lemma {:induction false} AllThreads(blocks: nat, blockDim: nat) returns (threads: seq<Thread>)
    ensures CoversThreads(threads, blocks, blockDim)
  {
    threads := [];
    for b := 0 to blocks
      invariant CoversThreads(threads, b, blockDim)
    {
      var row := seq(blockDim, t requires 0 <= t < blockDim => Thread(b, t));
      forall t | 0 <= t < blockDim ensures Thread(b, t) in row {
        assert row[t] == Thread(b, t);
      }
      forall th | InGrid(th, b + 1, blockDim) ensures th in threads + row {
        assert th.block < b ==> InGrid(th, b, blockDim);
        assert th.block == b ==> th == Thread(b, th.tid);
      }
      threads := threads + row;
    }
  }

  method HostMax(s: seq<real>) returns (m: real)
    requires s != []
    ensures m == MaxOf(s)
  {
    m := s[0];
    for i := 1 to |s|
      invariant m in s[..i]
      invariant forall k :: 0 <= k < i ==> s[k] <= m
    {
      m := Max(m, s[i]);
    }
    MaxIs(s, m);
  }

  method HostSum(s: seq<real>) returns (sum: real)
    ensures sum == Sum(s)
  {
    sum := 0.0;
    for i := 0 to |s|
      invariant sum == Sum(s[..i])
    {
      assert s[..i + 1] == s[..i] + [s[i]];
      SumConcat(s[..i], [s[i]]);
      sum := sum + s[i];
    }
    assert s[..|s|] == s;
  }

  /** Partial softmax on the device: the statistics relative to the worker's shift. */
  method PartialSoftmax(e: real -> real, data: seq<real>, pass1: Launch, pass2: Launch) returns (stats: SliceStats)
    requires data != []
    requires ValidLaunch(pass1, |data|) && ValidLaunch(pass2, |data|)
    ensures stats == StatsAt(e, data, stats.localMax)
    ensures PaddedMax(data, stats.localMax) && stats.localMax == GpuMax(data)
  {
    var nb := (|data| + BLOCK_SIZE - 1) / BLOCK_SIZE;
    var bmaxes := new real[nb];
    LaunchBlockMax(data, bmaxes, pass1.blocks, pass1.threads);
    BlockMaximaFold(data);
    var globalMax := HostMax(bmaxes[..]);

    var exps := new real[|data|];
    var bsums := new real[nb];
    LaunchExp(e, data, exps, bsums, globalMax, pass2.blocks, pass2.threads);
    var partialSum := HostSum(bsums[..]);
    BlockSumsFold(Exps(e, data, globalMax));
    GpuMaxIsPadded(data);
    return SliceStats(exps[..], globalMax, partialSum, false);
  }

  /**
   One rank's part of AllReduce softmax. `globalMax` and `globalSum` are what the two collectives
   return; `localMax` and `localSum` are what this rank contributes to them.
   */
  method AllReduceSoftmax(e: real -> real, data: seq<real>, globalMax: real, globalSum: real,
                          pass1: Launch, pass2: Launch, pass3: seq<Thread>)
    returns (localMax: real, localSum: real, probs: seq<real>)
    requires data != []
    requires ValidLaunch(pass1, |data|) && ValidLaunch(pass2, |data|)
    requires CoversThreads(pass3, NumBlocks(|data|), BLOCK_SIZE)
    ensures PaddedMax(data, localMax) && localMax == GpuMax(data)
    ensures localSum == Sum(Exps(e, data, globalMax))
    ensures probs == AllReduceSlice(e, data, globalMax, globalSum)
  {
    var nb := (|data| + BLOCK_SIZE - 1) / BLOCK_SIZE;
    var bmaxes := new real[nb];
    LaunchBlockMax(data, bmaxes, pass1.blocks, pass1.threads);
    BlockMaximaFold(data);
    localMax := HostMax(bmaxes[..]);

    var exps := new real[|data|];
    var bsums := new real[nb];
    LaunchExp(e, data, exps, bsums, globalMax, pass2.blocks, pass2.threads);
    localSum := HostSum(bsums[..]);
    BlockSumsFold(Exps(e, data, globalMax));

    GpuMaxIsPadded(data);
    var out := new real[|data|];
    LaunchNormalize(exps[..], out, globalSum, pass3);
    probs := out[..];
    assert probs == AllReduceSlice(e, data, globalMax, globalSum);
  }
}
