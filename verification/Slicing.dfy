/** How SubmitTask cuts the input vector. */
module Slicing {
  import opened Vectors

  // ----- One slice per rank

  /** Length of chunk `i` when `len` elements are dealt to `n` chunks: the first `len % n` chunks get one more. */
  function ChunkLength(len: nat, n: nat, i: nat): nat
    requires 0 < n
  {
    len / n + if i < len % n then 1 else 0
  }

  /** Start of chunk `i`. */
  function ChunkStart(len: nat, n: nat, i: nat): nat
    requires 0 < n
  {
    i * (len / n) + if i < len % n then i else len % n
  }

  lemma ChunkStartStep(len: nat, n: nat, i: nat)
    requires i < n
    ensures ChunkStart(len, n, 0) == 0
    ensures ChunkStart(len, n, i + 1) == ChunkStart(len, n, i) + ChunkLength(len, n, i)
    ensures ChunkStart(len, n, n) == len
  {
    var base := len / n;
    assert (i + 1) * base == i * base + base;
    assert len == n * base + len % n;
  }

  lemma {:induction false} ChunkStartMonotone(len: nat, n: nat, i: nat, j: nat)
    requires 0 < n && i <= j <= n
    ensures ChunkStart(len, n, i) <= ChunkStart(len, n, j) <= len
    decreases n - i
  {
    if i < n {
      ChunkStartStep(len, n, i);
      ChunkStartMonotone(len, n, i + 1, if i < j then j else i + 1);
    } else {
      ChunkStartStep(len, n, n - 1);
    }
  }

  /**
   Exactly `n` contiguous chunks; together they are the vector; their lengths differ by at most one,
   and none is empty when the vector has at least `n` elements.
   */
  method EvenChunks(data: seq<real>, n: nat) returns (out: seq<seq<real>>)
    requires 0 < n
    ensures |out| == n
    ensures Flatten(out) == data
    ensures forall i :: 0 <= i < n ==> |out[i]| == ChunkLength(|data|, n, i)
    ensures forall i, j :: 0 <= i < j < n ==> |out[j]| <= |out[i]| <= |out[j]| + 1
    ensures n <= |data| ==> forall i :: 0 <= i < n ==> out[i] != []
  {
    var len := |data|;
    var base := len / n;
    var rem := len % n;
    out := [];
    var start := 0;
    ChunkStartStep(len, n, 0);
    for i := 0 to n
      invariant |out| == i
      invariant start == ChunkStart(len, n, i) <= len
      invariant Flatten(out) == data[..start]
      invariant forall j :: 0 <= j < i ==> |out[j]| == ChunkLength(len, n, j)
    {
      var take := base + if i < rem then 1 else 0;
      ChunkStartStep(len, n, i);
      ChunkStartMonotone(len, n, i + 1, n);
      FlattenConcat(out, [data[start..start + take]]);
      assert Flatten([data[start..start + take]]) == data[start..start + take] + Flatten([]) ==
        data[start..start + take];
      out := out + [data[start..start + take]];
      start := start + take;
    }
    ChunkStartStep(len, n, n - 1);
    if n <= len {
      assert 1 <= base by { DivisionPositive(len, n); }
    }
  }

  lemma DivisionPositive(len: nat, n: nat)
    requires 0 < n <= len
    ensures 1 <= len / n
  {
  }

  // ----- At most NUM_SLICES slices

  function CeilDiv(a: nat, b: nat): nat
    requires 0 < b
  {
    (a + b - 1) / b
  }

  /** The standard library's `chunks`: pieces of `size` elements, the last one possibly shorter. */
  function Chunks(v: seq<real>, size: nat): seq<seq<real>>
    requires 0 < size
  {
    if v == [] then []
    else if |v| <= size then [v]
    else [v[..size]] + Chunks(v[size..], size)
  }

  lemma {:induction false} ChunksPartition(v: seq<real>, size: nat)
    requires 0 < size
    ensures Flatten(Chunks(v, size)) == v
    ensures |Chunks(v, size)| == CeilDiv(|v|, size)
    ensures forall i :: 0 <= i < |Chunks(v, size)| ==> 0 < |Chunks(v, size)[i]| <= size
    ensures forall i :: 0 <= i < |Chunks(v, size)| - 1 ==> |Chunks(v, size)[i]| == size
  {
    if v == [] {
      CeilDivAt(0, size, 0);
    } else if |v| <= size {
      CeilDivAt(|v|, size, 1);
      assert Flatten([v]) == v + Flatten([]) == v;
    } else {
      ChunksPartition(v[size..], size);
      CeilDivStep(|v|, size);
      assert v == v[..size] + v[size..];
    }
  }

  lemma {:induction false} MulOrder(d: nat, q: nat, b: nat)
    ensures d < q ==> d * b + b <= q * b
  {
    if d < q {
      MulOrder(d, q - 1, b);
      assert q * b == (q - 1) * b + b;
    }
  }

  lemma DivisionIs(x: nat, b: nat, q: nat)
    requires 0 < b && q * b <= x < q * b + b
    ensures x / b == q
  {
    var d := x / b;
    assert x == d * b + x % b;
    MulOrder(d, q, b);
    MulOrder(q, d, b);
  }

  lemma CeilDivAt(a: nat, b: nat, q: nat)
    requires 0 < b && q * b < a + b && a <= q * b
    ensures CeilDiv(a, b) == q
  {
    DivisionIs(a + b - 1, b, q);
  }

  lemma CeilDivBounds(a: nat, b: nat)
    requires 0 < b
    ensures a <= CeilDiv(a, b) * b < a + b
  {
    var x := a + b - 1;
    assert x == (x / b) * b + x % b;
  }

  lemma CeilDivStep(a: nat, b: nat)
    requires 0 < b <= a
    ensures CeilDiv(a, b) == CeilDiv(a - b, b) + 1
  {
    var q := CeilDiv(a - b, b);
    CeilDivBounds(a - b, b);
    assert (q + 1) * b == q * b + b;
    CeilDivAt(a, b, q + 1);
  }

  /** With slices of size `ceil(len / n)` there are at most `n` of them. */
  lemma AtMostNumSlices(len: nat, n: nat)
    requires 0 < len && 0 < n
    ensures 0 < CeilDiv(len, n)
    ensures 0 < CeilDiv(len, CeilDiv(len, n)) <= n
  {
    var size := CeilDiv(len, n);
    CeilDivBounds(len, n);
    MulOrder(0, size, n);
    var count := CeilDiv(len, size);
    CeilDivBounds(len, size);
    assert size * n == n * size;
    MulOrder(n, count, size);
  }

  // ----- The two together, as SubmitTask chooses between them

  datatype SliceResult = Slices(slices: seq<seq<real>>) | TooShort

  /** `slices` cuts `vector` into non-empty contiguous pieces, in order. */
  predicate IsPartition(slices: seq<seq<real>>, vector: seq<real>) {
    && Flatten(slices) == vector
    && forall i :: 0 <= i < |slices| ==> slices[i] != []
  }

  /**
   How SubmitTask cuts. With one slice per rank, lengths differ by at most one and the longer slices come first;
   otherwise all slices but the last have the same length, which is that of an even cut, rounded up.
   */
  ghost predicate CutFor(slices: seq<seq<real>>, vector: seq<real>, ncclDispatch: bool, worldSize: nat, numSlices: nat)
    requires 0 < worldSize && 0 < numSlices
  {
    && IsPartition(slices, vector)
    && if ncclDispatch then
         && |slices| == worldSize
         && forall i :: 0 <= i < worldSize ==>
              |slices[i]| == |vector| / worldSize + if i < |vector| % worldSize then 1 else 0
       else
         && 0 < |slices| <= numSlices
         && (forall i :: 0 <= i < |slices| - 1 ==> |slices[i]| == (|vector| + numSlices - 1) / numSlices)
         && |slices[|slices| - 1]| <= (|vector| + numSlices - 1) / numSlices
  }

  method SliceVector(vector: seq<real>, ncclDispatch: bool, worldSize: nat, numSlices: nat) returns (r: SliceResult)
    requires vector != [] && 0 < worldSize && 0 < numSlices
    ensures r.TooShort? <==> ncclDispatch && |vector| < worldSize
    ensures r.Slices? ==> CutFor(r.slices, vector, ncclDispatch, worldSize, numSlices)
  {
    AtMostNumSlices(|vector|, numSlices);
    if ncclDispatch {
      if |vector| < worldSize {
        return TooShort;
      }
      var slices := EvenChunks(vector, worldSize);
      return Slices(slices);
    } else {
      var sliceSize := (|vector| + numSlices - 1) / numSlices;
      ChunksPartition(vector, sliceSize);
      return Slices(Chunks(vector, sliceSize));
    }
  }
}
