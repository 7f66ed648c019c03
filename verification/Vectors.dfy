/** Sums, maxima and concatenations of real vectors. */
module Vectors {

  function Sum(s: seq<real>): real {
    if s == [] then 0.0 else s[0] + Sum(s[1..])
  }

  lemma {:induction false} SumConcat(s: seq<real>, t: seq<real>)
    ensures Sum(s + t) == Sum(s) + Sum(t)
  {
    if s == [] {
      assert s + t == t;
    } else {
      SumConcat(s[1..], t);
      assert (s + t)[1..] == s[1..] + t;
    }
  }

  /** A sum lies between the number of terms times a lower and an upper bound of the terms. */
  lemma {:induction false} SumBounds(s: seq<real>, lo: real, hi: real)
    requires forall k :: 0 <= k < |s| ==> lo <= s[k] <= hi
    ensures |s| as real * lo <= Sum(s) <= |s| as real * hi
  {
    if s != [] {
      SumBounds(s[1..], lo, hi);
      assert |s| as real * lo == lo + |s[1..]| as real * lo;
      assert |s| as real * hi == hi + |s[1..]| as real * hi;
    }
  }

  lemma {:induction false} SumOfUnitsBounds(s: seq<real>)
    requires forall k :: 0 <= k < |s| ==> 0.0 <= s[k] <= 1.0
    ensures 0.0 <= Sum(s) <= |s| as real
  {
    if s != [] {
      SumOfUnitsBounds(s[1..]);
    }
  }

  /** Any one non-negative term is at most the sum. */
  lemma {:induction false} TermAtMostSum(s: seq<real>, k: nat)
    requires k < |s|
    requires forall j :: 0 <= j < |s| ==> 0.0 <= s[j]
    ensures s[k] <= Sum(s)
  {
    if k == 0 {
      SumBounds(s[1..], 0.0, MaxOf(s));
    } else {
      TermAtMostSum(s[1..], k - 1);
    }
  }

  function Max(x: real, y: real): real {
    if x < y then y else x
  }

  function MaxOf(s: seq<real>): (m: real)
    requires s != []
    ensures m in s
    ensures forall k :: 0 <= k < |s| ==> s[k] <= m
  {
    if |s| == 1 then s[0] else Max(s[0], MaxOf(s[1..]))
  }

  /** The elements multiplied by `a`. */
  function Scale(s: seq<real>, a: real): (r: seq<real>)
    ensures |r| == |s|
    ensures forall k :: 0 <= k < |s| ==> r[k] == s[k] * a
  {
    seq(|s|, k requires 0 <= k < |s| => s[k] * a)
  }

  lemma ScaleTail(s: seq<real>, a: real)
    requires s != []
    ensures Scale(s, a)[1..] == Scale(s[1..], a)
  {
    var r, t := Scale(s, a)[1..], Scale(s[1..], a);
    forall k | 0 <= k < |r| ensures r[k] == t[k] {
      assert r[k] == s[k + 1] * a;
      assert t[k] == s[1..][k] * a;
    }
  }

  lemma {:induction false} SumScale(s: seq<real>, a: real)
    ensures Sum(Scale(s, a)) == Sum(s) * a
  {
    if s != [] {
      SumScale(s[1..], a);
      ScaleTail(s, a);
      assert (s[0] + Sum(s[1..])) * a == s[0] * a + Sum(s[1..]) * a;
    }
  }

  function Flatten<T>(ss: seq<seq<T>>): seq<T> {
    if ss == [] then [] else ss[0] + Flatten(ss[1..])
  }

  lemma FlattenOne<T>(s: seq<T>)
    ensures Flatten([s]) == s
  {
    assert Flatten([s]) == s + Flatten([]);
  }

  lemma {:induction false} FlattenConcat<T>(ss: seq<seq<T>>, tt: seq<seq<T>>)
    ensures Flatten(ss + tt) == Flatten(ss) + Flatten(tt)
  {
    if ss == [] {
      assert ss + tt == tt;
    } else {
      FlattenConcat(ss[1..], tt);
      assert (ss + tt)[1..] == ss[1..] + tt;
      assert ss[0] + (Flatten(ss[1..]) + Flatten(tt)) == (ss[0] + Flatten(ss[1..])) + Flatten(tt);
    }
  }

  /** Index in `Flatten(ss)` at which slice `i` begins. */
  function Offset<T>(ss: seq<seq<T>>, i: nat): nat
    requires i <= |ss|
  {
    if i == 0 then 0 else |ss[0]| + Offset(ss[1..], i - 1)
  }

  /** The elements of slice `i` stand, in order, from its offset on, and the next slice starts right behind them. */
  lemma {:induction false} FlattenAt<T>(ss: seq<seq<T>>, i: nat)
    requires i < |ss|
    ensures Offset(ss, i) + |ss[i]| == Offset(ss, i + 1) <= |Flatten(ss)|
    ensures Flatten(ss)[Offset(ss, i)..Offset(ss, i + 1)] == ss[i]
  {
    if i == 0 {
      assert Offset(ss[1..], 0) == 0;
    } else {
      FlattenAt(ss[1..], i - 1);
      var f, o, p := Flatten(ss[1..]), Offset(ss[1..], i - 1), Offset(ss[1..], i);
      assert Flatten(ss)[|ss[0]| + o..|ss[0]| + p] == f[o..p];
    }
  }
}
