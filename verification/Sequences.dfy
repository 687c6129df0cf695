/** Sums, counts and filters over sequences, the vocabulary of the specifications. */
module Sequences {

  function Sum(s: seq<int>): int {
    if s == [] then 0 else Sum(s[..|s| - 1]) + s[|s| - 1]
  }

  function Count(s: seq<nat>, x: nat): (c: nat)
    ensures c <= |s|
  {
    if s == [] then 0 else Count(s[..|s| - 1], x) + (if s[|s| - 1] == x then 1 else 0)
  }

  /** The sequence of `k` copies of `x`. */
  function Copies(x: nat, k: int): seq<nat> {
    seq(if k < 0 then 0 else k, _ => x)
  }

  function Min(a: int, b: int): int {
    if a <= b then a else b
  }

  function Max(a: int, b: int): int {
    if a >= b then a else b
  }

  predicate Within(s: seq<nat>, n: nat) {
    forall k :: 0 <= k < |s| ==> s[k] < n
  }

  /** weight[s[0]] + weight[s[1]] + ... */
  function SumOver(s: seq<nat>, weight: seq<int>): int
    requires Within(s, |weight|)
  {
    if s == [] then 0 else SumOver(s[..|s| - 1], weight) + weight[s[|s| - 1]]
  }

  lemma {:induction false} SumUpdate(s: seq<int>, i: nat, v: int)
    requires i < |s|
    ensures Sum(s[i := v]) == Sum(s) - s[i] + v
  {
    var n := |s| - 1;
    if i < n {
      SumUpdate(s[..n], i, v);
      assert s[i := v][..n] == s[..n][i := v];
    } else {
      assert s[i := v][..n] == s[..n];
    }
  }

  lemma {:induction false} SumAppend(s: seq<int>, x: int)
    ensures Sum(s + [x]) == Sum(s) + x
  {
    assert (s + [x])[..|s|] == s;
  }

  /** Pointwise order lifts to sums, and equal sums force equality. */
  lemma {:induction false} SumMonotone(a: seq<int>, b: seq<int>)
    requires |a| == |b| && forall i :: 0 <= i < |a| ==> a[i] <= b[i]
    ensures Sum(a) <= Sum(b)
    ensures Sum(a) == Sum(b) <==> a == b
  {
    if a == [] {
    } else {
      var n := |a| - 1;
      SumMonotone(a[..n], b[..n]);
      if Sum(a) == Sum(b) {
        assert a == a[..n] + [a[n]] && b == b[..n] + [b[n]];
      }
    }
  }

  lemma {:induction false} SumConstant(s: seq<int>, v: int)
    requires forall i :: 0 <= i < |s| ==> s[i] == v
    ensures Sum(s) == v * |s|
  {
    if s == [] {
    } else {
      SumConstant(s[..|s| - 1], v);
      assert v * |s| == v * (|s| - 1) + v;
    }
  }

  lemma {:induction false} SumBounds(s: seq<int>, lo: int, hi: int)
    requires forall i :: 0 <= i < |s| ==> lo <= s[i] <= hi
    ensures lo * |s| <= Sum(s) <= hi * |s|
  {
    if s == [] {
    } else {
      var n := |s| - 1;
      SumBounds(s[..n], lo, hi);
      assert lo * (n + 1) == lo * n + lo && hi * (n + 1) == hi * n + hi;
    }
  }

  lemma {:induction false} CountAppend(s: seq<nat>, y: nat, x: nat)
    ensures Count(s + [y], x) == Count(s, x) + (if x == y then 1 else 0)
  {
    assert (s + [y])[..|s|] == s;
  }

  lemma {:induction false} CountSplit(a: seq<nat>, b: seq<nat>, x: nat)
    ensures Count(a + b, x) == Count(a, x) + Count(b, x)
  {
    if b == [] {
      assert a + b == a;
    } else {
      CountSplit(a, b[..|b| - 1], x);
      assert (a + b)[..|a + b| - 1] == a + b[..|b| - 1];
    }
  }

  /** What `visits` visits to each index cost in total, index by index. */
  function CostByIndex(s: seq<nat>, weight: seq<int>): (r: seq<int>)
    ensures |r| == |weight|
    ensures forall i :: 0 <= i < |weight| ==> r[i] == weight[i] * Count(s, i)
  {
    seq(|weight|, i requires 0 <= i < |weight| => weight[i] * Count(s, i))
  }

  /** A weighted walk costs what its visit counts say, whatever its order. */
  lemma {:induction false} SumOverByCounts(s: seq<nat>, weight: seq<int>)
    requires Within(s, |weight|)
    ensures SumOver(s, weight) == Sum(CostByIndex(s, weight))
  {
    if s == [] {
      SumConstant(CostByIndex(s, weight), 0);
    } else {
      var front, x := s[..|s| - 1], s[|s| - 1];
      SumOverByCounts(front, weight);
      CostOfOneMore(front, x, weight);
      assert s == front + [x];
      SumUpdate(CostByIndex(front, weight), x, CostByIndex(front, weight)[x] + weight[x]);
    }
  }

  lemma {:induction false} CostOfOneMore(s: seq<nat>, x: nat, weight: seq<int>)
    requires x < |weight|
    ensures CostByIndex(s + [x], weight) == CostByIndex(s, weight)[x := CostByIndex(s, weight)[x] + weight[x]]
  {
    var before := CostByIndex(s, weight);
    forall i | 0 <= i < |weight|
      ensures CostByIndex(s + [x], weight)[i] == before[x := before[x] + weight[x]][i]
    {
      CountAppend(s, x, i);
      assert weight[i] * (Count(s, i) + 1) == weight[i] * Count(s, i) + weight[i];
    }
  }
}
