/** The memory leak with its limit (pkg/actions/allocate_memory_action.go). */
module Leak {
  import opened Arithmetic
  import opened Sequences

  newtype byte = x: int | 0 <= x < 256

  datatype Config = Config(sizeBytes: int, numAllocations: int, leak: bool, leakLimitBytes: int)

  /** How many of the blocks a call keeps: it stops before the first one it finds the limit exceeded at. */
  function Kept(limit: int, size: int, lengths: seq<int>): (n: nat)
    ensures n <= |lengths|
    decreases lengths
  {
    if lengths == [] || (limit > 0 && size > limit) then 0
    else 1 + Kept(limit, size + lengths[0], lengths[1..])
  }

  /** The limit is found exceeded before block i. */
  predicate Exceeded(limit: int, size: int, lengths: seq<int>, i: nat)
    requires i <= |lengths|
  {
    limit > 0 && size + Sum(lengths[..i]) > limit
  }

  /** For blocks of any lengths, kept are those before the first that finds the limit exceeded, or all. */
  lemma {:induction false} KeptIsFirstExceeding(limit: int, size: int, lengths: seq<int>)
    ensures var n := Kept(limit, size, lengths);
            && (n < |lengths| ==> Exceeded(limit, size, lengths, n))
            && forall i: nat :: i < n ==> !Exceeded(limit, size, lengths, i)
    decreases lengths
  {
    assert lengths[..0] == [];
    if lengths == [] || (limit > 0 && size > limit) {
    } else {
      var rest := lengths[1..];
      KeptIsFirstExceeding(limit, size + lengths[0], rest);
      forall i: nat | 0 < i <= |lengths|
        ensures Exceeded(limit, size, lengths, i) <==> Exceeded(limit, size + lengths[0], rest, i - 1)
      {
        assert lengths[..i] == [lengths[0]] + rest[..i - 1];
        SumPrepend(lengths[0], rest[..i - 1]);
      }
    }
  }

  function Lengths(data: seq<array<byte>>): (r: seq<int>)
    ensures |r| == |data| && forall i :: 0 <= i < |r| ==> r[i] == data[i].Length
  {
    seq(|data|, i requires 0 <= i < |data| => data[i].Length)
  }

  lemma {:induction false} KeepOneMore(limit: int, size: int, lengths: seq<int>, i: nat)
    requires i < |lengths| && !(limit > 0 && size > limit)
    ensures Kept(limit, size, lengths[i..]) == 1 + Kept(limit, size + lengths[i], lengths[i + 1..])
  {
    assert lengths[i..][1..] == lengths[i + 1..];
  }

  lemma {:induction false} LeakOneMore(data: seq<array<byte>>, d: array<byte>)
    ensures Sum(Lengths(data + [d])) == Sum(Lengths(data)) + d.Length
  {
    assert Lengths(data + [d]) == Lengths(data) + [d.Length];
    SumAppend(Lengths(data), d.Length);
  }

  /** After i blocks: what is stored, its recorded size, and what of the rest will still be kept. */
  ghost predicate Keeping(limit: int, stored: seq<array<byte>>, data: seq<array<byte>>, i: nat,
                          leaked: seq<array<byte>>, size: int) {
    && i <= |data| && leaked == stored + data[..i] && size == Sum(Lengths(leaked))
    && Kept(limit, Sum(Lengths(stored)), Lengths(data)) == i + Kept(limit, size, Lengths(data)[i..])
  }

  lemma {:induction false} NoneKept(limit: int, stored: seq<array<byte>>, data: seq<array<byte>>)
    ensures Keeping(limit, stored, data, 0, stored, Sum(Lengths(stored)))
  {
    assert Lengths(data)[0..] == Lengths(data) && stored + data[..0] == stored;
  }

  lemma {:induction false} OneKept(limit: int, stored: seq<array<byte>>, data: seq<array<byte>>, i: nat,
                                   leaked: seq<array<byte>>, size: int)
    requires i < |data| && Keeping(limit, stored, data, i, leaked, size) && !(limit > 0 && size > limit)
    ensures Keeping(limit, stored, data, i + 1, leaked + [data[i]], size + data[i].Length)
  {
    assert stored + data[..i + 1] == leaked + [data[i]];
    LeakOneMore(leaked, data[i]);
    KeepOneMore(limit, size, Lengths(data), i);
  }

  lemma {:induction false} AllKept(limit: int, stored: seq<array<byte>>, data: seq<array<byte>>, i: nat,
                                   leaked: seq<array<byte>>, size: int)
    requires Keeping(limit, stored, data, i, leaked, size) && (i == |data| || (limit > 0 && size > limit))
    ensures leaked == stored + data[..Kept(limit, Sum(Lengths(stored)), Lengths(data))]
    ensures size == Sum(Lengths(leaked))
    ensures limit > 0 ==> forall s :: NoLonger(data, s) ==> size <= Max(Sum(Lengths(stored)), limit + s)
  {
    EndsBounded(limit, stored, data);
  }

  predicate NoLonger(data: seq<array<byte>>, s: int) {
    forall i :: 0 <= i < |data| ==> data[i].Length <= s
  }

  lemma {:induction false} SumOfBoth(stored: seq<array<byte>>, more: seq<array<byte>>)
    ensures Sum(Lengths(stored + more)) == Sum(Lengths(stored)) + Sum(Lengths(more))
  {
    if more == [] {
      assert stored + more == stored;
    } else {
      var n := |more| - 1;
      SumOfBoth(stored, more[..n]);
      LeakOneMore(stored + more[..n], more[n]);
      LeakOneMore(more[..n], more[n]);
      assert stored + more == stored + more[..n] + [more[n]] && more == more[..n] + [more[n]];
    }
  }

  lemma {:induction false} EndsBounded(limit: int, stored: seq<array<byte>>, data: seq<array<byte>>)
    ensures var kept := data[..Kept(limit, Sum(Lengths(stored)), Lengths(data))];
            limit > 0 ==>
              forall s :: NoLonger(data, s) ==> Sum(Lengths(stored + kept)) <= Max(Sum(Lengths(stored)), limit + s)
  {
    var n := Kept(limit, Sum(Lengths(stored)), Lengths(data));
    SumOfBoth(stored, data[..n]);
    assert Lengths(data)[..n] == Lengths(data[..n]);
    if limit > 0 {
      forall s | NoLonger(data, s) ensures Sum(Lengths(stored + data[..n])) <= Max(Sum(Lengths(stored)), limit + s) {
        OvershootIsOneBlock(limit, Sum(Lengths(stored)), Lengths(data), s);
      }
    }
  }

  class AllocateMemory {
    var leakedData: seq<array<byte>>
    var leakedDataSize: int

    /** The recorded size is the real one. */
    ghost predicate Valid()
      reads this
    {
      leakedDataSize == Sum(Lengths(leakedData))
    }

    constructor ()
      ensures Valid() && leakedData == []
    {
      leakedData, leakedDataSize := [], 0;
    }

    method Leak(config: Config, data: seq<array<byte>>)
      requires Valid()
      modifies this
      ensures Valid()
      ensures leakedData == old(leakedData) +
                if config.leak then data[..Kept(config.leakLimitBytes, old(leakedDataSize), Lengths(data))] else []
      ensures config.leakLimitBytes > 0 ==>
                forall s :: NoLonger(data, s) ==> leakedDataSize <= Max(old(leakedDataSize), config.leakLimitBytes + s)
    {
      hide Kept, Lengths;
      if !config.leak {
        return;
      }
      ghost var stored, limit, n := leakedData, config.leakLimitBytes, 0;
      NoneKept(limit, stored, data);
      for i := 0 to |data|
        invariant n == i && Keeping(limit, stored, data, n, leakedData, leakedDataSize)
      {
        if config.leakLimitBytes > 0 && leakedDataSize > config.leakLimitBytes {
          break;
        }
        OneKept(limit, stored, data, n, leakedData, leakedDataSize);
        leakedDataSize, leakedData := leakedDataSize + data[i].Length, leakedData + [data[i]];
        n := n + 1;
      }
      AllKept(limit, stored, data, n, leakedData, leakedDataSize);
    }

    /** One action; `panicked` is Go's failure to make a slice of negative length. */
    method Execute(config: Config) returns (panicked: bool)
      requires Valid()
      modifies this
      ensures Valid()
      ensures panicked <==> config.sizeBytes < 0 < config.numAllocations
      ensures panicked ==> leakedData == old(leakedData)
      ensures !panicked ==>
                var kept := if config.leak && config.numAllocations > 0
                            then KeptOf(config.leakLimitBytes, old(leakedDataSize), config.sizeBytes, config.numAllocations)
                            else 0;
                && |leakedData| == |old(leakedData)| + kept
                && leakedData[..|old(leakedData)|] == old(leakedData)
                && forall i :: |old(leakedData)| <= i < |leakedData| ==>
                     leakedData[i].Length == config.sizeBytes && fresh(leakedData[i]) && Filled(leakedData[i][..])
      ensures config.leakLimitBytes > 0 && config.sizeBytes >= 0 ==>
                leakedDataSize <= Max(old(leakedDataSize), config.leakLimitBytes + config.sizeBytes)
    {
      hide Kept, Sum;
      var data;
      panicked, data := NewBlocks(config);
      if panicked {
        return;
      }
      UniformKept(config.leakLimitBytes, leakedDataSize, config.sizeBytes, Lengths(data));
      assert NoLonger(data, config.sizeBytes);
      Leak(config, data);
      return false;
    }
  }

  predicate Filled(block: seq<byte>) {
    forall j :: 0 <= j < |block| ==> block[j] == 1
  }

  /** The allocation loop; it panics at the first block of negative length. */
  method NewBlocks(config: Config) returns (panicked: bool, data: seq<array<byte>>)
    ensures panicked <==> config.sizeBytes < 0 < config.numAllocations
    ensures !panicked ==> |data| == Max(0, config.numAllocations) && (data == [] || config.sizeBytes >= 0)
    ensures forall k :: 0 <= k < |data| ==>
              data[k].Length == config.sizeBytes && fresh(data[k]) && Filled(data[k][..])
  {
    data := [];
    var i := 0;
    while i < config.numAllocations
      invariant |data| == i <= Max(0, config.numAllocations) && (i == 0 || config.sizeBytes >= 0)
      invariant forall k :: 0 <= k < |data| ==>
                  data[k].Length == config.sizeBytes && fresh(data[k]) && Filled(data[k][..])
      decreases config.numAllocations - i
    {
      if config.sizeBytes < 0 {
        return true, data;
      }
      var d := NewBlock(config.sizeBytes);
      data := data + [d];
      i := i + 1;
    }
    return false, data;
  }

  method NewBlock(sizeBytes: nat) returns (d: array<byte>)
    ensures fresh(d) && d.Length == sizeBytes && Filled(d[..])
  {
    d := new byte[sizeBytes](_ => 0);
    for j := 0 to sizeBytes
      invariant forall k :: 0 <= k < j ==> d[k] == 1
    {
      d[j] := 1;
    }
  }

  // ----- The limit

  /** What a call keeps of n blocks of s bytes: all without a limit, else until the limit is first exceeded. */
  function KeptOf(limit: int, size: int, s: int, n: nat): nat {
    if limit <= 0 then n
    else if size > limit then 0
    else if s <= 0 then n
    else Min(n, (limit - size) / s + 1)
  }

  lemma {:induction false} KeptOfStep(limit: int, size: int, s: int, n: nat)
    requires n >= 1 && s >= 0 && (limit > 0 ==> size <= limit)
    ensures KeptOf(limit, size, s, n) == 1 + KeptOf(limit, size + s, s, n - 1)
  {
    if limit > 0 && s > 0 {
      var q := (limit - size) / s;
      QuotientStep(limit - size, s);
      assert q == (limit - (size + s)) / s + 1;
    }
  }

  lemma {:induction false} UniformKept(limit: int, size: int, s: int, lengths: seq<int>)
    requires forall i :: 0 <= i < |lengths| ==> lengths[i] == s
    requires lengths == [] || s >= 0
    ensures Kept(limit, size, lengths) == KeptOf(limit, size, s, |lengths|)
    decreases lengths
  {
    if lengths == [] {
      NothingToKeep(limit, size, s);
    } else if limit <= 0 || size <= limit {
      UniformKept(limit, size + s, s, lengths[1..]);
      KeptOfStep(limit, size, s, |lengths|);
    }
  }

  lemma {:induction false} NothingToKeep(limit: int, size: int, s: int)
    ensures KeptOf(limit, size, s, 0) == 0
  {
  }

  /** With a limit L a call ends at no more than the larger of its start and L plus one block. */
  lemma {:induction false} OvershootIsOneBlock(limit: int, size: int, lengths: seq<int>, s: int)
    requires limit > 0 && forall i :: 0 <= i < |lengths| ==> lengths[i] <= s
    ensures size + Sum(lengths[..Kept(limit, size, lengths)]) <= Max(size, limit + s)
    decreases lengths
  {
    if lengths == [] || size > limit {
      assert lengths[..0] == [];
    } else {
      OvershootIsOneBlock(limit, size + lengths[0], lengths[1..], s);
      var n := Kept(limit, size + lengths[0], lengths[1..]);
      assert lengths[..n + 1] == [lengths[0]] + lengths[1..][..n];
      SumPrepend(lengths[0], lengths[1..][..n]);
    }
  }

  lemma {:induction false} SumPrepend(x: int, rest: seq<int>)
    ensures Sum([x] + rest) == x + Sum(rest)
  {
    if rest == [] {
      assert [x] + rest == [x] && [x][..0] == [];
    } else {
      SumPrepend(x, rest[..|rest| - 1]);
      assert ([x] + rest)[..|rest|] == [x] + rest[..|rest| - 1];
    }
  }

  /** Blocks kept after k calls of n blocks of s bytes each, from an empty store. */
  function KeptAfter(k: nat, n: nat, limit: int, s: int): nat {
    if k == 0 then 0 else
      var before := KeptAfter(k - 1, n, limit, s);
      before + KeptOf(limit, before * s, s, n)
  }

  /** The closed form: min(k n, L div S + 1) blocks, in whatever portions they are asked for. */
  lemma {:induction false} KeptAfterCalls(k: nat, n: nat, limit: int, s: int)
    requires limit > 0 && s > 0
    ensures KeptAfter(k, n, limit, s) == Min(k * n, limit / s + 1)
  {
    if k == 0 {
    } else {
      KeptAfterCalls(k - 1, n, limit, s);
      var before := KeptAfter(k - 1, n, limit, s);
      assert k * n == (k - 1) * n + n;
      RoomLeft(before, limit, s);
    }
  }

  predicate Uniform(data: seq<array<byte>>, s: int) {
    forall i :: 0 <= i < |data| ==> data[i].Length == s
  }

  /** A store that is full after `k` calls, as the next call finds it. */
  lemma {:induction false} NextCall(data: seq<array<byte>>, k: nat, n: nat, limit: int, s: int)
    requires Uniform(data, s) && |data| == KeptAfter(k, n, limit, s)
    ensures KeptAfter(k + 1, n, limit, s) == |data| + KeptOf(limit, Sum(Lengths(data)), s, n)
  {
    SumConstant(Lengths(data), s);
  }

  lemma {:induction false} UniformAppend(data: seq<array<byte>>, more: seq<array<byte>>, s: int)
    requires Uniform(data, s) && |data| <= |more| && more[..|data|] == data
    requires forall i :: |data| <= i < |more| ==> more[i].Length == s
    ensures Uniform(more, s)
  {
    forall i | 0 <= i < |more| ensures more[i].Length == s {
      assert i < |data| ==> more[i] == data[i];
    }
  }

  /**
   The same of the action itself: `k` executions with a limit leave exactly that many blocks in an empty store,
   all of the requested size, and never more than one block over the limit.
   */
  method ExecuteRepeatedly(a: AllocateMemory, config: Config, k: nat)
    requires a.Valid() && a.leakedData == []
    requires config.leak && config.leakLimitBytes > 0 && config.sizeBytes > 0 && config.numAllocations >= 0
    modifies a
    ensures a.Valid() && Uniform(a.leakedData, config.sizeBytes)
    ensures |a.leakedData| == Min(k * config.numAllocations, config.leakLimitBytes / config.sizeBytes + 1)
    ensures a.leakedDataSize <= config.leakLimitBytes + config.sizeBytes
  {
    ghost var s, n, limit := config.sizeBytes, config.numAllocations, config.leakLimitBytes;
    for i := 0 to k
      invariant a.Valid() && Uniform(a.leakedData, s) && a.leakedDataSize <= limit + s
      invariant |a.leakedData| == KeptAfter(i, n, limit, s)
    {
      ghost var before := a.leakedData;
      NextCall(before, i, n, limit, s);
      var panicked := a.Execute(config);
      assert a.leakedData[..|before|] == before;
      UniformAppend(before, a.leakedData, s);
    }
    KeptAfterCalls(k, n, limit, s);
  }

  lemma {:induction false} RoomLeft(before: nat, limit: int, s: int)
    requires limit > 0 && s > 0 && before <= limit / s + 1
    ensures before * s > limit <==> before == limit / s + 1
    ensures before * s <= limit ==> (limit - before * s) / s == limit / s - before
  {
    if before == 0 {
    } else {
      RoomLeft(before - 1, limit, s);
      assert before * s == (before - 1) * s + s;
      if before <= limit / s {
        QuotientStep(limit - (before - 1) * s, s);
      }
    }
  }
}
