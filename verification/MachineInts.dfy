/** Go's fixed-width integers where their wrap-around or truncation can be observed. */
module MachineInts {

  const MAX_INT64: int := 0x7FFF_FFFF_FFFF_FFFF
  const MIN_INT64: int := -0x8000_0000_0000_0000
  const TWO_64: int := 0x1_0000_0000_0000_0000

  type uint64 = x: int | 0 <= x < 0x1_0000_0000_0000_0000

  /** The int64 with the same low 64 bits. */
  function Wrap64(x: int): (r: int)
    ensures MIN_INT64 <= r <= MAX_INT64
    ensures MIN_INT64 <= x <= MAX_INT64 ==> r == x
  {
    (x - MIN_INT64) % TWO_64 + MIN_INT64
  }

  /** The uint64 with the same low 64 bits. */
  function WrapU64(x: int): (r: nat)
    ensures 0 <= r < TWO_64
    ensures 0 <= x < TWO_64 ==> r == x
  {
    x % TWO_64
  }

  lemma {:induction false} ModAddLeft(a: int, b: int)
    ensures (a % TWO_64 + b) % TWO_64 == (a + b) % TWO_64
  {
    var q := a / TWO_64;
    assert a == q * TWO_64 + a % TWO_64;
    ModShift(a % TWO_64 + b, q);
  }

  lemma {:induction false} ModShift(x: int, q: int)
    ensures (x + q * TWO_64) % TWO_64 == x % TWO_64
    decreases if q < 0 then -q else q
  {
    if q > 0 {
      ModShift(x, q - 1);
    } else if q < 0 {
      ModShift(x, q + 1);
    }
  }

  /** Wrapping partial sums and products is the same as wrapping the total. */
  lemma {:induction false} WrapSum(a: int, b: int)
    ensures Wrap64(Wrap64(a) + b) == Wrap64(a + b)
    ensures Wrap64(a + Wrap64(b)) == Wrap64(a + b)
  {
    ModAddLeft(a - MIN_INT64, b);
    ModAddLeft(b - MIN_INT64, a);
  }

  lemma {:induction false} WrapUSum(a: int, b: int)
    ensures WrapU64(WrapU64(a) + b) == WrapU64(a + b)
    ensures WrapU64(a - WrapU64(b)) == WrapU64(a - b)
  {
    ModAddLeft(a, b);
    ModShift(a - b % TWO_64, -(b / TWO_64));
    assert b == (b / TWO_64) * TWO_64 + b % TWO_64;
  }
}
