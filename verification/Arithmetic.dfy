/** Facts about products and quotients of integers. */
module Arithmetic {

  lemma {:induction false} NextMultiple(x: int, q: int, b: int)
    requires b >= 0
    ensures x > q ==> x * b >= q * b + b
    decreases x - q
  {
    if x <= q {
    } else {
      NextMultiple(x - 1, q, b);
      assert x * b == (x - 1) * b + b;
    }
  }

  lemma {:induction false} ProductBounds(a: int, b: int, x: int, y: int)
    requires 0 <= a <= x && 0 <= b <= y
    ensures 0 <= a * b <= x * y
  {
    assert a * b <= x * b && x * b <= x * y;
  }

  lemma {:induction false} DivUnique(a: int, b: int, q: int, r: int)
    requires b > 0 && a == q * b + r && 0 <= r < b
    ensures a / b == q
  {
    assert a == (a / b) * b + a % b;
    NextMultiple(a / b, q, b);
    NextMultiple(q, a / b, b);
  }

  /** Taking one divisor away takes one from the quotient. */
  lemma {:induction false} QuotientStep(a: int, b: int)
    requires b > 0
    ensures a / b == (a - b) / b + 1
    ensures 0 <= a < b ==> a / b == 0
  {
    var q, r := (a - b) / b, (a - b) % b;
    assert a - b == q * b + r;
    assert (q + 1) * b == q * b + b;
    DivUnique(a, b, q + 1, r);
    if 0 <= a < b {
      DivUnique(a, b, 0, a);
    }
  }
}
