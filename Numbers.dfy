/** Integer helpers standing in for `Math.min`, `Math.max` and `Math.ceil(a / b)`. */
module Numbers {
  function Min(a: int, b: int): (m: int)
    ensures m <= a && m <= b && (m == a || m == b)
  {
    if a <= b then a else b
  }

  function Max(a: int, b: int): (m: int)
    ensures m >= a && m >= b && (m == a || m == b)
  {
    if a >= b then a else b
  }

  /** `Math.ceil(a / b)` for a positive divisor: the least `r` with `a <= r * b`. */
  function CeilDiv(a: int, b: int): (r: int)
    requires b > 0
    ensures (r - 1) * b < a <= r * b
  {
    var q := -((-a) / b);
    assert (-a) / b * b <= -a < ((-a) / b + 1) * b;
    q
  }

  /** Multiplying by a non-negative factor keeps the order. */
  lemma {:induction false} MulMonotone(a: int, b: int, m: nat)
    requires a <= b
    ensures a * m <= b * m
    decreases m
  {
    if m > 0 {
      MulMonotone(a, b, m - 1);
      assert a * m == a * (m - 1) + a && b * m == b * (m - 1) + b;
    }
  }

  /**
   * The number of pages is at least one exactly when there is something to
   * show, and more than one exactly when there is more than a page.
   */
  lemma CeilDivPositive(a: int, b: int)
    requires b > 0 && a >= 0
    ensures CeilDiv(a, b) >= 0
    ensures CeilDiv(a, b) >= 1 <==> a > 0
    ensures CeilDiv(a, b) > 1 <==> a > b
  {
    var r := CeilDiv(a, b);
    if r > 1 {
      assert (r - 1) * b >= b;
    }
    if a > b {
      assert r * b > b;
    }
  }
}
