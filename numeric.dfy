// Python's integer conversions as the compositor uses them: int() on a number
// truncates toward zero, and `a // 2` rounds down.

module Numeric {

  function Min(a: int, b: int): int { if a <= b then a else b }
  function Max(a: int, b: int): int { if a <= b then b else a }
  function MaxReal(a: real, b: real): real { if a <= b then b else a }

  /** Conversion of a number to an integer by truncation toward zero. */
  function Trunc(v: real): (n: int)
    ensures 0.0 <= v ==> n as real <= v < n as real + 1.0
    ensures v < 0.0 ==> n as real - 1.0 < v <= n as real
  {
    if v >= 0.0 then v.Floor else -((-v).Floor)
  }

  lemma TruncNegate(v: real)
    ensures Trunc(-v) == -Trunc(v)
  {
    if v > 0.0 {
      assert -v < 0.0;
    }
  }

  lemma TruncMonotone(v: real, w: real)
    requires v <= w
    ensures Trunc(v) <= Trunc(w)
  {
    if 0.0 <= v {
      assert Trunc(v) as real <= v <= w < Trunc(w) as real + 1.0;
    } else if w < 0.0 {
      assert Trunc(v) as real - 1.0 < v <= w <= Trunc(w) as real;
    }
  }

  lemma TruncOfInt(n: int)
    ensures Trunc(n as real) == n
  {
  }

  /** An integer n >= 0 scaled by a ratio of at least 1 still truncates to at least n. */
  lemma TruncOfStretch(n: int, ratio: real)
    requires 0 <= n && 1.0 <= ratio
    ensures Trunc(n as real * ratio) >= n
  {
    assert n as real <= n as real * ratio;
    TruncMonotone(n as real, n as real * ratio);
    TruncOfInt(n);
  }

  /** Floor division by 2, Python's `a // 2`. */
  function Half(a: int): (h: int)
    ensures 2 * h <= a < 2 * h + 2
  {
    a / 2
  }
}
