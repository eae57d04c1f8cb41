/** Numeric helpers shared by the scaler, the characterizer and the static
    oracle. Python floats are modelled as `real`. */
module Numerics {

  /** `max(lower, min(value, upper))`, the `_clamp` helper repeated in the
      scaler, the characterizer and the oracle policy. When `lower > upper`
      the result is `lower` for every value, as `max` then picks `lower`. */
  function Clamp(value: real, lower: real, upper: real): (r: real)
    ensures lower <= upper ==> lower <= r <= upper
    ensures lower <= value <= upper ==> r == value
    ensures value < lower ==> r == lower
    ensures lower <= upper && upper < value ==> r == upper
    ensures upper < lower ==> r == lower
  {
    if value < upper then (if value < lower then lower else value)
    else (if upper < lower then lower else upper)
  }

  /** `max(lower, min(value, upper))` on integers (`_clamp_int`). */
  function ClampInt(value: int, lower: int, upper: int): (r: int)
    ensures lower <= upper ==> lower <= r <= upper
    ensures lower <= value <= upper ==> r == value
    ensures value < lower ==> r == lower
    ensures lower <= upper && upper < value ==> r == upper
    ensures upper < lower ==> r == lower
  {
    MaxInt(lower, MinInt(value, upper))
  }

  function MinInt(a: int, b: int): int { if a <= b then a else b }

  function MaxInt(a: int, b: int): int { if a >= b then a else b }

  function MaxReal(a: real, b: real): real { if a >= b then a else b }

  function Abs(x: real): real { if x < 0.0 then -x else x }

  /** `math.ceil`: the least integer not below `x`. */
  function Ceil(x: real): (r: int)
    ensures x <= r as real < x + 1.0
  {
    var f := x.Floor;
    if f as real == x then f else f + 1
  }

  /** No integer lies strictly between `x` and `Ceil(x)`. */
  lemma CeilIsLeast(x: real, k: int)
    requires x <= k as real
    ensures Ceil(x) <= k
  {
  }

  // Order facts about real multiplication and division that the solver
  // does not find on its own.

  lemma MulMonotone(a: real, b: real, c: real)
    requires c >= 0.0 && a <= b
    ensures a * c <= b * c
  {
  }

  lemma MulStrictMonotone(a: real, b: real, c: real)
    requires c > 0.0 && a < b
    ensures a * c < b * c
  {
  }

  lemma MulCancel(a: real, b: real, c: real)
    requires c > 0.0 && a * c <= b * c
    ensures a <= b
  {
  }

  /** Dividing by a larger positive number gives a smaller quotient. */
  lemma DivAntitone(f: real, d1: real, d2: real)
    requires f >= 0.0 && 0.0 < d1 <= d2
    ensures f / d2 <= f / d1
  {
    var q1 := f / d1;
    var q2 := f / d2;
    assert q1 * d1 == f && q2 * d2 == f;
    assert q1 >= 0.0;
    MulMonotone(d1, d2, q1);
    assert q2 * d2 <= q1 * d2;
    MulCancel(q2, q1, d2);
  }

  /** Dividing a larger number by the same positive number gives a larger quotient. */
  lemma DivMonotone(a: real, b: real, d: real)
    requires d > 0.0 && a <= b
    ensures a / d <= b / d
  {
    assert (a / d) * d == a && (b / d) * d == b;
    MulCancel(a / d, b / d, d);
  }

  lemma MulDivCancel(a: real, d: real)
    requires d != 0.0
    ensures a * d / d == a
  {
  }
}
