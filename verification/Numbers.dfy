/** Arithmetic that several components share. */
module Numbers {

  // int() of a real: towards zero
  function Truncate(x: real): (r: int)
    ensures x >= 0.0 ==> r as real <= x < r as real + 1.0
    ensures x <= 0.0 ==> r as real - 1.0 < x <= r as real
  {
    if x >= 0.0 then x.Floor else -((-x).Floor)
  }

  function MaxReal(a: real, b: real): real { if a >= b then a else b }

  function MinReal(a: real, b: real): real { if a <= b then a else b }

  // The lower bound wins when the bounds are crossed.
  function Clamp(x: real, low: real, high: real): (r: real)
    ensures low <= high ==> low <= r <= high
    ensures low <= x <= high ==> r == x
    ensures x <= low || high <= low ==> r == low
    ensures low <= high <= x ==> r == high
  {
    MaxReal(low, MinReal(x, high))
  }

  function ClampInt(x: int, low: int, high: int): (r: int)
    ensures low <= high ==> low <= r <= high
    ensures low <= x <= high ==> r == x
    ensures x <= low || high <= low ==> r == low
    ensures low <= high <= x ==> r == high
  {
    var y := if x < high then x else high;
    if y > low then y else low
  }

  // `r` is x, or the limit that x is beyond.
  predicate Limited(x: real, low: real, high: real, r: real) {
    && (low <= x <= high ==> r == x)
    && (x < low ==> r == low)
    && (x > high ==> r == high)
  }

  // `r` is the whole number nearest to x between it and zero.
  predicate TowardsZero(x: real, r: int) {
    if x >= 0.0 then 0 <= r && r as real <= x < r as real + 1.0 else r <= 0 && r as real - 1.0 < x <= r as real
  }
}
