/** Scalar helpers with the semantics of the engine's `Mathf` functions that the
    controller calls, over exact reals. */
module Mathf {

  /** `Clamp(x, lo, hi)`: x limited to [lo, hi] (the lower bound is tested first). */
  function Clamp(x: real, lo: real, hi: real): (r: real)
    ensures lo <= hi ==> lo <= r <= hi
    ensures lo <= x <= hi ==> r == x
    ensures x < lo ==> r == lo
    ensures lo <= hi && x > hi ==> r == hi
  {
    if x < lo then lo else if x > hi then hi else x
  }

  /** `Clamp01(t)`: t limited to [0, 1]. */
  function Clamp01(t: real): (r: real)
    ensures 0.0 <= r <= 1.0
    ensures 0.0 <= t <= 1.0 ==> r == t
  {
    Clamp(t, 0.0, 1.0)
  }

  /** `Lerp(a, b, t)`: the engine clamps the parameter t to [0, 1] before
      interpolating, so the result always lies between a and b. */
  function Lerp(a: real, b: real, t: real): (r: real)
    ensures a <= b ==> a <= r <= b
    ensures t <= 0.0 ==> r == a
    ensures t >= 1.0 ==> r == b
  {
    var c := Clamp01(t);
    assert a <= b ==> 0.0 <= (b - a) * c <= (b - a) by {
      if a <= b {
        MulBetween(b - a, c);
      }
    }
    a + (b - a) * c
  }

  // Arithmetic step: a non-negative span times a parameter in [0, 1] stays within the span.
  lemma MulBetween(d: real, c: real)
    requires d >= 0.0 && 0.0 <= c <= 1.0
    ensures 0.0 <= d * c <= d
  {
    assert d * c <= d * 1.0;
  }

  function Min(a: real, b: real): (r: real)
    ensures r <= a && r <= b
    ensures r == a || r == b
  {
    if a <= b then a else b
  }
}
