/** Numeric building blocks shared by the scroll-driven components: the
    JavaScript `Math` helpers the components call, the per-frame exponential
    smoothing step `v += (target - v) * k`, and two-decimal rounding. */
module Numeric {

  datatype Option<T> = None | Some(value: T)

  /** A distance that may still be `Infinity`, the starting value of the
      argmin searches. */
  datatype ExtReal = Finite(value: real) | Infinity {
    predicate Exceeds(d: real) {
      Infinity? || d < value
    }
  }

  datatype Vec3 = Vec3(x: real, y: real, z: real)

  const Origin: Vec3 := Vec3(0.0, 0.0, 0.0)

  /** Math.abs */
  function Abs(x: real): (r: real)
    ensures r >= 0.0
    ensures r == x || r == -x
  {
    if x < 0.0 then -x else x
  }

  /** Math.min */
  function Min(a: real, b: real): (r: real)
    ensures r <= a && r <= b
    ensures r == a || r == b
  {
    if a <= b then a else b
  }

  /** Math.max */
  function Max(a: real, b: real): (r: real)
    ensures r >= a && r >= b
    ensures r == a || r == b
  {
    if a >= b then a else b
  }

  /** `Math.max(lo, Math.min(hi, x))`, the clamp every component writes out. */
  function Clamp(x: real, lo: real, hi: real): (r: real)
    requires lo <= hi
    ensures lo <= r <= hi
    ensures lo <= x <= hi ==> r == x
    ensures x < lo ==> r == lo
    ensures x > hi ==> r == hi
  {
    Max(lo, Min(hi, x))
  }

  /** Linear interpolation `v + (target - v) * k`: MathUtils.lerp,
      Color.lerp, and one frame of the exponential smoothing
      `v += (target - v) * k` that every animated ref of the site uses. */
  function Lerp(v: real, target: real, k: real): real
  {
    v + (target - v) * k
  }

  /** A smoothing step lands between the old value and the target, and the
      remaining gap shrinks by exactly the factor (1 - k). */
  lemma LerpBetween(v: real, target: real, k: real)
    requires 0.0 <= k <= 1.0
    ensures Min(v, target) <= Lerp(v, target, k) <= Max(v, target)
    ensures target - Lerp(v, target, k) == (1.0 - k) * (target - v)
  {
    var g := target - v;
    assert Lerp(v, target, k) == v + g * k;
    assert target - Lerp(v, target, k) == g - g * k == (1.0 - k) * g;
    if g >= 0.0 {
      MulNonNegative(g, k);
      MulNonNegative(g, 1.0 - k);
    } else {
      MulNonNegative(-g, k);
      MulNonNegative(-g, 1.0 - k);
    }
  }

  lemma MulNonNegative(a: real, b: real)
    requires a >= 0.0 && b >= 0.0
    ensures a * b >= 0.0
  {
  }

  /** Any interval holding both the value and the target holds the smoothed
      value: the invariant every smoothed ref of the site keeps. */
  lemma LerpStaysIn(v: real, target: real, k: real, lo: real, hi: real)
    requires 0.0 <= k <= 1.0
    requires lo <= v <= hi && lo <= target <= hi
    ensures lo <= Lerp(v, target, k) <= hi
  {
    LerpBetween(v, target, k);
  }

  /** Each smoothing step closes exactly the fraction k of the distance to
      the target. */
  lemma LerpContracts(v: real, target: real, k: real)
    requires 0.0 <= k <= 1.0
    ensures Abs(target - Lerp(v, target, k)) == (1.0 - k) * Abs(target - v)
  {
    LerpBetween(v, target, k);
    if target - v >= 0.0 {
      MulNonNegative(1.0 - k, target - v);
    } else {
      MulNonNegative(1.0 - k, v - target);
    }
  }

  /** `Math.round(x * 100) / 100`, with Math.round(y) = floor(y + 1/2). */
  function Round2(x: real): real
  {
    ((x * 100.0 + 0.5).Floor as real) / 100.0
  }

  /** Rounding to two decimals moves a value by at most half a hundredth and
      keeps values of [0, 1] inside [0, 1]. */
  lemma Round2Close(x: real)
    ensures -0.005 < Round2(x) - x <= 0.005
    ensures 0.0 <= x <= 1.0 ==> 0.0 <= Round2(x) <= 1.0
  {
    var n := (x * 100.0 + 0.5).Floor;
    assert n as real <= x * 100.0 + 0.5 < n as real + 1.0;
    if 0.0 <= x <= 1.0 {
      assert 0 <= n <= 100;
    }
  }

  /** Component-wise linear interpolation (Vector3.lerpVectors). */
  function LerpVec(a: Vec3, b: Vec3, t: real): Vec3
  {
    Vec3(Lerp(a.x, b.x, t), Lerp(a.y, b.y, t), Lerp(a.z, b.z, t))
  }
}
