/** The launch speed for a given horizontal range (first_velocity). */
module Ballistics {
  import opened HostMath
  import opened RealFacts

  /** The value under the square root: range * G / (2 cos sin). */
  function Radicand(distance: real, g: real, cos: real, sin: real): real
    requires cos != 0.0 && sin != 0.0
  {
    distance * g / (2.0 * cos * sin)
  }

  /** first_velocity: zero when the cached cosine or sine is zero, otherwise
      the square root of range * G / (2 cos sin). */
  function FirstVelocity(distance: real, g: real, cos: real, sin: real, sqrt: real -> real): (v: real)
    requires IsSqrt(sqrt)
    ensures cos == 0.0 || sin == 0.0 ==> v == 0.0
    ensures cos != 0.0 && sin != 0.0 && 0.0 <= Radicand(distance, g, cos, sin) ==>
              0.0 <= v && v * v == Radicand(distance, g, cos, sin)
  {
    if cos != 0.0 && sin != 0.0 then sqrt(Radicand(distance, g, cos, sin)) else 0.0
  }

  /** For a launch angle strictly inside the first quadrant and positive
      gravity, the radicand has the sign of the range. */
  lemma RadicandSign(distance: real, g: real, cos: real, sin: real)
    requires 0.0 < g && 0.0 < cos && 0.0 < sin
    ensures 0.0 <= distance ==> 0.0 <= Radicand(distance, g, cos, sin)
    ensures 0.0 < distance ==> 0.0 < Radicand(distance, g, cos, sin)
    ensures distance == 0.0 ==> Radicand(distance, g, cos, sin) == 0.0
  {
  }

  /** The round trip of the derivation: a projectile launched at the
      returned speed travels exactly `distance`, 2 v^2 cos sin / G == distance. */
  lemma FirstVelocityReachesDistance(distance: real, g: real, cos: real, sin: real, sqrt: real -> real)
    requires IsSqrt(sqrt)
    requires 0.0 < g && 0.0 < cos && 0.0 < sin && 0.0 <= distance
    ensures var v := FirstVelocity(distance, g, cos, sin, sqrt);
            2.0 * v * v * cos * sin / g == distance
  {
  }

  /** The returned speed is positive for a positive range and zero for a zero range. */
  lemma FirstVelocitySign(distance: real, g: real, cos: real, sin: real, sqrt: real -> real)
    requires IsSqrt(sqrt)
    requires 0.0 < g && 0.0 < cos && 0.0 < sin && 0.0 <= distance
    ensures 0.0 < distance ==> 0.0 < FirstVelocity(distance, g, cos, sin, sqrt)
    ensures distance == 0.0 ==> FirstVelocity(distance, g, cos, sin, sqrt) == 0.0
  {
    var v := FirstVelocity(distance, g, cos, sin, sqrt);
    RadicandSign(distance, g, cos, sin);
    RootZero(v, Radicand(distance, g, cos, sin));
  }

  /** The returned speed is the only non-negative speed that reaches `distance`. */
  lemma FirstVelocityUnique(distance: real, g: real, cos: real, sin: real, sqrt: real -> real, w: real)
    requires IsSqrt(sqrt)
    requires 0.0 < g && 0.0 < cos && 0.0 < sin && 0.0 <= distance
    requires 0.0 <= w && 2.0 * w * w * cos * sin / g == distance
    ensures w == FirstVelocity(distance, g, cos, sin, sqrt)
  {
    var v := FirstVelocity(distance, g, cos, sin, sqrt);
    FirstVelocityReachesDistance(distance, g, cos, sin, sqrt);
    var k := 2.0 * cos * sin;
    ProductPositive(cos, sin);
    assert k == 2.0 * (cos * sin);
    assert w * w * k == v * v * k;
    assert w * w == v * v;
    SquareRootUnique(w, v);
  }
}
