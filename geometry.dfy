/** Positions and the horizontal distance between a ring and a pole
    (distance_ring_to_pole_XZ). */
module Geometry {
  import opened HostMath
  import opened RealFacts

  datatype Vec3 = Vec3(x: real, y: real, z: real)

  function Minus(a: Vec3, b: Vec3): Vec3
  {
    Vec3(a.x - b.x, a.y - b.y, a.z - b.z)
  }

  /** Squared Euclidean length of a vector. */
  function SqrMagnitude(v: Vec3): (m: real)
    ensures 0.0 <= m
  {
    v.x * v.x + v.y * v.y + v.z * v.z
  }

  /** Squared length of the displacement from ring to pole once its height
      component has been set to zero. */
  function HorizontalSqrDistance(ring: Vec3, pole: Vec3): (d2: real)
    ensures d2 == (pole.x - ring.x) * (pole.x - ring.x) + (pole.z - ring.z) * (pole.z - ring.z)
    ensures 0.0 <= d2
    ensures d2 == 0.0 <==> ring.x == pole.x && ring.z == pole.z
  {
    var v := Minus(pole, ring);
    var flat := v.(y := 0.0);
    var m := SqrMagnitude(flat);
    SumOfSquares(flat.x, flat.z);
    m
  }

  /** distance_ring_to_pole_XZ: the magnitude of the height-zeroed displacement. */
  function DistanceXZ(ring: Vec3, pole: Vec3, sqrt: real -> real): (d: real)
    requires IsSqrt(sqrt)
    ensures 0.0 <= d
    ensures d * d == HorizontalSqrDistance(ring, pole)
  {
    sqrt(HorizontalSqrDistance(ring, pole))
  }

  /** The distance is zero exactly when ring and pole coincide in the X-Z plane. */
  lemma DistanceZeroIff(ring: Vec3, pole: Vec3, sqrt: real -> real)
    requires IsSqrt(sqrt)
    ensures DistanceXZ(ring, pole, sqrt) == 0.0 <==> ring.x == pole.x && ring.z == pole.z
  {
    ZeroIffSame(DistanceXZ(ring, pole, sqrt), HorizontalSqrDistance(ring, pole), ring.x == pole.x && ring.z == pole.z);
  }

  /** The heights of ring and pole do not matter. */
  lemma DistanceIgnoresHeight(ring: Vec3, pole: Vec3, ringY: real, poleY: real, sqrt: real -> real)
    requires IsSqrt(sqrt)
    ensures DistanceXZ(ring.(y := ringY), pole.(y := poleY), sqrt) == DistanceXZ(ring, pole, sqrt)
  {
  }
}
