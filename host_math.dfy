/** The engine numerics the launcher relies on but cannot see: Unity's
    Mathf.Sqrt, and Mathf.Cos / Mathf.Sin applied to a whole number of
    degrees. They are supplied as functions and only their defining
    properties are assumed. */
module HostMath {
  datatype MathLib = MathLib(sqrt: real -> real, cosDeg: int -> real, sinDeg: int -> real)

  /** `sqrt` is a square root on the non-negative reals. */
  ghost predicate IsSqrt(sqrt: real -> real)
  {
    forall x: real :: 0.0 <= x ==> 0.0 <= sqrt(x) && sqrt(x) * sqrt(x) == x
  }
}
