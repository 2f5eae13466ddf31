# Ring throwing scheduler

A Dafny model of `DirectScript`, the Unity behaviour of Ring_Throw_Unity that
throws rings at poles. Each fixed physics step adds the frame time to an
accumulator. Once the current wait has elapsed, the script throws the current
ring at the current pole. The launch speed comes from the horizontal
ring-to-pole distance, the current launch angle and gravity. The script then
moves on to the next pole and ring. After every pass over the four poles it
waits longer and raises the launch angle by 15 degrees, going 30, 45, 60 and
back to 30.

Modules:

- `Geometry` (geometry.dfy): `Vec3` and `DistanceXZ`, the length of the ring-to-pole
  displacement with its height set to zero (`distance_ring_to_pole_XZ`).
- `Ballistics` (ballistics.dfy): `FirstVelocity` (`first_velocity`), with the range
  equation 2 v² cos θ sin θ / G = distance proved for its result. The result is
  also proved to be the only non-negative speed that solves that equation.
- `Schedule` (schedule.dfy): the firing schedule as a pure state machine over the
  five fields `delta_time`, `interval_time`, `target_pole_index`,
  `target_ring_index` and `force_angle`. `Step` is one tick and `Run` is a
  sequence of ticks that records the launches in order. The lemmas give the
  closed form of the schedule (the i-th throw uses ring i mod 3, pole i mod 4
  and angle 30 + 15·((i div 4) mod 3)), the 7-second first wait and the
  period of twelve throws.
- `Launcher` (launcher.dfy): class `DirectScript` with the source's fields and
  `FixedUpdate`, written imperatively as in the source. It is proved to move its
  fields exactly as `Schedule.Step` says and to record each throw as a `Shot`.
  The class invariant says that the speed of every recorded shot carries it the
  ring-to-pole distance (its heading is not modelled).
- `HostMath` (host_math.dfy): the engine numerics, supplied as functions. These
  are `Mathf.Sqrt` (assumed to be a square root on the non-negative reals) and
  `Mathf.Cos`/`Mathf.Sin` of an angle in degrees (assumed positive at 30, 45 and
  60 degrees).
- `RealFacts` (real_facts.dfy): small lemmas of real arithmetic.

Inputs from the engine are parameters: the frame time `dt` and the positions of
the three rings and four poles passed to `FixedUpdate`, and the gravity passed to
the constructor. Time and coordinates are exact reals.

## Model

| member | source | states |
|---|---|---|
| `Geometry.HorizontalSqrDistance` | Assets/Script/DirectScript.cs:36-42 | the squared length of the height-zeroed displacement is (Δx)² + (Δz)², never negative, and zero exactly when x and z coincide |
| `Geometry.DistanceXZ` | Assets/Script/DirectScript.cs:36-42 | the distance is non-negative and its square is the squared horizontal displacement; y plays no part |
| `Geometry.DistanceZeroIff` | Assets/Script/DirectScript.cs:38-41 | the distance is zero if and only if ring and pole share x and z |
| `Geometry.DistanceIgnoresHeight` | Assets/Script/DirectScript.cs:38-39 | changing the y coordinate of either position leaves the distance unchanged |
| `Ballistics.FirstVelocity` | Assets/Script/DirectScript.cs:77-86 | a zero cosine or sine yields speed 0; otherwise the speed is non-negative and its square is distance·G/(2·cos·sin) |
| `Ballistics.RadicandSign` | Assets/Script/DirectScript.cs:82 | with G, cos and sin positive, distance·G/(2·cos·sin) has the sign of the distance |
| `Ballistics.FirstVelocityReachesDistance` | Assets/Script/DirectScript.cs:65-85 | the returned speed v satisfies 2·v·v·cos·sin/G == distance, the range formula the derivation starts from |
| `Ballistics.FirstVelocitySign` | Assets/Script/DirectScript.cs:77-85 | positive distance gives positive speed; zero distance gives zero speed |
| `Ballistics.FirstVelocityUnique` | Assets/Script/DirectScript.cs:65-75 | any non-negative speed that solves the range equation is the returned speed |
| `Schedule.NextPole` | Assets/Script/DirectScript.cs:126-131 | the pole index after a throw is (old + 1) mod 4 |
| `Schedule.NextRing` | Assets/Script/DirectScript.cs:143-147 | the ring index after a throw is (old + 1) mod 3 |
| `Schedule.NextAngle` | Assets/Script/DirectScript.cs:133-135 | the next angle is again one of 30/45/60, differs from the old one, and is 30 + ((old − 30 + 15) mod 45) |
| `Schedule.Fire` | Assets/Script/DirectScript.cs:100-147 | a throw resets the accumulator to 0 and moves the pole and the ring by one, each modulo its count; when the pole wraps to 0 the wait becomes 4 s and the angle steps, otherwise the wait is 2 s and the angle is unchanged; the invariant is kept |
| `Schedule.Step` | Assets/Script/DirectScript.cs:96-148 | a tick below the wait only adds dt to the accumulator and changes nothing else; a firing tick advances as in Fire; indices stay in range, the angle stays in {30,45,60}, and the accumulator stays below the wait and, for non-negative dt, non-negative |
| `Schedule.Run` | Assets/Script/DirectScript.cs:93-149 | any sequence of ticks keeps the invariant and records no more throws than it has ticks |
| `Schedule.Iterate` | Assets/Script/DirectScript.cs:126-147 | any number of consecutive throws keeps the invariant |
| `Schedule.QuietRun` | Assets/Script/DirectScript.cs:96-97 | non-negative ticks whose total stays below the remaining wait throw nothing and only add their total to the accumulator |
| `Schedule.FirstLaunchWaits` | Assets/Script/DirectScript.cs:29 | from the initial state nothing is thrown before 7 s have accumulated |
| `Schedule.RunExtend` | Assets/Script/DirectScript.cs:93-149 | one more tick at the end of a run fires at most once: the run's final state takes one Step, and that state's launch is appended exactly when the tick reaches the wait |
| `Schedule.RunLaunches` | Assets/Script/DirectScript.cs:93-149 | the j-th throw of any run uses the ring, pole and pre-advance angle of the state after j throws, and the run ends with the wait, pole, ring and angle of the state after all its throws (the accumulator may differ) |
| `Schedule.ClosedForm` | Assets/Script/DirectScript.cs:126-147 | after k throws from the start the pole is k mod 4, the ring k mod 3, the angle 30 + 15·((k div 4) mod 3), and the wait 7 s if k = 0, 4 s if 4 divides k, 2 s otherwise |
| `Schedule.LaunchOrder` | Assets/Script/DirectScript.cs:103-108 | the i-th throw from the start uses ring i mod 3, pole i mod 4 and angle 30 + 15·((i div 4) mod 3) |
| `Schedule.Periodic` | Assets/Script/DirectScript.cs:126-147 | after the first throw the state repeats every 12 throws |
| `Launcher.ThrowLands` | Assets/Script/DirectScript.cs:111-115 | the shot built from the horizontal distance and the launch speed at an angle of 30, 45 or 60 degrees solves the range equation |
| `Launcher.DirectScript.constructor` | Assets/Script/DirectScript.cs:10-29 | the initial fields are angle 30, cos and sin 0, both indices 0, accumulator 0, wait 7 s, G = the absolute value of the gravity argument and no throws yet |
| `Launcher.DirectScript.FixedUpdate` | Assets/Script/DirectScript.cs:93-149 | the scheduling fields move exactly as Schedule.Step says. A firing tick caches cos and sin of the pre-advance angle and appends one shot with the current ring, pole and that angle, the ring-to-pole horizontal distance, and first_velocity of that distance. A quiet tick leaves the shots and the cached cos and sin unchanged. The invariant that every shot's speed solves the range equation for its distance is kept |

## Left out

- `angle_ring_to_pole_XZ` (Assets/Script/DirectScript.cs:52-57) is left out. It is `Mathf.Atan` of −Δz/Δx in degrees, truncated by an `(int)` cast, with no guard for Δx = 0. These are transcendental float numerics, so the model has no heading at all.
- The launch vector `Quaternion.Euler(0, angle_XZ, force_angle) * (force_n_v3 * velocity)` (lines 119-120) is left out, because the rotation is engine library code. A `Shot` records the ring, pole, angle, distance and speed instead.
- `Instantiate` and `AddForce(…, ForceMode.VelocityChange)` (lines 122-123) are not modelled. Each throw is appended to `shots` instead.
- `Start` (lines 153-165) and `Update` (lines 168-171) are left out. Finding the poles by name and picking the ring prefabs is scene setup. The ring and pole positions are passed to `FixedUpdate` instead, so every position resolves. In the source, a pole that `GameObject.Find` missed makes `FixedUpdate` throw at line 108. By then it has already reset the accumulator (line 100) and cached cos and sin (lines 103-104), so the schedule never advances past that pole. The model does not capture this.
- Float arithmetic is not modelled. Time, positions and speeds are exact reals, so the rounding of `Time.deltaTime` accumulation and of `Mathf.Sqrt`/`Cos`/`Sin` is not captured. `Physics.gravity` is a constructor argument.
- `Mathf.Cos` and `Mathf.Sin` are supplied functions. The only assumption about them is that cos and sin are positive at 30, 45 and 60 degrees. Whether the cached values equal the true cosine and sine is not modelled.
- Ballistics.FirstVelocity: says nothing about the result when cos and sin are non-zero but distance·G/(2·cos·sin) is negative. `Mathf.Sqrt` returns NaN there. That case cannot arise from `FixedUpdate`, because G ≥ 0, the distance is ≥ 0 and the angle is 30, 45 or 60.
