/** DirectScript: the MonoBehaviour whose FixedUpdate throws rings at poles. */
module Launcher {
  import opened HostMath
  import opened Geometry
  import opened Ballistics
  import opened Schedule

  /** One throw: what Instantiate + AddForce(VelocityChange) is given,
      without the rotation that turns the speed into a vector. */
  datatype Shot = Shot(target: Launch, distance: real, speed: real)

  /** cos and sin of every launch angle are positive. */
  ghost predicate TrigPositive(math: MathLib)
  {
    forall a :: IsForceAngle(a) ==> 0.0 < math.cosDeg(a) && 0.0 < math.sinDeg(a)
  }

  /** A shot's speed carries it the ring-to-pole distance: the range equation
      of Ballistics.FirstVelocityReachesDistance, 2 v^2 cos sin / G == distance,
      specialised to a recorded shot and the angle it was thrown at.
      The heading is not modelled. */
  ghost predicate Lands(shot: Shot, g: real, math: MathLib)
  {
    0.0 < g ==>
      2.0 * shot.speed * shot.speed * math.cosDeg(shot.target.angle) * math.sinDeg(shot.target.angle) / g
        == shot.distance
  }

  /** The speed of the shot FixedUpdate builds carries it the ring-to-pole distance. */
  lemma ThrowLands(target: Launch, ringPos: Vec3, polePos: Vec3, g: real, math: MathLib)
    requires IsSqrt(math.sqrt) && TrigPositive(math) && IsForceAngle(target.angle) && 0.0 <= g
    ensures var distance := DistanceXZ(ringPos, polePos, math.sqrt);
            Lands(Shot(target, distance,
                       FirstVelocity(distance, g, math.cosDeg(target.angle), math.sinDeg(target.angle), math.sqrt)),
                  g, math)
  {
  }

  class DirectScript {
    /** |Physics.gravity.y| */
    const g: real
    /** Mathf.Sqrt, and Mathf.Cos / Mathf.Sin of an angle in degrees */
    const math: MathLib

    var forceAngle: int
    var forceCos: real
    var forceSin: real
    var targetPoleIndex: int
    var targetRingIndex: int
    var deltaTime: real
    var intervalTime: real
    /** The throws made so far, oldest first. */
    var shots: seq<Shot>

    /** The scheduling fields as a Schedule.Cycle. */
    function State(): Cycle
      reads this
    {
      Cycle(deltaTime, intervalTime, targetPoleIndex, targetRingIndex, forceAngle)
    }

    ghost predicate Valid()
      reads this
    {
      && Schedule.Valid(State())
      && 0.0 <= g
      && IsSqrt(math.sqrt)
      && TrigPositive(math)
      && (forall i :: 0 <= i < |shots| ==> Lands(shots[i], g, math))
    }

    constructor (gravity: real, math: MathLib)
      requires IsSqrt(math.sqrt) && TrigPositive(math)
      ensures Valid()
      ensures this.g == if gravity < 0.0 then -gravity else gravity
      ensures this.math == math
      ensures State() == Initial
      ensures forceCos == 0.0 && forceSin == 0.0
      ensures shots == []
    {
      this.g := if gravity < 0.0 then -gravity else gravity;
      this.math := math;
      forceAngle := FirstAngle;
      forceCos, forceSin := 0.0, 0.0;
      targetPoleIndex, targetRingIndex := 0, 0;
      deltaTime := 0.0;
      intervalTime := FirstInterval;
      shots := [];
    }

    /** FixedUpdate: accumulate `dt`; once the wait has elapsed, throw the
        current ring at the current pole and advance the schedule.
        `rings` and `poles` are the positions the engine reports. */
    method FixedUpdate(dt: real, rings: seq<Vec3>, poles: seq<Vec3>)
      requires Valid()
      requires |rings| == RingCount && |poles| == PoleCount
      modifies this
      ensures Valid()
      ensures State() == Step(old(State()), dt)
      ensures !Fires(old(State()), dt) ==>
                shots == old(shots) && forceCos == old(forceCos) && forceSin == old(forceSin)
      ensures Fires(old(State()), dt) ==>
                && forceCos == math.cosDeg(old(forceAngle))
                && forceSin == math.sinDeg(old(forceAngle))
                && shots == old(shots) + [Shot(
                     Aim(old(State())),
                     DistanceXZ(rings[old(targetRingIndex)], poles[old(targetPoleIndex)], math.sqrt),
                     FirstVelocity(DistanceXZ(rings[old(targetRingIndex)], poles[old(targetPoleIndex)], math.sqrt),
                                   g, forceCos, forceSin, math.sqrt))]
    {
      deltaTime := deltaTime + dt;
      if intervalTime <= deltaTime {
        deltaTime := 0.0;
        forceCos := math.cosDeg(forceAngle);
        forceSin := math.sinDeg(forceAngle);

        var ringPos := rings[targetRingIndex];
        var polePos := poles[targetPoleIndex];
        var distance := DistanceXZ(ringPos, polePos, math.sqrt);
        var velocity := FirstVelocity(distance, g, forceCos, forceSin, math.sqrt);
        ThrowLands(Launch(targetRingIndex, targetPoleIndex, forceAngle), ringPos, polePos, g, math);
        shots := shots + [Shot(Launch(targetRingIndex, targetPoleIndex, forceAngle), distance, velocity)];

        targetPoleIndex := targetPoleIndex + 1;
        if targetPoleIndex >= PoleCount {
          targetPoleIndex := 0;
          intervalTime := PassInterval;
          forceAngle := forceAngle + AngleStep;
          if forceAngle > LastAngle {
            forceAngle := FirstAngle;
          }
        } else {
          intervalTime := PoleInterval;
        }

        targetRingIndex := targetRingIndex + 1;
        if targetRingIndex >= RingCount {
          targetRingIndex := 0;
        }
      }
    }
  }
}
