/** The firing schedule of FixedUpdate as a pure state machine: which ring is
    thrown at which pole, at which angle, and how long to wait before the
    next throw. The class in launcher.dfy is proved against these functions. */
module Schedule {

  /** Sizes of the pole and ring arrays. */
  const PoleCount: int := 4
  const RingCount: int := 3

  /** Waiting times, in seconds. */
  const FirstInterval: real := 7.0
  const PoleInterval: real := 2.0
  const PassInterval: real := 4.0

  /** Launch angles, in degrees: 30, 45, 60, then back to 30. */
  const FirstAngle: int := 30
  const AngleStep: int := 15
  const LastAngle: int := 60
  const AngleCount: int := 3

  /** The scheduler's fields: time accumulator, current wait, the pole and
      ring to use next, and the launch angle. */
  datatype Cycle = Cycle(deltaTime: real, intervalTime: real, poleIndex: int, ringIndex: int, forceAngle: int)

  /** The abstract firing event: which ring is thrown at which pole at which angle. */
  datatype Launch = Launch(ring: int, pole: int, angle: int)

  const Initial: Cycle := Cycle(0.0, FirstInterval, 0, 0, FirstAngle)

  predicate IsForceAngle(a: int)
  {
    a == FirstAngle || a == FirstAngle + AngleStep || a == LastAngle
  }

  /** What holds of the fields between ticks. */
  predicate Valid(c: Cycle)
  {
    && 0 <= c.poleIndex < PoleCount
    && 0 <= c.ringIndex < RingCount
    && IsForceAngle(c.forceAngle)
    && c.deltaTime < c.intervalTime
    && (c.poleIndex != 0 ==> c.intervalTime == PoleInterval)
    && (c.poleIndex == 0 ==> c.intervalTime == PassInterval || c.intervalTime == FirstInterval)
    && (c.intervalTime == FirstInterval ==> c.ringIndex == 0 && c.forceAngle == FirstAngle)
  }

  /** Two states that differ at most in the time accumulator. */
  predicate SameSchedule(c: Cycle, d: Cycle)
  {
    && c.intervalTime == d.intervalTime
    && c.poleIndex == d.poleIndex
    && c.ringIndex == d.ringIndex
    && c.forceAngle == d.forceAngle
  }

  function NextPole(p: int): (q: int)
    requires 0 <= p < PoleCount
    ensures q == (p + 1) % PoleCount
  {
    if p + 1 >= PoleCount then 0 else p + 1
  }

  function NextRing(r: int): (s: int)
    requires 0 <= r < RingCount
    ensures s == (r + 1) % RingCount
  {
    if r + 1 >= RingCount then 0 else r + 1
  }

  /** The angle after a completed pass: 15 degrees more, 60 wraps to 30. */
  function NextAngle(a: int): (b: int)
    requires IsForceAngle(a)
    ensures IsForceAngle(b) && b != a
    ensures b == FirstAngle + (a - FirstAngle + AngleStep) % (AngleCount * AngleStep)
  {
    if a + AngleStep > LastAngle then FirstAngle else a + AngleStep
  }

  /** Whether a tick of `dt` seconds fires. */
  predicate Fires(c: Cycle, dt: real)
  {
    c.intervalTime <= c.deltaTime + dt
  }

  /** The ring, pole and angle a firing in state `c` uses. */
  function Aim(c: Cycle): Launch
  {
    Launch(c.ringIndex, c.poleIndex, c.forceAngle)
  }

  /** The state right after a firing: the accumulator is reset, the pole
      advances (a completed pass waits longer and steps the angle), and the
      ring advances whether or not the pole wrapped. */
  function Fire(c: Cycle): (n: Cycle)
    requires Valid(c)
    ensures Valid(n)
    ensures n.deltaTime == 0.0
    ensures n.poleIndex == (c.poleIndex + 1) % PoleCount
    ensures n.ringIndex == (c.ringIndex + 1) % RingCount
    ensures n.poleIndex == 0 ==> n.intervalTime == PassInterval && n.forceAngle == NextAngle(c.forceAngle)
    ensures n.poleIndex != 0 ==> n.intervalTime == PoleInterval && n.forceAngle == c.forceAngle
  {
    var wrapped := c.poleIndex + 1 >= PoleCount;
    Cycle(0.0,
          if wrapped then PassInterval else PoleInterval,
          NextPole(c.poleIndex),
          NextRing(c.ringIndex),
          if wrapped then NextAngle(c.forceAngle) else c.forceAngle)
  }

  /** One FixedUpdate tick of `dt` seconds. */
  function Step(c: Cycle, dt: real): (n: Cycle)
    requires Valid(c)
    ensures Valid(n)
    ensures 0.0 <= c.deltaTime && 0.0 <= dt ==> 0.0 <= n.deltaTime
    ensures !Fires(c, dt) ==> SameSchedule(n, c) && n.deltaTime == c.deltaTime + dt
    ensures Fires(c, dt) ==> n.deltaTime == 0.0 && n.poleIndex == (c.poleIndex + 1) % PoleCount
    ensures Fires(c, dt) ==> n.ringIndex == (c.ringIndex + 1) % RingCount
    ensures Fires(c, dt) ==> n.intervalTime == (if n.poleIndex == 0 then PassInterval else PoleInterval)
    ensures Fires(c, dt) ==> n.forceAngle == (if n.poleIndex == 0 then NextAngle(c.forceAngle) else c.forceAngle)
  {
    if Fires(c, dt) then Fire(c) else c.(deltaTime := c.deltaTime + dt)
  }

  /** A sequence of ticks: the final state and the launches, in order. */
  function Run(c: Cycle, dts: seq<real>): (r: (Cycle, seq<Launch>))
    requires Valid(c)
    ensures Valid(r.0)
    ensures |r.1| <= |dts|
    decreases |dts|
  {
    if dts == [] then (c, [])
    else
      var rest := Run(Step(c, dts[0]), dts[1..]);
      (rest.0, (if Fires(c, dts[0]) then [Aim(c)] else []) + rest.1)
  }

  /** One more tick at the end of a run fires at most once: it steps the
      run's final state and appends that state's aim exactly when it fires. */
  lemma {:induction false} RunExtend(c: Cycle, dts: seq<real>, dt: real)
    requires Valid(c)
    ensures var r := Run(c, dts);
            Run(c, dts + [dt]) == (Step(r.0, dt), r.1 + (if Fires(r.0, dt) then [Aim(r.0)] else []))
    decreases |dts|
  {
    if dts == [] {
      assert dts + [dt] == [dt];
      assert [dt][1..] == [];
      var n := Step(c, dt);
      assert Run(n, []) == (n, []);
      var head: seq<Launch> := if Fires(c, dt) then [Aim(c)] else [];
      assert Run(c, [dt]) == (n, head + []);
      assert head + [] == [] + head;
    } else {
      assert (dts + [dt])[0] == dts[0];
      assert (dts + [dt])[1..] == dts[1..] + [dt];
      var n := Step(c, dts[0]);
      RunExtend(n, dts[1..], dt);
      var head: seq<Launch> := if Fires(c, dts[0]) then [Aim(c)] else [];
      var rest := Run(n, dts[1..]);
      var last: seq<Launch> := if Fires(rest.0, dt) then [Aim(rest.0)] else [];
      assert head + (rest.1 + last) == (head + rest.1) + last;
    }
  }

  /** The state after `k` firings in a row. */
  function Iterate(c: Cycle, k: nat): (n: Cycle)
    requires Valid(c)
    ensures Valid(n)
    decreases k
  {
    if k == 0 then c else Iterate(Fire(c), k - 1)
  }

  function Sum(dts: seq<real>): real
  {
    if dts == [] then 0.0 else dts[0] + Sum(dts[1..])
  }

  lemma {:induction false} SumNonNegative(dts: seq<real>)
    requires forall i :: 0 <= i < |dts| ==> 0.0 <= dts[i]
    ensures 0.0 <= Sum(dts)
  {
    if dts != [] {
      SumNonNegative(dts[1..]);
    }
  }

  /** Ticks whose total stays below the remaining wait fire nothing and
      change only the accumulator. */
  lemma {:induction false} QuietRun(c: Cycle, dts: seq<real>)
    requires Valid(c)
    requires forall i :: 0 <= i < |dts| ==> 0.0 <= dts[i]
    requires c.deltaTime + Sum(dts) < c.intervalTime
    ensures Run(c, dts) == (c.(deltaTime := c.deltaTime + Sum(dts)), [])
    decreases |dts|
  {
    if dts != [] {
      SumNonNegative(dts[1..]);
      assert !Fires(c, dts[0]);
      var n := c.(deltaTime := c.deltaTime + dts[0]);
      assert Step(c, dts[0]) == n;
      QuietRun(n, dts[1..]);
    }
  }

  /** Nothing is thrown before 7 seconds have accumulated. */
  lemma FirstLaunchWaits(dts: seq<real>)
    requires forall i :: 0 <= i < |dts| ==> 0.0 <= dts[i]
    requires Sum(dts) < FirstInterval
    ensures Run(Initial, dts).1 == []
  {
    QuietRun(Initial, dts);
  }

  /** Firing ignores the accumulator. */
  lemma {:induction false} IterateSameSchedule(c: Cycle, d: Cycle, k: nat)
    requires Valid(c) && Valid(d) && SameSchedule(c, d)
    ensures SameSchedule(Iterate(c, k), Iterate(d, k))
    ensures 0 < k ==> Iterate(c, k) == Iterate(d, k)
  {
  }

  lemma {:induction false} IterateSucc(c: Cycle, k: nat)
    requires Valid(c)
    ensures Iterate(c, k + 1) == Fire(Iterate(c, k))
    decreases k
  {
    if k > 0 {
      IterateSucc(Fire(c), k - 1);
    }
  }

  /** The launches of any run are the aims of successive firings, and the
      run ends with the wait, pole, ring and angle reached after that many
      firings (the accumulator may differ). */
  lemma {:induction false} RunLaunches(c: Cycle, dts: seq<real>)
    requires Valid(c)
    ensures SameSchedule(Run(c, dts).0, Iterate(c, |Run(c, dts).1|))
    ensures forall j :: 0 <= j < |Run(c, dts).1| ==> Run(c, dts).1[j] == Aim(Iterate(c, j))
    decreases |dts|
  {
    if dts != [] {
      var n := Step(c, dts[0]);
      RunLaunches(n, dts[1..]);
      var rest := Run(n, dts[1..]);
      if Fires(c, dts[0]) {
        assert n == Fire(c);
        assert Run(c, dts).1 == [Aim(c)] + rest.1;
        forall j | 0 <= j < |Run(c, dts).1|
          ensures Run(c, dts).1[j] == Aim(Iterate(c, j))
        {
          if j > 0 {
            assert Iterate(c, j) == Iterate(n, j - 1);
          }
        }
      } else {
        assert Run(c, dts).1 == rest.1;
        IterateSameSchedule(n, c, |rest.1|);
        forall j | 0 <= j < |rest.1|
          ensures rest.1[j] == Aim(Iterate(c, j))
        {
          IterateSameSchedule(n, c, j);
        }
      }
    }
  }

  lemma PoleStep(k: nat)
    requires 0 < k
    ensures ((k - 1) % PoleCount + 1) % PoleCount == k % PoleCount
    ensures k % PoleCount == 0 ==> k / PoleCount == (k - 1) / PoleCount + 1
    ensures k % PoleCount != 0 ==> k / PoleCount == (k - 1) / PoleCount
  {
  }

  lemma RingStep(k: nat)
    requires 0 < k
    ensures ((k - 1) % RingCount + 1) % RingCount == k % RingCount
  {
  }

  lemma AngleStepMod(q: nat)
    ensures IsForceAngle(FirstAngle + AngleStep * (q % AngleCount))
    ensures NextAngle(FirstAngle + AngleStep * (q % AngleCount)) == FirstAngle + AngleStep * ((q + 1) % AngleCount)
  {
  }

  /** Closed form of the schedule from the initial state: after `k` firings
      the pole is k mod 4, the ring k mod 3, the angle has stepped once per
      completed pass of four poles, and the wait is 7 s before the first
      firing, 4 s after a completed pass and 2 s otherwise. */
  lemma {:induction false} ClosedForm(k: nat)
    ensures Iterate(Initial, k).poleIndex == k % PoleCount
    ensures Iterate(Initial, k).ringIndex == k % RingCount
    ensures Iterate(Initial, k).forceAngle == FirstAngle + AngleStep * ((k / PoleCount) % AngleCount)
    ensures Iterate(Initial, k).intervalTime ==
              if k == 0 then FirstInterval else if k % PoleCount == 0 then PassInterval else PoleInterval
    ensures Iterate(Initial, k).deltaTime == 0.0
    decreases k
  {
    if k > 0 {
      ClosedForm(k - 1);
      IterateSucc(Initial, k - 1);
      var p := Iterate(Initial, k - 1);
      var n := Fire(p);
      assert Iterate(Initial, k) == n;
      PoleStep(k);
      RingStep(k);
      AngleStepMod((k - 1) / PoleCount);
    }
  }

  /** The i-th launch from the initial state throws ring i mod 3 at pole
      i mod 4, at 30 degrees during the first pass, 45 during the second,
      60 during the third, and so on cyclically. */
  lemma LaunchOrder(dts: seq<real>)
    ensures forall i :: 0 <= i < |Run(Initial, dts).1| ==>
              Run(Initial, dts).1[i] ==
                Launch(i % RingCount, i % PoleCount, FirstAngle + AngleStep * ((i / PoleCount) % AngleCount))
  {
    RunLaunches(Initial, dts);
    forall i | 0 <= i < |Run(Initial, dts).1|
      ensures Run(Initial, dts).1[i] ==
                Launch(i % RingCount, i % PoleCount, FirstAngle + AngleStep * ((i / PoleCount) % AngleCount))
    {
      ClosedForm(i);
    }
  }

  /** After the first firing the schedule repeats every twelve firings
      (three passes of four poles, three rings, three angles). */
  lemma Periodic(k: nat)
    requires 0 < k
    ensures Iterate(Initial, k + PoleCount * AngleCount) == Iterate(Initial, k)
  {
    ClosedForm(k);
    ClosedForm(k + PoleCount * AngleCount);
    assert (k + 12) / 4 == k / 4 + 3;
  }
}
