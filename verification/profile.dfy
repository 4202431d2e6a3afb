/** The trapezoidal velocity profile `generate_trapezoidal_profile`: a
    stateless rule that picks the next target velocity from the distance
    still to go, the previous target velocity, the speed limit, the
    acceleration and the time since the last tick. Floats are modelled as
    reals. */
module Profile {
  import opened CTypes

  /** The speed change the acceleration allows over `dtMs` milliseconds. */
  function SpeedStep(acceleration: real, dtMs: u32): (d: real)
    ensures acceleration >= 0.0 ==> d >= 0.0
    ensures dtMs == 0 ==> d == 0.0
  {
    acceleration * (dtMs as real) / 1000.0
  }

  /** Whether the remaining distance is within the stopping distance
      v^2 / a. For a zero acceleration the firmware's float division gives
      +infinity when v is not zero, so the test holds, and NaN when v is
      zero, so the test fails. */
  predicate Decelerating(distance: real, velocity: real, acceleration: real) {
    if acceleration == 0.0 then velocity != 0.0
    else distance <= velocity * velocity / acceleration
  }

  /** The magnitude of the next target velocity: it falls by one step
      (never below 0) while decelerating, rises by one step (never above
      the limit) while below the limit, and holds the limit otherwise. */
  function ProfileSpeed(distance: real, velocity: real, maxSpeed: real,
                        acceleration: real, dtMs: u32): (s: real)
    ensures Decelerating(distance, velocity, acceleration) ==>
      && 0.0 <= s
      && (acceleration >= 0.0 ==> s <= AbsReal(velocity))
      && (s > 0.0 ==> s == AbsReal(velocity) - SpeedStep(acceleration, dtMs))
    ensures !Decelerating(distance, velocity, acceleration) && AbsReal(velocity) < maxSpeed ==>
      && s <= maxSpeed
      && (acceleration >= 0.0 ==> AbsReal(velocity) <= s)
      && (s < maxSpeed ==> s == AbsReal(velocity) + SpeedStep(acceleration, dtMs))
    ensures !Decelerating(distance, velocity, acceleration) && AbsReal(velocity) >= maxSpeed ==>
      s == maxSpeed
  {
    if Decelerating(distance, velocity, acceleration) then
      MaxReal(0.0, AbsReal(velocity) - SpeedStep(acceleration, dtMs))
    else if AbsReal(velocity) < maxSpeed then
      MinReal(maxSpeed, AbsReal(velocity) + SpeedStep(acceleration, dtMs))
    else
      maxSpeed
  }

  /** `generate_trapezoidal_profile`: the profile speed, signed toward the
      target. A zero distance counts as the negative direction. */
  function TrapezoidalProfile(current: int, target: int, velocity: real, maxSpeed: real,
                              acceleration: real, dtMs: u32): (v: real)
    ensures 0.0 <= maxSpeed && 0.0 <= acceleration ==>
      && (target > current ==> v >= 0.0)
      && (target <= current ==> v <= 0.0)
    ensures 0.0 <= acceleration && AbsReal(velocity) <= maxSpeed ==> AbsReal(v) <= maxSpeed
    ensures AbsReal(v) == AbsReal(ProfileSpeed(Abs(target - current) as real, velocity,
                                               maxSpeed, acceleration, dtMs))
  {
    var distance := (target - current) as real;
    var direction := if distance > 0.0 then 1.0 else -1.0;
    ProfileSpeed(AbsReal(distance), velocity, maxSpeed, acceleration, dtMs) * direction
  }

  /** The profile iterated on itself: the target velocity after `n`
      ticks of `dtMs` each at zero distance from the target, each result
      fed back in as the previous velocity. (The motion loop itself stops
      at the hysteresis band and never runs at zero distance; this is a
      property of the profile rule alone.) */
  function HoldAtTarget(n: nat, velocity: real, maxSpeed: real, acceleration: real,
                        dtMs: u32): real
  {
    if n == 0 then velocity
    else TrapezoidalProfile(0, 0, HoldAtTarget(n - 1, velocity, maxSpeed, acceleration, dtMs),
                            maxSpeed, acceleration, dtMs)
  }

  /** On target the profile is always decelerating: one tick takes one
      step off the speed, down to zero. */
  lemma OnTargetTick(velocity: real, maxSpeed: real, acceleration: real, dtMs: u32)
    requires acceleration > 0.0
    ensures AbsReal(TrapezoidalProfile(0, 0, velocity, maxSpeed, acceleration, dtMs))
            == MaxReal(0.0, AbsReal(velocity) - SpeedStep(acceleration, dtMs))
  {
    assert velocity * velocity >= 0.0;
    assert Decelerating(0.0, velocity, acceleration);
  }

  /** One more tick on target takes one more step off the held speed. */
  lemma HoldAtTargetStep(n: nat, velocity: real, maxSpeed: real, acceleration: real, dtMs: u32)
    requires acceleration > 0.0
    requires n > 0
    ensures AbsReal(HoldAtTarget(n, velocity, maxSpeed, acceleration, dtMs))
            == MaxReal(0.0, AbsReal(HoldAtTarget(n - 1, velocity, maxSpeed, acceleration, dtMs))
                            - SpeedStep(acceleration, dtMs))
  {
    OnTargetTick(HoldAtTarget(n - 1, velocity, maxSpeed, acceleration, dtMs),
                 maxSpeed, acceleration, dtMs);
  }

  /** A speed after `n` decrements of `step`, each clamped at zero. */
  function Drained(speed: real, step: real, n: nat): real {
    if n == 0 then speed else MaxReal(0.0, Drained(speed, step, n - 1) - step)
  }

  /** So with a positive acceleration the speed held on target falls by
      one step per tick until it reaches zero, and stays there. */
  lemma {:induction false} HoldAtTargetDrains(n: nat, velocity: real, maxSpeed: real,
                                              acceleration: real, dtMs: u32)
    requires acceleration > 0.0
    ensures AbsReal(HoldAtTarget(n, velocity, maxSpeed, acceleration, dtMs))
            == Drained(AbsReal(velocity), SpeedStep(acceleration, dtMs), n)
  {
    if n > 0 {
      HoldAtTargetDrains(n - 1, velocity, maxSpeed, acceleration, dtMs);
      HoldAtTargetStep(n, velocity, maxSpeed, acceleration, dtMs);
    }
  }

  /** Clamping after each decrement is clamping once after all of them. */
  lemma {:induction false} DrainedClosedForm(speed: real, step: real, n: nat)
    requires speed >= 0.0 && step >= 0.0
    ensures Drained(speed, step, n) == MaxReal(0.0, speed - (n as real) * step)
  {
    if n == 0 {
      assert (n as real) * step == 0.0;
    } else {
      DrainedClosedForm(speed, step, n - 1);
      StepsAddUp(n, step);
      ClampedStepsCompose(speed - ((n - 1) as real) * step, step);
    }
  }

  lemma StepsAddUp(n: nat, step: real)
    requires n > 0
    ensures (n as real) * step == ((n - 1) as real) * step + step
  {
    var k := (n - 1) as real;
    assert n as real == k + 1.0;
    assert (k + 1.0) * step == k * step + step;
  }

  /** Clamping at zero after each of two decrements is clamping once. */
  lemma ClampedStepsCompose(m: real, step: real)
    requires step >= 0.0
    ensures MaxReal(0.0, MaxReal(0.0, m) - step) == MaxReal(0.0, m - step)
  {
  }

  /** Hence a target velocity `v` is brought to rest on target after any
      number of ticks whose steps add up to at least |v|. */
  lemma StopsOnTarget(n: nat, velocity: real, maxSpeed: real, acceleration: real, dtMs: u32)
    requires acceleration > 0.0
    requires (n as real) * SpeedStep(acceleration, dtMs) >= AbsReal(velocity)
    ensures HoldAtTarget(n, velocity, maxSpeed, acceleration, dtMs) == 0.0
  {
    HoldAtTargetDrains(n, velocity, maxSpeed, acceleration, dtMs);
    DrainedToZero(AbsReal(velocity), SpeedStep(acceleration, dtMs), n);
  }

  /** Steps that add up to at least the speed drain it completely. */
  lemma DrainedToZero(speed: real, step: real, n: nat)
    requires speed >= 0.0 && step >= 0.0
    requires (n as real) * step >= speed
    ensures Drained(speed, step, n) == 0.0
  {
    DrainedClosedForm(speed, step, n);
  }
}
