/** The motion controller of `main.cpp`: the module-level variables it
    keeps, the two periodic callbacks `update_encoder_status` and
    `update_motion_control` as step functions over them, and the calls
    other parts of the firmware make into it (`move_to_position`, the
    motion-config getter and setter, `setFullRevolutionCount`,
    `get_motion_control_info`).

    The encoder count and the `millis()` clock are inputs of each step;
    the motor command (the argument of `set_motor1_speed`) and a new
    encoder count (the argument of `encoder1.setCount`) are outputs.
    Floats are reals. */
module Motion {
  import opened CTypes
  import opened Config
  import opened Profile
  import opened Motor

  /** The motion-control parameters set by `setMotionControlConfig`. */
  datatype Tuning = Tuning(
    positionHysteresis: u32,
    maxSpeed: real,
    acceleration: real,
    velLoopP: real,
    velLoopI: real,
    velLoopD: real,
    velFilterPersistence: real,
    spdErrPersistence: real)

  /** The parameters' initial values, the configuration defaults. */
  const DEFAULT_TUNING: Tuning :=
    Tuning(DEFAULT_POSITION_HYSTERESIS, DEFAULT_MAX_SPEED, DEFAULT_ACCELERATION,
           DEFAULT_VEL_LOOP_P, DEFAULT_VEL_LOOP_I, DEFAULT_VEL_LOOP_D,
           DEFAULT_VEL_FILTER_PERSISTENCE, DEFAULT_SPD_ERR_PERSISTENCE)

  /** The velocity loop's static variables: the error integral, the last
      error, the last profile velocity and the filtered error
      derivative. */
  datatype Pid = Pid(integral: real, previousError: real, lastTargetVelocity: real,
                     lastDerivative: real)

  const PID_RESET: Pid := Pid(0.0, 0.0, 0.0, 0.0)

  /** The copies of the loop terms kept for the debug stream. */
  datatype Telemetry = Telemetry(speedError: real, speedErrorIntegral: real,
                                 speedErrorDerivative: real)

  const TELEMETRY_RESET: Telemetry := Telemetry(0.0, 0.0, 0.0)

  /** The velocity estimate and the sample it was taken at. The callback's
      own static copy of the previous estimate is always equal to
      `velocity`, so it is not kept separately. */
  datatype Estimator = Estimator(lastCount: int, lastTime: u32, velocity: real)

  /** Everything the motion callbacks read and write. */
  datatype Controller = Controller(
    active: bool,
    target: int,
    lastUpdateTime: u32,
    pid: Pid,
    telemetry: Telemetry,
    estimator: Estimator,
    tuning: Tuning,
    fullRevolutionCount: int)

  /** The state at power-up: static storage before any callback ran. */
  const BOOT: Controller :=
    Controller(false, 0, 0, PID_RESET, TELEMETRY_RESET, Estimator(0, 0, 0.0), DEFAULT_TUNING, 0)

  /** The debug copies agree with the loop terms they mirror. */
  predicate Mirrored(c: Controller) {
    c.telemetry == Telemetry(c.pid.previousError, c.pid.integral, c.pid.lastDerivative)
  }

  /** An idle controller holds a reset loop. */
  predicate RestIsReset(c: Controller) {
    !c.active ==> c.pid == PID_RESET && c.telemetry == TELEMETRY_RESET
  }

  /** The invariant every step below preserves. */
  predicate Inv(c: Controller) {
    Mirrored(c) && RestIsReset(c)
  }

  lemma BootInv()
    ensures Inv(BOOT)
  {
  }

  // ---------------------------------------------------------------------
  // Velocity estimate

  /** Counts per second over a sample `dtMs` milliseconds long. */
  function Rate(delta: int, dtMs: u32): real
    requires dtMs > 0
  {
    (delta as real) * 1000.0 / (dtMs as real)
  }

  /** A weighted mean of `x` and `y` lies between them. */
  lemma BlendBetween(x: real, y: real, p: real)
    ensures 0.0 <= p <= 1.0 ==> MinReal(x, y) <= (1.0 - p) * x + p * y <= MaxReal(x, y)
  {
    if 0.0 <= p <= 1.0 {
      var d := y - x;
      assert (1.0 - p) * x + p * y == x + p * d;
      assert d - p * d == (1.0 - p) * d;
      ScaledSign(p, d);
      ScaledSign(1.0 - p, d);
    }
  }

  /** A non-negative weight keeps the sign of what it scales. */
  lemma ScaledSign(w: real, d: real)
    requires w >= 0.0
    ensures d >= 0.0 ==> w * d >= 0.0
    ensures d <= 0.0 ==> w * d <= 0.0
  {
  }

  /** `update_encoder_status`: when time has passed since the last sample,
      the estimate moves to a blend of the new rate and the old estimate,
      weighted by the filter persistence; the sample is recorded either
      way. The elapsed time is an unsigned `millis()` difference. */
  function EncoderStatus(e: Estimator, persistence: real, count: int, now: u32): (r: Estimator)
    ensures r.lastCount == count && r.lastTime == now
    ensures now == e.lastTime ==> r.velocity == e.velocity
    ensures now != e.lastTime ==>
      var rate := Rate(count - e.lastCount, WrapSub(now, e.lastTime));
      && (persistence == 0.0 ==> r.velocity == rate)
      && (persistence == 1.0 ==> r.velocity == e.velocity)
      && (0.0 <= persistence <= 1.0 ==>
            MinReal(rate, e.velocity) <= r.velocity <= MaxReal(rate, e.velocity))
  {
    var dt := WrapSub(now, e.lastTime);
    if dt > 0 then
      var rate := Rate(count - e.lastCount, dt);
      var v := (1.0 - persistence) * rate + e.velocity * persistence;
      BlendBetween(rate, e.velocity, persistence);
      Estimator(count, now, v)
    else
      Estimator(count, now, e.velocity)
  }

  /** The encoder callback over the whole controller: only the estimate
      changes. */
  function EncoderTick(c: Controller, count: int, now: u32): (r: Controller)
    ensures r.estimator.lastCount == count && r.estimator.lastTime == now
    ensures r.(estimator := c.estimator) == c
    ensures Inv(c) ==> Inv(r)
  {
    c.(estimator := EncoderStatus(c.estimator, c.tuning.velFilterPersistence, count, now))
  }

  // ---------------------------------------------------------------------
  // Arrival and unwrapping

  /** The axis is within the hysteresis band of the target. */
  function Arrived(count: int, target: int, hysteresis: u32): (r: bool)
    ensures r <==> target - hysteresis <= count <= target + hysteresis
  {
    Abs(count - target) <= hysteresis
  }

  /** The rebasing done on arrival: with a known revolution length, a count
      more than one revolution from the 0-degree point is moved one
      revolution toward it. `None` leaves the encoder alone. */
  function Unwrap(count: int, pos0: int, fullRevolution: int): (r: Option<int>)
    ensures r.Some? <==> fullRevolution > 0 && Abs(count - pos0) > fullRevolution
    ensures r.Some? ==>
      && (r.value == count - fullRevolution || r.value == count + fullRevolution)
      && Abs(r.value - pos0) < Abs(count - pos0)
      && (r.value > pos0 <==> count > pos0)
  {
    if fullRevolution > 0 && Abs(count - pos0) > fullRevolution then
      Some(if count > pos0 then count - fullRevolution else count + fullRevolution)
    else
      None
  }

  // ---------------------------------------------------------------------
  // Velocity loop

  /** The drive the loop asks for before clamping. */
  function PidLaw(t: Tuning, p: Pid): real {
    t.velLoopP * p.previousError + t.velLoopI * p.integral + t.velLoopD * p.lastDerivative
  }

  /** The result of one loop update: the new loop state and the clamped
      drive. */
  datatype PidUpdate = PidUpdate(pid: Pid, drive: real)

  /** One velocity-loop update over a tick of `dtMs` milliseconds: the
      profile gives the target velocity, its difference from the
      estimate is the error, the error is integrated over the tick, its
      difference quotient is filtered with the error persistence, and the
      weighted sum of the three terms is clamped to [-1, 1]. */
  function PidStep(p: Pid, t: Tuning, velocity: real, count: int, target: int,
                   dtMs: u32): (r: PidUpdate)
    requires dtMs > 0
    ensures r.pid.lastTargetVelocity
            == TrapezoidalProfile(count, target, p.lastTargetVelocity, t.maxSpeed,
                                  t.acceleration, dtMs)
    ensures r.pid.previousError == r.pid.lastTargetVelocity - velocity
    ensures r.pid.integral - p.integral == r.pid.previousError * (dtMs as real) / 1000.0
    ensures 0.0 <= t.spdErrPersistence <= 1.0 ==>
      var quotient := (r.pid.previousError - p.previousError) / ((dtMs as real) / 1000.0);
      MinReal(quotient, p.lastDerivative) <= r.pid.lastDerivative
        <= MaxReal(quotient, p.lastDerivative)
    ensures r.drive == Constrain(PidLaw(t, r.pid), -1.0, 1.0)
    ensures -1.0 <= r.drive <= 1.0
    ensures 0.0 <= t.acceleration && AbsReal(p.lastTargetVelocity) <= t.maxSpeed ==>
      AbsReal(r.pid.lastTargetVelocity) <= t.maxSpeed
  {
    var targetVelocity :=
      TrapezoidalProfile(count, target, p.lastTargetVelocity, t.maxSpeed, t.acceleration, dtMs);
    var error := targetVelocity - velocity;
    var integral := p.integral + error * (dtMs as real) / 1000.0;
    var quotient := (error - p.previousError) / ((dtMs as real) / 1000.0);
    var q := t.spdErrPersistence;
    var derivative := (1.0 - q) * quotient + q * p.lastDerivative;
    BlendBetween(quotient, p.lastDerivative, q);
    var next := Pid(integral, error, targetVelocity, derivative);
    PidUpdate(next, Constrain(PidLaw(t, next), -1.0, 1.0))
  }

  // ---------------------------------------------------------------------
  // The motion tick

  /** What one motion tick produces: the new controller, the argument of
      `set_motor1_speed` if the motor was commanded, and the argument of
      `encoder1.setCount` if the count was rebased. */
  datatype TickOutput = TickOutput(controller: Controller, motor: Option<real>,
                                   encoderReset: Option<int>)

  /** `update_motion_control`. While idle nothing happens. On arrival the
      motor is stopped, the controller goes idle, the loop and its debug
      copies are zeroed, and the count may be rebased toward the
      0-degree point `pos0`. Otherwise the loop runs over the time since
      the last update and the motor gets the negated drive.

      A tick in the same millisecond as the previous update (dt = 0)
      changes nothing and commands nothing here: the firmware divides by
      dt in that case (see README, Findings). */
  function MotionTick(c: Controller, count: int, now: u32, pos0: int): (out: TickOutput)
    ensures !c.active ==> out == TickOutput(c, None, None)
    ensures c.active && Arrived(count, c.target, c.tuning.positionHysteresis) ==>
      && !out.controller.active
      && out.motor == Some(0.0)
      && out.controller.pid == PID_RESET
      && out.controller.telemetry == TELEMETRY_RESET
      && out.controller.lastUpdateTime == c.lastUpdateTime
      && out.encoderReset == Unwrap(count, pos0, c.fullRevolutionCount)
    ensures c.active && !Arrived(count, c.target, c.tuning.positionHysteresis) ==>
      && out.controller.active
      && out.encoderReset == None
      && (now == c.lastUpdateTime ==> out == TickOutput(c, None, None))
      && (now != c.lastUpdateTime ==>
            && out.controller.lastUpdateTime == now
            && out.motor.Some?
            && -1.0 <= out.motor.value <= 1.0
            && out.motor.value == -Constrain(PidLaw(c.tuning, out.controller.pid), -1.0, 1.0)
            && var u := PidStep(c.pid, c.tuning, c.estimator.velocity, count, c.target,
                                WrapSub(now, c.lastUpdateTime));
               out.controller.pid == u.pid && out.motor == Some(-u.drive))
    ensures out.controller.target == c.target
    ensures out.controller.estimator == c.estimator
    ensures out.controller.tuning == c.tuning
    ensures out.controller.fullRevolutionCount == c.fullRevolutionCount
    ensures Inv(c) ==> Inv(out.controller)
  {
    if !c.active then
      TickOutput(c, None, None)
    else if Arrived(count, c.target, c.tuning.positionHysteresis) then
      TickOutput(c.(active := false, pid := PID_RESET, telemetry := TELEMETRY_RESET),
                 Some(0.0), Unwrap(count, pos0, c.fullRevolutionCount))
    else
      var dtMs := WrapSub(now, c.lastUpdateTime);
      if dtMs == 0 then
        TickOutput(c, None, None)
      else
        var u := PidStep(c.pid, c.tuning, c.estimator.velocity, count, c.target, dtMs);
        var t := Telemetry(u.pid.previousError, u.pid.integral, u.pid.lastDerivative);
        TickOutput(c.(pid := u.pid, telemetry := t, lastUpdateTime := now), Some(-u.drive), None)
  }

  /** With a non-negative acceleration, the profile velocity the loop
      remembers never exceeds the speed limit once it starts within it. */
  lemma TickKeepsSpeedLimit(c: Controller, count: int, now: u32, pos0: int)
    requires 0.0 <= c.tuning.acceleration && 0.0 <= c.tuning.maxSpeed
    requires AbsReal(c.pid.lastTargetVelocity) <= c.tuning.maxSpeed
    ensures AbsReal(MotionTick(c, count, now, pos0).controller.pid.lastTargetVelocity)
            <= c.tuning.maxSpeed
  {
  }

  // ---------------------------------------------------------------------
  // Calls from the rest of the firmware

  /** `move_to_position`: sets the target, restarts the tick clock and
      activates the controller. The loop state is not reset, so a move
      commanded while another is running inherits its integral. */
  function MoveToPosition(c: Controller, position: int, now: u32): (r: Controller)
    ensures r.active && r.target == position && r.lastUpdateTime == now
    ensures r.pid == c.pid && r.telemetry == c.telemetry
    ensures r.(active := c.active, target := c.target, lastUpdateTime := c.lastUpdateTime) == c
    ensures Inv(c) ==> Inv(r)
  {
    c.(target := position, lastUpdateTime := now, active := true)
  }

  /** A tick in the very millisecond a move was commanded, before the
      target is reached, leaves the controller as the move set it and
      commands nothing. */
  lemma SameMillisecondTickIsSkipped(c: Controller, position: int, now: u32, count: int,
                                     pos0: int)
    requires !Arrived(count, position, c.tuning.positionHysteresis)
    ensures MotionTick(MoveToPosition(c, position, now), count, now, pos0)
            == TickOutput(MoveToPosition(c, position, now), None, None)
  {
  }

  /** `setMotionControlConfig`: the eight tuning values are replaced and
      nothing else changes. */
  function SetMotionConfig(c: Controller, t: Tuning): (r: Controller)
    ensures r.tuning == t
    ensures r.(tuning := c.tuning) == c
    ensures Inv(c) ==> Inv(r)
  {
    c.(tuning := t)
  }

  /** `getMotionControlConfig`: the eight tuning values in force; setting
      them again changes nothing. */
  function GetMotionConfig(c: Controller): (t: Tuning)
    ensures SetMotionConfig(c, t) == c
  {
    c.tuning
  }

  /** The getter returns what the setter set, and the setter applied to
      what the getter returned is the identity. */
  lemma MotionConfigRoundTrip(c: Controller, t: Tuning)
    ensures GetMotionConfig(SetMotionConfig(c, t)) == t
    ensures SetMotionConfig(c, GetMotionConfig(c)) == c
  {
  }

  /** `setFullRevolutionCount`. */
  function SetFullRevolutionCount(c: Controller, n: int): (r: Controller)
    ensures r.fullRevolutionCount == n
    ensures r.(fullRevolutionCount := c.fullRevolutionCount) == c
    ensures Inv(c) ==> Inv(r)
  {
    c.(fullRevolutionCount := n)
  }

  /** The snapshot `get_motion_control_info` returns. */
  datatype MotionInfo = MotionInfo(active: bool, target: int, velocity: real,
                                   speedError: real, speedErrorIntegral: real,
                                   speedErrorDerivative: real)

  /** `get_motion_control_info`: reports the debug copies, which under the
      invariant are the loop's own terms, and all zero while idle. */
  function GetMotionInfo(c: Controller): (info: MotionInfo)
    ensures info.active == c.active && info.target == c.target
    ensures info.velocity == c.estimator.velocity
    ensures Inv(c) ==>
      && info.speedError == c.pid.previousError
      && info.speedErrorIntegral == c.pid.integral
      && info.speedErrorDerivative == c.pid.lastDerivative
    ensures Inv(c) && !c.active ==>
      info.speedError == 0.0 && info.speedErrorIntegral == 0.0 && info.speedErrorDerivative == 0.0
  {
    MotionInfo(c.active, c.target, c.estimator.velocity, c.telemetry.speedError,
               c.telemetry.speedErrorIntegral, c.telemetry.speedErrorDerivative)
  }
}
