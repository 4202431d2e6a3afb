/** The quarter-turn logic of `rotator.cpp`: snapping the encoder count to
    the nearest calibrated angle, resolving a commanded angle to an
    encoder target along the shorter way round, and the timed automatic
    rotation. The NeoPixel colour the functions set is an output. */
module Rotator {
  import opened CTypes
  import opened Config
  import opened Motion

  /** The four angles the turret stops at. */
  predicate IsQuarter(angle: int) {
    angle == 0 || angle == 90 || angle == 180 || angle == 270
  }

  /** The firmware state these functions touch: the configuration, the
      motion controller, and the time of the last rotation. */
  datatype Device = Device(config: RotatorConfig, motion: Controller, lastRotationTime: u32)

  /** A new state and the colour sent to the status pixel, if any. */
  datatype Step = Step(device: Device, pixel: Option<u32>)

  /** The calibrated encoder count of a quarter angle; `None` for any other
      angle. */
  function CalibratedPosition(c: RotatorConfig, angle: int): (r: Option<int>)
    ensures r.Some? <==> IsQuarter(angle)
  {
    if angle == 0 then Some(c.pos0)
    else if angle == 90 then Some(c.pos90)
    else if angle == 180 then Some(c.pos180)
    else if angle == 270 then Some(c.pos270)
    else None
  }

  /** `setNeoPixelForAngle`: the colour configured for a quarter angle; no
      colour is set for any other angle. */
  function ColorFor(c: RotatorConfig, angle: int): (r: Option<u32>)
    ensures r.Some? <==> IsQuarter(angle)
  {
    if angle == 0 then Some(c.color0)
    else if angle == 90 then Some(c.color90)
    else if angle == 180 then Some(c.color180)
    else if angle == 270 then Some(c.color270)
    else None
  }

  /** Distance of the count from an angle's calibration point. */
  function Distance(c: RotatorConfig, count: int, angle: int): nat
    requires IsQuarter(angle)
  {
    Abs(count - CalibratedPosition(c, angle).value)
  }

  /** No calibration point is nearer the count than `angle`'s. */
  predicate Nearest(c: RotatorConfig, count: int, angle: int)
    requires IsQuarter(angle)
  {
    && Distance(c, count, angle) <= Distance(c, count, 0)
    && Distance(c, count, angle) <= Distance(c, count, 90)
    && Distance(c, count, angle) <= Distance(c, count, 180)
    && Distance(c, count, angle) <= Distance(c, count, 270)
  }

  /** Every angle before `angle` in the order 0, 90, 180, 270 has its
      calibration point strictly farther from the count. */
  predicate EarlierFarther(c: RotatorConfig, count: int, angle: int)
    requires IsQuarter(angle)
  {
    && (angle > 0 ==> Distance(c, count, 0) > Distance(c, count, angle))
    && (angle > 90 ==> Distance(c, count, 90) > Distance(c, count, angle))
    && (angle > 180 ==> Distance(c, count, 180) > Distance(c, count, angle))
  }

  /** `calculateCurrentAngle`: the quarter angle whose calibration point is
      nearest the raw count, ties going to the earliest of 0, 90, 180,
      270 (`CurrentAngleNearest`). The comparison is on raw counts;
      nothing is taken modulo a revolution. */
  function CurrentAngle(c: RotatorConfig, count: int): (angle: int)
    ensures IsQuarter(angle)
  {
    Closest(Distance(c, count, 0), Distance(c, count, 90), Distance(c, count, 180),
            Distance(c, count, 270))
  }

  /** The comparison chain of `calculateCurrentAngle` on the four
      distances. */
  function Closest(d0: nat, d90: nat, d180: nat, d270: nat): (angle: int)
    ensures IsQuarter(angle)
  {
    if d0 <= d90 && d0 <= d180 && d0 <= d270 then 0
    else if d90 <= d0 && d90 <= d180 && d90 <= d270 then 90
    else if d180 <= d0 && d180 <= d90 && d180 <= d270 then 180
    else 270
  }

  /** The angle returned is nearest the count, and every angle before it
      is strictly farther. */
  lemma CurrentAngleNearest(c: RotatorConfig, count: int)
    ensures Nearest(c, count, CurrentAngle(c, count))
    ensures EarlierFarther(c, count, CurrentAngle(c, count))
  {
    ClosestIsNearest(Distance(c, count, 0), Distance(c, count, 90), Distance(c, count, 180),
                     Distance(c, count, 270));
  }

  /** The comparison chain picks a least distance, and the first of
      equals. */
  lemma ClosestIsNearest(d0: nat, d90: nat, d180: nat, d270: nat)
    ensures var a := Closest(d0, d90, d180, d270);
      var d := if a == 0 then d0 else if a == 90 then d90 else if a == 180 then d180 else d270;
      && d <= d0 && d <= d90 && d <= d180 && d <= d270
      && (a > 0 ==> d0 > d) && (a > 90 ==> d90 > d) && (a > 180 ==> d180 > d)
  {
  }

  /** The two properties pin the angle down: any quarter angle that is
      nearest with earlier angles strictly farther is the one returned. */
  lemma CurrentAngleUnique(c: RotatorConfig, count: int, angle: int)
    requires IsQuarter(angle)
    requires Nearest(c, count, angle)
    requires EarlierFarther(c, count, angle)
    ensures CurrentAngle(c, count) == angle
  {
    CurrentAngleNearest(c, count);
  }

  /** The length of a revolution in counts: four thirds of the span from
      the 0-degree to the 270-degree point, with C's truncating division,
      made non-negative. */
  function FullRevolution(c: RotatorConfig): (r: int)
    ensures r >= 0
    ensures r == (Abs(c.pos270 - c.pos0) * 4) / 3
  {
    var span := (c.pos270 - c.pos0) * 4;
    var f := TruncDiv(span, 3);
    TruncDivAbs(span, 3);
    assert Abs(span) == Abs(c.pos270 - c.pos0) * 4;
    if f < 0 then -f else f
  }

  /** With the factory calibration the formula gives the configured full
      rotation count. */
  lemma DefaultFullRevolution(c: RotatorConfig)
    ensures FullRevolution(ResetToDefaults(c)) == FULL_ROTATION_COUNT
  {
  }

  /** The target the shorter way round: the calibrated target itself, or
      the same point one revolution back or ahead (`ResolveTargetShorter`
      says which). */
  function ResolveTarget(target: int, current: int, fullRevolution: int): (r: int)
    ensures r == target || r == target - fullRevolution || r == target + fullRevolution
  {
    var direct := target - current;
    var alternate := if direct > 0 then direct - fullRevolution else direct + fullRevolution;
    if Abs(direct) <= Abs(alternate) then target
    else if direct > 0 then target - fullRevolution
    else target + fullRevolution
  }

  /** The resolved target is never farther from the current count than
      the calibrated target, and with a non-negative revolution it is the
      nearest of the three candidates; it differs from the calibrated
      target only when that makes the move strictly shorter, so a tie
      keeps the calibrated target. */
  lemma ResolveTargetShorter(target: int, current: int, fullRevolution: int)
    ensures var r := ResolveTarget(target, current, fullRevolution);
      && Abs(r - current) <= Abs(target - current)
      && (fullRevolution >= 0 ==>
            && Abs(r - current) <= Abs(target - fullRevolution - current)
            && Abs(r - current) <= Abs(target + fullRevolution - current))
      && (r != target ==> Abs(r - current) < Abs(target - current))
  {
  }

  /** `rotateToAngle`: an angle other than a quarter does nothing. A
      quarter angle starts a move to its calibration point along the
      shorter way round, shows the angle's colour and restarts the
      automatic-rotation timer. */
  function RotateToAngle(d: Device, angle: int, count: int, now: u32): (r: Step)
    ensures !IsQuarter(angle) ==> r == Step(d, None)
    ensures IsQuarter(angle) ==>
      && r.device.config == d.config
      && r.device.lastRotationTime == now
      && r.pixel == ColorFor(d.config, angle)
      && r.device.motion == MoveToPosition(d.motion, r.device.motion.target, now)
      && r.device.motion.target == TargetFor(d.config, angle, count)
  {
    if !IsQuarter(angle) then Step(d, None)
    else
      Step(Device(d.config, MoveToPosition(d.motion, TargetFor(d.config, angle, count), now), now),
           ColorFor(d.config, angle))
  }

  /** The encoder target a rotation to a quarter angle commands from
      `count`: the angle's calibration point, resolved the shorter way
      round. */
  function TargetFor(c: RotatorConfig, angle: int, count: int): int
    requires IsQuarter(angle)
  {
    ResolveTarget(CalibratedPosition(c, angle).value, count, FullRevolution(c))
  }

  /** The angle after `angle` in the cycle 0, 90, 180, 270, 0. */
  function NextAngle(angle: int): (r: int)
    requires IsQuarter(angle)
    ensures IsQuarter(r)
    ensures r == if angle == 270 then 0 else angle + 90
  {
    (angle + 90) % 360
  }

  /** `moveToNextPosition`: rotate to the quarter after the current one. */
  function MoveToNextPosition(d: Device, count: int, now: u32): (r: Step)
    ensures r.device.config == d.config
    ensures r.device.motion == MoveToPosition(d.motion, r.device.motion.target, now)
    ensures r.device.motion.active
    ensures r.device.motion.target == TargetFor(d.config, NextAngle(CurrentAngle(d.config, count)), count)
    ensures r.device.lastRotationTime == now
    ensures r.pixel == ColorFor(d.config, NextAngle(CurrentAngle(d.config, count)))
    ensures r.pixel.Some?
  {
    RotateToAngle(d, NextAngle(CurrentAngle(d.config, count)), count, now)
  }

  /** Whole seconds since the last rotation, from an unsigned `millis()`
      difference, so correct across the counter's wrap-around. */
  function ElapsedSeconds(lastRotationTime: u32, now: u32): (r: nat)
    ensures now >= lastRotationTime ==> r == (now - lastRotationTime) / 1000
  {
    WrapSub(now, lastRotationTime) / 1000
  }

  /** A rotation `ms` milliseconds after the last one, fewer than 2^32 of
      them, is measured correctly even when the clock wrapped in between. */
  lemma ElapsedAcrossWrap(lastRotationTime: u32, ms: nat)
    requires ms < UINT32_MODULUS
    ensures ElapsedSeconds(lastRotationTime, ((lastRotationTime + ms) % UINT32_MODULUS) as u32)
            == ms / 1000
  {
    var now := (lastRotationTime + ms) % UINT32_MODULUS;
    if lastRotationTime + ms >= UINT32_MODULUS {
      assert now == lastRotationTime + ms - UINT32_MODULUS;
    }
  }

  /** `processAutoRotation`: nothing happens while automatic rotation is
      off or a move is running; otherwise the next quarter is commanded
      once the configured number of seconds has passed. */
  function ProcessAutoRotation(d: Device, count: int, now: u32): (r: Step)
    ensures !d.config.autoRotationEnabled || d.motion.active ==> r == Step(d, None)
    ensures d.config.autoRotationEnabled && !d.motion.active ==>
      if ElapsedSeconds(d.lastRotationTime, now) >= d.config.rotationInterval
      then r == MoveToNextPosition(d, count, now) && r.device.motion.active
      else r == Step(d, None)
  {
    if !d.config.autoRotationEnabled || d.motion.active then Step(d, None)
    else if ElapsedSeconds(d.lastRotationTime, now) >= d.config.rotationInterval then
      MoveToNextPosition(d, count, now)
    else Step(d, None)
  }

  /** `setupRotator`: starts the rotation timer and shows the colour of
      the angle the turret is at. */
  function SetupRotator(d: Device, count: int, now: u32): (r: Step)
    ensures r.device == d.(lastRotationTime := now)
    ensures r.pixel == ColorFor(d.config, CurrentAngle(d.config, count))
    ensures r.pixel.Some?
  {
    Step(d.(lastRotationTime := now), ColorFor(d.config, CurrentAngle(d.config, count)))
  }

  /** Calibration points and counts within 2^27 of zero keep every
      intermediate of `rotateToAngle` inside `int32_t`, so the exact
      arithmetic here is what the firmware computes. */
  lemma RotateToAngleFitsInt32(c: RotatorConfig, angle: int, count: int)
    requires IsQuarter(angle)
    requires Abs(c.pos0) <= 0x800_0000 && Abs(c.pos90) <= 0x800_0000
    requires Abs(c.pos180) <= 0x800_0000 && Abs(c.pos270) <= 0x800_0000
    requires Abs(count) <= 0x800_0000
    ensures IsInt32((c.pos270 - c.pos0) * 4)
    ensures 0 <= FullRevolution(c) <= 0x4000_0000
    ensures var t := CalibratedPosition(c, angle).value;
      && IsInt32(t - count)
      && IsInt32(t - count - FullRevolution(c)) && IsInt32(t - count + FullRevolution(c))
      && IsInt32(ResolveTarget(t, count, FullRevolution(c)))
  {
    var span := Abs(c.pos270 - c.pos0) * 4;
    assert span <= 0x4000_0000;
    assert FullRevolution(c) <= span;
    ResolveTargetFitsInt32(CalibratedPosition(c, angle).value, count, FullRevolution(c));
  }

  lemma ResolveTargetFitsInt32(t: int, count: int, full: int)
    requires Abs(t) <= 0x800_0000 && Abs(count) <= 0x800_0000
    requires 0 <= full <= 0x4000_0000
    ensures IsInt32(t - count)
    ensures IsInt32(t - count - full) && IsInt32(t - count + full)
    ensures IsInt32(ResolveTarget(t, count, full))
  {
  }
}
