/** The drive stage: Arduino's `constrain` and `set_motor1_speed`, which
    turns a signed speed in [-1, 1] into the duty cycles (in percent) of
    the two half-bridge outputs A and B of motor 1. */
module Motor {

  /** Arduino's `constrain(x, lo, hi)`: `lo` below the range, `hi` above
      it, `x` inside it. */
  function Constrain(x: real, lo: real, hi: real): (r: real)
    ensures lo <= hi ==> lo <= r <= hi
    ensures x < lo ==> r == lo
    ensures lo <= x <= hi ==> r == x
    ensures hi < x && lo <= x ==> r == hi
  {
    if x < lo then lo else if x > hi then hi else x
  }

  /** Duty cycles of outputs A and B, in percent. */
  datatype Duty = Duty(a: real, b: real)

  const COAST: Duty := Duty(0.0, 0.0)

  /** `set_motor1_speed`: forward holds A fully on and modulates B,
      reverse holds B fully on and modulates A, and zero lets the motor
      coast with both outputs off. */
  function Motor1Duty(speed: real): (d: Duty)
    ensures 0.0 <= d.a <= 100.0 && 0.0 <= d.b <= 100.0
    ensures d == COAST <==> speed == 0.0
    ensures speed > 0.0 ==> d.a == 100.0
    ensures speed < 0.0 ==> d.b == 100.0
  {
    ClampedDuty(Constrain(speed, -1.0, 1.0))
  }

  /** The duties for a speed already clamped to [-1, 1]. */
  function ClampedDuty(s: real): (d: Duty)
    requires -1.0 <= s <= 1.0
    ensures 0.0 <= d.a <= 100.0 && 0.0 <= d.b <= 100.0
    ensures d == COAST <==> s == 0.0
    ensures s > 0.0 ==> d.a == 100.0
    ensures s < 0.0 ==> d.b == 100.0
  {
    if s > 0.0 then Duty(100.0, 100.0 - s * 100.0)
    else if s < 0.0 then Duty(100.0 - (-s) * 100.0, 100.0)
    else COAST
  }

  /** The signed drive the two outputs apply: the difference of their
      duties, as a fraction of full scale. */
  function Drive(d: Duty): real {
    (d.a - d.b) / 100.0
  }

  /** The duties realise exactly the clamped speed: the mapping loses
      nothing but the clamp. */
  lemma Motor1DutyDrive(speed: real)
    ensures Drive(Motor1Duty(speed)) == Constrain(speed, -1.0, 1.0)
  {
  }

  /** Two speeds give the same duties exactly when they clamp to the same
      value. */
  lemma Motor1DutyInjective(s1: real, s2: real)
    ensures Motor1Duty(s1) == Motor1Duty(s2) <==>
            Constrain(s1, -1.0, 1.0) == Constrain(s2, -1.0, 1.0)
  {
    Motor1DutyDrive(s1);
    Motor1DutyDrive(s2);
    if Motor1Duty(s1) == Motor1Duty(s2) {
      assert Drive(Motor1Duty(s1)) == Drive(Motor1Duty(s2));
    }
  }
}
