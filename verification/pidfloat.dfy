/** The derivative term of the velocity loop in `update_motion_control` as
    the firmware evaluates it in floating point, kept apart from the
    real-valued model in `Motion` to show what happens when the tick comes
    in the same millisecond as the last update: the divisor `dt_ms / 1000.0`
    is zero. IEEE arithmetic is reduced to what that needs: finite values
    are exact reals (no rounding, no overflow), signed zero is not
    distinguished, and a zero divisor is taken as +0. */
module PidFloat {
  import opened CTypes
  import opened Motor
  import opened Profile
  import opened Config

  /** A float: a finite value, NaN, or an infinity of the given sign. */
  datatype Float = Num(x: real) | NaN | Inf(negative: bool)

  function Neg(a: Float): (r: Float)
    ensures a.NaN? <==> r.NaN?
  {
    match a
    case Num(x) => Num(-x)
    case NaN => NaN
    case Inf(n) => Inf(!n)
  }

  /** IEEE addition: NaN absorbs, opposite infinities give NaN. */
  function Add(a: Float, b: Float): (r: Float)
    ensures a.NaN? || b.NaN? ==> r.NaN?
    ensures a.Num? && b.Num? ==> r == Num(a.x + b.x)
  {
    match (a, b)
    case (NaN, _) => NaN
    case (_, NaN) => NaN
    case (Inf(m), Inf(n)) => if m == n then Inf(m) else NaN
    case (Inf(m), Num(_)) => Inf(m)
    case (Num(_), Inf(n)) => Inf(n)
    case (Num(x), Num(y)) => Num(x + y)
  }

  function Sub(a: Float, b: Float): (r: Float)
    ensures a.NaN? || b.NaN? ==> r.NaN?
    ensures a.Num? && b.Num? ==> r == Num(a.x - b.x)
  {
    Add(a, Neg(b))
  }

  /** IEEE multiplication: NaN absorbs, and zero times an infinity is
      NaN. */
  function Mul(a: Float, b: Float): (r: Float)
    ensures a.NaN? || b.NaN? ==> r.NaN?
    ensures a.Num? && b.Num? ==> r == Num(a.x * b.x)
  {
    if a.NaN? || b.NaN? then NaN
    else if a.Num? && b.Num? then Num(a.x * b.x)
    else if a.Inf? && b.Inf? then Inf(a.negative != b.negative)
    else if a.Inf? then (if b.x == 0.0 then NaN else Inf(a.negative != (b.x < 0.0)))
    else if a.x == 0.0 then NaN else Inf(b.negative != (a.x < 0.0))
  }

  /** IEEE division: zero over zero is NaN and anything else non-zero
      over zero is an infinity. */
  function Div(a: Float, b: Float): (r: Float)
    ensures a.NaN? || b.NaN? ==> r.NaN?
    ensures a == Num(0.0) && b == Num(0.0) ==> r.NaN?
    ensures a.Num? && a.x != 0.0 && b == Num(0.0) ==> r == Inf(a.x < 0.0)
    ensures a.Num? && b.Num? && b.x != 0.0 ==> r == Num(a.x / b.x)
  {
    match (a, b)
    case (NaN, _) => NaN
    case (_, NaN) => NaN
    case (Inf(_), Inf(_)) => NaN
    case (Inf(m), Num(y)) => if y == 0.0 then Inf(m) else Inf(m != (y < 0.0))
    case (Num(_), Inf(_)) => Num(0.0)
    case (Num(x), Num(y)) =>
      if y != 0.0 then Num(x / y) else if x == 0.0 then NaN else Inf(x < 0.0)
  }

  /** `a < b`: every comparison with NaN is false. */
  predicate Less(a: Float, b: Float) {
    match (a, b)
    case (NaN, _) => false
    case (_, NaN) => false
    case (Inf(m), Inf(n)) => m && !n
    case (Inf(m), Num(_)) => m
    case (Num(_), Inf(n)) => !n
    case (Num(x), Num(y)) => x < y
  }

  /** Arduino's `constrain(x, -1, 1)` on a float: both comparisons fail
      for NaN, which therefore passes through. */
  function ConstrainUnit(v: Float): (r: Float)
    ensures v.NaN? ==> r.NaN?
    ensures !v.NaN? ==> r.Num? && -1.0 <= r.x <= 1.0
    ensures v.Num? ==> r == Num(Constrain(v.x, -1.0, 1.0))
  {
    if Less(v, Num(-1.0)) then Num(-1.0) else if Less(Num(1.0), v) then Num(1.0) else v
  }

  /** `set_motor1_speed` on a float: the two sign tests fail for NaN, so
      NaN falls to the coasting branch. */
  function MotorDuty(speed: Float): (d: Duty)
    ensures speed.NaN? ==> d == COAST
    ensures speed.Num? ==> d == Motor1Duty(speed.x)
  {
    var s := ConstrainUnit(speed);
    if s.Num? then ClampedDuty(s.x) else COAST
  }

  /** The filtered derivative as written at main.cpp:358, evaluated left
      to right: `(1 - q) * (e - e_prev) / (dt_ms / 1000.0) + q * d_prev`. */
  function DerivativeAsWritten(q: Float, error: Float, previousError: Float,
                               lastDerivative: Float, dtMs: u32): (r: Float)
    ensures q.NaN? || error.NaN? || previousError.NaN? || lastDerivative.NaN? ==> r.NaN?
    ensures dtMs == 0 && q.Num? && error.Num? && error == previousError && lastDerivative.Num? ==>
      r.NaN?
    ensures dtMs > 0 && q.Num? && error.Num? && previousError.Num? && lastDerivative.Num? ==>
      r.Num?
  {
    Add(Div(Mul(Sub(Num(1.0), q), Sub(error, previousError)), Num((dtMs as real) / 1000.0)),
        Mul(q, lastDerivative))
  }

  /** The drive as written at main.cpp:359, before negation. */
  function DriveAsWritten(p: Float, i: Float, d: Float, error: Float, integral: Float,
                          derivative: Float): (r: Float)
    ensures p.NaN? || i.NaN? || d.NaN? || error.NaN? || integral.NaN? || derivative.NaN? ==>
      r.NaN?
    ensures !r.NaN? ==> r.Num? && -1.0 <= r.x <= 1.0
    ensures p.Num? && i.Num? && d.Num? && error.Num? && integral.Num? && derivative.Num? ==>
      r == Num(Constrain(p.x * error.x + i.x * integral.x + d.x * derivative.x, -1.0, 1.0))
  {
    ConstrainUnit(Add(Add(Mul(p, error), Mul(i, integral)), Mul(d, derivative)))
  }

  /** In a tick with `dt_ms == 0` whose speed error equals the previous
      one, the derivative is 0/0, NaN. */
  lemma SameMillisecondDerivativeIsNaN(q: real, error: real, lastDerivative: real)
    ensures DerivativeAsWritten(Num(q), Num(error), Num(error), Num(lastDerivative), 0).NaN?
  {
    assert Sub(Num(error), Num(error)) == Num(0.0);
    assert Mul(Sub(Num(1.0), Num(q)), Num(0.0)) == Num(0.0);
  }

  /** With a different error and a persistence other than 1 it is an
      infinity instead. */
  lemma SameMillisecondDerivativeIsInfinite(q: real, error: real, previousError: real,
                                            lastDerivative: real)
    requires q != 1.0 && error != previousError
    ensures DerivativeAsWritten(Num(q), Num(error), Num(previousError), Num(lastDerivative), 0).Inf?
  {
    var n := (1.0 - q) * (error - previousError);
    NonzeroProduct(1.0 - q, error - previousError);
    assert Mul(Sub(Num(1.0), Num(q)), Sub(Num(error), Num(previousError))) == Num(n);
  }

  lemma NonzeroProduct(a: real, b: real)
    requires a != 0.0 && b != 0.0
    ensures a * b != 0.0
  {
    if a > 0.0 {
      if b > 0.0 { assert a * b > 0.0; } else { assert a * b < 0.0; }
    } else {
      if b > 0.0 { assert a * b < 0.0; } else { assert a * b > 0.0; }
    }
  }

  /** Once the stored derivative is NaN, every later derivative is NaN:
      `q * NaN` is NaN even for `q == 0`, and the loop keeps the value
      until arrival resets it. */
  lemma NaNPersists(q: real, error: real, previousError: real, dtMs: u32)
    ensures DerivativeAsWritten(Num(q), Num(error), Num(previousError), NaN, dtMs).NaN?
  {
  }

  /** A NaN derivative makes the drive NaN, whatever the gains (`0 * NaN`
      is NaN), and the motor coasts: the motion never ends by itself, and
      automatic rotation waits for it forever. */
  lemma NaNDerivativeCoasts(p: real, i: real, d: real, error: real, integral: real)
    ensures DriveAsWritten(Num(p), Num(i), Num(d), Num(error), Num(integral), NaN).NaN?
    ensures MotorDuty(Neg(DriveAsWritten(Num(p), Num(i), Num(d), Num(error), Num(integral), NaN)))
            == COAST
  {
  }

  /** The case arises on the first tick of a move from rest that falls in
      the millisecond the move was commanded: with the loop reset and the
      axis still, the profile asks for velocity 0, so the error is 0, the
      same as the stored one, and the derivative is NaN. */
  lemma MoveFromRestSameMillisecond(count: int, target: int)
    requires count != target
    ensures var v := TrapezoidalProfile(count, target, 0.0, DEFAULT_MAX_SPEED,
                                        DEFAULT_ACCELERATION, 0);
      && v == 0.0
      && DerivativeAsWritten(Num(DEFAULT_SPD_ERR_PERSISTENCE), Num(v - 0.0), Num(0.0),
                             Num(0.0), 0).NaN?
  {
    var v := TrapezoidalProfile(count, target, 0.0, DEFAULT_MAX_SPEED, DEFAULT_ACCELERATION, 0);
    assert !Decelerating(Abs(target - count) as real, 0.0, DEFAULT_ACCELERATION);
    assert v == 0.0;
    SameMillisecondDerivativeIsNaN(DEFAULT_SPD_ERR_PERSISTENCE, 0.0, 0.0);
  }

  /** With a tick of positive length, as the corrected loop in `Motion`
      requires, the float derivative of finite values is the finite value
      the real model computes. */
  lemma PositiveDtDerivativeIsFinite(q: real, error: real, previousError: real,
                                     lastDerivative: real, dtMs: u32)
    requires dtMs > 0
    ensures DerivativeAsWritten(Num(q), Num(error), Num(previousError), Num(lastDerivative), dtMs)
            == Num((1.0 - q) * ((error - previousError) / ((dtMs as real) / 1000.0))
                   + q * lastDerivative)
  {
    var dt := (dtMs as real) / 1000.0;
    var e := error - previousError;
    assert dt > 0.0;
    assert (1.0 - q) * e / dt == (1.0 - q) * (e / dt);
  }
}
