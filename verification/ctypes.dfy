/** C semantics the firmware relies on: 32-bit ranges, truncating
    division, unsigned wrap-around of millisecond timestamps, NUL-terminated
    strings, and an Option type for values that may be absent. */
module CTypes {

  const INT32_MIN: int := -0x8000_0000
  const INT32_MAX: int := 0x7FFF_FFFF
  const UINT32_MODULUS: int := 0x1_0000_0000

  /** An `unsigned long` / `uint32_t` value on the ESP32. */
  type u32 = x: int | 0 <= x < UINT32_MODULUS

  predicate IsInt32(x: int) {
    INT32_MIN <= x <= INT32_MAX
  }

  datatype Option<T> = None | Some(value: T)

  /** What C code sees of a string: the characters before the terminating
      NUL, so never a NUL itself. */
  type CStr = s: string | '\0' !in s

  function Abs(x: int): (r: nat)
    ensures r == x || r == -x
  {
    if x < 0 then -x else x
  }

  function AbsReal(x: real): (r: real)
    ensures r >= 0.0
    ensures r == x || r == -x
  {
    if x < 0.0 then -x else x
  }

  function MinReal(a: real, b: real): (r: real)
    ensures r <= a && r <= b
    ensures r == a || r == b
  {
    if a <= b then a else b
  }

  function MaxReal(a: real, b: real): (r: real)
    ensures r >= a && r >= b
    ensures r == a || r == b
  {
    if a >= b then a else b
  }

  /** C's `/` on signed integers: the quotient is rounded toward zero, so
      its magnitude is the floor of |a| / |b| and its sign is the product
      of the operands' signs. Dafny's own `/` rounds toward negative
      infinity on a negative dividend, which is why this helper exists. */
  function TruncDiv(a: int, b: int): (q: int)
    requires b != 0
    ensures Abs(q) * Abs(b) <= Abs(a) < (Abs(q) + 1) * Abs(b)
    ensures q != 0 ==> ((q < 0) <==> ((a < 0) != (b < 0)))
  {
    var m := Abs(a) / Abs(b);
    FloorDivBounds(Abs(a), Abs(b));
    if (a < 0) == (b < 0) then m else -m
  }

  lemma FloorDivBounds(n: nat, d: nat)
    requires d > 0
    ensures (n / d) * d <= n < (n / d + 1) * d
  {
    assert n == (n / d) * d + n % d;
  }

  /** Unsigned 32-bit subtraction `a - b`, as `millis()` differences are
      computed: the result wraps around modulo 2^32 instead of going
      negative. */
  function WrapSub(a: u32, b: u32): (r: u32)
    ensures a >= b ==> r == a - b
    ensures a < b ==> r == a - b + UINT32_MODULUS
  {
    (a - b) % UINT32_MODULUS
  }

  /** The conversion of an `int32_t` to `uint32_t`: a negative value wraps
      around to the top half of the unsigned range. */
  function Int32ToU32(x: int): (r: u32)
    requires IsInt32(x)
    ensures x >= 0 ==> r == x
    ensures x < 0 ==> r == x + UINT32_MODULUS
  {
    x % UINT32_MODULUS
  }

  /** Truncating division is odd-symmetric, so for a positive divisor the
      magnitude of the quotient is the floor of the dividend's magnitude
      divided by the divisor. */
  lemma TruncDivAbs(a: int, b: int)
    requires b > 0
    ensures Abs(TruncDiv(a, b)) == Abs(a) / b
  {
  }
}
