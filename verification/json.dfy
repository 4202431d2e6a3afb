/** The JSON documents that the configuration file and the settings
    endpoint exchange, reduced to the value kinds the firmware reads, and
    the two ways the firmware converts a member to a C field:

    - `doc[key] | default` (used when loading): the stored value if it has
      the field's type and fits its range, otherwise the default;
    - the implicit conversion `field = obj[key]` (used by the settings
      endpoint): the stored value if it has the field's type and fits,
      otherwise the type's zero value, and a null pointer for a string. */
module Json {
  import opened CTypes

  /** A member's value. The firmware reads strings only through `const
      char*`, so a string member is represented by what C sees of it: the
      characters before any embedded NUL. */
  datatype Value = Int(i: int) | Str(s: CStr) | Bool(b: bool) | Null

  predicate FitsInt32(v: Value) {
    v.Int? && IsInt32(v.i)
  }

  predicate FitsU32(v: Value) {
    v.Int? && 0 <= v.i < UINT32_MODULUS
  }

  predicate IsDigit(ch: char) {
    '0' <= ch <= '9'
  }

  predicate AllDigits(s: string) {
    forall i :: 0 <= i < |s| ==> IsDigit(s[i])
  }

  /** The number a string of decimal digits spells, most significant
      digit first. */
  function DigitsValue(s: string): (n: nat)
    requires AllDigits(s)
    ensures |s| > 0 ==> n % 10 == (s[|s| - 1] as int) - ('0' as int)
  {
    if |s| == 0 then 0
    else DigitsValue(s[..|s| - 1]) * 10 + ((s[|s| - 1] as int) - ('0' as int))
  }

  /** How ArduinoJson reads a number out of a string member, restricted to
      integers: an optional `-` or `+` followed by at least one decimal
      digit and nothing else. */
  function ParseInteger(s: string): (r: Option<int>)
    ensures r.Some? ==> |s| > 0
    ensures r.Some? && r.value < 0 ==> s[0] == '-'
    ensures r.Some? && (s[0] == '-' || s[0] == '+') ==> |s| > 1 && AllDigits(s[1..])
    ensures r.Some? && s[0] != '-' && s[0] != '+' ==> AllDigits(s)
  {
    if |s| > 1 && (s[0] == '-' || s[0] == '+') && AllDigits(s[1..]) then
      var magnitude: int := DigitsValue(s[1..]);
      Some(if s[0] == '-' then -magnitude else magnitude)
    else if |s| > 0 && AllDigits(s) then
      Some(DigitsValue(s))
    else
      None
  }

  function DigitChar(d: nat): (ch: char)
    requires d < 10
    ensures IsDigit(ch)
    ensures (ch as int) - ('0' as int) == d
  {
    (('0' as int) + d) as char
  }

  /** The decimal text of a natural number, without leading zeros. */
  function NatText(n: nat): (s: string)
    ensures |s| > 0 && AllDigits(s)
  {
    if n < 10 then [DigitChar(n)] else NatText(n / 10) + [DigitChar(n % 10)]
  }

  /** The decimal text of an integer, as a JSON serialiser writes it. */
  function IntText(x: int): (s: CStr)
    ensures |s| > 0
  {
    if x < 0 then "-" + NatText(-x) else NatText(x)
  }

  lemma {:induction false} NatTextValue(n: nat)
    ensures DigitsValue(NatText(n)) == n
  {
    if n >= 10 {
      var s := NatText(n);
      NatTextValue(n / 10);
      assert s[..|s| - 1] == NatText(n / 10);
    }
  }

  /** Reading back the text of an integer gives the integer. */
  lemma IntTextParses(x: int)
    ensures ParseInteger(IntText(x)) == Some(x)
  {
    var t := IntText(x);
    if x < 0 {
      NatTextValue(-x);
      assert t[1..] == NatText(-x);
    } else {
      NatTextValue(x);
    }
  }

  /** The value ArduinoJson converts when a number is asked of a member:
      a string that spells an integer stands for that integer; every
      other member stands for itself. */
  function Numeric(v: Value): (w: Value)
    ensures !v.Str? ==> w == v
    ensures w.Str? ==> w == v
  {
    if v.Str? && ParseInteger(v.s).Some? then Int(ParseInteger(v.s).value) else v
  }

  /** `doc[key] | d` for an `int32_t` field. */
  function OrInt32<K>(doc: map<K, Value>, key: K, d: int): (r: int)
    ensures key in doc && FitsInt32(doc[key]) ==> r == doc[key].i
    ensures !(key in doc && FitsInt32(doc[key])) ==> r == d
  {
    if key in doc && FitsInt32(doc[key]) then doc[key].i else d
  }

  /** `doc[key] | d` for a `uint32_t` field whose default is written as
      an `int` literal: the member is used when it is an integer in `int`
      range and is then converted to `uint32_t`, so a negative member
      wraps around and a member at or above 2^31 yields the default. */
  function OrU32<K>(doc: map<K, Value>, key: K, d: u32): (r: u32)
    ensures key in doc && FitsInt32(doc[key]) && doc[key].i >= 0 ==> r == doc[key].i
    ensures key in doc && FitsInt32(doc[key]) && doc[key].i < 0 ==>
      r == doc[key].i + UINT32_MODULUS
    ensures !(key in doc && FitsInt32(doc[key])) ==> r == d
  {
    if key in doc && FitsInt32(doc[key]) then Int32ToU32(doc[key].i) else d
  }

  /** `doc[key] | d` for a `bool` field. */
  function OrBool<K>(doc: map<K, Value>, key: K, d: bool): (r: bool)
    ensures key in doc && doc[key].Bool? ==> r == doc[key].b
    ensures !(key in doc && doc[key].Bool?) ==> r == d
  {
    if key in doc && doc[key].Bool? then doc[key].b else d
  }

  /** `doc[key] | d` for a `const char*` source. */
  function OrString<K>(doc: map<K, Value>, key: K, d: CStr): (r: CStr)
    ensures key in doc && doc[key].Str? ==> r == doc[key].s
    ensures !(key in doc && doc[key].Str?) ==> r == d
  {
    if key in doc && doc[key].Str? then doc[key].s else d
  }

  /** Implicit conversion of a member to `int32_t`: an integer in range,
      or a string spelling one, is kept and one out of range gives 0; a
      boolean gives 1 or 0, and null gives 0. */
  function AsInt32(v: Value): (r: int)
    ensures IsInt32(r)
    ensures FitsInt32(Numeric(v)) ==> r == Numeric(v).i
    ensures Numeric(v).Int? && !IsInt32(Numeric(v).i) ==> r == 0
    ensures v.Bool? ==> r == if v.b then 1 else 0
    ensures v.Null? ==> r == 0
  {
    match Numeric(v)
    case Int(i) => if IsInt32(i) then i else 0
    case Bool(b) => if b then 1 else 0
    case Str(_) => 0
    case Null => 0
  }

  /** Implicit conversion of a member to `uint32_t`: an integer in range,
      or a string spelling one, is kept and one out of range, negative
      ones included, gives 0; a boolean gives 1 or 0, and null gives 0. */
  function AsU32(v: Value): (r: u32)
    ensures FitsU32(Numeric(v)) ==> r == Numeric(v).i
    ensures Numeric(v).Int? && !FitsU32(Numeric(v)) ==> r == 0
    ensures v.Bool? ==> r == if v.b then 1 else 0
    ensures v.Null? ==> r == 0
  {
    match Numeric(v)
    case Int(i) => if 0 <= i < UINT32_MODULUS then i else 0
    case Bool(b) => if b then 1 else 0
    case Str(_) => 0
    case Null => 0
  }

  /** Implicit conversion of a member to `bool`: a boolean is kept, an
      integer is true when it is not zero, and null is false. */
  function AsBool(v: Value): (r: bool)
    ensures v.Bool? ==> r == v.b
    ensures v.Int? ==> (r <==> v.i != 0)
    ensures v.Null? ==> !r
  {
    match v
    case Bool(b) => b
    case Int(i) => i != 0
    case Str(_) => true
    case Null => false
  }

  /** Implicit conversion of a member to `const char*`: `None` stands for
      the null pointer a non-string member converts to. */
  function AsString(v: Value): (r: Option<CStr>)
    ensures r.Some? <==> v.Str?
    ensures v.Str? ==> r.value == v.s
  {
    if v.Str? then Some(v.s) else None
  }
}
