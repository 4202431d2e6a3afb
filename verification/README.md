# Rotator firmware core in Dafny

A model of the positioning core of an ESP32 turntable ("rotator") firmware.
The turntable is driven by a DC motor with a quadrature encoder. It turns
between four calibrated quarter-turn positions (0, 90, 180 and 270 degrees),
shows a colour per position on a NeoPixel, and can rotate to the next
quarter on a timer.

The model covers these parts:

- **Rotator** (`rotator.cpp`):
  - Snapping the raw encoder count to the nearest calibrated quarter.
  - Resolving a commanded angle to an encoder target, taking the shorter
    way round.
  - Automatic rotation on an unsigned `millis()` timer and the 0 → 90 →
    180 → 270 → 0 sequence.
  - The colour chosen for each angle.
- **Motion** (`main.cpp`):
  - The motion controller as one explicit state record.
  - The encoder-velocity callback and the motion-control tick as pure step
    functions: arrival with hysteresis, encoder unwrapping, the trapezoidal
    velocity profile, the velocity PID loop and the clamp.
  - `move_to_position`, the motion-config setter and getter,
    `setFullRevolutionCount` and `get_motion_control_info`.
- **Profile** (`main.cpp`): `generate_trapezoidal_profile` over reals, and
  what it does when fed back into itself while the axis sits on its target.
- **Motor** (`main.cpp`): `set_motor1_speed`, the clamp followed by the
  three-way duty mapping.
- **Config** (`config.h`, `config.cpp`):
  - The `RotatorConfig` record, its defaults and `resetToDefaultConfig`.
  - The 12-key mapping of `loadConfiguration` / `saveConfiguration` to the
    JSON configuration file.
- **Json**: the few ArduinoJson conversions the code relies on. These are
  `doc[key] | default` on load and the implicit `as<T>()` in the settings
  handler.
- **WebApi** (`wifi_manager.cpp`): the decision logic of `/api/status`,
  `/api/config`, `/api/settings`, `/api/rotate`, `/api/set-zero`,
  `/api/goto` and `/api/reset`, as pure functions from the device state
  and the request to the new state, the response and the side effects
  (NeoPixel colour, configuration saved).
- **HtmlHeader** (`html_to_header.py`): `escape_string` and
  `html_index_size`, the build step that embeds the web page as a C string
  literal.
- **PidFloat**: the derivative term of the velocity loop in IEEE-style
  floating point, kept apart to show the zero-length-tick defect (see
  Findings).
- **CTypes**: helpers for the C semantics the code depends on:
  - `abs`;
  - division truncating toward zero;
  - wrap-around subtraction of `unsigned long` clock values;
  - the `int32_t` range;
  - NUL-free C strings.

Integers are unbounded `int`. The `int32_t` range (`IsInt32`) is part of
`Config.Valid` for the calibration points and the revolution count, of
the JSON conversions, and of the `/api/goto` position. Counts, targets
and the controller's revolution count are unbounded, and differences are
exact (see Left out). The model proves that calibrations of realistic
size cannot overflow the target arithmetic of `rotateToAngle`. Unsigned `millis()` differences are taken modulo 2^32.
Floats are reals, except in `PidFloat`.

The hardware is abstracted. The encoder count and the clock are inputs of
each step. The motor command, the NeoPixel colour, the encoder reset and
the configuration document to be written are outputs.

## Model

| member | source | states |
|---|---|---|
| CTypes.TruncDiv | firmware/src/rotator.cpp:78 | C's `/` on `int32_t` truncates toward zero: the quotient's magnitude is the floor of \|a\|/\|b\|, and its sign is negative exactly when the operands' signs differ |
| CTypes.TruncDivAbs | firmware/src/rotator.cpp:78-79 | for a positive divisor, the magnitude of the truncated quotient is \|a\| divided by the divisor, rounded down |
| CTypes.WrapSub | firmware/src/rotator.cpp:115 | an `unsigned long` difference of two clock readings is the true difference, plus 2^32 when the clock wrapped in between |
| CTypes.Int32ToU32 | firmware/src/config.cpp:74-80 | an `int32_t` converted to `uint32_t` is unchanged when not negative and wraps to itself plus 2^32 otherwise |
| Json.OrInt32 | firmware/src/config.cpp:68-71 | `doc[key] \| default` for an `int32_t` field: the stored integer when present and in range, the default otherwise |
| Json.OrU32 | firmware/src/config.cpp:74-80 | `doc[key] \| default` for a `uint32_t` field whose default is an `int` literal: an integer in `int` range is taken, a negative one wrapped to itself plus 2^32; any other value, integers at or above 2^31 included, gives the default |
| Json.OrBool | firmware/src/config.cpp:81 | the same for a `bool` field |
| Json.OrString | firmware/src/config.cpp:60-65 | the same for a string field |
| Json.AsInt32 | firmware/src/wifi_manager.cpp:143 | assigning a JSON value to an `int32_t`: an integer that fits, or a string spelling one in decimal, is kept; an integer out of range and null give 0; `true` and `false` give 1 and 0 |
| Json.AsU32 | firmware/src/wifi_manager.cpp:160 | the same for a `uint32_t`: negative integers count as out of range and give 0 |
| Json.AsBool | firmware/src/wifi_manager.cpp:181 | assigning to a `bool`: a boolean is kept, an integer is true exactly when it is not 0, and null is false |
| Json.AsString | firmware/src/wifi_manager.cpp:134 | reading a string gives one exactly when the value is a string; anything else gives a null pointer |
| Json.IntTextParses | firmware/src/wifi_manager.cpp:143 | a string holding the decimal text of an integer is read back as that integer, so such a member converts like the integer itself |
| Config.StrlCpy | firmware/src/config.cpp:60-65 | `strlcpy` into a buffer of `size` characters keeps a prefix of the source that fits with its terminator, and keeps the whole source when it fits |
| Config.ResetToDefaults | firmware/src/config.cpp:9-32 | every persisted field takes its default (positions, colours, interval, access-point name and password, and automatic rotation off); every other field is unchanged; validity is kept |
| Config.SaveConfiguration | firmware/src/config.cpp:90-111 | the saved document holds exactly the 12 persisted keys, each with its field's value |
| Config.LoadedOrDefault | firmware/src/config.cpp:59-81 | whatever loading yields for a key is a value the key's C field can hold |
| Config.KeyNamesDistinct | firmware/src/config.cpp:93-111 | the twelve member names are distinct, so no two fields share a member |
| Config.LoadFromDoc | firmware/src/config.cpp:59-81 | loading changes no field outside the 12 keys (WiFi client, mDNS, revolution count, tuning) and keeps the strings within their buffers |
| Config.LoadFromDocFields | firmware/src/config.cpp:59-81 | after loading, each persisted field is the document's value when it is present and `doc[key] \| default` takes it (a string truncated to its buffer, a negative colour or interval wrapped into `uint32_t`), and the field's default otherwise |
| Config.LoadConfiguration | firmware/src/config.cpp:37-85 | a missing file resets to defaults, asks for the defaults to be written and fails; an unopenable or unparsable file fails with the record unchanged; a parsed file succeeds and loads key by key |
| Config.LoadSaveRoundTrip | firmware/src/config.cpp:59-111 | loading what was saved gives back the saved record's 12 persisted fields, provided its colours and interval are below 2^31, and keeps the loading record's other fields |
| Config.LoadSaveRoundTripExactly | firmware/src/config.cpp:74-80 | for a valid record that bound is also necessary: the round trip holds exactly when every colour and the interval are below 2^31 |
| Config.LargeColorReloadsAsDefault | firmware/src/config.cpp:74 | a colour at or above 2^31 is saved as is but loads back as the default colour |
| Config.NegativeColorWraps | firmware/src/config.cpp:74 | a colour of -1 in the file loads as 0xFFFFFFFF |
| Config.SaveLoadRoundTrip | firmware/src/config.cpp:59-111 | conversely, a document holding under every key a value that loading keeps as it is (taken by `doc[key] \| default`, a string within its buffer, a colour or interval not negative) is saved back unchanged after a load |
| Config.DefaultCalibrationEvenlySpaced | firmware/src/config.h:21-25 | the default quarter positions start at 0 and are 39375 counts apart, and the full rotation count is four quarters |
| Config.DefaultTuningRanges | firmware/src/config.h:37-44 | the default hysteresis is 20, speed 4000 and acceleration 2000, and both filter persistences lie in [0, 1) |
| Rotator.CalibratedPosition | firmware/src/rotator.cpp:56-72 | an angle has a calibration point exactly when it is 0, 90, 180 or 270; any other angle hits the `default` branch |
| Rotator.ColorFor | firmware/src/rotator.cpp:136-158 | an angle has a colour exactly when it is a quarter angle |
| Rotator.CurrentAngle | firmware/src/rotator.cpp:36-44 | the current angle is always 0, 90, 180 or 270 |
| Rotator.CurrentAngleNearest | firmware/src/rotator.cpp:31-44 | the returned angle's calibration point is at least as near the count as every other one, and every earlier angle in the order 0, 90, 180, 270 is strictly farther |
| Rotator.CurrentAngleUnique | firmware/src/rotator.cpp:31-44 | those two properties determine the result: any quarter angle that has them is the one returned |
| Rotator.FullRevolution | firmware/src/rotator.cpp:78-79 | the revolution length is non-negative and equals \|pos_270 − pos_0\| · 4 / 3, rounded down |
| Rotator.DefaultFullRevolution | firmware/src/rotator.cpp:78-79 | with the factory calibration the formula gives `FULL_ROTATION_COUNT` |
| Rotator.ResolveTarget | firmware/src/rotator.cpp:82-90 | the final target is the calibrated target, or that target one revolution back or ahead, and nothing else |
| Rotator.ResolveTargetShorter | firmware/src/rotator.cpp:82-90 | the chosen move is never longer than the direct move, and it departs from the direct target only when that is strictly shorter |
| Rotator.RotateToAngle | firmware/src/rotator.cpp:51-103 | an invalid angle changes nothing and sets no colour; a quarter angle moves to the resolved target, sets that angle's colour and restarts the rotation timer |
| Rotator.RotateToAngleFitsInt32 | firmware/src/rotator.cpp:78-90 | with calibration points and count within ±2^27, every intermediate of the target computation fits in `int32_t` |
| Rotator.NextAngle | firmware/src/rotator.cpp:128 | `(angle + 90) % 360` on a quarter angle is the next quarter, with 270 going to 0 |
| Rotator.MoveToNextPosition | firmware/src/rotator.cpp:126-131 | the device starts a move to the resolved target of the quarter after the current one, shows that quarter's colour and restarts the timer; the configuration and the rest of the motion state are unchanged |
| Rotator.ElapsedSeconds | firmware/src/rotator.cpp:115 | whole seconds since the last rotation; without a wrap this is the plain difference divided by 1000 |
| Rotator.ElapsedAcrossWrap | firmware/src/rotator.cpp:115 | the elapsed seconds are right even when the clock wrapped since the last rotation |
| Rotator.ProcessAutoRotation | firmware/src/rotator.cpp:109-121 | nothing happens while automatic rotation is off or a move is running; otherwise the device moves to the next quarter exactly when the interval has elapsed |
| Rotator.SetupRotator | firmware/src/rotator.cpp:13-22 | setup only restarts the rotation timer and shows the current quarter's colour |
| Motor.Constrain | firmware/src/main.cpp:449 | Arduino's `constrain` keeps a value within the bounds and leaves values inside them unchanged |
| Motor.Motor1Duty | firmware/src/main.cpp:447-470 | both duties stay within [0, 100]; the motor coasts (both 0) exactly when the speed is 0; forward drive holds A at 100 and reverse holds B at 100 |
| Motor.Motor1DutyDrive | firmware/src/main.cpp:447-470 | the speed can be read back from the duty pair: it is the clamped speed |
| Motor.Motor1DutyInjective | firmware/src/main.cpp:447-470 | two speeds give the same duties exactly when they clamp to the same value |
| Profile.TrapezoidalProfile | firmware/src/main.cpp:409-441 | with a non-negative limit and acceleration, the result points toward the target: ≥ 0 when the target is ahead, ≤ 0 otherwise, including at zero distance. Its magnitude stays within the speed limit when the input velocity is within it |
| Profile.ProfileSpeed | firmware/src/main.cpp:420-437 | decelerating never raises the speed and never goes below 0; accelerating never lowers it and never goes above the limit; the cruise branch holds the limit |
| Profile.OnTargetTick | firmware/src/main.cpp:420-427 | with positive acceleration, a tick at zero distance always decelerates: one step comes off the speed, down to zero |
| Profile.HoldAtTargetDrains | firmware/src/main.cpp:345-353 | feeding the profile back into itself on target takes one step off the speed per tick, clamped at zero |
| Profile.DrainedClosedForm | firmware/src/main.cpp:427 | clamping after each step is the same as clamping once after all of them |
| Profile.StopsOnTarget | firmware/src/main.cpp:345-353 | once the steps add up to the initial speed, the profile velocity held on target is exactly 0 |
| Motion.BootInv | firmware/src/main.cpp:286-289 | the power-up state satisfies the controller invariant: the debug copies mirror the loop terms, and an idle controller holds a zeroed loop |
| Motion.BlendBetween | firmware/src/main.cpp:272 | the filtered value `(1 − p)·x + p·y` with `p` in [0, 1] lies between `x` and `y` |
| Motion.EncoderStatus | firmware/src/main.cpp:264-279 | the sample is always recorded; the velocity changes only when the clock moved; the new velocity is the fresh rate, the old estimate or a value between them, by persistence |
| Motion.EncoderTick | firmware/src/main.cpp:264-279 | the encoder callback changes only the velocity estimate and keeps the controller invariant |
| Motion.Unwrap | firmware/src/main.cpp:311-335 | the count is rebased exactly when the revolution length is positive and the count is more than one revolution from pos_0. The new count is one revolution nearer pos_0, on the same side of it |
| Motion.Arrived | firmware/src/main.cpp:295 | the axis counts as arrived exactly when the count lies within the hysteresis of the target, on either side |
| Motion.PidStep | firmware/src/main.cpp:345-361 | the profile velocity is stored; the error is target minus estimate; the integral grows by error · dt; the filtered derivative lies between the difference quotient and its previous value; the drive is the clamped PID sum, in [-1, 1] |
| Motion.MotionTick | firmware/src/main.cpp:281-378 | idle ticks do nothing. On arrival the motor gets 0, the controller goes idle, the loop and the debug copies are zeroed, and the count may be unwrapped. Otherwise the new loop state and the motor command are those of one `PidStep` over the elapsed time, the motor getting the negated clamped drive. Target, estimate, tuning and revolution count never change, and the invariant is kept |
| Motion.TickKeepsSpeedLimit | firmware/src/main.cpp:345-353 | a tick never takes the stored profile velocity beyond the speed limit |
| Motion.MoveToPosition | firmware/src/main.cpp:391-403 | only the target, the tick clock and the active flag change; the loop state is not reset |
| Motion.SameMillisecondTickIsSkipped | firmware/src/main.cpp:292 | in the corrected tick, a tick in the millisecond a move was commanded changes nothing |
| Motion.SetMotionConfig | firmware/src/main.cpp:532-548 | the tuning becomes exactly the eight values set, and nothing else changes |
| Motion.GetMotionConfig | firmware/src/main.cpp:516-527 | the getter returns the tuning in force: setting those values again changes nothing |
| Motion.MotionConfigRoundTrip | firmware/src/main.cpp:516-548 | the getter returns what the setter set, and setting what the getter returned is the identity |
| Motion.SetFullRevolutionCount | firmware/src/main.cpp:553-556 | only the revolution count changes |
| Motion.GetMotionInfo | firmware/src/main.cpp:562-571 | the snapshot reports the active flag, target and velocity; under the invariant its error terms are the loop's own, and all zero while idle |
| WebApi.HandleStatus | firmware/src/wifi_manager.cpp:76-96 | the status holds the count; the quarter angle nearest it, ties going to the earliest of 0, 90, 180, 270, which is `calculateCurrentAngle`'s result; the automatic-rotation flag; and that angle's colour, which is always present |
| WebApi.StatusColorMatchesSetup | firmware/src/wifi_manager.cpp:85-91 | the colour reported is the one setup shows for the same count |
| WebApi.ConfigView | firmware/src/wifi_manager.cpp:99-125 | the config view holds every persisted key except `auto_rotation_enabled`, each with its field's value |
| WebApi.ConfigViewRoundTrip | firmware/src/wifi_manager.cpp:99-182 | posting the config view back to `/api/settings` succeeds and restores the eleven fields it shows, leaving the automatic-rotation flag and all unpersisted fields alone |
| WebApi.SettingValue | firmware/src/wifi_manager.cpp:133-182 | a settings value is stored as the field's type converts it; only a non-string for a string field fails; every stored value fits the field's C type, and a value that already fits is stored as it is |
| WebApi.FaultsByKey | firmware/src/wifi_manager.cpp:133-139 | a settings request reads a null string pointer exactly when some present key holds a value that cannot be stored |
| WebApi.MergeSettings | firmware/src/wifi_manager.cpp:133-182 | the merge fails exactly on a faulting request; otherwise unpersisted fields are unchanged and validity is kept |
| WebApi.MergeSettingsFields | firmware/src/wifi_manager.cpp:133-182 | each persisted field takes the converted request value when its key is present and keeps its value otherwise |
| WebApi.MergeSettingsIdempotent | firmware/src/wifi_manager.cpp:133-182 | applying the same settings twice is applying them once |
| WebApi.SettingsFromSaved | firmware/src/wifi_manager.cpp:133-182 | posting a saved configuration file as settings never faults, and it installs exactly its 12 persisted fields |
| WebApi.HandleSettings | firmware/src/wifi_manager.cpp:128-189 | a non-faulting request answers 200 "Settings updated", installs the merged record and saves it |
| WebApi.SettingsNotObject | firmware/src/wifi_manager.cpp:130 | a body that is not a JSON object changes nothing, yet it is still saved and answered with 200 |
| WebApi.HandleRotate | firmware/src/wifi_manager.cpp:193-209 | a missing angle or a non-quarter angle gives 400 with its message and no change; otherwise `rotateToAngle` is called once and 200 is returned |
| WebApi.RotateAcrossWrap | firmware/src/rotator.cpp:74-90 | with the factory calibration, rotating from 270 to 0 ends one revolution up at count 157500; a count the arrival test accepts at or below that point is not rebased (revolution count 0 or the calibrated one), status then reports 270, and the next automatic rotation aims at the same point |
| WebApi.HandleGoto | firmware/src/wifi_manager.cpp:239-259 | a missing position gives 400. A position beyond ±2000000 gives 400 and no change. Any other position is passed unchanged to `move_to_position` with 200 |
| WebApi.GotoGuardAdmitsInt32Min | firmware/src/wifi_manager.cpp:249 | if `abs` wraps, the guard accepts INT32_MIN, which is far outside the range |
| WebApi.GotoGuardAgreesElsewhere | firmware/src/wifi_manager.cpp:249 | for every other `int32_t`, the guard accepts exactly what the corrected handler accepts |
| WebApi.AbsInt32AsWritten | firmware/src/wifi_manager.cpp:249 | `abs` on `int32_t` when it wraps: the magnitude, except for INT32_MIN (undefined in C), which stays negative |
| WebApi.GotoAcceptsAsWritten | firmware/src/wifi_manager.cpp:249 | if `abs` wraps, the guard lets through exactly the positions within ±2000000 and INT32_MIN |
| WebApi.ShiftCalibration | firmware/src/wifi_manager.cpp:216-225 | moving the origin keeps the distances between calibration points |
| WebApi.ShiftCalibrationFrame | firmware/src/wifi_manager.cpp:221-225 | only the four calibration points change |
| WebApi.HandleSetZero | firmware/src/wifi_manager.cpp:212-236 | the count becomes the origin and the configuration is saved; the encoder and motion state are untouched; a valid record stays valid exactly when every shifted calibration point fits `int32_t` |
| WebApi.ShiftCalibratedPosition | firmware/src/wifi_manager.cpp:222-225 | every calibration point moves by minus the offset |
| WebApi.ShiftKeepsFullRevolution | firmware/src/wifi_manager.cpp:222-225 | the revolution length is unchanged |
| WebApi.ShiftKeepsCurrentAngle | firmware/src/wifi_manager.cpp:222-225 | the same physical position reads as the same quarter angle after the shift |
| WebApi.ResolveTargetShift | firmware/src/rotator.cpp:82-90 | resolving the shorter way round commutes with a shift of origin |
| WebApi.SetZeroKeepsRotation | firmware/src/wifi_manager.cpp:212-236 | after set-zero, a rotation to any quarter drives to the same physical point as before |
| WebApi.HandleReset | firmware/src/wifi_manager.cpp:262-266 | the persisted fields return to their defaults and are saved; the unpersisted fields and the motion state are untouched; the reply is 200 |
| HtmlHeader.ReplaceChar | firmware/html_to_header.py:12 | `str.replace` with a one-character pattern leaves text without that character unchanged and introduces no character outside the text and the replacement |
| HtmlHeader.EscapeString | firmware/html_to_header.py:9-19 | text without the four special characters comes back unchanged; the output holds only characters of the input, backslashes and the letters of the escapes, and no raw line feed or carriage return |
| HtmlHeader.EscapeStringIsPerChar | firmware/html_to_header.py:11-18 | because backslashes are doubled first, the four passes are the per-character escape, and no escape is itself escaped again |
| HtmlHeader.EscapeStringAppend | firmware/html_to_header.py:9-19 | escaping a concatenation escapes each part |
| HtmlHeader.Unescape | firmware/html_to_header.py:9-19 | reading a C string literal body back, with raw line breaks rejected |
| HtmlHeader.EscapeRoundTrip | firmware/html_to_header.py:9-19 | reading the escaped text as a C string literal gives back the original text |
| HtmlHeader.UnescapeRoundTrip | firmware/html_to_header.py:9-19 | every well-formed literal body that uses only those four escapes is the escape of what it reads back as |
| HtmlHeader.NoRawLineBreaks | firmware/html_to_header.py:16-18 | the escaped text holds no raw line feed or carriage return |
| HtmlHeader.EscapeIdentity | firmware/html_to_header.py:9-19 | text without backslash, quote, line feed or carriage return is returned unchanged |
| HtmlHeader.EscapeLength | firmware/html_to_header.py:12-18 | the escaped length is the input length plus the number of those four characters |
| HtmlHeader.HtmlIndexSize | firmware/html_to_header.py:48 | the recorded size is the unescaped length: never more than the escaped length, and equal only when nothing needed escaping |
| HtmlHeader.HtmlIndexSizeVsBytes | firmware/html_to_header.py:48 | the recorded size counts code points: it is at most the page's UTF-8 size and equals it exactly when the page is ASCII |
| PidFloat.ConstrainUnit | firmware/src/main.cpp:361 | `constrain` on a float lets NaN through; every other value comes out within [-1, 1] |
| PidFloat.MotorDuty | firmware/src/main.cpp:447-470 | a NaN speed falls through both sign tests and coasts the motor |
| PidFloat.DerivativeAsWritten | firmware/src/main.cpp:358 | the float derivative is NaN when any input is NaN, and also when the tick has zero length and the error did not change; with a tick of positive length, finite inputs give a finite value |
| PidFloat.DriveAsWritten | firmware/src/main.cpp:359-361 | a NaN gain or term makes the drive NaN; any other drive is finite and within [-1, 1], and for finite inputs it is the clamped PID sum |
| PidFloat.SameMillisecondDerivativeIsNaN | firmware/src/main.cpp:358 | with `dt_ms == 0` and an unchanged error, the derivative is 0/0, NaN |
| PidFloat.SameMillisecondDerivativeIsInfinite | firmware/src/main.cpp:358 | with `dt_ms == 0` and a changed error, the derivative is infinite |
| PidFloat.NaNPersists | firmware/src/main.cpp:358-359 | once the stored derivative is NaN, every later derivative is NaN |
| PidFloat.NaNDerivativeCoasts | firmware/src/main.cpp:361-374 | a NaN derivative makes the drive NaN whatever the gains, and the motor coasts |
| PidFloat.MoveFromRestSameMillisecond | firmware/src/main.cpp:345-358 | a move from rest whose first tick falls in the commanding millisecond gets profile velocity 0 and a NaN derivative |
| PidFloat.PositiveDtDerivativeIsFinite | firmware/src/main.cpp:358 | with a tick of positive length, the float derivative is the finite value the real model computes |

## Left out

- Hardware: the encoder peripheral, MCPWM duty registers, GPIO, serial,
  SPIFFS mount and the `esp_timer` setup (`main.cpp` 91-257). The encoder
  count and `millis()` are step inputs; the duties, the NeoPixel colour
  and the encoder reset are step outputs.
- Concurrency: the timer callbacks share unlocked globals. Each callback is
  modelled as one atomic step over the controller record.
- Two `millis()` reads inside one step are taken as the same instant. An
  example is `rotateToAngle`'s call to `move_to_position` followed by its
  own read of the clock. Likewise, several encoder reads inside one step
  are taken as one count: `/api/status` reads it three times
  (`wifi_manager.cpp` 80-85), and `moveToNextPosition` reads it once for
  the current angle and again in `rotateToAngle` (`rotator.cpp` 74).
- The encoder's 64-bit count narrowed to `int32_t`. Counts are plain
  integers.
- Rotator.FullRevolution: the span `(pos_270 - pos_0) * 4` is exact. In
  the firmware it is `int32_t` arithmetic, which overflows (undefined
  behaviour) once the span exceeds 2^29 in magnitude. The same holds for
  `Rotator.ResolveTarget` and `Rotator.RotateToAngle`, whose distances
  and targets `± fullRevolution` (`rotator.cpp` 82-90) are exact here but
  can leave the `int32_t` range for calibration points that
  `Config.Valid` allows. `Rotator.RotateToAngleFitsInt32` shows that with
  calibration points and count within ±2^27 every intermediate fits, so
  there the model's result is the firmware's.
- Rotator.CurrentAngle: the distances `abs(count - pos)` are exact. In
  the firmware the `int32_t` subtraction and `abs` overflow, which is
  undefined behaviour, when a count and a calibration point are 2^31 or
  more apart; the same holds for the arrival test in `Motion.Arrived` and
  the unwrap test in `Motion.Unwrap`.
- WebApi.HandleSetZero: the calibration points are shifted by exact
  subtraction. In the firmware `pos -= offset` on `int32_t` overflows,
  which is undefined behaviour, when a shifted point leaves the `int32_t`
  range; the model then yields a record outside `Config.Valid` (the
  contract states exactly when) rather than a wrapped value.
- Floating point: floats are reals outside `PidFloat`. The profile's
  `-0.0` results and rounding are not modelled. `Decelerating` follows
  IEEE only for a zero acceleration: `v²/0` is +∞, or NaN when `v` is 0.
- ArduinoJson and SPIFFS: parsing and serialising are foreign. A document
  is a map from the persisted keys to JSON values. Members with other
  names are ignored by every handler, so they are not represented. A
  failed write by `saveConfiguration` is not modelled; the document to
  write is an output.
- Json.AsInt32: JSON floats are not represented, so their truncation is
  not modelled. A string member is read as a number only when it is an
  optional sign followed by decimal digits; ArduinoJson also reads
  fractions, exponents, `NaN` and `Infinity` out of strings, and the
  contract states nothing about such strings or about other
  non-numeric ones.
- Json.AsU32: the same limits as `Json.AsInt32`.
- Json.AsBool: the contract states nothing about string members, which
  ArduinoJson releases convert differently (compared with `"true"` in
  older ones, true whenever present in newer ones).
- Config.StrlCpy: counts characters. `strlcpy` counts bytes, so a
  non-ASCII name keeps fewer characters in the firmware than here, and
  the cut may fall inside a multi-byte UTF-8 sequence.
- Config.LoadSaveRoundTrip: holds only for colours and an interval below
  2^31 (`Config.Reloadable`), because the `int` defaults at
  `config.cpp` 74-80 make `doc[key] | default` refuse larger values;
  `Config.LoadSaveRoundTripExactly` shows the bound is necessary.
- Config.SaveLoadRoundTrip: holds only for documents whose colours and
  interval are not negative, for the same reason: a negative value is
  accepted and wrapped, so it is saved back as a different number.
- `String::toInt` in `/api/rotate` and `/api/goto`: the handlers take the
  already-converted value, `None` when the parameter is missing.
- WebApi.HandleGoto: requires the position to fit in `int32_t`, the type
  `toInt`'s result is stored in. The narrowing from `long` is not modelled.
- Strings are NUL-free (`CStr`), so embedded NUL bytes in JSON strings are
  not modelled.
- WiFi access point and client, captive portal, DNS, the web server
  plumbing, OTA, WebSockets and debug streaming (`wifi_manager.cpp` 14-63
  and 276-324).
- `neopixel.cpp`: a thin wrapper over the NeoPixel library. The colour is
  an output.
- `involute_gear_simplified.py` (gear geometry with plotting), and the file
  I/O and `main` of `html_to_header.py`.
- HtmlHeader.Unescape: it interprets only the four escapes the escaper
  writes. Other C escapes are rejected rather than decoded.
- `updateMotionControlCalibration` and `calculateCircularDistance` are
  declared in `rotator.h` with no body in the sources, so they are not
  modelled.
- Differences from the design description, where the model follows the
  code:
  - The configuration file has 12 keys (`config.cpp` 59-81, 93-111), not 13.
  - `move_to_position` does not reset the PID state (`main.cpp` 391-403).
- Observations, not modelled as defects:
  - `/api/goto` checks ±2000000 but its error message says ±100000.
  - `html_index_size` counts code points, which is not the byte size of
    the literal (`HtmlIndexSizeVsBytes`).
  - `/api/config` omits `auto_rotation_enabled`, so a config view posted
    back leaves that flag alone (`ConfigViewRoundTrip`).
  - The tuning fields of `RotatorConfig` are neither loaded nor saved.
  - A rotation that crosses the 0/270 seam ends a revolution away from
    the calibration points. The motion tick rebases the count only when
    it is strictly more than a revolution from the 0-degree point
    (`main.cpp` 318). So an arrival at or just below one revolution is
    not rebased, and the nearest-point rule reports the wrong quarter
    (`WebApi.RotateAcrossWrap`). This holds both when the revolution
    count is still 0 and when it is the calibrated revolution. In the
    sources shown, `setFullRevolutionCount` has no caller; the body of
    `updateMotionControlCalibration` (`main.cpp` 107), which may set it,
    is not part of this model.

## Findings

| source | as written | input that shows it | evidently intended | confidence | as-written member | corrected member |
|---|---|---|---|---|---|---|
| firmware/src/main.cpp:358 | The derivative divides by `dt_ms / 1000.0`. `dt_ms` is 0 when a tick falls in the same millisecond as the last update, for example the first tick after `move_to_position`. When the speed error did not change since the last tick, the result is 0/0 = NaN. NaN is then stored in `last_speed_deriv_err` and survives every later tick, because `q · NaN` is NaN. The drive becomes NaN, which `constrain` passes through and `set_motor1_speed` turns into coasting. So the move never completes. (When the error did change, the result is ±∞ instead, which saturates the drive for a non-zero D gain; that case is not followed further.) | a move from rest commanded at time t whose first motion tick also reads t (`MoveFromRestSameMillisecond`) | skip the loop update on a tick of zero length | not executed | PidFloat.DerivativeAsWritten (see PidFloat.SameMillisecondDerivativeIsNaN, PidFloat.MoveFromRestSameMillisecond, PidFloat.NaNPersists, PidFloat.NaNDerivativeCoasts) | Motion.MotionTick (see Motion.SameMillisecondTickIsSkipped, PidFloat.PositiveDtDerivativeIsFinite) |
| firmware/src/wifi_manager.cpp:249 | `abs(targetPosition) > 2000000` with `targetPosition` an `int32_t`. `abs(INT32_MIN)` overflows, which is undefined behaviour. If `abs` wraps, as two's-complement code without a trap does, it gives INT32_MIN, which is negative, so the guard passes. | position = -2147483648 | reject every position whose magnitude exceeds 2000000 | not executed | WebApi.GotoAcceptsAsWritten (see WebApi.GotoGuardAdmitsInt32Min) | WebApi.HandleGoto (see WebApi.GotoGuardAgreesElsewhere) |
