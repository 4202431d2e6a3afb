/** The decisions of the HTTP handlers in `wifi_manager.cpp`, each a pure
    function from the device state and the request to the new state and
    the reply. The web server, the JSON parser and the file system are not
    modelled: a request arrives already parsed, and a save is reported as
    the document written. */
module WebApi {
  import opened CTypes
  import opened Json
  import opened Config
  import opened Motion
  import opened Rotator

  /** An HTTP status code and plain-text body. */
  datatype Response = Response(status: nat, body: string)

  /** The state after a request, the reply, the colour sent to the status
      pixel (if any), and the document saved to the configuration file
      (if any). */
  datatype Reply = Reply(device: Device, response: Response, pixel: Option<u32>, saved: Option<Doc>)

  /** A reply that changes nothing. */
  function Reject(d: Device, body: string): Reply {
    Reply(d, Response(400, body), None, None)
  }

  /* ---------------------------------------------------------------- */
  /* /api/rotate                                                       */
  /* ---------------------------------------------------------------- */

  /** `/api/rotate`: `angle` is the form parameter after conversion to an
      integer, `None` when the request has none. A missing or non-quarter
      angle is refused and changes nothing; a quarter angle is handed to
      `rotateToAngle`. */
  function HandleRotate(d: Device, angle: Option<int>, count: int, now: u32): (r: Reply)
    ensures r.saved == None
    ensures r.response.status == 200 <==> angle.Some? && IsQuarter(angle.value)
    ensures angle.None? ==> r == Reject(d, "Missing 'angle' parameter")
    ensures angle.Some? && !IsQuarter(angle.value) ==>
      r == Reject(d, "Angle must be 0, 90, 180, or 270")
    ensures angle.Some? && IsQuarter(angle.value) ==>
      && r.response == Response(200, "Rotation commanded")
      && Step(r.device, r.pixel) == RotateToAngle(d, angle.value, count, now)
      && r.device.motion.active
  {
    match angle
    case None => Reject(d, "Missing 'angle' parameter")
    case Some(a) =>
      if !IsQuarter(a) then Reject(d, "Angle must be 0, 90, 180, or 270")
      else
        var s := RotateToAngle(d, a, count, now);
        Reply(s.device, Response(200, "Rotation commanded"), s.pixel, None)
  }

  /** The calibration points are the factory ones. */
  predicate FactoryCalibration(c: RotatorConfig) {
    && c.pos0 == POS_0_DEGREES && c.pos90 == POS_90_DEGREES
    && c.pos180 == POS_180_DEGREES && c.pos270 == POS_270_DEGREES
  }

  /** With the factory calibration, `/api/rotate` from the 270-degree point
      to 0 takes the short way forward and ends a revolution up, near
      count 157500. The arrival test accepts counts from 20 below that
      point, and a count up to the point itself is not rebased, whether
      the revolution count used for rebasing is still 0 (the value it
      starts with) or is the calibrated revolution: the unwrap test is a
      strict `>`. At such a count `/api/status` reports 270, and the next
      automatic rotation, asking for 0 again, aims at the point already
      reached, so the turntable stays where it is. */
  lemma RotateAcrossWrap(d: Device, count: int, now: u32, fullRevolutionCount: int)
    requires FactoryCalibration(d.config)
    requires fullRevolutionCount == 0 || fullRevolutionCount == FullRevolution(d.config)
    requires FULL_ROTATION_COUNT - DEFAULT_POSITION_HYSTERESIS <= count <= FULL_ROTATION_COUNT
    ensures HandleRotate(d, Some(0), POS_270_DEGREES, now).device.motion.target
            == FULL_ROTATION_COUNT
    ensures Arrived(count, FULL_ROTATION_COUNT, DEFAULT_POSITION_HYSTERESIS)
    ensures Unwrap(count, POS_0_DEGREES, fullRevolutionCount) == None
    ensures HandleStatus(d, count).currentAngle == 270
    ensures MoveToNextPosition(d, count, now).device.motion.target == FULL_ROTATION_COUNT
  {
    assert FullRevolution(d.config) == FULL_ROTATION_COUNT;
    CurrentAngleUnique(d.config, count, 270);
  }

  /* ---------------------------------------------------------------- */
  /* /api/goto                                                         */
  /* ---------------------------------------------------------------- */

  /** The largest target magnitude `/api/goto` accepts. (The refusal's
      text says 100000; the comparison is against this value.) */
  const GOTO_LIMIT: int := 2000000

  /** `/api/goto`: `position` is the form parameter after conversion to
      `int32_t`, `None` when the request has none. A missing position or
      one farther than `GOTO_LIMIT` from zero is refused and changes
      nothing; otherwise `move_to_position` is called with exactly that
      position. */
  function HandleGoto(d: Device, position: Option<int>, now: u32): (r: Reply)
    requires position.Some? ==> IsInt32(position.value)
    ensures r.saved == None && r.pixel == None
    ensures r.response.status == 200 <==>
      position.Some? && -GOTO_LIMIT <= position.value <= GOTO_LIMIT
    ensures position.None? ==> r == Reject(d, "Missing 'position' parameter")
    ensures position.Some? && r.response.status != 200 ==>
      r == Reject(d, "Position out of safe range (±100000)")
    ensures r.response.status == 200 ==>
      && r.response.body == "Movement commanded"
      && r.device == d.(motion := MoveToPosition(d.motion, position.value, now))
  {
    match position
    case None => Reject(d, "Missing 'position' parameter")
    case Some(p) =>
      if Abs(p) > GOTO_LIMIT then Reject(d, "Position out of safe range (±100000)")
      else Reply(d.(motion := MoveToPosition(d.motion, p, now)),
                 Response(200, "Movement commanded"), None, None)
  }

  /** `abs` of an `int32_t` when it wraps, as on a two's-complement machine
      that does not trap: the magnitude of the most negative value does
      not fit, and the argument comes back unchanged. (C leaves that case
      undefined.) */
  function AbsInt32AsWritten(x: int): (r: int)
    requires IsInt32(x)
    ensures x != INT32_MIN ==> r == Abs(x)
    ensures x == INT32_MIN ==> r < 0
  {
    if x == INT32_MIN then INT32_MIN else Abs(x)
  }

  /** Whether the firmware's range test lets a position through, if `abs`
      wraps: every position within the limit, and the most negative
      `int32_t` besides. */
  function GotoAcceptsAsWritten(p: int): (r: bool)
    requires IsInt32(p)
    ensures r <==> p == INT32_MIN || -GOTO_LIMIT <= p <= GOTO_LIMIT
  {
    !(AbsInt32AsWritten(p) > GOTO_LIMIT)
  }

  /** The most negative `int32_t` passes the firmware's range test, though
      it lies more than a thousand times the limit away from zero. */
  lemma GotoGuardAdmitsInt32Min()
    ensures GotoAcceptsAsWritten(INT32_MIN)
    ensures Abs(INT32_MIN) > GOTO_LIMIT
  {
  }

  /** Every other position is judged the same by the firmware's test and
      by `HandleGoto`, whose test on the exact magnitude admits only
      positions within the limit. */
  lemma GotoGuardAgreesElsewhere(d: Device, p: int, now: u32)
    requires IsInt32(p) && p != INT32_MIN
    ensures GotoAcceptsAsWritten(p) <==> HandleGoto(d, Some(p), now).response.status == 200
  {
  }

  /* ---------------------------------------------------------------- */
  /* /api/set-zero                                                     */
  /* ---------------------------------------------------------------- */

  /** The calibration with every quarter point moved by `-offset`. */
  function ShiftCalibration(c: RotatorConfig, offset: int): (r: RotatorConfig)
    ensures r.pos90 - r.pos0 == c.pos90 - c.pos0
    ensures r.pos180 - r.pos0 == c.pos180 - c.pos0
    ensures r.pos270 - r.pos0 == c.pos270 - c.pos0
  {
    c.(pos0 := c.pos0 - offset, pos90 := c.pos90 - offset,
       pos180 := c.pos180 - offset, pos270 := c.pos270 - offset)
  }

  /** `/api/set-zero`: the current count becomes the origin. Every
      calibration point is moved by minus the count, the configuration is
      saved, and neither the encoder nor the motion state is touched. */
  function HandleSetZero(d: Device, count: int): (r: Reply)
    ensures r.response == Response(200, "Zero position set successfully")
    ensures r.device == d.(config := ShiftCalibration(d.config, count))
    ensures r.saved == Some(SaveConfiguration(r.device.config))
    ensures r.pixel == None
    ensures CalibratedPosition(r.device.config, 0).value == d.config.pos0 - count
    ensures Valid(d.config) ==>
      (Valid(r.device.config) <==>
         && IsInt32(d.config.pos0 - count) && IsInt32(d.config.pos90 - count)
         && IsInt32(d.config.pos180 - count) && IsInt32(d.config.pos270 - count))
  {
    var c := ShiftCalibration(d.config, count);
    Reply(d.(config := c), Response(200, "Zero position set successfully"),
          None, Some(SaveConfiguration(c)))
  }

  /** The shift moves nothing but the four calibration points. */
  lemma ShiftCalibrationFrame(c: RotatorConfig, offset: int)
    ensures var r := ShiftCalibration(c, offset);
      r.(pos0 := c.pos0, pos90 := c.pos90, pos180 := c.pos180, pos270 := c.pos270) == c
  {
  }

  lemma ShiftCalibratedPosition(c: RotatorConfig, offset: int, angle: int)
    requires IsQuarter(angle)
    ensures CalibratedPosition(ShiftCalibration(c, offset), angle).value
            == CalibratedPosition(c, angle).value - offset
  {
  }

  /** A shifted calibration has the same revolution length. */
  lemma ShiftKeepsFullRevolution(c: RotatorConfig, offset: int)
    ensures FullRevolution(ShiftCalibration(c, offset)) == FullRevolution(c)
  {
  }

  /** Seen from the shifted origin, every count is at the same quarter
      angle as before. */
  lemma ShiftKeepsCurrentAngle(c: RotatorConfig, offset: int, count: int)
    ensures CurrentAngle(ShiftCalibration(c, offset), count - offset) == CurrentAngle(c, count)
  {
    ShiftKeepsDistance(c, offset, count, 0);
    ShiftKeepsDistance(c, offset, count, 90);
    ShiftKeepsDistance(c, offset, count, 180);
    ShiftKeepsDistance(c, offset, count, 270);
  }

  lemma ShiftKeepsDistance(c: RotatorConfig, offset: int, count: int, angle: int)
    requires IsQuarter(angle)
    ensures Distance(ShiftCalibration(c, offset), count - offset, angle) == Distance(c, count, angle)
  {
    ShiftCalibratedPosition(c, offset, angle);
  }

  /** Resolving a target commutes with a shift of origin. */
  lemma ResolveTargetShift(target: int, current: int, fullRevolution: int, offset: int)
    ensures ResolveTarget(target - offset, current - offset, fullRevolution)
            == ResolveTarget(target, current, fullRevolution) - offset
  {
  }

  /** So after `/api/set-zero` at count `offset`, a rotation commanded
      from any count `x - offset` drives to the same physical point as the
      same rotation from `x` before the shift. */
  lemma SetZeroKeepsRotation(c: RotatorConfig, offset: int, x: int, angle: int)
    requires IsQuarter(angle)
    ensures TargetFor(ShiftCalibration(c, offset), angle, x - offset) == TargetFor(c, angle, x) - offset
  {
    var s := ShiftCalibration(c, offset);
    var t := CalibratedPosition(c, angle).value;
    var f := FullRevolution(c);
    ShiftCalibratedPosition(c, offset, angle);
    ShiftKeepsFullRevolution(c, offset);
    ResolveTargetShift(t, x, f, offset);
    assert TargetFor(s, angle, x - offset) == ResolveTarget(t - offset, x - offset, f);
  }

  /* ---------------------------------------------------------------- */
  /* /api/settings                                                     */
  /* ---------------------------------------------------------------- */

  /** The request body: a JSON object with its members under the twelve
      keys, or any other JSON value, which the handler sees as an object
      with no members. */
  datatype Body = Object(members: Doc) | NotObject

  function Members(b: Body): Doc {
    if b.Object? then b.members else map[]
  }

  /** The value a present member gives its field through the implicit
      conversion, as the stored value of that field; `None` for a string
      key whose member is not a string, which hands `strlcpy` a null
      pointer. */
  function SettingValue(k: Key, v: Value): (r: Option<Value>)
    ensures r.None? <==> IsStringKey(k) && !v.Str?
    ensures r.Some? ==> FieldHolds(k, r.value)
    ensures r.Some? && FieldHolds(k, v) && !IsStringKey(k) ==> r.value == v
  {
    match k
    case ApSsid | ApPassword =>
      if v.Str? then Some(Str(StrlCpy(v.s, BufferSize(k)))) else None
    case Pos0 | Pos90 | Pos180 | Pos270 => Some(Int(AsInt32(v)))
    case Color0 | Color90 | Color180 | Color270 | RotationInterval => Some(Int(AsU32(v)))
    case AutoRotationEnabled => Some(Bool(AsBool(v)))
  }

  /** Whether the body has a string key whose member is not a string,
      which makes `strlcpy` read a null pointer. */
  predicate Faults(doc: Doc) {
    || (ApSsid in doc && !doc[ApSsid].Str?)
    || (ApPassword in doc && !doc[ApPassword].Str?)
  }

  /** Those are exactly the members that have no converted value. */
  lemma FaultsByKey(doc: Doc)
    ensures Faults(doc) <==> exists k :: k in doc && SettingValue(k, doc[k]).None?
  {
    if Faults(doc) {
      if ApSsid in doc && !doc[ApSsid].Str? {
        assert SettingValue(ApSsid, doc[ApSsid]).None?;
      } else {
        assert SettingValue(ApPassword, doc[ApPassword]).None?;
      }
    }
  }

  /** The merge the handler performs, statement by statement; `None` when
      it dereferences a null pointer and the firmware stops. */
  function MergeSettings(c: RotatorConfig, doc: Doc): (r: Option<RotatorConfig>)
    ensures r.None? <==> Faults(doc)
    ensures r.Some? ==> SameUnpersisted(c, r.value)
    ensures r.Some? && Valid(c) ==> Valid(r.value)
  {
    if ApSsid in doc && !doc[ApSsid].Str? then None
    else if ApPassword in doc && !doc[ApPassword].Str? then None
    else
      Some(c.(
        apSsid := if ApSsid in doc then StrlCpy(doc[ApSsid].s, SSID_BUFFER) else c.apSsid,
        apPassword := if ApPassword in doc then StrlCpy(doc[ApPassword].s, PASSWORD_BUFFER)
                      else c.apPassword,
        pos0 := if Pos0 in doc then AsInt32(doc[Pos0]) else c.pos0,
        pos90 := if Pos90 in doc then AsInt32(doc[Pos90]) else c.pos90,
        pos180 := if Pos180 in doc then AsInt32(doc[Pos180]) else c.pos180,
        pos270 := if Pos270 in doc then AsInt32(doc[Pos270]) else c.pos270,
        color0 := if Color0 in doc then AsU32(doc[Color0]) else c.color0,
        color90 := if Color90 in doc then AsU32(doc[Color90]) else c.color90,
        color180 := if Color180 in doc then AsU32(doc[Color180]) else c.color180,
        color270 := if Color270 in doc then AsU32(doc[Color270]) else c.color270,
        rotationInterval := if RotationInterval in doc then AsU32(doc[RotationInterval])
                            else c.rotationInterval,
        autoRotationEnabled := if AutoRotationEnabled in doc then AsBool(doc[AutoRotationEnabled])
                               else c.autoRotationEnabled))
  }

  /** The merge key by key: a field whose key is present takes the
      member's converted value; every other field is left as it was. */
  lemma MergeSettingsFields(c: RotatorConfig, doc: Doc)
    requires !Faults(doc)
    ensures forall k: Key :: FieldValue(MergeSettings(c, doc).value, k) ==
                            if k in doc then SettingValue(k, doc[k]).value else FieldValue(c, k)
  {
    var r := MergeSettings(c, doc).value;
    forall k: Key
      ensures FieldValue(r, k) == if k in doc then SettingValue(k, doc[k]).value else FieldValue(c, k)
    {
      match k
      case ApSsid =>
      case ApPassword =>
      case Pos0 =>
      case Pos90 =>
      case Pos180 =>
      case Pos270 =>
      case Color0 =>
      case Color90 =>
      case Color180 =>
      case Color270 =>
      case RotationInterval =>
      case AutoRotationEnabled =>
    }
  }

  /** `/api/settings`: the members present are merged into the
      configuration, which is then saved, and the reply confirms it; the
      motion state is not touched. `None` is the null-pointer fault. */
  function HandleSettings(d: Device, body: Body): (r: Option<Reply>)
    ensures r.None? <==> Faults(Members(body))
    ensures r.Some? ==>
      && r.value.response == Response(200, "Settings updated")
      && r.value.device == d.(config := MergeSettings(d.config, Members(body)).value)
      && r.value.saved == Some(SaveConfiguration(r.value.device.config))
      && r.value.pixel == None
  {
    match MergeSettings(d.config, Members(body))
    case None => None
    case Some(c) =>
      Some(Reply(d.(config := c), Response(200, "Settings updated"), None,
                 Some(SaveConfiguration(c))))
  }

  /** A body that is not an object changes nothing but is still saved. */
  lemma SettingsNotObject(d: Device)
    ensures HandleSettings(d, NotObject) == Some(Reply(d, Response(200, "Settings updated"),
                                                         None, Some(SaveConfiguration(d.config))))
  {
    var r := MergeSettings(d.config, map[]).value;
    MergeSettingsFields(d.config, map[]);
    SamePersistedByKey(r, d.config);
  }

  /** Sending the same settings twice has the effect of sending them once. */
  lemma MergeSettingsIdempotent(c: RotatorConfig, doc: Doc)
    requires !Faults(doc)
    ensures MergeSettings(MergeSettings(c, doc).value, doc) == MergeSettings(c, doc)
  {
    var once := MergeSettings(c, doc).value;
    var twice := MergeSettings(once, doc).value;
    MergeSettingsFields(c, doc);
    MergeSettingsFields(once, doc);
    SamePersistedByKey(twice, once);
  }

  /** Sending the saved document of a valid record sets every persisted
      field to that record's value. */
  lemma SettingsFromSaved(base: RotatorConfig, c: RotatorConfig)
    requires Valid(c)
    ensures !Faults(SaveConfiguration(c))
    ensures MergeSettings(base, SaveConfiguration(c)) == Some(WithPersisted(base, c))
  {
    var doc := SaveConfiguration(c);
    var r := MergeSettings(base, doc).value;
    var w := WithPersisted(base, c);
    MergeSettingsFields(base, doc);
    WithPersistedFields(base, c);
    forall k: Key
      ensures FieldValue(r, k) == FieldValue(w, k)
    {
      SettingValueOfField(c, k);
    }
    SamePersistedByKey(r, w);
  }

  /** The field values of a valid record convert to themselves. */
  lemma SettingValueOfField(c: RotatorConfig, k: Key)
    requires Valid(c)
    ensures SettingValue(k, FieldValue(c, k)) == Some(FieldValue(c, k))
  {
  }

  /* ---------------------------------------------------------------- */
  /* /api/config and /api/status                                       */
  /* ---------------------------------------------------------------- */

  /** `/api/config`: the persisted fields as a document, without
      `auto_rotation_enabled`. */
  function ConfigView(c: RotatorConfig): (doc: Doc)
    ensures doc.Keys == ALL_KEYS - {AutoRotationEnabled}
    ensures AutoRotationEnabled !in doc
    ensures forall k: Key :: k != AutoRotationEnabled ==> k in doc && doc[k] == FieldValue(c, k)
  {
    AllKeysListed();
    map k | k in ALL_KEYS && k != AutoRotationEnabled :: FieldValue(c, k)
  }

  /** Posting the `/api/config` document of a valid record back to
      `/api/settings` restores every persisted field except the
      automatic-rotation switch, which keeps its current value, as do the
      fields the configuration file does not hold. */
  lemma ConfigViewRoundTrip(base: RotatorConfig, c: RotatorConfig)
    requires Valid(c)
    ensures MergeSettings(base, ConfigView(c)).Some?
    ensures var r := MergeSettings(base, ConfigView(c)).value;
      && (forall k: Key :: k != AutoRotationEnabled ==> FieldValue(r, k) == FieldValue(c, k))
      && r.autoRotationEnabled == base.autoRotationEnabled
      && SameUnpersisted(base, r)
  {
    var doc := ConfigView(c);
    MergeSettingsFields(base, doc);
    forall k: Key | k != AutoRotationEnabled
      ensures FieldValue(MergeSettings(base, doc).value, k) == FieldValue(c, k)
    {
      SettingValueOfField(c, k);
    }
    assert FieldValue(MergeSettings(base, doc).value, AutoRotationEnabled)
           == FieldValue(base, AutoRotationEnabled);
  }

  /** The `/api/status` document. */
  datatype Status = Status(currentPosition: int, currentAngle: int, autoRotationEnabled: bool,
                           currentColor: Option<u32>)

  /** `/api/status`: the count, the quarter angle it is nearest (ties to
      the earliest of 0, 90, 180, 270, as `calculateCurrentAngle` breaks
      them), the automatic-rotation switch and the colour configured for
      that angle, which is always present. */
  function HandleStatus(d: Device, count: int): (s: Status)
    ensures s.currentPosition == count
    ensures IsQuarter(s.currentAngle) && Nearest(d.config, count, s.currentAngle)
    ensures EarlierFarther(d.config, count, s.currentAngle)
    ensures s.currentAngle == CurrentAngle(d.config, count)
    ensures s.autoRotationEnabled == d.config.autoRotationEnabled
    ensures s.currentColor.Some?
    ensures s.currentColor == ColorFor(d.config, s.currentAngle)
  {
    var angle := CurrentAngle(d.config, count);
    CurrentAngleNearest(d.config, count);
    Status(count, angle, d.config.autoRotationEnabled, ColorFor(d.config, angle))
  }

  /** The colour reported is the one `setupRotator` and the rotations show
      for the same angle. */
  lemma StatusColorMatchesSetup(d: Device, count: int, now: u32)
    ensures HandleStatus(d, count).currentColor == SetupRotator(d, count, now).pixel
  {
  }

  /* ---------------------------------------------------------------- */
  /* /api/reset                                                        */
  /* ---------------------------------------------------------------- */

  /** `/api/reset`: the persisted fields return to their defaults, which
      are saved; nothing else changes. */
  function HandleReset(d: Device): (r: Reply)
    ensures r.response == Response(200, "Settings reset to defaults")
    ensures r.device.motion == d.motion && r.device.lastRotationTime == d.lastRotationTime
    ensures forall k: Key :: FieldValue(r.device.config, k) == DefaultValue(k)
    ensures SameUnpersisted(d.config, r.device.config)
    ensures r.saved == Some(SaveConfiguration(r.device.config))
  {
    var c := ResetToDefaults(d.config);
    Reply(d.(config := c), Response(200, "Settings reset to defaults"), None,
          Some(SaveConfiguration(c)))
  }
}
