/** The persisted rotator configuration (`RotatorConfig`), its factory
    defaults, and the mapping between the record and the JSON document
    stored in the configuration file. */
module Config {
  import opened CTypes
  import opened Json

  // WiFi defaults
  const DEFAULT_AP_SSID: CStr := "RotatorAP"
  const DEFAULT_AP_PASSWORD: CStr := "rotator1234"

  // Calibration defaults, in encoder counts
  const POS_0_DEGREES: int := 0
  const POS_90_DEGREES: int := 39375
  const POS_180_DEGREES: int := 78750
  const POS_270_DEGREES: int := 118125
  const FULL_ROTATION_COUNT: int := 157500

  // Status-pixel colours, 0xRRGGBB
  const DEFAULT_COLOR_0: u32 := 0x00FF00
  const DEFAULT_COLOR_90: u32 := 0xFF0000
  const DEFAULT_COLOR_180: u32 := 0x0000FF
  const DEFAULT_COLOR_270: u32 := 0xFFFF00

  /** Seconds between automatic quarter turns. */
  const DEFAULT_ROTATION_INTERVAL: u32 := 60

  // Motion-control tuning defaults
  const DEFAULT_POSITION_HYSTERESIS: u32 := 20
  const DEFAULT_MAX_SPEED: real := 4000.0
  const DEFAULT_ACCELERATION: real := 2000.0
  const DEFAULT_VEL_LOOP_P: real := 0.00003
  const DEFAULT_VEL_LOOP_I: real := 0.006
  const DEFAULT_VEL_LOOP_D: real := -0.00000002
  const DEFAULT_VEL_FILTER_PERSISTENCE: real := 0.2
  const DEFAULT_SPD_ERR_PERSISTENCE: real := 0.2

  // Sizes of the character buffers, including the terminating NUL
  const SSID_BUFFER: nat := 32
  const PASSWORD_BUFFER: nat := 64
  const MDNS_BUFFER: nat := 32

  datatype RotatorConfig = RotatorConfig(
    // access point
    apSsid: CStr,
    apPassword: CStr,
    // station mode
    wifiSsid: CStr,
    wifiPassword: CStr,
    wifiClientEnabled: bool,
    wifiConnectionTimeout: u32,
    mdnsName: CStr,
    // calibration
    pos0: int,
    pos90: int,
    pos180: int,
    pos270: int,
    fullRotationCount: int,
    // status-pixel colours
    color0: u32,
    color90: u32,
    color180: u32,
    color270: u32,
    // automatic rotation
    rotationInterval: u32,
    autoRotationEnabled: bool,
    // motion-control tuning
    positionHysteresis: u32,
    maxSpeed: real,
    acceleration: real,
    velLoopP: real,
    velLoopI: real,
    velLoopD: real,
    velFilterPersistence: real,
    spdErrPersistence: real)

  /** A C string held in a buffer of `size` bytes leaves room for the
      terminating NUL. */
  predicate FitsBuffer(s: CStr, size: nat) {
    |s| < size
  }

  /** What the C record can hold: strings that fit their buffers and
      calibration points in `int32_t` range. */
  predicate Valid(c: RotatorConfig) {
    && FitsBuffer(c.apSsid, SSID_BUFFER)
    && FitsBuffer(c.apPassword, PASSWORD_BUFFER)
    && FitsBuffer(c.wifiSsid, SSID_BUFFER)
    && FitsBuffer(c.wifiPassword, PASSWORD_BUFFER)
    && FitsBuffer(c.mdnsName, MDNS_BUFFER)
    && IsInt32(c.pos0) && IsInt32(c.pos90) && IsInt32(c.pos180) && IsInt32(c.pos270)
    && IsInt32(c.fullRotationCount)
  }

  /** `strlcpy(dst, src, size)`: copies at most `size - 1` characters of
      `src` and terminates the copy. Characters stand for bytes here. */
  function StrlCpy(src: CStr, size: nat): (r: CStr)
    requires size > 0
    ensures FitsBuffer(r, size)
    ensures r <= src
    ensures FitsBuffer(src, size) ==> r == src
  {
    if |src| < size then src else src[..size - 1]
  }

  /** The twelve members the configuration file holds; `KeyName` gives
      the member name used in the JSON text. */
  datatype Key =
    | ApSsid | ApPassword
    | Pos0 | Pos90 | Pos180 | Pos270
    | Color0 | Color90 | Color180 | Color270
    | RotationInterval | AutoRotationEnabled

  const ALL_KEYS: set<Key> := {
    ApSsid, ApPassword, Pos0, Pos90, Pos180, Pos270,
    Color0, Color90, Color180, Color270, RotationInterval, AutoRotationEnabled
  }

  function KeyName(k: Key): string {
    match k
    case ApSsid => "ap_ssid"
    case ApPassword => "ap_password"
    case Pos0 => "pos_0_degrees"
    case Pos90 => "pos_90_degrees"
    case Pos180 => "pos_180_degrees"
    case Pos270 => "pos_270_degrees"
    case Color0 => "color_0"
    case Color90 => "color_90"
    case Color180 => "color_180"
    case Color270 => "color_270"
    case RotationInterval => "rotation_interval"
    case AutoRotationEnabled => "auto_rotation_enabled"
  }

  /** The twelve member names are distinct, so each field has a member of
      its own. */
  lemma KeyNamesDistinct(a: Key, b: Key)
    requires KeyName(a) == KeyName(b)
    ensures a == b
  {
  }

  /** A JSON object as the firmware sees it: the members under the twelve
      names above. Members under any other name are never read or written
      by the firmware, so they are not represented. */
  type Doc = map<Key, Value>

  /** The record field behind a key, as the JSON value that stores it. */
  function FieldValue(c: RotatorConfig, k: Key): Value {
    match k
    case ApSsid => Str(c.apSsid)
    case ApPassword => Str(c.apPassword)
    case Pos0 => Int(c.pos0)
    case Pos90 => Int(c.pos90)
    case Pos180 => Int(c.pos180)
    case Pos270 => Int(c.pos270)
    case Color0 => Int(c.color0)
    case Color90 => Int(c.color90)
    case Color180 => Int(c.color180)
    case Color270 => Int(c.color270)
    case RotationInterval => Int(c.rotationInterval)
    case AutoRotationEnabled => Bool(c.autoRotationEnabled)
  }

  /** The default each key falls back to when loading. */
  function DefaultValue(k: Key): Value {
    match k
    case ApSsid => Str(DEFAULT_AP_SSID)
    case ApPassword => Str(DEFAULT_AP_PASSWORD)
    case Pos0 => Int(POS_0_DEGREES)
    case Pos90 => Int(POS_90_DEGREES)
    case Pos180 => Int(POS_180_DEGREES)
    case Pos270 => Int(POS_270_DEGREES)
    case Color0 => Int(DEFAULT_COLOR_0)
    case Color90 => Int(DEFAULT_COLOR_90)
    case Color180 => Int(DEFAULT_COLOR_180)
    case Color270 => Int(DEFAULT_COLOR_270)
    case RotationInterval => Int(DEFAULT_ROTATION_INTERVAL)
    case AutoRotationEnabled => Bool(false)
  }

  predicate IsStringKey(k: Key) {
    k == ApSsid || k == ApPassword
  }

  function BufferSize(k: Key): nat
    requires IsStringKey(k)
  {
    if k == ApSsid then SSID_BUFFER else PASSWORD_BUFFER
  }

  /** The keys of the `uint32_t` fields. */
  predicate IsU32Key(k: Key) {
    k == Color0 || k == Color90 || k == Color180 || k == Color270 || k == RotationInterval
  }

  /** Whether a value is one the key's C field can hold. */
  predicate FieldHolds(k: Key, v: Value) {
    match k
    case ApSsid | ApPassword => v.Str?
    case Pos0 | Pos90 | Pos180 | Pos270 => FitsInt32(v)
    case Color0 | Color90 | Color180 | Color270 | RotationInterval => FitsU32(v)
    case AutoRotationEnabled => v.Bool?
  }

  /** Whether `doc[key] | default` takes a stored value rather than the
      default. The defaults of the `uint32_t` fields are `int` literals,
      so their members, too, must be integers in `int` range. */
  predicate Accepts(k: Key, v: Value) {
    match k
    case ApSsid | ApPassword => v.Str?
    case Pos0 | Pos90 | Pos180 | Pos270 => FitsInt32(v)
    case Color0 | Color90 | Color180 | Color270 | RotationInterval => FitsInt32(v)
    case AutoRotationEnabled => v.Bool?
  }

  /** What loading yields for a key: the stored value (a string cut to its
      buffer, a negative integer for a `uint32_t` field wrapped around),
      or the key's default when the member is missing or holds a value of
      the wrong type or range. */
  function LoadedOrDefault(doc: Doc, k: Key): (v: Value)
    ensures FieldHolds(k, v)
  {
    if k !in doc || !Accepts(k, doc[k]) then DefaultValue(k)
    else if IsStringKey(k) then Str(StrlCpy(doc[k].s, BufferSize(k)))
    else if IsU32Key(k) then Int(Int32ToU32(doc[k].i))
    else doc[k]
  }

  /** `a` and `b` agree on every field the configuration file does not hold. */
  predicate SameUnpersisted(a: RotatorConfig, b: RotatorConfig) {
    && a.wifiSsid == b.wifiSsid
    && a.wifiPassword == b.wifiPassword
    && a.wifiClientEnabled == b.wifiClientEnabled
    && a.wifiConnectionTimeout == b.wifiConnectionTimeout
    && a.mdnsName == b.mdnsName
    && a.fullRotationCount == b.fullRotationCount
    && a.positionHysteresis == b.positionHysteresis
    && a.maxSpeed == b.maxSpeed
    && a.acceleration == b.acceleration
    && a.velLoopP == b.velLoopP
    && a.velLoopI == b.velLoopI
    && a.velLoopD == b.velLoopD
    && a.velFilterPersistence == b.velFilterPersistence
    && a.spdErrPersistence == b.spdErrPersistence
  }

  /** Two records agree on the persisted fields exactly when they agree on
      every key. */
  lemma SamePersistedByKey(a: RotatorConfig, b: RotatorConfig)
    requires forall k: Key :: FieldValue(a, k) == FieldValue(b, k)
    requires SameUnpersisted(a, b)
    ensures a == b
  {
    assert FieldValue(a, ApSsid) == FieldValue(b, ApSsid);
    assert FieldValue(a, ApPassword) == FieldValue(b, ApPassword);
    assert FieldValue(a, Pos0) == FieldValue(b, Pos0);
    assert FieldValue(a, Pos90) == FieldValue(b, Pos90);
    assert FieldValue(a, Pos180) == FieldValue(b, Pos180);
    assert FieldValue(a, Pos270) == FieldValue(b, Pos270);
    assert FieldValue(a, Color0) == FieldValue(b, Color0);
    assert FieldValue(a, Color90) == FieldValue(b, Color90);
    assert FieldValue(a, Color180) == FieldValue(b, Color180);
    assert FieldValue(a, Color270) == FieldValue(b, Color270);
    assert FieldValue(a, RotationInterval) == FieldValue(b, RotationInterval);
    assert FieldValue(a, AutoRotationEnabled) == FieldValue(b, AutoRotationEnabled);
  }

  /** `base` with the persisted fields taken from `c`. */
  function WithPersisted(base: RotatorConfig, c: RotatorConfig): RotatorConfig {
    base.(apSsid := c.apSsid, apPassword := c.apPassword,
          pos0 := c.pos0, pos90 := c.pos90, pos180 := c.pos180, pos270 := c.pos270,
          color0 := c.color0, color90 := c.color90, color180 := c.color180, color270 := c.color270,
          rotationInterval := c.rotationInterval, autoRotationEnabled := c.autoRotationEnabled)
  }

  /** `WithPersisted` takes every key's value from `c`. */
  lemma WithPersistedFields(base: RotatorConfig, c: RotatorConfig)
    ensures forall k: Key :: FieldValue(WithPersisted(base, c), k) == FieldValue(c, k)
    ensures SameUnpersisted(base, WithPersisted(base, c))
  {
  }

  /** `resetToDefaultConfig`: the persisted fields return to their factory
      values; the station-mode, mDNS, full-rotation and tuning fields are
      not touched. (The save it ends with is `SaveConfiguration` of the
      result.) */
  function ResetToDefaults(c: RotatorConfig): (r: RotatorConfig)
    ensures forall k: Key :: FieldValue(r, k) == DefaultValue(k)
    ensures SameUnpersisted(c, r)
    ensures Valid(c) ==> Valid(r)
  {
    c.(apSsid := DEFAULT_AP_SSID, apPassword := DEFAULT_AP_PASSWORD,
       pos0 := POS_0_DEGREES, pos90 := POS_90_DEGREES,
       pos180 := POS_180_DEGREES, pos270 := POS_270_DEGREES,
       color0 := DEFAULT_COLOR_0, color90 := DEFAULT_COLOR_90,
       color180 := DEFAULT_COLOR_180, color270 := DEFAULT_COLOR_270,
       rotationInterval := DEFAULT_ROTATION_INTERVAL,
       autoRotationEnabled := false)
  }

  /** Every key is one of the twelve. */
  lemma AllKeysListed()
    ensures forall k: Key :: k in ALL_KEYS
  {
    forall k: Key
      ensures k in ALL_KEYS
    {
      match k
      case ApSsid =>
      case ApPassword =>
      case Pos0 =>
      case Pos90 =>
      case Pos180 =>
      case Pos270 =>
      case Color0 =>
      case Color90 =>
      case Color180 =>
      case Color270 =>
      case RotationInterval =>
      case AutoRotationEnabled =>
    }
  }

  /** `saveConfiguration`: the document written to the configuration file
      holds exactly the twelve keys, each with its field's value. */
  function SaveConfiguration(c: RotatorConfig): (doc: Doc)
    ensures doc.Keys == ALL_KEYS
    ensures forall k: Key :: k in doc && doc[k] == FieldValue(c, k)
  {
    AllKeysListed();
    map k | k in ALL_KEYS :: FieldValue(c, k)
  }

  /** The assignments `loadConfiguration` makes from a parsed document;
      `LoadFromDocFields` states their effect key by key. */
  function LoadFromDoc(c: RotatorConfig, doc: Doc): (r: RotatorConfig)
    ensures SameUnpersisted(c, r)
    ensures Valid(c) ==> Valid(r)
  {
    c.(apSsid := StrlCpy(OrString(doc, ApSsid, DEFAULT_AP_SSID), SSID_BUFFER),
       apPassword := StrlCpy(OrString(doc, ApPassword, DEFAULT_AP_PASSWORD), PASSWORD_BUFFER),
       pos0 := OrInt32(doc, Pos0, POS_0_DEGREES),
       pos90 := OrInt32(doc, Pos90, POS_90_DEGREES),
       pos180 := OrInt32(doc, Pos180, POS_180_DEGREES),
       pos270 := OrInt32(doc, Pos270, POS_270_DEGREES),
       color0 := OrU32(doc, Color0, DEFAULT_COLOR_0),
       color90 := OrU32(doc, Color90, DEFAULT_COLOR_90),
       color180 := OrU32(doc, Color180, DEFAULT_COLOR_180),
       color270 := OrU32(doc, Color270, DEFAULT_COLOR_270),
       rotationInterval := OrU32(doc, RotationInterval, DEFAULT_ROTATION_INTERVAL),
       autoRotationEnabled := OrBool(doc, AutoRotationEnabled, false))
  }

  /** Every key of a parsed document is applied: a missing member, or
      one of the wrong type or range, yields the key's default; otherwise
      the field takes the stored value, a string cut to its buffer. */
  lemma LoadFromDocFields(c: RotatorConfig, doc: Doc)
    ensures forall k: Key :: FieldValue(LoadFromDoc(c, doc), k) == LoadedOrDefault(doc, k)
  {
    forall k: Key
      ensures FieldValue(LoadFromDoc(c, doc), k) == LoadedOrDefault(doc, k)
    {
      match k
      case ApSsid =>
      case ApPassword =>
      case Pos0 =>
      case Pos90 =>
      case Pos180 =>
      case Pos270 =>
      case Color0 =>
      case Color90 =>
      case Color180 =>
      case Color270 =>
      case RotationInterval =>
      case AutoRotationEnabled =>
    }
  }

  /** The configuration file as `loadConfiguration` finds it. */
  datatype ConfigFile = Missing | Unopenable | Unparsable | Parsed(doc: Doc)

  /** `ok` is the function's return value; `written` is the document saved
      to the file while loading, if any. */
  datatype LoadResult = LoadResult(ok: bool, config: RotatorConfig, written: Option<Doc>)

  /** `loadConfiguration`: a missing file resets to defaults (and saves
      them) and reports failure; a file that cannot be opened or parsed
      reports failure and changes nothing; otherwise every key of the
      document is applied, with a default for each missing or unusable
      member, and the load succeeds. */
  function LoadConfiguration(c: RotatorConfig, f: ConfigFile): (r: LoadResult)
    ensures r.ok <==> f.Parsed?
    ensures f.Missing? ==>
      && (forall k: Key :: FieldValue(r.config, k) == DefaultValue(k))
      && r.written == Some(SaveConfiguration(r.config))
    ensures (f.Unopenable? || f.Unparsable?) ==> r.config == c && r.written == None
    ensures f.Parsed? ==>
      && (forall k: Key :: FieldValue(r.config, k) == LoadedOrDefault(f.doc, k))
      && r.written == None
    ensures SameUnpersisted(c, r.config)
    ensures Valid(c) ==> Valid(r.config)
  {
    match f
    case Missing =>
      var d := ResetToDefaults(c);
      LoadResult(false, d, Some(SaveConfiguration(d)))
    case Unopenable => LoadResult(false, c, None)
    case Unparsable => LoadResult(false, c, None)
    case Parsed(doc) =>
      LoadFromDocFields(c, doc);
      LoadResult(true, LoadFromDoc(c, doc), None)
  }

  /** A record whose saved document loads back exactly: it is valid, and
      its colours and rotation interval lie below 2^31, the part of the
      `uint32_t` range that `doc[key] | default` with an `int` default
      accepts. */
  predicate Reloadable(c: RotatorConfig) {
    && Valid(c)
    && c.color0 <= INT32_MAX && c.color90 <= INT32_MAX
    && c.color180 <= INT32_MAX && c.color270 <= INT32_MAX
    && c.rotationInterval <= INT32_MAX
  }

  /** Saving a reloadable record and loading the document back restores
      every persisted field and leaves the loading record's other fields
      as they were. */
  lemma LoadSaveRoundTrip(base: RotatorConfig, c: RotatorConfig)
    requires Reloadable(c)
    ensures LoadFromDoc(base, SaveConfiguration(c)) == WithPersisted(base, c)
  {
    var doc := SaveConfiguration(c);
    var r := LoadFromDoc(base, doc);
    var w := WithPersisted(base, c);
    LoadFromDocFields(base, doc);
    WithPersistedFields(base, c);
    forall k: Key
      ensures FieldValue(r, k) == FieldValue(w, k)
    {
      LoadedField(c, k);
    }
    SamePersistedByKey(r, w);
  }

  /** Each key of a reloadable record's saved document loads back as the
      field's value. */
  lemma LoadedField(c: RotatorConfig, k: Key)
    requires Reloadable(c)
    ensures LoadedOrDefault(SaveConfiguration(c), k) == FieldValue(c, k)
  {
  }

  /** A colour or interval at or above 2^31 does not survive a save and a
      load: `doc[key] | default` sees an integer outside `int` range and
      yields the default. */
  lemma LargeColorReloadsAsDefault(base: RotatorConfig, c: RotatorConfig)
    requires c.color0 > INT32_MAX
    ensures LoadFromDoc(base, SaveConfiguration(c)).color0 == DEFAULT_COLOR_0
    ensures LoadFromDoc(base, SaveConfiguration(c)) != WithPersisted(base, c)
  {
    LoadFromDocFields(base, SaveConfiguration(c));
    assert FieldValue(LoadFromDoc(base, SaveConfiguration(c)), Color0) == DefaultValue(Color0);
  }

  /** So for a valid record the round trip holds exactly when the record
      is reloadable. */
  lemma LoadSaveRoundTripExactly(base: RotatorConfig, c: RotatorConfig)
    requires Valid(c)
    ensures LoadFromDoc(base, SaveConfiguration(c)) == WithPersisted(base, c) <==> Reloadable(c)
  {
    if Reloadable(c) {
      LoadSaveRoundTrip(base, c);
    } else {
      var doc := SaveConfiguration(c);
      var r := LoadFromDoc(base, doc);
      var k := if c.color0 > INT32_MAX then Color0
               else if c.color90 > INT32_MAX then Color90
               else if c.color180 > INT32_MAX then Color180
               else if c.color270 > INT32_MAX then Color270
               else RotationInterval;
      LoadFromDocFields(base, doc);
      assert FieldValue(r, k) == DefaultValue(k);
      WithPersistedFields(base, c);
      assert FieldValue(WithPersisted(base, c), k) == FieldValue(c, k) != DefaultValue(k);
    }
  }

  /** A stored value is canonical for its key when loading keeps it as is:
      it is accepted, a string fits its buffer, and an integer for a
      `uint32_t` field is not negative. */
  predicate Canonical(k: Key, v: Value) {
    && Accepts(k, v)
    && (IsStringKey(k) ==> FitsBuffer(v.s, BufferSize(k)))
    && (IsU32Key(k) ==> v.i >= 0)
  }

  lemma CanonicalLoaded(doc: Doc, k: Key)
    requires k in doc && Canonical(k, doc[k])
    ensures LoadedOrDefault(doc, k) == doc[k]
  {
  }

  /** A negative colour in the file is not canonical: it loads as its
      wrap-around into the upper half of the `uint32_t` range, so the
      saved document differs. */
  lemma NegativeColorWraps(doc: Doc)
    requires Color0 in doc && doc[Color0] == Int(-1)
    ensures LoadedOrDefault(doc, Color0) == Int(0xFFFF_FFFF)
  {
  }

  /** Conversely, a document holding a canonical value under every key is
      written back unchanged after a load. */
  lemma SaveLoadRoundTrip(base: RotatorConfig, doc: Doc)
    requires forall k: Key :: k in doc && Canonical(k, doc[k])
    ensures SaveConfiguration(LoadFromDoc(base, doc)) == doc
  {
    var saved := SaveConfiguration(LoadFromDoc(base, doc));
    LoadFromDocFields(base, doc);
    forall k: Key
      ensures saved[k] == doc[k]
    {
      CanonicalLoaded(doc, k);
    }
    assert saved.Keys == doc.Keys by {
      forall k: Key
        ensures k in ALL_KEYS
      {
      }
    }
  }

  /** The factory calibration spaces the four quarter-turn points evenly,
      39375 counts apart starting at 0, and a full turn is four quarters. */
  lemma DefaultCalibrationEvenlySpaced()
    ensures POS_0_DEGREES == 0
    ensures POS_90_DEGREES - POS_0_DEGREES == 39375
    ensures POS_180_DEGREES - POS_90_DEGREES == 39375
    ensures POS_270_DEGREES - POS_180_DEGREES == 39375
    ensures FULL_ROTATION_COUNT == 4 * 39375
  {
  }

  /** The tuning defaults: hysteresis 20, speed 4000, acceleration 2000, and
      filter persistences that are proper smoothing weights in [0, 1). */
  lemma DefaultTuningRanges()
    ensures DEFAULT_POSITION_HYSTERESIS == 20
    ensures DEFAULT_MAX_SPEED == 4000.0 && DEFAULT_ACCELERATION == 2000.0
    ensures 0.0 <= DEFAULT_VEL_FILTER_PERSISTENCE < 1.0
    ensures 0.0 <= DEFAULT_SPD_ERR_PERSISTENCE < 1.0
  {
  }
}
