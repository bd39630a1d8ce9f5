/**
 * Remotely-set device settings (`on_setting` and its getters): each key has a declared
 * value type and range; a call either rejects the value and leaves every setting as it
 * was, or stores it in the one setting the key names.
 */
module Settings {
  /** The four results the setter returns. */
  datatype Status = Success | KeyNotRecognized | ValueFormatNotValid | ValueOutsideRange

  /** A setting value as the settings service delivers it. */
  datatype Value = BoolValue(b: bool) | IntValue(i64: int) | FloatValue(f: real) | StringValue(s: string)

  const LOOP_DELAY_S: string := "LOOP_DELAY_S"
  const GPS_DELAY_S: string := "GPS_DELAY_S"
  const FAKE_GPS_ENABLED: string := "FAKE_GPS_ENABLED"
  const FAKE_GPS_LATITUDE: string := "FAKE_GPS_LATITUDE"
  const FAKE_GPS_LONGITUDE: string := "FAKE_GPS_LONGITUDE"
  const VEHICLE_SPEED_DELAY_S: string := "VEHICLE_SPEED_DELAY_S"

  const Keys: set<string> :=
    {LOOP_DELAY_S, GPS_DELAY_S, FAKE_GPS_ENABLED, FAKE_GPS_LATITUDE, FAKE_GPS_LONGITUDE, VEHICLE_SPEED_DELAY_S}

  /** Twelve hours, the longest delay accepted. */
  const MAX_DELAY_S: int := 43200

  /** The values of the six settings. */
  datatype Config = Config(
    loopDelayS: nat,
    gpsDelayS: nat,
    fakeGpsEnabled: bool,
    fakeGpsLatitude: real,
    fakeGpsLongitude: real,
    vehicleSpeedDelayS: nat)

  /** Values before any setting arrives. */
  const Defaults: Config := Config(5, 3, false, 37.789980, -122.400860, 1)

  /** The stored value of one setting, in the shape the service delivers it. */
  function Get(c: Config, key: string): Value
    requires key in Keys
  {
    if key == LOOP_DELAY_S then IntValue(c.loopDelayS)
    else if key == GPS_DELAY_S then IntValue(c.gpsDelayS)
    else if key == FAKE_GPS_ENABLED then BoolValue(c.fakeGpsEnabled)
    else if key == FAKE_GPS_LATITUDE then FloatValue(c.fakeGpsLatitude)
    else if key == FAKE_GPS_LONGITUDE then FloatValue(c.fakeGpsLongitude)
    else IntValue(c.vehicleSpeedDelayS)
  }

  /** The value type each key declares. */
  predicate HasExpectedType(key: string, v: Value)
    requires key in Keys
  {
    if key == FAKE_GPS_ENABLED then v.BoolValue?
    else if key == FAKE_GPS_LATITUDE || key == FAKE_GPS_LONGITUDE then v.FloatValue?
    else v.IntValue?
  }

  /** The range each key accepts. */
  predicate InBounds(key: string, v: Value)
    requires key in Keys && HasExpectedType(key, v)
  {
    if key == LOOP_DELAY_S then 1 <= v.i64 <= MAX_DELAY_S
    else if key == GPS_DELAY_S || key == VEHICLE_SPEED_DELAY_S then 0 <= v.i64 <= MAX_DELAY_S
    else if key == FAKE_GPS_LATITUDE then -90.0 <= v.f <= 90.0
    else if key == FAKE_GPS_LONGITUDE then -180.0 <= v.f <= 180.0
    else true
  }

  /** Every setting within its range. */
  predicate InRange(c: Config)
  {
    && 1 <= c.loopDelayS <= MAX_DELAY_S
    && c.gpsDelayS <= MAX_DELAY_S
    && c.vehicleSpeedDelayS <= MAX_DELAY_S
    && -90.0 <= c.fakeGpsLatitude <= 90.0
    && -180.0 <= c.fakeGpsLongitude <= 180.0
  }

  /** The result of one call: status, the settings afterwards, and whether the main loop was woken. */
  datatype Outcome = Outcome(status: Status, config: Config, wake: bool)

  /** The setter's decision for `key` and `v` given the current settings `c`. */
  function ApplySetting(c: Config, key: string, v: Value): Outcome
  {
    if key == LOOP_DELAY_S then
      if !v.IntValue? then Outcome(ValueFormatNotValid, c, false)
      else if v.i64 < 1 || v.i64 > MAX_DELAY_S then Outcome(ValueOutsideRange, c, false)
      else if c.loopDelayS == v.i64 then Outcome(Success, c, false)
      else Outcome(Success, c.(loopDelayS := v.i64), true)
    else if key == GPS_DELAY_S then
      if !v.IntValue? then Outcome(ValueFormatNotValid, c, false)
      else if v.i64 < 0 || v.i64 > MAX_DELAY_S then Outcome(ValueOutsideRange, c, false)
      else Outcome(Success, c.(gpsDelayS := v.i64), false)
    else if key == FAKE_GPS_ENABLED then
      if !v.BoolValue? then Outcome(ValueFormatNotValid, c, false)
      else Outcome(Success, c.(fakeGpsEnabled := v.b), false)
    else if key == FAKE_GPS_LATITUDE then
      if !v.FloatValue? then Outcome(ValueFormatNotValid, c, false)
      else if v.f < -90.0 || v.f > 90.0 then Outcome(ValueOutsideRange, c, false)
      else Outcome(Success, c.(fakeGpsLatitude := v.f), false)
    else if key == FAKE_GPS_LONGITUDE then
      if !v.FloatValue? then Outcome(ValueFormatNotValid, c, false)
      else if v.f < -180.0 || v.f > 180.0 then Outcome(ValueOutsideRange, c, false)
      else Outcome(Success, c.(fakeGpsLongitude := v.f), false)
    else if key == VEHICLE_SPEED_DELAY_S then
      if !v.IntValue? then Outcome(ValueFormatNotValid, c, false)
      else if v.i64 < 0 || v.i64 > MAX_DELAY_S then Outcome(ValueOutsideRange, c, false)
      else Outcome(Success, c.(vehicleSpeedDelayS := v.i64), false)
    else Outcome(KeyNotRecognized, c, false)
  }

  /**
   * The outcome classes: an unknown key, a value of the wrong type and a value out of
   * range each get their own status and change nothing; otherwise the call succeeds and
   * the addressed setting now holds the value.
   */
  lemma SetterOutcomes(c: Config, key: string, v: Value)
    ensures var o := ApplySetting(c, key, v);
      && (key !in Keys ==> o == Outcome(KeyNotRecognized, c, false))
      && (key in Keys && !HasExpectedType(key, v) ==> o == Outcome(ValueFormatNotValid, c, false))
      && (key in Keys && HasExpectedType(key, v) && !InBounds(key, v) ==> o == Outcome(ValueOutsideRange, c, false))
      && (key in Keys && HasExpectedType(key, v) && InBounds(key, v) ==> o.status == Success && Get(o.config, key) == v)
  {
  }

  /** Whatever the outcome, no setting other than the addressed one changes. */
  lemma OnlyAddressedSettingChanges(c: Config, key: string, v: Value)
    ensures forall k :: k in Keys && k != key ==> Get(ApplySetting(c, key, v).config, k) == Get(c, k)
  {
  }

  /** Re-applying an accepted value succeeds again, changes nothing and wakes nobody. */
  lemma ReapplyIsIdempotent(c: Config, key: string, v: Value)
    requires ApplySetting(c, key, v).status == Success
    ensures var c' := ApplySetting(c, key, v).config;
      ApplySetting(c', key, v) == Outcome(Success, c', false)
  {
  }

  /** The main loop is woken exactly when the loop delay actually changes. */
  lemma WakeOnlyOnLoopDelayChange(c: Config, key: string, v: Value)
    ensures var o := ApplySetting(c, key, v);
      o.wake <==> key == LOOP_DELAY_S && o.status == Success && o.config.loopDelayS != c.loopDelayS
  {
  }

  /** The defaults are in range and every call keeps the settings in range. */
  lemma SettingsStayInRange(c: Config, key: string, v: Value)
    ensures InRange(Defaults)
    ensures InRange(c) ==> InRange(ApplySetting(c, key, v).config)
  {
  }

  /** The module's static settings. */
  class AppSettings {
    var loopDelayS: nat
    var gpsDelayS: nat
    var fakeGpsEnabled: bool
    var fakeGpsLatitude: real
    var fakeGpsLongitude: real
    var vehicleSpeedDelayS: nat

    /** The six getters, together. */
    function Current(): Config
      reads this
    {
      Config(loopDelayS, gpsDelayS, fakeGpsEnabled, fakeGpsLatitude, fakeGpsLongitude, vehicleSpeedDelayS)
    }

    constructor ()
      ensures Current() == Defaults
    {
      loopDelayS := 5;
      gpsDelayS := 3;
      fakeGpsEnabled := false;
      fakeGpsLatitude := 37.789980;
      fakeGpsLongitude := -122.400860;
      vehicleSpeedDelayS := 1;
    }

    /**
     * `on_setting`. `wake` reports the call to `wake_system_thread`, made only when the
     * loop delay changes.
     */
    method OnSetting(key: string, value: Value) returns (status: Status, wake: bool)
      modifies this
      ensures Outcome(status, Current(), wake) == ApplySetting(old(Current()), key, value)
    {
      wake := false;
      if key == LOOP_DELAY_S {
        if !value.IntValue? {
          return ValueFormatNotValid, false;
        }
        if value.i64 < 1 || value.i64 > MAX_DELAY_S {
          return ValueOutsideRange, false;
        }
        if loopDelayS != value.i64 {
          loopDelayS := value.i64;
          wake := true;
        }
        status := Success;
      } else if key == GPS_DELAY_S {
        if !value.IntValue? {
          return ValueFormatNotValid, false;
        }
        if value.i64 < 0 || value.i64 > MAX_DELAY_S {
          return ValueOutsideRange, false;
        }
        if gpsDelayS != value.i64 {
          gpsDelayS := value.i64;
        }
        status := Success;
      } else if key == FAKE_GPS_ENABLED {
        if !value.BoolValue? {
          return ValueFormatNotValid, false;
        }
        if fakeGpsEnabled != value.b {
          fakeGpsEnabled := value.b;
        }
        status := Success;
      } else if key == FAKE_GPS_LATITUDE {
        if !value.FloatValue? {
          return ValueFormatNotValid, false;
        }
        if value.f < -90.0 || value.f > 90.0 {
          return ValueOutsideRange, false;
        }
        if fakeGpsLatitude != value.f {
          fakeGpsLatitude := value.f;
        }
        status := Success;
      } else if key == FAKE_GPS_LONGITUDE {
        if !value.FloatValue? {
          return ValueFormatNotValid, false;
        }
        if value.f < -180.0 || value.f > 180.0 {
          return ValueOutsideRange, false;
        }
        if fakeGpsLongitude != value.f {
          fakeGpsLongitude := value.f;
        }
        status := Success;
      } else if key == VEHICLE_SPEED_DELAY_S {
        if !value.IntValue? {
          return ValueFormatNotValid, false;
        }
        if value.i64 < 0 || value.i64 > MAX_DELAY_S {
          return ValueOutsideRange, false;
        }
        if vehicleSpeedDelayS != value.i64 {
          vehicleSpeedDelayS := value.i64;
        }
        status := Success;
      } else {
        status := KeyNotRecognized;
      }
    }
  }
}
