/**
 * The desired-state handler for the fake-GPS fields (`app_state_desired_handler`):
 * a parse bitmask says which fields the desired document carried; each carried field
 * is validated and applied on its own, and the actual state is pushed back only when
 * at least one field was accepted.
 */
module AppState {
  const LATITUDE_MIN: real := -90.0
  const LATITUDE_MAX: real := 90.0
  const LONGITUDE_MIN: real := -180.0
  const LONGITUDE_MAX: real := 180.0

  /** The three state values (`_fake_gps_enabled`, `_fake_latitude`, `_fake_longitude`). */
  datatype FakeGps = FakeGps(enabled: bool, latitude: real, longitude: real)

  const Defaults: FakeGps := FakeGps(false, 37.789980, -122.400860)

  /**
   * What the JSON parser filled in, with the coordinate strings already converted to
   * numbers. A field is meaningful only when its bit is set in the parse result.
   */
  datatype Parsed = Parsed(fakeGpsEnabled: bool, fakeLatitude: real, fakeLongitude: real)

  function Pow2(k: nat): (p: nat)
    ensures p >= 1
  {
    if k == 0 then 1 else 2 * Pow2(k - 1)
  }

  /** `mask & (1 << k)` for a non-negative mask. */
  predicate Bit(mask: nat, k: nat)
  {
    (mask / Pow2(k)) % 2 == 1
  }

  predicate InRange(s: FakeGps)
  {
    LATITUDE_MIN <= s.latitude <= LATITUDE_MAX && LONGITUDE_MIN <= s.longitude <= LONGITUDE_MAX
  }

  /** Which fields the handler accepts: carried (bit set) and, for coordinates, within range. */
  predicate AcceptsEnabled(ret: nat) { Bit(ret, 0) }

  predicate AcceptsLatitude(ret: nat, p: Parsed)
  {
    Bit(ret, 1) && LATITUDE_MIN <= p.fakeLatitude <= LATITUDE_MAX
  }

  predicate AcceptsLongitude(ret: nat, p: Parsed)
  {
    Bit(ret, 2) && LONGITUDE_MIN <= p.fakeLongitude <= LONGITUDE_MAX
  }

  /** The handler's return value, the state afterwards, and whether the actual state was pushed. */
  datatype Handled = Handled(ret: int, state: FakeGps, pushed: bool)

  /**
   * The handler's decision. `rspErr` is the response error, `parseRet` the JSON parser's
   * result (negative on error, otherwise the bitmask of fields found) and `updateErr`
   * what pushing the actual state returns.
   */
  function Desired(s: FakeGps, rspErr: int, parseRet: int, p: Parsed, updateErr: int): Handled
  {
    if rspErr != 0 then Handled(rspErr, s, false)
    else if parseRet < 0 then Handled(parseRet, s, false)
    else
      var s' := FakeGps(
        if AcceptsEnabled(parseRet) then p.fakeGpsEnabled else s.enabled,
        if AcceptsLatitude(parseRet, p) then p.fakeLatitude else s.latitude,
        if AcceptsLongitude(parseRet, p) then p.fakeLongitude else s.longitude);
      var changed := AcceptsEnabled(parseRet) || AcceptsLatitude(parseRet, p) || AcceptsLongitude(parseRet, p);
      Handled(if changed then updateErr else 0, s', changed)
  }

  /** A response error or a parse error is returned as is, and nothing changes or is pushed. */
  lemma ErrorsChangeNothing(s: FakeGps, rspErr: int, parseRet: int, p: Parsed, updateErr: int)
    requires rspErr != 0 || parseRet < 0
    ensures var h := Desired(s, rspErr, parseRet, p, updateErr);
      h.state == s && !h.pushed && h.ret == (if rspErr != 0 then rspErr else parseRet)
  {
  }

  /**
   * Per field: a field changes only if its bit is set and, for a coordinate, the value is in
   * range, and then it takes the parsed value; a carried, acceptable value is always taken.
   * Without any of the three bits nothing changes. The actual state is pushed exactly when
   * some carried field was accepted, and the handler returns the push's result then, 0
   * otherwise.
   */
  lemma FieldsApplyIndependently(s: FakeGps, parseRet: nat, p: Parsed, updateErr: int)
    ensures var h := Desired(s, 0, parseRet, p, updateErr);
      && (h.state.enabled != s.enabled ==> Bit(parseRet, 0) && h.state.enabled == p.fakeGpsEnabled)
      && (h.state.latitude != s.latitude ==>
            Bit(parseRet, 1) && LATITUDE_MIN <= p.fakeLatitude <= LATITUDE_MAX && h.state.latitude == p.fakeLatitude)
      && (h.state.longitude != s.longitude ==>
            Bit(parseRet, 2) && LONGITUDE_MIN <= p.fakeLongitude <= LONGITUDE_MAX && h.state.longitude == p.fakeLongitude)
      && (Bit(parseRet, 0) ==> h.state.enabled == p.fakeGpsEnabled && h.pushed)
      && (Bit(parseRet, 1) && LATITUDE_MIN <= p.fakeLatitude <= LATITUDE_MAX ==> h.state.latitude == p.fakeLatitude && h.pushed)
      && (Bit(parseRet, 2) && LONGITUDE_MIN <= p.fakeLongitude <= LONGITUDE_MAX ==> h.state.longitude == p.fakeLongitude && h.pushed)
      && (!Bit(parseRet, 0) && !Bit(parseRet, 1) && !Bit(parseRet, 2) ==> h.state == s && !h.pushed)
      && (!h.pushed ==> h.state == s)
      && (h.pushed ==>
            || Bit(parseRet, 0)
            || (Bit(parseRet, 1) && LATITUDE_MIN <= p.fakeLatitude <= LATITUDE_MAX)
            || (Bit(parseRet, 2) && LONGITUDE_MIN <= p.fakeLongitude <= LONGITUDE_MAX))
      && h.ret == (if h.pushed then updateErr else 0)
  {
  }

  /** The single-bit mask for field `k` when `mask` carries it, otherwise the empty mask. */
  function Single(mask: nat, k: nat): nat
  {
    if Bit(mask, k) then Pow2(k) else 0
  }

  /** The single-bit masks 1, 2 and 4 carry exactly their own field; the empty mask none. */
  lemma BitOfPow2(a: nat, k: nat)
    requires a < 3 && k < 3
    ensures Bit(Pow2(a), k) <==> a == k
    ensures !Bit(0, k)
  {
    assert Pow2(0) == 1 && Pow2(1) == 2 && Pow2(2) == 4;
  }

  /**
   * Handling a mask is handling its three single-bit masks one after another: the same state
   * afterwards, pushed exactly when one of the single-bit calls pushed.
   */
  lemma MaskIsSingleBitsInOrder(s: FakeGps, mask: nat, p: Parsed, updateErr: int)
    ensures var h1 := Desired(s, 0, Single(mask, 0), p, updateErr);
      var h2 := Desired(h1.state, 0, Single(mask, 1), p, updateErr);
      var h3 := Desired(h2.state, 0, Single(mask, 2), p, updateErr);
      var h := Desired(s, 0, mask, p, updateErr);
      && h.state == h3.state
      && h.pushed == (h1.pushed || h2.pushed || h3.pushed)
      && h.ret == (if h1.pushed || h2.pushed || h3.pushed then updateErr else 0)
  {
    forall a: nat, k: nat | a < 3 && k < 3
      ensures Bit(Pow2(a), k) <==> a == k
      ensures !Bit(0, k)
    {
      BitOfPow2(a, k);
    }
  }

  /**
   * Two single-field updates give the same state in either order, and each field's update
   * pushes or not whether it comes first or second.
   */
  lemma SingleBitsCommute(s: FakeGps, a: nat, b: nat, p: Parsed, updateErr: int)
    requires a < 3 && b < 3
    ensures var ha := Desired(s, 0, Pow2(a), p, updateErr);
      var hb := Desired(s, 0, Pow2(b), p, updateErr);
      var ab := Desired(ha.state, 0, Pow2(b), p, updateErr);
      var ba := Desired(hb.state, 0, Pow2(a), p, updateErr);
      && ab.state == ba.state
      && ha.pushed == ba.pushed && hb.pushed == ab.pushed
  {
    forall k: nat | k < 3
      ensures (Bit(Pow2(a), k) <==> a == k) && (Bit(Pow2(b), k) <==> b == k)
    {
      BitOfPow2(a, k);
      BitOfPow2(b, k);
    }
  }

  /** The coordinates stay within their ranges, starting from the defaults. */
  lemma StateStaysInRange(s: FakeGps, rspErr: int, parseRet: int, p: Parsed, updateErr: int)
    ensures InRange(Defaults)
    ensures InRange(s) ==> InRange(Desired(s, rspErr, parseRet, p, updateErr).state)
  {
  }

  /** The fake-GPS globals. */
  class FakeGpsState {
    var enabled: bool
    var latitude: real
    var longitude: real

    function Current(): FakeGps
      reads this
    {
      FakeGps(enabled, latitude, longitude)
    }

    constructor ()
      ensures Current() == Defaults
    {
      enabled := false;
      latitude := 37.789980;
      longitude := -122.400860;
    }

    /** `app_state_desired_handler`; `pushed` reports the call to `app_state_update_actual`. */
    method DesiredHandler(rspErr: int, parseRet: int, parsed: Parsed, updateErr: int) returns (err: int, pushed: bool)
      modifies this
      ensures Handled(err, Current(), pushed) == Desired(old(Current()), rspErr, parseRet, parsed, updateErr)
    {
      if rspErr != 0 {
        return rspErr, false;
      }
      if parseRet < 0 {
        return parseRet, false;
      }
      var stateChangeCount := 0;
      if Bit(parseRet, 0) {
        enabled := parsed.fakeGpsEnabled;
        stateChangeCount := stateChangeCount + 1;
      }
      if Bit(parseRet, 1) {
        if parsed.fakeLatitude <= LATITUDE_MAX && parsed.fakeLatitude >= LATITUDE_MIN {
          latitude := parsed.fakeLatitude;
          stateChangeCount := stateChangeCount + 1;
        }
      }
      if Bit(parseRet, 2) {
        if parsed.fakeLongitude <= LONGITUDE_MAX && parsed.fakeLongitude >= LONGITUDE_MIN {
          longitude := parsed.fakeLongitude;
          stateChangeCount := stateChangeCount + 1;
        }
      }
      err := 0;
      pushed := stateChangeCount != 0;
      if pushed {
        err := updateErr;
      }
    }
  }
}
