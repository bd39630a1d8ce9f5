/**
 * The decision `process_reading` takes on a parsed RMC fix: the minimum-interval gate
 * and, in the variant that supports it, the fake-coordinate substitution for a fix
 * without satellite lock. Both GNSS front ends share it; the one without fake GPS
 * passes `fake == None`.
 */
module FixGate {
  import opened Optional
  import opened Nmea

  const UINT64_MODULUS: int := 0x1_0000_0000_0000_0000

  /**
   * `k_uptime_delta(&wait_for)` compared as `uint64_t`: the milliseconds from `last` to
   * `now`, wrapped to 64 bits.
   */
  function Elapsed(now: nat, last: nat): nat
  {
    (now - last) % UINT64_MODULUS
  }

  /** The configured fake position, used when fake GPS is enabled. */
  datatype FakeFix = FakeFix(latitude: real, longitude: real)

  datatype GateOutcome = Hold | Emit(fix: Rmc)

  /**
   * A fix goes out only once `delayS` seconds have elapsed since the last emission. A fix
   * with lock goes out unchanged; one without lock goes out only when fake coordinates
   * are configured, carrying those coordinates and still marked invalid.
   */
  function Gate(fix: Option<Rmc>, now: nat, last: nat, delayS: nat, fake: Option<FakeFix>): (r: GateOutcome)
    ensures r.Emit? <==> fix.Some? && Elapsed(now, last) >= delayS * 1000 && (fix.value.valid || fake.Some?)
    ensures r.Emit? ==> r.fix.time == fix.value.time && r.fix.date == fix.value.date && r.fix.valid == fix.value.valid
    ensures r.Emit? && fix.value.valid ==> r.fix == fix.value
    ensures r.Emit? && !fix.value.valid ==>
      r.fix.latitude == fake.value.latitude && r.fix.longitude == fake.value.longitude
  {
    if fix.None? || Elapsed(now, last) < delayS * 1000 then Hold
    else if fix.value.valid then Emit(fix.value)
    else if fake.Some? then Emit(fix.value.(latitude := fake.value.latitude, longitude := fake.value.longitude))
    else Hold
  }

  /** Without fake GPS only locked fixes are ever emitted, and they are emitted unchanged. */
  lemma WithoutFakeOnlyValid(fix: Option<Rmc>, now: nat, last: nat, delayS: nat)
    ensures Gate(fix, now, last, delayS, None).Emit? ==>
      fix.Some? && fix.value.valid && Gate(fix, now, last, delayS, None).fix == fix.value
  {
  }

  /** One sentence arrival: the uptime, what the parser made of it, and the settings in force. */
  datatype Arrival = Arrival(now: nat, fix: Option<Rmc>, delayS: nat, fake: Option<FakeFix>)

  /** An emitted fix, with its emission time and the interval in force when it went out. */
  datatype Emission = Emission(at: nat, delayS: nat, fix: Rmc)

  /** The stored last-emission time and the emissions so far. */
  datatype GateTrace = GateTrace(last: nat, emitted: seq<Emission>)

  /** The gate applied to a run of arrivals, the stored time carried from one to the next. */
  function RunGate(last: nat, arrivals: seq<Arrival>): GateTrace
  {
    if arrivals == [] then GateTrace(last, [])
    else
      var t := RunGate(last, arrivals[..|arrivals| - 1]);
      var a := arrivals[|arrivals| - 1];
      match Gate(a.fix, a.now, t.last, a.delayS, a.fake)
      case Hold => t
      case Emit(f) => GateTrace(a.now, t.emitted + [Emission(a.now, a.delayS, f)])
  }

  /** Uptime never goes backwards and stays within the 64-bit counter. */
  predicate Monotonic(last: nat, arrivals: seq<Arrival>)
  {
    && (forall i :: 0 <= i < |arrivals| ==> last <= arrivals[i].now < UINT64_MODULUS)
    && (forall i, j :: 0 <= i < j < |arrivals| ==> arrivals[i].now <= arrivals[j].now)
  }

  /**
   * The rate limit, over any interleaving of sentence arrivals and setting changes: every
   * emission is at least the interval then in force after the previous one (or after the
   * initial stored time), and the stored time is always the latest emission time.
   */
  lemma {:induction false} RateLimited(last: nat, arrivals: seq<Arrival>)
    requires Monotonic(last, arrivals)
    ensures var tr := RunGate(last, arrivals);
      var e := tr.emitted;
      && (|e| > 0 ==> e[0].at >= last + e[0].delayS * 1000)
      && (forall i :: 0 < i < |e| ==> e[i].at >= e[i - 1].at + e[i].delayS * 1000)
      && tr.last == (if e == [] then last else e[|e| - 1].at)
      && last <= tr.last
      && (arrivals != [] ==> tr.last <= arrivals[|arrivals| - 1].now)
  {
    if arrivals != [] {
      var init := arrivals[..|arrivals| - 1];
      assert Monotonic(last, init);
      RateLimited(last, init);
      var t := RunGate(last, init);
      var a := arrivals[|arrivals| - 1];
      assert t.last <= a.now by {
        if init != [] {
          assert init[|init| - 1] == arrivals[|arrivals| - 2];
        }
      }
      assert Elapsed(a.now, t.last) == a.now - t.last;
    }
  }
}
