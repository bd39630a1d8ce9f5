/**
 * The work loop of the GNSS/CAN variant (`app_work.c`): for every queued fix it takes the
 * CAN speed frames received up to that fix's time, summarises their speeds in miles per hour
 * (maximum, minimum, average) and streams one JSON record.
 */
module Work {
  import opened Optional
  import opened Can
  import opened Nmea
  import opened MsgQueues
  import opened TimeFormat
  import opened Gnss
  import opened Sequences

  /** A CAN frame and the uptime (ms) at which the listener received it. */
  datatype CanMsg = CanMsg(timestamp: nat, frame: CanFrame)

  const UINT16_MAX: nat := 65535
  const UINT16_MODULUS: nat := 65536
  /** The only frame length the work loop accepts (compared against the raw DLC). */
  const SPEED_FRAME_DLC: nat := 5

  /** Big-endian 16-bit value of two bytes. */
  function Be16(hi: byte, lo: byte): (v: nat)
    ensures v < UINT16_MODULUS
  {
    hi as nat * 256 + lo as nat
  }

  /** The speed carried in bytes 3 and 4, in hundredths of km/h, as whole km/h. */
  function Kmh(f: CanFrame): (k: nat)
  {
    Be16(f.data[3], f.data[4]) / 100
  }

  /** km/h to mph with factor 0.6213751, truncated toward zero. */
  function Mph(kmh: nat): nat
  {
    kmh * 6213751 / 10000000
  }

  /** The conversion never increases a speed, respects order, and fits 407 mph for any frame. */
  lemma MphProperties(k: nat, l: nat)
    ensures Mph(k) <= k
    ensures k <= l ==> Mph(k) <= Mph(l)
    ensures k <= 655 ==> Mph(k) <= 407
  {
    if k <= l {
      assert k * 6213751 <= l * 6213751;
    }
  }

  lemma KmhBound(f: CanFrame)
    ensures Kmh(f) <= 655
  {
  }

  /** The speed in mph of an accepted frame, or nothing for a frame of the wrong length. */
  function FrameMph(m: CanMsg): Option<nat>
  {
    if m.frame.dlc == SPEED_FRAME_DLC then Some(Mph(Kmh(m.frame))) else None
  }

  /** The speeds of the accepted frames, in order. */
  function Speeds(ms: seq<CanMsg>): (sp: seq<nat>)
    ensures |sp| <= |ms|
  {
    if ms == [] then []
    else
      var init := Speeds(ms[..|ms| - 1]);
      match FrameMph(ms[|ms| - 1])
      case None => init
      case Some(v) => init + [v]
  }

  function Sum(s: seq<nat>): nat
  {
    if s == [] then 0 else Sum(s[..|s| - 1]) + s[|s| - 1]
  }

  function Max(a: nat, b: nat): nat { if a >= b then a else b }
  function Min(a: nat, b: nat): nat { if a <= b then a else b }

  /** The accumulators of one fix's window; `mphSum` is the 16-bit running sum. */
  datatype Window = Window(count: nat, mphMax: nat, mphMin: nat, mphSum: nat)

  const EmptyWindow: Window := Window(0, 0, UINT16_MAX, 0)

  /** One CAN message: a frame of the wrong length is skipped, any other updates the statistics. */
  function Accumulate(w: Window, m: CanMsg): Window
  {
    match FrameMph(m)
    case None => w
    case Some(mph) => Window(w.count + 1, Max(mph, w.mphMax), Min(mph, w.mphMin), (w.mphSum + mph) % UINT16_MODULUS)
  }

  function AccumulateAll(w: Window, ms: seq<CanMsg>): Window
  {
    if ms == [] then w else Accumulate(AccumulateAll(w, ms[..|ms| - 1]), ms[|ms| - 1])
  }

  /** `mph_avg` after the loop: divided by the count only when more than one frame was accepted. */
  function Average(w: Window): nat
  {
    if w.count > 1 then w.mphSum / w.count else w.mphSum
  }

  /** Every accepted speed is at most 407 mph. */
  lemma FrameMphBound(m: CanMsg)
    ensures FrameMph(m).Some? ==> FrameMph(m).value <= 407
  {
    MphProperties(Kmh(m.frame), 0);
  }

  lemma {:induction false} SpeedsBound(ms: seq<CanMsg>)
    ensures forall i :: 0 <= i < |Speeds(ms)| ==> Speeds(ms)[i] <= 407
  {
    if ms != [] {
      SpeedsBound(ms[..|ms| - 1]);
      FrameMphBound(ms[|ms| - 1]);
    }
  }

  lemma SumSnoc(s: seq<nat>, v: nat)
    ensures Sum(s + [v]) == Sum(s) + v
  {
    assert (s + [v])[..|s|] == s;
  }

  lemma ModAdd(s: nat, v: nat)
    ensures (s % UINT16_MODULUS + v) % UINT16_MODULUS == (s + v) % UINT16_MODULUS
  {
    var q := s / UINT16_MODULUS;
    assert s == q * UINT16_MODULUS + s % UINT16_MODULUS;
  }

  /** The accepted speeds of a run extended by one message. */
  lemma SpeedsSnoc(ms: seq<CanMsg>)
    requires ms != []
    ensures var m := ms[|ms| - 1];
      Speeds(ms) == Speeds(ms[..|ms| - 1]) + (if FrameMph(m).Some? then [FrameMph(m).value] else [])
  {
  }

  /** The count is the number of accepted frames and the sum is theirs modulo 2^16. */
  lemma {:induction false} WindowCountAndSum(ms: seq<CanMsg>)
    ensures var w := AccumulateAll(EmptyWindow, ms);
      w.count == |Speeds(ms)| && w.mphSum == Sum(Speeds(ms)) % UINT16_MODULUS
  {
    if ms != [] {
      var init := ms[..|ms| - 1];
      var m := ms[|ms| - 1];
      WindowCountAndSum(init);
      SpeedsSnoc(ms);
      var sp := Speeds(init);
      var w := AccumulateAll(EmptyWindow, init);
      if FrameMph(m).Some? {
        var v := FrameMph(m).value;
        SumSnoc(sp, v);
        ModAdd(Sum(sp), v);
        assert AccumulateAll(EmptyWindow, ms).mphSum == (w.mphSum + v) % UINT16_MODULUS;
      }
    }
  }

  /** The maximum is one of the accepted speeds and bounds all of them; 0 when there is none. */
  lemma {:induction false} WindowMaximum(ms: seq<CanMsg>)
    ensures var w := AccumulateAll(EmptyWindow, ms);
      var sp := Speeds(ms);
      && (sp == [] ==> w.mphMax == 0)
      && (sp != [] ==> w.mphMax in sp && forall i :: 0 <= i < |sp| ==> sp[i] <= w.mphMax)
  {
    if ms != [] {
      var init := ms[..|ms| - 1];
      WindowMaximum(init);
      var sp := Speeds(init);
      match FrameMph(ms[|ms| - 1])
      case None =>
      case Some(v) =>
        assert Speeds(ms) == sp + [v];
        assert forall i :: 0 <= i < |sp| ==> (sp + [v])[i] == sp[i];
    }
  }

  /** The minimum is one of the accepted speeds and bounds all of them; 65535 when there is none. */
  lemma {:induction false} WindowMinimum(ms: seq<CanMsg>)
    ensures var w := AccumulateAll(EmptyWindow, ms);
      var sp := Speeds(ms);
      && (sp == [] ==> w.mphMin == UINT16_MAX)
      && (sp != [] ==> w.mphMin in sp && forall i :: 0 <= i < |sp| ==> w.mphMin <= sp[i])
  {
    if ms != [] {
      var init := ms[..|ms| - 1];
      WindowMinimum(init);
      SpeedsBound(ms);
      var sp := Speeds(init);
      match FrameMph(ms[|ms| - 1])
      case None =>
      case Some(v) =>
        assert Speeds(ms) == sp + [v];
        assert forall i :: 0 <= i < |sp| ==> (sp + [v])[i] == sp[i];
    }
  }

  lemma {:induction false} SumBound(s: seq<nat>, b: nat)
    requires forall i :: 0 <= i < |s| ==> s[i] <= b
    ensures Sum(s) <= |s| * b
  {
    if s != [] {
      assert forall i :: 0 <= i < |s| - 1 ==> s[..|s| - 1][i] == s[i];
      SumBound(s[..|s| - 1], b);
    }
  }

  lemma MulAtLeast(q: nat, b: nat)
    requires b >= 1
    ensures q * b >= q
  {
    assert q * b == q * (b - 1) + q;
  }

  /** Integer division by a positive count never increases the dividend. */
  lemma DivideDown(a: nat, b: nat)
    requires b > 0
    ensures a / b <= a
  {
    var q := a / b;
    assert a == q * b + a % b;
    MulAtLeast(q, b);
  }

  /** With a sum that cannot wrap, the 16-bit average is the integer mean. */
  lemma AverageOfUnwrapped(w: Window, sp: seq<nat>)
    requires w.count == |sp| && w.mphSum == Sum(sp) % UINT16_MODULUS && Sum(sp) < UINT16_MODULUS
    ensures Average(w) == if sp == [] then 0 else Sum(sp) / |sp|
  {
  }

  /**
   * While at most 161 frames are accepted the 16-bit sum cannot wrap, and the reported
   * average is the integer mean of the accepted speeds (0 when there were none).
   */
  lemma AverageIsMean(ms: seq<CanMsg>)
    requires |Speeds(ms)| <= 161
    ensures var sp := Speeds(ms);
      Average(AccumulateAll(EmptyWindow, ms)) == if sp == [] then 0 else Sum(sp) / |sp|
  {
    WindowCountAndSum(ms);
    SpeedsBound(ms);
    var sp := Speeds(ms);
    SumBound(sp, 407);
    AverageOfUnwrapped(AccumulateAll(EmptyWindow, ms), sp);
  }

  /**
   * The number of CAN messages at the head of the queue received no later than `ts`: the
   * inner loop stops at the first later one and leaves it queued.
   */
  function WindowLength(cans: seq<CanMsg>, ts: nat): (n: nat)
    ensures n <= |cans|
    ensures forall i :: 0 <= i < n ==> cans[i].timestamp <= ts
    ensures n < |cans| ==> cans[n].timestamp > ts
  {
    if cans == [] || cans[0].timestamp > ts then 0 else 1 + WindowLength(cans[1..], ts)
  }

  /** The window length is the unique boundary between earlier and later messages. */
  lemma WindowLengthIs(cans: seq<CanMsg>, ts: nat, k: nat)
    requires k <= |cans|
    requires forall i :: 0 <= i < k ==> cans[i].timestamp <= ts
    requires k < |cans| ==> cans[k].timestamp > ts
    ensures WindowLength(cans, ts) == k
  {
  }

  /** What is streamed for one fix. */
  datatype Record = Record(rmc: Rmc, mphMax: nat, mphMin: nat, mphAvg: nat)

  function Summarize(m: RmcMsg, window: seq<CanMsg>): Record
  {
    var w := AccumulateAll(EmptyWindow, window);
    Record(m.frame, w.mphMax, w.mphMin, Average(w))
  }

  /** The records produced so far and what is left of the CAN queue. */
  datatype RunState = RunState(records: seq<Record>, rest: seq<CanMsg>)

  /** The outer loop over the queued fixes, each consuming its window from the CAN queue. */
  function Run(rmcs: seq<RmcMsg>, cans: seq<CanMsg>): RunState
  {
    if rmcs == [] then RunState([], cans)
    else
      var p := Run(rmcs[..|rmcs| - 1], cans);
      var m := rmcs[|rmcs| - 1];
      var n := WindowLength(p.rest, m.timestamp);
      RunState(p.records + [Summarize(m, p.rest[..n])], p.rest[n..])
  }

  /** One record per fix, in order, each carrying its fix. */
  lemma {:induction false} RunRecords(rmcs: seq<RmcMsg>, cans: seq<CanMsg>)
    ensures var r := Run(rmcs, cans);
      && |r.records| == |rmcs|
      && (forall i :: 0 <= i < |rmcs| ==> r.records[i].rmc == rmcs[i].frame)
  {
    if rmcs != [] {
      var init := rmcs[..|rmcs| - 1];
      RunRecords(init, cans);
      var p := Run(init, cans);
      var r := Run(rmcs, cans);
      assert r.records[..|init|] == p.records;
      assert forall i :: 0 <= i < |init| ==> r.records[i] == p.records[i] && init[i] == rmcs[i];
    }
  }

  lemma DropDrop(s: seq<CanMsg>, k: nat, n: nat)
    requires k + n <= |s|
    ensures s[k..][n..] == s[k + n..]
  {
  }

  /** The CAN queue only ever loses a prefix. */
  lemma {:induction false} RunConsumesPrefix(rmcs: seq<RmcMsg>, cans: seq<CanMsg>)
    ensures var r := Run(rmcs, cans);
      |r.rest| <= |cans| && r.rest == cans[|cans| - |r.rest|..]
  {
    if rmcs != [] {
      var init := rmcs[..|rmcs| - 1];
      RunConsumesPrefix(init, cans);
      var p := Run(init, cans);
      var n := WindowLength(p.rest, rmcs[|rmcs| - 1].timestamp);
      var k := |cans| - |p.rest|;
      DropDrop(cans, k, n);
    }
  }

  /** The window of CAN messages each fix consumes, in the order of the fixes. */
  function Windows(rmcs: seq<RmcMsg>, cans: seq<CanMsg>): seq<seq<CanMsg>>
  {
    if rmcs == [] then []
    else
      var p := Run(rmcs[..|rmcs| - 1], cans);
      var n := WindowLength(p.rest, rmcs[|rmcs| - 1].timestamp);
      Windows(rmcs[..|rmcs| - 1], cans) + [p.rest[..n]]
  }

  /** The messages of several windows, one window after another. */
  function Concat(ws: seq<seq<CanMsg>>): seq<CanMsg>
  {
    if ws == [] then [] else Concat(ws[..|ws| - 1]) + ws[|ws| - 1]
  }

  /**
   * The windows partition the CAN queue: one per fix and, laid end to end and followed by
   * what is left, exactly the queued messages, so no message is summarised twice or skipped.
   */
  lemma {:induction false} RunPartitionsQueue(rmcs: seq<RmcMsg>, cans: seq<CanMsg>)
    ensures |Windows(rmcs, cans)| == |rmcs|
    ensures Concat(Windows(rmcs, cans)) + Run(rmcs, cans).rest == cans
  {
    if rmcs != [] {
      var init := rmcs[..|rmcs| - 1];
      RunPartitionsQueue(init, cans);
      var p := Run(init, cans);
      var n := WindowLength(p.rest, rmcs[|rmcs| - 1].timestamp);
      ConcatStep(Windows(init, cans), p.rest, n, cans);
    }
  }

  /** Each record summarises its own fix's window. */
  lemma {:induction false} RecordsSummarizeWindows(rmcs: seq<RmcMsg>, cans: seq<CanMsg>)
    ensures |Windows(rmcs, cans)| == |Run(rmcs, cans).records| == |rmcs|
    ensures forall i :: 0 <= i < |rmcs| ==> Run(rmcs, cans).records[i] == Summarize(rmcs[i], Windows(rmcs, cans)[i])
  {
    if rmcs != [] {
      var init := rmcs[..|rmcs| - 1];
      var m := rmcs[|rmcs| - 1];
      RecordsSummarizeWindows(init, cans);
      var p := Run(init, cans);
      var n := WindowLength(p.rest, m.timestamp);
      SummaryStep(p.records, Windows(init, cans), init, m, p.rest[..n]);
      assert init + [m] == rmcs;
    }
  }

  /** Appending the next window keeps the queue partitioned. */
  lemma ConcatStep(wi: seq<seq<CanMsg>>, rest: seq<CanMsg>, n: nat, cans: seq<CanMsg>)
    requires n <= |rest| && Concat(wi) + rest == cans
    ensures Concat(wi + [rest[..n]]) + rest[n..] == cans
  {
    var ws := wi + [rest[..n]];
    assert ws[..|ws| - 1] == wi;
    assert rest[..n] + rest[n..] == rest;
  }

  /** Appending the next fix's record and window keeps each record paired with its window. */
  lemma SummaryStep(records: seq<Record>, wi: seq<seq<CanMsg>>, init: seq<RmcMsg>, m: RmcMsg, w: seq<CanMsg>)
    requires |records| == |wi| == |init|
    requires forall i :: 0 <= i < |init| ==> records[i] == Summarize(init[i], wi[i])
    ensures var rs := records + [Summarize(m, w)];
      var ws := wi + [w];
      var ms := init + [m];
      forall i :: 0 <= i < |ms| ==> rs[i] == Summarize(ms[i], ws[i])
  {
  }

  /**
   * The last fix consumes only messages received no later than it, and what is left, if
   * anything, starts with a message received after it.
   */
  lemma LastWindowBoundary(rmcs: seq<RmcMsg>, cans: seq<CanMsg>)
    requires rmcs != []
    ensures var r := Run(rmcs, cans);
      var p := Run(rmcs[..|rmcs| - 1], cans);
      var ts := rmcs[|rmcs| - 1].timestamp;
      && |r.rest| <= |p.rest| && r.rest == p.rest[|p.rest| - |r.rest|..]
      && (forall i :: 0 <= i < |p.rest| - |r.rest| ==> p.rest[i].timestamp <= ts)
      && (r.rest != [] ==> r.rest[0].timestamp > ts)
  {
  }

  /** Accepted speeds and the 16-bit average all fit a `%u` of at most five digits. */
  lemma RecordFieldsFit(m: RmcMsg, window: seq<CanMsg>)
    ensures var r := Summarize(m, window);
      r.mphMax <= 407 && r.mphMin <= UINT16_MAX && r.mphAvg < UINT16_MODULUS
  {
    WindowMaximum(window);
    WindowMinimum(window);
    SpeedsBound(window);
    WindowCountAndSum(window);
    var w := AccumulateAll(EmptyWindow, window);
    var sp := Speeds(window);
    if sp != [] {
      var i :| 0 <= i < |sp| && sp[i] == w.mphMax;
      var j :| 0 <= j < |sp| && sp[j] == w.mphMin;
    }
    if w.count > 1 {
      DivideDown(w.mphSum, w.count);
    }
  }

  /** The record's JSON text before truncation, from its already formatted pieces. */
  function WorkText(lat: string, lon: string, ts: string, max: string, min: string, avg: string): string
  {
    "{\"lat\":" + lat + ",\"lon\":" + lon + ",\"time\":\"" + ts
      + "\",\"mph_max\":\"" + max + "\",\"mph_min\":\"" + min + "\",\"mph_avg\":\"" + avg + "\"}"
  }

  /** The record as formatted into the 128-byte JSON buffer; `formatCoord` stands for `%f`. */
  function WorkJson(r: Record, formatCoord: real -> string): string
  {
    var lat := Snprintk(formatCoord(r.rmc.latitude), 12);
    var lon := Snprintk(formatCoord(r.rmc.longitude), 12);
    var ts := Snprintk(Timestamp(r.rmc.date, r.rmc.time), 32);
    Snprintk(WorkText(lat, lon, ts, Decimal(r.mphMax), Decimal(r.mphMin), Decimal(r.mphAvg)), 128)
  }

  /** With pieces of bounded width the text stays under 128 bytes and ends with its closing brace. */
  lemma WorkTextBound(lat: string, lon: string, ts: string, max: string, min: string, avg: string)
    requires |lat| < 12 && |lon| < 12 && |ts| <= 24 && |max| <= 5 && |min| <= 5 && |avg| <= 5
    ensures var t := WorkText(lat, lon, ts, max, min, avg);
      |t| < 128 && t[|t| - 2..] == "\"}"
  {
    var front := "{\"lat\":" + lat + ",\"lon\":" + lon + ",\"time\":\"" + ts
      + "\",\"mph_max\":\"" + max + "\",\"mph_min\":\"" + min + "\",\"mph_avg\":\"" + avg;
    RightSlice(front, "\"}", 0, 2);
  }

  lemma DecimalOfUint16(n: nat)
    requires n < UINT16_MODULUS
    ensures |Decimal(n)| <= 5
  {
    assert Pow10(5) == 100000;
    DigitsLength(n, 5);
  }

  /** A record whose fields fit 16 bits and whose fix has two-digit fields fits its buffer whole. */
  lemma WorkJsonFits(r: Record, formatCoord: real -> string)
    requires TwoDigitFields(r.rmc.date, r.rmc.time) && 0 <= r.rmc.time.microseconds < 1000000
    requires r.mphMax < UINT16_MODULUS && r.mphMin < UINT16_MODULUS && r.mphAvg < UINT16_MODULUS
    ensures var j := WorkJson(r, formatCoord);
      |j| < 128 && j[|j| - 2..] == "\"}"
  {
    DecimalOfUint16(r.mphMax);
    DecimalOfUint16(r.mphMin);
    DecimalOfUint16(r.mphAvg);
    TimestampRoundTrip(r.rmc.date, r.rmc.time);
    WorkTextBound(Snprintk(formatCoord(r.rmc.latitude), 12), Snprintk(formatCoord(r.rmc.longitude), 12),
      Snprintk(Timestamp(r.rmc.date, r.rmc.time), 32), Decimal(r.mphMax), Decimal(r.mphMin), Decimal(r.mphAvg));
  }

  /**
   * For a fix with two-digit date and time fields, the record is never cut off: it ends with
   * the closing brace.
   */
  lemma WorkJsonComplete(m: RmcMsg, window: seq<CanMsg>, formatCoord: real -> string)
    requires TwoDigitFields(m.frame.date, m.frame.time) && 0 <= m.frame.time.microseconds < 1000000
    ensures var r := Summarize(m, window);
      var j := WorkJson(r, formatCoord);
      |j| < 128 && j[|j| - 2..] == "\"}"
  {
    RecordFieldsFit(m, window);
    WorkJsonFits(Summarize(m, window), formatCoord);
  }

  lemma AccumulateAllSnoc(taken: seq<CanMsg>, c: CanMsg)
    ensures AccumulateAll(EmptyWindow, taken + [c]) == Accumulate(AccumulateAll(EmptyWindow, taken), c)
  {
    assert (taken + [c])[..|taken|] == taken;
  }

  /** Where the inner loop stops: the messages taken are exactly the window. */
  lemma WindowEnds(start: seq<CanMsg>, taken: seq<CanMsg>, rest: seq<CanMsg>, ts: nat)
    requires start == taken + rest
    requires forall i :: 0 <= i < |taken| ==> taken[i].timestamp <= ts
    requires rest == [] || rest[0].timestamp > ts
    ensures WindowLength(start, ts) == |taken|
    ensures start[..|taken|] == taken && start[|taken|..] == rest
  {
    assert forall i :: 0 <= i < |taken| ==> start[i] == taken[i];
    assert rest != [] ==> start[|taken|] == rest[0];
    WindowLengthIs(start, ts, |taken|);
  }

  /** One more fix extends the run by the record of the window it consumes. */
  lemma RunStep(rmcs: seq<RmcMsg>, cans: seq<CanMsg>, k: nat, records: seq<Record>, before: seq<CanMsg>, n: nat)
    requires k < |rmcs| && Run(rmcs[..k], cans) == RunState(records, before)
    requires n == WindowLength(before, rmcs[k].timestamp)
    ensures Run(rmcs[..k + 1], cans)
      == RunState(records + [Summarize(rmcs[k], before[..n])], before[n..])
  {
    assert rmcs[..k + 1][..k] == rmcs[..k];
  }

  /** Taking the head of the queue moves it to the end of what was taken. */
  lemma TakeOne(start: seq<CanMsg>, taken: seq<CanMsg>, before: seq<CanMsg>, ts: nat)
    requires start == taken + before && before != []
    requires forall i :: 0 <= i < |taken| ==> taken[i].timestamp <= ts
    requires before[0].timestamp <= ts
    ensures start == (taken + [before[0]]) + before[1..]
    ensures forall i :: 0 <= i < |taken| + 1 ==> (taken + [before[0]])[i].timestamp <= ts
  {
    assert before == [before[0]] + before[1..];
    assert taken + ([before[0]] + before[1..]) == (taken + [before[0]]) + before[1..];
  }

  /**
   * The inner loop for a fix received at `ts`: messages are taken while the head of the CAN
   * queue was received no later than `ts`, and accumulated.
   */
  method CollectWindow(canQueue: MsgQueue<CanMsg>, ts: nat) returns (w: Window)
    requires canQueue.Valid()
    modifies canQueue
    ensures canQueue.Valid()
    ensures var n := WindowLength(old(canQueue.items), ts);
      w == AccumulateAll(EmptyWindow, old(canQueue.items)[..n]) && canQueue.items == old(canQueue.items)[n..]
  {
    ghost var start := canQueue.items;
    ghost var taken: seq<CanMsg> := [];
    w := EmptyWindow;
    while true
      invariant canQueue.Valid()
      invariant start == taken + canQueue.items
      invariant forall i :: 0 <= i < |taken| ==> taken[i].timestamp <= ts
      invariant w == AccumulateAll(EmptyWindow, taken)
      decreases |canQueue.items|
    {
      var peeked := canQueue.Peek();
      if peeked.None? || peeked.value.timestamp > ts {
        WindowEnds(start, taken, canQueue.items, ts);
        assert start[..WindowLength(start, ts)] == taken;
        return;
      }
      ghost var before := canQueue.items;
      var c := canQueue.Get();
      TakeOne(start, taken, before, ts);
      AccumulateAllSnoc(taken, c.value);
      taken := taken + [c.value];
      w := Accumulate(w, c.value);
    }
  }

  /**
   * `app_work_sensor_read`: every queued fix is taken out in order; the CAN messages received
   * no later than it are taken out and summarised; the first later message stays queued for
   * the next fix. Returns the texts handed to the stream.
   */
  method SensorRead(rmcQueue: MsgQueue<RmcMsg>, canQueue: MsgQueue<CanMsg>, formatCoord: real -> string)
    returns (published: seq<string>)
    requires rmcQueue.Valid() && canQueue.Valid()
    modifies rmcQueue, canQueue
    ensures rmcQueue.Valid() && canQueue.Valid()
    ensures rmcQueue.items == []
    ensures var run := Run(old(rmcQueue.items), old(canQueue.items));
      canQueue.items == run.rest && published == Map(run.records, r => WorkJson(r, formatCoord))
  {
    ghost var rmcs := rmcQueue.items;
    ghost var cans := canQueue.items;
    ghost var k := 0;
    ghost var records: seq<Record> := [];
    var json := r => WorkJson(r, formatCoord);
    published := [];
    while true
      invariant rmcQueue.Valid() && canQueue.Valid()
      invariant 0 <= k <= |rmcs| && rmcQueue.items == rmcs[k..]
      invariant Run(rmcs[..k], cans) == RunState(records, canQueue.items)
      invariant published == Map(records, json)
      decreases |rmcQueue.items|
    {
      var got := rmcQueue.Get();
      if got.None? {
        break;
      }
      var m := got.value;
      ghost var before := canQueue.items;
      ghost var n := WindowLength(before, m.timestamp);
      RunStep(rmcs, cans, k, records, before, n);
      var w := CollectWindow(canQueue, m.timestamp);
      var record := Record(m.frame, w.mphMax, w.mphMin, Average(w));
      MapSnoc(records, record, json);
      records := records + [record];
      published := published + [json(record)];
      k := k + 1;
    }
    assert rmcs[..k] == rmcs;
  }
}
