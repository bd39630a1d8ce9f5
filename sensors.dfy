/**
 * The sensor front end of the CAN asset tracker (`app_sensors.c`): NMEA lines from the
 * GNSS UART pass the fix gate into a small RMC queue; a polling loop asks the vehicle
 * for its speed over OBD2; a forwarder pairs each fix with the latest speed; and the
 * main loop publishes the paired records as JSON.
 */
module Sensors {
  import opened Optional
  import opened Can
  import opened Nmea
  import opened MsgQueues
  import opened TimeFormat
  import opened LineAssembly
  import opened FixGate
  import opened Sequences
  import Settings

  // ---------------------------------------------------------------------------------
  // OBD2 vehicle-speed poll (SAE J1979 service 0x01, PID 0x0D, over ISO 15765-2)

  const OBD2_PID_REQUEST_ID: nat := 0x7DF
  const OBD2_PID_RESPONSE_DLC: nat := 8
  const OBD2_SERVICE_SHOW_CURRENT_DATA: byte := 0x01
  const OBD2_PID_VEHICLE_SPEED: byte := 0x0D
  const OBD2_PID_VEHICLE_SPEED_DLC: nat := 4
  const OBD2_PID_REQUEST_DATA_LENGTH: byte := 2
  /** Filler for unused bytes, as ISO 15765-2 suggests. */
  const ISO_TP_PADDING: byte := 0xCC

  /** The request frame sent at every poll. */
  const SpeedRequest: CanFrame := CanFrame(0, OBD2_PID_REQUEST_ID, 8,
    [OBD2_PID_REQUEST_DATA_LENGTH, OBD2_SERVICE_SHOW_CURRENT_DATA, OBD2_PID_VEHICLE_SPEED,
     ISO_TP_PADDING, ISO_TP_PADDING, ISO_TP_PADDING, ISO_TP_PADDING, ISO_TP_PADDING])

  /**
   * The payload of an ISO 15765-2 single frame: the first byte is the protocol control
   * information, high nibble 0 ("single frame"), low nibble the payload length 1..7.
   */
  function SingleFramePayload(data: FrameData): Option<seq<byte>>
  {
    var len := (data[0] % 16) as int;
    if data[0] / 16 == 0 && 1 <= len <= 7 then Some(data[1..1 + len]) else None
  }

  /**
   * The request is an eight-byte single frame to the functional broadcast identifier whose
   * payload is exactly "service 0x01, PID 0x0D", with every other byte padded.
   */
  lemma SpeedRequestLayout()
    ensures SpeedRequest.id == OBD2_PID_REQUEST_ID && SpeedRequest.flags == 0
    ensures DlcToBytes(SpeedRequest.dlc) == 8
    ensures SingleFramePayload(SpeedRequest.data) == Some([OBD2_SERVICE_SHOW_CURRENT_DATA, OBD2_PID_VEHICLE_SPEED])
    ensures forall i :: 3 <= i < 8 ==> SpeedRequest.data[i] == ISO_TP_PADDING
  {
    var data := SpeedRequest.data;
    assert data[0] % 16 == 2 && data[0] / 16 == 0;
    assert data[1..3] == [OBD2_SERVICE_SHOW_CURRENT_DATA, OBD2_PID_VEHICLE_SPEED];
  }

  /**
   * A response the poll accepts: eight or four data bytes, and a positive reply
   * (service 0x01 + 0x40) for PID 0x0D.
   */
  predicate IsSpeedResponse(f: CanFrame)
  {
    var n := DlcToBytes(f.dlc);
    && (n == OBD2_PID_RESPONSE_DLC || n == OBD2_PID_VEHICLE_SPEED_DLC)
    && f.data[1] == OBD2_SERVICE_SHOW_CURRENT_DATA + 0x40
    && f.data[2] == OBD2_PID_VEHICLE_SPEED
  }

  /** The speed a poll cycle settles on: -1, overwritten by byte 3 of each accepted response. */
  function SelectSpeed(frames: seq<CanFrame>): int
  {
    if frames == [] then -1
    else
      var last := frames[|frames| - 1];
      if IsSpeedResponse(last) then last.data[3] as int else SelectSpeed(frames[..|frames| - 1])
  }

  /**
   * The selected speed is -1 exactly when no response was accepted; otherwise it is the
   * speed byte of the LAST accepted response.
   */
  lemma {:induction false} SelectSpeedIsLastResponse(frames: seq<CanFrame>)
    ensures -1 <= SelectSpeed(frames) <= 255
    ensures SelectSpeed(frames) == -1 <==> forall i :: 0 <= i < |frames| ==> !IsSpeedResponse(frames[i])
    ensures forall k :: 0 <= k < |frames| && IsSpeedResponse(frames[k])
                        && (forall j :: k < j < |frames| ==> !IsSpeedResponse(frames[j]))
                        ==> SelectSpeed(frames) == frames[k].data[3] as int
  {
    if frames != [] {
      var init := frames[..|frames| - 1];
      SelectSpeedIsLastResponse(init);
      forall k | 0 <= k < |frames| && IsSpeedResponse(frames[k])
                 && (forall j :: k < j < |frames| ==> !IsSpeedResponse(frames[j]))
        ensures SelectSpeed(frames) == frames[k].data[3] as int
      {
        if k < |frames| - 1 {
          assert !IsSpeedResponse(frames[|frames| - 1]);
          assert init[k] == frames[k];
          assert forall j :: k < j < |init| ==> init[j] == frames[j];
        }
      }
      if !IsSpeedResponse(frames[|frames| - 1]) {
        assert forall i :: 0 <= i < |init| ==> init[i] == frames[i];
      }
    }
  }

  /**
   * The receive loop of one poll cycle over the responses that arrive before the 500 ms
   * receive timeout, in arrival order.
   */
  method DrainResponses(responses: seq<CanFrame>) returns (speed: int)
    ensures speed == SelectSpeed(responses)
  {
    speed := -1;
    var i := 0;
    while i < |responses|
      invariant 0 <= i <= |responses|
      invariant speed == SelectSpeed(responses[..i])
    {
      var frame := responses[i];
      assert responses[..i + 1][..i] == responses[..i];
      if IsSpeedResponse(frame) {
        speed := frame.data[3] as int;
      }
      i := i + 1;
    }
    assert responses[..i] == responses;
  }

  // ---------------------------------------------------------------------------------
  // Published record

  /** A fix paired with the vehicle speed known when it was forwarded. */
  datatype CatData = CatData(rmc: Rmc, vehicleSpeed: int)

  /** The value of the `fake` member: whether the coordinates are the configured stand-ins. */
  function FakeFlag(valid: bool): string
  {
    if valid then "false" else "true"
  }

  /** The leading member of a record with lock: the timestamp. */
  function TimeMember(ts: string): string
  {
    "{\"time\":\"" + ts + "\","
  }

  /** The start of the `"gps"` member: the two coordinates. */
  function GpsCoords(lat: string, lon: string): string
  {
    "\"gps\":{\"lat\":" + lat + ",\"lon\":" + lon + ","
  }

  /** The end of every record: the `fake` flag, the `"vehicle"` member and the closing braces. */
  function RecordTail(valid: bool, speed: int): string
  {
    "\"fake\":" + FakeFlag(valid) + "},\"vehicle\":{\"speed\":" + Decimal(speed) + "}}"
  }

  /**
   * The record before truncation: a fix with lock carries its timestamp and `"fake":false`;
   * one without (a fake-coordinate fix) has no time member and `"fake":true`. `formatCoord`
   * stands for the `%f` conversion of a coordinate.
   */
  function TrackerText(d: CatData, formatCoord: real -> string): string
  {
    var lat := Snprintk(formatCoord(d.rmc.latitude), 12);
    var lon := Snprintk(formatCoord(d.rmc.longitude), 12);
    var ts := Snprintk(Timestamp(d.rmc.date, d.rmc.time), 32);
    var body := GpsCoords(lat, lon) + RecordTail(d.rmc.valid, d.vehicleSpeed);
    if d.rmc.valid then TimeMember(ts) + body else "{" + body
  }

  /** The text handed to the stream, as written into the 256-byte JSON buffer. */
  function TrackerJson(d: CatData, formatCoord: real -> string): string
  {
    Snprintk(TrackerText(d, formatCoord), 256)
  }

  predicate IsInt32(n: int) { -0x8000_0000 <= n < 0x8000_0000 }

  lemma DecimalLength(n: int)
    requires IsInt32(n)
    ensures |Decimal(n)| <= 11
  {
    assert Pow10(10) == 10000000000;
    DigitsLength(if n < 0 then -n else n, 10);
  }

  /** Every piece of the record has a bounded width, so the whole stays under 256 bytes. */
  lemma TrackerTextLength(d: CatData, formatCoord: real -> string)
    requires IsInt32(d.vehicleSpeed)
    ensures |TrackerText(d, formatCoord)| < 256
  {
    var lat := Snprintk(formatCoord(d.rmc.latitude), 12);
    var lon := Snprintk(formatCoord(d.rmc.longitude), 12);
    var ts := Snprintk(Timestamp(d.rmc.date, d.rmc.time), 32);
    DecimalLength(d.vehicleSpeed);
    assert |RecordTail(d.rmc.valid, d.vehicleSpeed)| <= 60;
    assert |GpsCoords(lat, lon)| <= 50;
    assert |TimeMember(ts)| <= 50;
  }

  /** The record is the front part for its kind of fix followed by the common tail. */
  lemma TrackerTextSplit(d: CatData, formatCoord: real -> string)
    ensures var lat := Snprintk(formatCoord(d.rmc.latitude), 12);
      var lon := Snprintk(formatCoord(d.rmc.longitude), 12);
      var ts := Snprintk(Timestamp(d.rmc.date, d.rmc.time), 32);
      var front := if d.rmc.valid then TimeMember(ts) + GpsCoords(lat, lon) else "{" + GpsCoords(lat, lon);
      TrackerText(d, formatCoord) == front + RecordTail(d.rmc.valid, d.vehicleSpeed)
  {
  }

  lemma TimeMemberShape(ts: string)
    ensures var tm := TimeMember(ts);
      |tm| == 11 + |ts| && tm[..9] == "{\"time\":\"" && tm[9..9 + |ts|] == ts
  {
    var key := "{\"time\":\"";
    LeftSlice(key + ts, "\",", 0, 9);
    LeftSlice(key, ts, 0, 9);
    assert key[0..9] == key;
    LeftSlice(key + ts, "\",", 9, 9 + |ts|);
    RightSlice(key, ts, 0, |ts|);
    assert ts[0..|ts|] == ts;
  }

  /** The start of either layout, for any timestamp, coordinates and tail. */
  lemma FrontLayout(valid: bool, ts: string, lat: string, lon: string, tail: string)
    ensures var body := GpsCoords(lat, lon) + tail;
      var r := if valid then TimeMember(ts) + body else "{" + body;
      && ((|r| >= 9 && r[..9] == "{\"time\":\"") <==> valid)
      && (valid ==> |r| >= 9 + |ts| && r[9..9 + |ts|] == ts)
  {
    var g := GpsCoords(lat, lon);
    var body := g + tail;
    if valid {
      var tm := TimeMember(ts);
      TimeMemberShape(ts);
      LeftSlice(tm, body, 0, 9);
      LeftSlice(tm, body, 9, 9 + |ts|);
    } else {
      var r := "{" + body;
      assert g[1] == 'g';
      assert body[1] == g[1];
      assert r[2] == body[1];
      assert |r| >= 9 ==> r[..9][2] == 'g';
    }
  }

  /** Only a record with lock starts with the time member, and that member holds the timestamp. */
  lemma TrackerTextStart(d: CatData, formatCoord: real -> string)
    ensures var r := TrackerText(d, formatCoord);
      var ts := Snprintk(Timestamp(d.rmc.date, d.rmc.time), 32);
      && ((|r| >= 9 && r[..9] == "{\"time\":\"") <==> d.rmc.valid)
      && (d.rmc.valid ==> |r| >= 9 + |ts| && r[9..9 + |ts|] == ts)
  {
    FrontLayout(d.rmc.valid, Snprintk(Timestamp(d.rmc.date, d.rmc.time), 32),
      Snprintk(formatCoord(d.rmc.latitude), 12), Snprintk(formatCoord(d.rmc.longitude), 12),
      RecordTail(d.rmc.valid, d.vehicleSpeed));
  }

  /**
   * The record always fits its buffer, so nothing is cut off; it starts with the time member
   * exactly when the fix has lock, and that member holds the timestamp; and it ends with the
   * `fake` flag (false for a fix with lock, true otherwise) followed by the speed.
   */
  lemma TrackerJsonShape(d: CatData, formatCoord: real -> string)
    requires IsInt32(d.vehicleSpeed)
    ensures var r := TrackerJson(d, formatCoord);
      var ts := Snprintk(Timestamp(d.rmc.date, d.rmc.time), 32);
      var tail := RecordTail(d.rmc.valid, d.vehicleSpeed);
      && r == TrackerText(d, formatCoord)
      && ((|r| >= 9 && r[..9] == "{\"time\":\"") <==> d.rmc.valid)
      && (d.rmc.valid ==> r[9..9 + |ts|] == ts)
      && |tail| <= |r| && r[|r| - |tail|..] == tail
  {
    TrackerTextLength(d, formatCoord);
    TrackerTextSplit(d, formatCoord);
    TrackerTextStart(d, formatCoord);
  }

  // ---------------------------------------------------------------------------------
  // GNSS path: process_reading and serial_cb

  /** The fake position to substitute, when fake GPS is enabled. */
  function FakeOf(cfg: Settings.Config): Option<FakeFix>
  {
    if cfg.fakeGpsEnabled then Some(FakeFix(cfg.fakeGpsLatitude, cfg.fakeGpsLongitude)) else None
  }

  /** The state `process_reading` works on: the last emission time and the RMC queue. */
  datatype GpsState = GpsState(lastGps: nat, queued: seq<Rmc>)

  /**
   * `process_reading` on one completed line: the gate decides; an emitted fix is put into
   * the two-slot queue without waiting and the stored time becomes `now` even when the
   * put drops the fix.
   */
  function Process(s: GpsState, line: seq<char>, parse: Parser, now: nat, cfg: Settings.Config): GpsState
  {
    match Gate(parse(CString(line)), now, s.lastGps, cfg.gpsDelayS, FakeOf(cfg))
    case Hold => s
    case Emit(f) => GpsState(now, TryPut(s.queued, RMC_QUEUE_SENSORS, f))
  }

  /** `process_reading` as the handler of the lines the assembler completes. */
  function OnLine(parse: Parser, now: nat, cfg: Settings.Config): (GpsState, seq<char>) -> GpsState
  {
    (g, line) => Process(g, line, parse, now, cfg)
  }

  /** Each fix paired with the same speed. */
  function Tagged(fixes: seq<Rmc>, speed: int): (r: seq<CatData>)
    ensures |r| == |fixes|
    ensures forall i :: 0 <= i < |r| ==> r[i] == CatData(fixes[i], speed)
  {
    seq(|fixes|, i requires 0 <= i < |fixes| => CatData(fixes[i], speed))
  }

  /** The module's statics: line buffer, last emission time, queues and shared speed. */
  class SensorsApp {
    const assembler: LineAssembler
    var lastGps: nat
    const rmcQueue: MsgQueue<Rmc>
    const catQueue: MsgQueue<CatData>
    /** `g_vehicle_speed`, shared between the poll and forwarding threads. */
    var vehicleSpeed: int

    ghost predicate Valid()
      reads this, assembler, rmcQueue, catQueue
    {
      && assembler.Valid() && rmcQueue.Valid() && catQueue.Valid()
      && rmcQueue.capacity == RMC_QUEUE_SENSORS && catQueue.capacity == CAT_QUEUE
    }

    function Rx(): RxState<GpsState>
      reads this, assembler, assembler.buf, rmcQueue, catQueue
      requires Valid()
    {
      RxState(assembler.Held(), GpsState(lastGps, rmcQueue.items))
    }

    constructor ()
      ensures Valid() && fresh(assembler) && fresh(assembler.buf) && fresh(rmcQueue) && fresh(catQueue)
      ensures Rx() == RxState([], GpsState(0, [])) && catQueue.items == [] && vehicleSpeed == -1
    {
      assembler := new LineAssembler();
      rmcQueue := new MsgQueue(RMC_QUEUE_SENSORS);
      catQueue := new MsgQueue(CAT_QUEUE);
      lastGps := 0;
      vehicleSpeed := -1;
    }

    /** `process_reading`, called with the line the assembler completed. */
    method ProcessReading(line: seq<char>, parse: Parser, now: nat, cfg: Settings.Config)
      requires Valid()
      modifies this, rmcQueue
      ensures Valid()
      ensures GpsState(lastGps, rmcQueue.items) == Process(old(GpsState(lastGps, rmcQueue.items)), line, parse, now, cfg)
      ensures vehicleSpeed == old(vehicleSpeed)
    {
      var fix := parse(CString(line));
      if fix.Some? {
        if Elapsed(now, lastGps) >= cfg.gpsDelayS * 1000 {
          if fix.value.valid {
            var _ := rmcQueue.Put(fix.value);
            lastGps := now;
          } else if cfg.fakeGpsEnabled {
            var fake := fix.value.(latitude := cfg.fakeGpsLatitude, longitude := cfg.fakeGpsLongitude);
            var _ := rmcQueue.Put(fake);
            lastGps := now;
          }
        }
      }
    }

    /** `serial_cb`: the bytes one interrupt reads, all at uptime `now`. */
    method SerialCallback(bytes: seq<char>, parse: Parser, now: nat, cfg: Settings.Config)
      requires Valid()
      modifies this, assembler, assembler.buf, rmcQueue
      ensures Valid()
      ensures Rx() == Receive(old(Rx()), bytes, OnLine(parse, now, cfg))
      ensures vehicleSpeed == old(vehicleSpeed)
    {
      var i := 0;
      while i < |bytes|
        invariant 0 <= i <= |bytes|
        invariant Valid()
        invariant Rx() == Receive(old(Rx()), bytes[..i], OnLine(parse, now, cfg))
        invariant vehicleSpeed == old(vehicleSpeed)
      {
        assert bytes[..i + 1][..i] == bytes[..i];
        var line := assembler.Push(bytes[i]);
        if line.Some? {
          ProcessReading(line.value, parse, now, cfg);
        }
        i := i + 1;
      }
      assert bytes[..i] == bytes;
    }

    /**
     * One cycle of the poll thread: `sent` is whether the request went out, `responses` what
     * arrived before the receive timeout, `locked` whether the shared-data mutex was taken.
     */
    method PollCycle(sent: bool, responses: seq<CanFrame>, locked: bool) returns (speed: int)
      modifies this
      ensures speed == (if sent then SelectSpeed(responses) else -1)
      ensures vehicleSpeed == (if locked then speed else old(vehicleSpeed))
      ensures lastGps == old(lastGps)
    {
      speed := -1;
      if sent {
        speed := DrainResponses(responses);
      }
      if locked {
        vehicleSpeed := speed;
      }
    }

    /**
     * The forwarding thread over the fixes queued so far: each is paired with the current
     * shared speed and put into the 64-slot record queue without waiting, so records beyond
     * the free space are dropped.
     */
    method ForwardRmcFrames()
      requires Valid()
      modifies rmcQueue, catQueue
      ensures Valid()
      ensures rmcQueue.items == []
      ensures catQueue.items == PutAll(old(catQueue.items), CAT_QUEUE, Tagged(old(rmcQueue.items), vehicleSpeed))
    {
      ghost var fixes := rmcQueue.items;
      ghost var start := catQueue.items;
      ghost var k := 0;
      while true
        invariant Valid()
        invariant 0 <= k <= |fixes| && rmcQueue.items == fixes[k..]
        invariant catQueue.items == PutAll(start, CAT_QUEUE, Tagged(fixes[..k], vehicleSpeed))
        decreases |rmcQueue.items|
      {
        var m := rmcQueue.Get();
        if m.None? {
          break;
        }
        var d := CatData(m.value, vehicleSpeed);
        PutAllSnoc(start, CAT_QUEUE, Tagged(fixes[..k], vehicleSpeed), d);
        var _ := catQueue.Put(d);
        assert Tagged(fixes[..k], vehicleSpeed) + [d] == Tagged(fixes[..k + 1], vehicleSpeed);
        k := k + 1;
      }
      assert fixes[..k] == fixes;
    }

    /**
     * `app_sensors_read_and_stream`: when connected, every queued record is taken out and its
     * JSON handed to the stream, in order; a failed send is not retried or re-queued. When
     * not connected, nothing is taken.
     */
    method ReadAndStream(connected: bool, formatCoord: real -> string) returns (published: seq<string>)
      requires Valid()
      modifies catQueue
      ensures Valid()
      ensures connected ==> catQueue.items == []
      ensures connected ==> published == Map(old(catQueue.items), d => TrackerJson(d, formatCoord))
      ensures !connected ==> catQueue.items == old(catQueue.items) && published == []
    {
      published := [];
      if !connected {
        return;
      }
      published := catQueue.DrainMap(d => TrackerJson(d, formatCoord));
    }
  }
}
