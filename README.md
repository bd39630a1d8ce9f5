# CAN asset tracker — a Dafny model of the data path

This project models the decision logic of the Golioth CAN asset tracker firmware, a Zephyr
application. The tracker reads NMEA 0183 sentences from a GNSS receiver and polls the
vehicle's speed over OBD2 on the CAN bus. It then streams position-and-speed records to the
cloud. The model covers:

- **Line assembly** (`serial_cb`): bytes arrive one by one into a 128-byte buffer with a
  cursor. A newline ends a line, which is terminated in one of two layouts and handed on;
  bytes that do not fit are dropped. This is the class `LineAssembly.LineAssembler`, over an
  `array<char>`, specified against the functions `Step` and `Assemble`.
- **Fix gate** (`process_reading`): an RMC fix goes out only when the configured GPS delay
  has elapsed since the last emission. An unlocked fix is either dropped or, with fake GPS
  enabled, given the configured stand-in coordinates. The sentence parser is an oracle
  (`Nmea.Parser`). Time is the uptime in milliseconds, passed as a parameter, and elapsed time
  is computed modulo 2^64 as the 64-bit counter does.
- **Message queues** (`k_msgq`): bounded FIFOs whose no-wait put drops the new item when
  full, with the capacities the firmware declares (2 and 64).
- **OBD2 speed poll**: the fixed ISO 15765-2 single-frame request for service 0x01, PID
  0x0D, and the rule that picks the speed from the responses.
- **Publishing** (`app_sensors_read_and_stream`): there are two JSON record layouts, with or
  without the time member, chosen by the fix's lock flag, plus the ISO-8601-style timestamp.
- **Windowed aggregation** (`app_work_sensor_read`, work-loop variant with `app_gnss.c`):
  for every fix, the CAN speed frames received no later than it are consumed and summarised
  as maximum, minimum and average mph, with the firmware's 16-bit accumulator.
- **Settings** (`on_setting`): the typed, range-checked setter, its defaults and getters.
- **Desired state** (`app_state_desired_handler`): a parse bitmask selects which of the
  three fake-GPS fields to validate and apply.

Modules follow the firmware: `Sensors` (app_sensors.c), `Gnss` (app_gnss.c), `Work`
(app_work.c), `Settings` (app_settings.c) and `AppState` (app_state.c). Shared pieces have
their own modules: `MsgQueues`, `Can`, `Nmea`, `TimeFormat`, `LineAssembly`, `FixGate` and
`Optional`, plus `Sequences` (`Map`, which states what a loop made of each queued item).
The static variables of each C file become the fields of a class
(`Sensors.SensorsApp`, `Gnss.GnssReceiver`, `Settings.AppSettings`,
`AppState.FakeGpsState`). Each method is proved against a specification function, and the
lemmas state the properties of those functions.

Two behaviours of the code are worth stating up front:

- A fix given fake coordinates keeps `valid == false`. It is published with
  `"fake":true` and no time member.
- Re-applying a setting that equals the stored value returns SUCCESS; there is no distinct
  "unchanged" status.

## Model

| member | source | states |
|---|---|---|
| MsgQueues.MsgQueue.Put | src/app_sensors.c:307 | a no-wait put appends the item exactly when the queue is below capacity and reports whether it did; a full queue is left unchanged |
| MsgQueues.MsgQueue.Get | src/app_sensors.c:257 | an empty queue yields nothing; otherwise the oldest item is removed and returned |
| MsgQueues.MsgQueue.Peek | src/app_work.c:64 | yields nothing exactly when the queue is empty, otherwise the oldest item, and changes nothing |
| MsgQueues.MsgQueue.DrainMap | src/app_sensors.c:443 | a `k_msgq_get` loop run until the queue is empty takes every item out, oldest first, and yields what its body makes of each, in the same order |
| MsgQueues.PutAllKeepsOldest | src/app_sensors.c:56-57 | a run of no-wait puts keeps everything already queued and appends the oldest new items up to capacity; later ones are dropped and the queue never exceeds capacity |
| MsgQueues.PutAllSnoc | src/app_sensors.c:269-272 | one more put after a run of puts is the run extended by that item |
| Can.DlcToBytes | src/app_sensors.c:206 | codes up to 8 are byte counts; larger codes map to lengths above 8 and at most 64 |
| Nmea.CString | src/app_sensors.c:352-361 | the parser sees the buffer up to, not including, its first NUL, and that NUL ends it |
| TimeFormat.Snprintk | src/app_sensors.c:444-448 | the output is shorter than the buffer and a prefix of the formatted text: the whole text when it fits, otherwise exactly its first size-1 characters |
| TimeFormat.DecValueDigits | src/app_sensors.c:448 | the decimal digits printed for n read back as n |
| TimeFormat.DigitsLength | src/app_sensors.c:448 | a number below 10^k prints in at most k digits |
| TimeFormat.DecValueLeadingZeros | src/app_sensors.c:448 | zero padding does not change the value the digits denote |
| TimeFormat.ZeroPaddedInRange | src/app_sensors.c:448-453 | `%0Nd` of 0 <= n < 10^N is exactly N digits denoting n |
| TimeFormat.DatePartShape | src/app_sensors.c:448-450 | the date half is "20" YY "-" MM "-" DD "T" with each field reading back as the parser's value |
| TimeFormat.ClockPartShape | src/app_sensors.c:448-452 | the clock half is HH ":" MM ":" SS "." with each field reading back |
| TimeFormat.DateTimePrefixShape | src/app_sensors.c:448-453 | the 20-character prefix has its separators in place and every field reads back |
| TimeFormat.TimestampRoundTrip | src/app_sensors.c:448-453 | the corrected timestamp is 24 characters, fits its 32-byte buffer, and its fraction is the milliseconds: it never claims more time than the fix's microseconds |
| TimeFormat.TimestampAsWrittenMisreadsFraction | src/app_sensors.c:448-453 | as written, 10000 microseconds print as ".10000", which a reader takes as 0.1 s instead of 0.01 s |
| LineAssembly.Step | src/app_sensors.c:352-367 | the cursor stays below 128; a completed line empties the buffer and is 2 to 127 characters long |
| LineAssembly.AssembleAppend | src/app_sensors.c:348-368 | feeding two runs one after the other equals feeding their concatenation, with the lines of both, in order |
| LineAssembly.AssembleWithoutNewline | src/app_sensors.c:364-367 | from any buffer contents, bytes without a newline are only appended, up to 127 bytes held in all, and the rest are dropped; no line is completed |
| LineAssembly.AssembleOneLine | src/app_sensors.c:352-365 | a run ending in its only newline yields exactly one line: its first 127 bytes, newline-terminated when there is room |
| LineAssembly.LineAssembler.constructor | src/app_sensors.c:341-342 | the buffer starts zeroed and the cursor at 0 |
| LineAssembly.LineAssembler.Push | src/app_sensors.c:352-367 | one byte moves the buffer as `Step` says; a completed line sits at the buffer's start, NUL-terminated, in the layout for its length, and nothing beyond is written |
| FixGate.Gate | src/app_sensors.c:298-334 | a fix is emitted exactly when parsed, the delay has elapsed, and it is locked or fake GPS is on; time, date and lock flag are kept, a locked fix is unchanged and an unlocked one gets the stand-in coordinates |
| FixGate.WithoutFakeOnlyValid | src/app_gnss.c:37-54 | without fake coordinates only locked fixes are emitted, and unchanged |
| FixGate.RateLimited | src/app_sensors.c:303-327 | over any arrivals and delay changes, consecutive emissions are at least the delay in force apart, and the stored time is the latest emission |
| Sensors.SpeedRequestLayout | src/app_sensors.c:172-178 | the request goes to 0x7DF as an eight-byte single frame whose payload is service 0x01, PID 0x0D, padded with 0xCC |
| Sensors.SelectSpeedIsLastResponse | src/app_sensors.c:205-218 | the speed is -1 exactly when no response was accepted, otherwise byte 3 of the last accepted response |
| Sensors.DrainResponses | src/app_sensors.c:197-218 | the receive loop yields the selected speed |
| Sensors.SensorsApp.PollCycle | src/app_sensors.c:196-230 | the cycle's speed is -1 when the send fails, otherwise the selection; it reaches the shared speed only when the lock is taken |
| LineAssembly.ReceiveIsAssembleThenHandle | src/app_sensors.c:348-368 | the callback, whatever it does with a completed line, equals line assembly followed by that handling of each completed line, in order |
| Sensors.SensorsApp.constructor | src/app_sensors.c:56-75 | empty queues and buffer, and the shared speed starts at -1 |
| Sensors.SensorsApp.ProcessReading | src/app_sensors.c:293-335 | the stored time and RMC queue change as the gate decides, with a drop-newest put into the two-slot queue |
| Sensors.SensorsApp.SerialCallback | src/app_sensors.c:338-369 | the buffer, stored time and RMC queue end as the byte-by-byte specification says |
| Sensors.SensorsApp.ForwardRmcFrames | src/app_sensors.c:257-273 | the RMC queue is drained and each fix, paired with the shared speed, is put into the 64-slot record queue in order |
| Sensors.SensorsApp.ReadAndStream | src/app_sensors.c:442-474 | when connected, the record queue ends empty and the texts sent are the JSON of each queued record, once each, in queue order; when not connected, nothing is taken and nothing sent |
| Sensors.TrackerTextLength | src/app_sensors.c:429-466 | the record never exceeds its 256-byte buffer |
| Sensors.TrackerTextSplit | src/app_sensors.c:79-105 | both layouts share the same tail after their own head |
| Sensors.TrackerTextStart | src/app_sensors.c:455-466 | a record starts with the time member exactly when its fix is locked, and that member holds the timestamp |
| Sensors.TrackerJsonShape | src/app_sensors.c:455-466 | the published text is the untruncated record, with the time member exactly for locked fixes, ending in the fake flag (false exactly when locked) and the speed |
| Gnss.ReceiveQueuesOnlyLockedFixes | src/app_gnss.c:29-60 | one interrupt only appends to the 64-slot queue: locked fixes stamped with the current uptime; the stored time changes only to that uptime, and does so whenever something was queued |
| Gnss.GnssReceiver.constructor | src/app_gnss.c:26 | empty buffer, queue of 64 slots, stored time 0 |
| Gnss.GnssReceiver.ProcessReading | src/app_gnss.c:29-60 | the stored time and queue change as the gate without fake coordinates decides, each message stamped with the uptime |
| Gnss.GnssReceiver.SerialCallback | src/app_gnss.c:63-94 | the buffer, stored time and queue end as the byte-by-byte specification says |
| Work.MphProperties | src/app_work.c:87-89 | the mph conversion never increases a speed, keeps order, and stays at or below 407 for any frame |
| Work.KmhBound | src/app_work.c:87-88 | a frame's km/h is at most 655 |
| Work.FrameMphBound | src/app_work.c:80-89 | a frame contributes a speed only when its DLC is 5, and that speed is at most 407 mph |
| Work.SpeedsBound | src/app_work.c:80-89 | every contributed speed is at most 407 mph |
| Work.WindowCountAndSum | src/app_work.c:58-94 | the count is the number of contributed speeds and the accumulator holds their sum modulo 2^16 |
| Work.WindowMaximum | src/app_work.c:61-91 | mph_max is one of the contributed speeds and bounds all of them, or 0 when there is none |
| Work.WindowMinimum | src/app_work.c:62-92 | mph_min is one of the contributed speeds and bounds all of them from below, or 65535 when there is none |
| Work.AverageOfUnwrapped | src/app_work.c:96-97 | with a sum that did not wrap, the reported average is the integer mean, or 0 with no speeds |
| Work.AverageIsMean | src/app_work.c:58-97 | with at most 161 contributed speeds the sum cannot wrap, and mph_avg is their integer mean |
| Work.WindowLength | src/app_work.c:64-70 | the window is the longest run at the queue's head stamped no later than the fix; the next message, if any, is later |
| Work.WindowLengthIs | src/app_work.c:64-70 | that boundary is unique |
| Work.RunRecords | src/app_work.c:43-115 | one record per fix, in queue order, each carrying its fix |
| Work.RunConsumesPrefix | src/app_work.c:64-78 | the CAN queue only loses messages from its head |
| Work.RunPartitionsQueue | src/app_work.c:43-78 | there is one window per fix, and the windows laid end to end, followed by what is left, are exactly the queued CAN messages: none is summarised twice or skipped |
| Work.RecordsSummarizeWindows | src/app_work.c:43-97 | each fix's record is the summary of that fix's own window |
| Work.LastWindowBoundary | src/app_work.c:64-78 | the last fix consumes only messages stamped no later than it, and any message left starts later |
| Work.RecordFieldsFit | src/app_work.c:38-97 | the record's maximum is at most 407, its minimum at most 65535 and its average below 2^16 |
| Work.WorkJsonComplete | src/app_work.c:99-106 | with two-digit date and time fields, the record fits its 128-byte buffer and ends with its closing brace |
| Work.CollectWindow | src/app_work.c:58-95 | the inner loop takes exactly the window off the CAN queue and accumulates it |
| Work.SensorRead | src/app_work.c:28-116 | the fix queue is drained; the CAN queue keeps what the windows did not consume; one record per fix is sent, in order |
| Settings.SetterOutcomes | src/app_settings.c:60-182 | an unknown key, a wrong type and an out-of-range value each get their own status and change nothing; otherwise SUCCESS and the setting holds the value |
| Settings.OnlyAddressedSettingChanges | src/app_settings.c:64-178 | no setting other than the addressed one changes |
| Settings.ReapplyIsIdempotent | src/app_settings.c:77-177 | re-applying an accepted value succeeds, changes nothing and wakes nobody |
| Settings.WakeOnlyOnLoopDelayChange | src/app_settings.c:78-85 | the main loop is woken exactly when the loop delay actually changes |
| Settings.SettingsStayInRange | src/app_settings.c:71-167 | the defaults are within the ranges and every call keeps every setting within them |
| Settings.AppSettings.constructor | src/app_settings.c:18-28 | loop 5 s, GPS 3 s, fake GPS off at 37.789980, -122.400860, vehicle speed 1 s |
| Settings.AppSettings.OnSetting | src/app_settings.c:60-182 | status, settings afterwards and the wake-up are those of the setter's decision |
| AppState.ErrorsChangeNothing | src/app_state.c:106-122 | a response error or a parse error is returned as is, with no field changed and nothing pushed |
| AppState.FieldsApplyIndependently | src/app_state.c:123-167 | a field changes only when its bit is set and, for coordinates, the value is in range, and then takes the parsed value; a carried acceptable value is always taken and pushed; with none of the three bits nothing changes and nothing is pushed; it pushes only when some carried field was accepted; the result is the push's error when pushed, 0 otherwise |
| AppState.MaskIsSingleBitsInOrder | src/app_state.c:123-167 | handling a mask gives the same state as handling its single-bit masks 1, 2 and 4 one after another, and pushes exactly when one of those calls pushes |
| AppState.SingleBitsCommute | src/app_state.c:124-158 | two single-field updates give the same state in either order, and each field's update pushes or not whether it comes first or second |
| AppState.StateStaysInRange | src/app_state.c:141-160 | the default coordinates are in range and stay in range |
| AppState.FakeGpsState.constructor | src/app_state.c:26-28 | fake GPS off at 37.789980, -122.400860 |
| AppState.FakeGpsState.DesiredHandler | src/app_state.c:95-168 | return value, fields afterwards and the push are those of the handler's decision |

## Left out

- The NMEA sentence parser and `minmea_tocoord` are an external library. They are an oracle
  (`Nmea.Parser`), and coordinates are kept as abstract degrees.
- `coord_to_minmea`, with its float rounding and its `-ERANGE` path, is not modelled.
  FixGate.Gate substitutes the configured coordinates exactly.
- `%f` printing of coordinates is a parameter (`formatCoord`); only its truncation to 11
  characters is modelled.
- Threads, interrupt context, mutex timeouts, `k_sleep` and blocking waits are not modelled.
  Each thread body is modelled as one sequential pass over the items present.
- The forwarder reads the shared speed even after a failed lock; that unguarded read is not
  modelled separately.
- `k_msgq_get` failing right after a successful peek in `app_work_sensor_read` is not
  modelled: with a single consumer it cannot happen.
- Gnss.GnssReceiver.ProcessReading: the firmware reads the clock twice, once for the gate and
  once for the message stamp. The model uses one uptime for both.
- UART and CAN drivers, Golioth client calls (stream, settings registration, LightDB),
  Ostentus slides, battery monitoring and `app_state_update_actual` are left out.
  Their results enter as parameters: send and lock results, connection state, the update
  error.
- The JSON parse descriptor and `strtof` are left out. AppState.FakeGpsState.DesiredHandler
  takes the parse bitmask and the already-converted values.
- src/can_forwarder.c (CBOR encoding through a library not shown) and src/app_can.c (the
  listener that stamps CAN frames) are not part of this model. The work loop takes a
  timestamped CAN message sequence instead.
- Floats are modelled as `real`: no NaN and no rounding. The km/h-to-mph factor is the exact
  product truncated, `kmh*6213751 div 10^7`.
- Sensors.TrackerJsonShape: requires the speed to fit in 32 bits, as the C `int` does.
- Work.AverageIsMean: states the mean only up to 161 contributed speeds. Beyond that the 16-bit
  sum wraps, which Work.WindowCountAndSum states.
- Work.WorkJsonComplete: stated for fixes with two-digit date and time fields, and for the
  corrected timestamp.
- Sensors.SensorsApp.ReadAndStream: the texts it sends carry the corrected millisecond
  timestamp (`TimeFormat.Timestamp`); the firmware prints the raw microsecond count instead,
  which differs whenever a fix has a non-zero fraction (see Findings).
- Sensors.TrackerTextStart: the time member holds the corrected timestamp, not the
  firmware's microsecond text (see Findings).
- Sensors.TrackerJsonShape: states the record built from the corrected timestamp, not the
  firmware's microsecond text (see Findings).
- Work.SensorRead: the records it sends carry the corrected timestamp, not the firmware's
  microsecond text (see Findings).
- RMC fields the tracker does not use (speed, course, variation) are not modelled.

## Findings

| source | as written | input that shows it | evidently intended | confidence | as-written member | corrected member |
|---|---|---|---|---|---|---|
| src/app_sensors.c:448-453 | the fraction of the timestamp is the parser's microsecond count printed with `%03d` | a fix at 12:00:00.01, i.e. 10000 microseconds, prints "12:00:00.10000Z", read as 0.1 s | the three-digit fraction carries milliseconds (microseconds / 1000), giving "12:00:00.010Z" | high (not executed) | TimeFormat.TimestampAsWrittenMisreadsFraction | TimeFormat.TimestampRoundTrip |

The same format string appears in src/app_work.c:48-56. The published records in this
model (`Sensors.TrackerJson`, `Work.WorkJson`) use the corrected `TimeFormat.Timestamp`.
For a fix whose fraction is zero the two timestamps are the same text; otherwise the
firmware's record differs from the modelled one in the digits after the seconds.
