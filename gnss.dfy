/**
 * The GNSS receiver of the work-loop variant (`app_gnss.c`): the same line assembly and fix
 * gate as the sensor front end, without fake coordinates, and each emitted fix is stamped
 * with the uptime and put into a 64-slot queue for the work loop.
 */
module Gnss {
  import opened Optional
  import opened Nmea
  import opened MsgQueues
  import opened LineAssembly
  import opened FixGate

  /** A queued fix and the uptime (ms) at which it was accepted. */
  datatype RmcMsg = RmcMsg(timestamp: nat, frame: Rmc)

  /** The state `process_reading` works on: the last emission time and the RMC queue. */
  datatype GnssState = GnssState(lastGps: nat, queued: seq<RmcMsg>)

  /**
   * `process_reading` on one completed line: only a locked fix whose interval has run out is
   * accepted; it is stamped with `now` and put into the queue without waiting, and the stored
   * time becomes `now` even when the queue is full.
   */
  function Process(s: GnssState, line: seq<char>, parse: Parser, now: nat, delayS: nat): GnssState
  {
    match Gate(parse(CString(line)), now, s.lastGps, delayS, None)
    case Hold => s
    case Emit(f) => GnssState(now, TryPut(s.queued, RMC_QUEUE_GNSS, RmcMsg(now, f)))
  }

  /** `process_reading` as the handler of the lines the assembler completes. */
  function OnLine(parse: Parser, now: nat, delayS: nat): (GnssState, seq<char>) -> GnssState
  {
    (g, line) => Process(g, line, parse, now, delayS)
  }

  /**
   * One interrupt only appends to the queue, never beyond its 64 slots, and every message it
   * appends is a fix with lock exactly as parsed, stamped with the interrupt's uptime; the
   * stored time is either unchanged or that uptime, and it changes whenever something was
   * appended.
   */
  lemma {:induction false} ReceiveQueuesOnlyLockedFixes(s: RxState<GnssState>, bytes: seq<char>, parse: Parser, now: nat, delayS: nat)
    requires |s.held| < NMEA_SIZE && |s.state.queued| <= RMC_QUEUE_GNSS
    ensures var r := Receive(s, bytes, OnLine(parse, now, delayS));
      && |s.state.queued| <= |r.state.queued| <= RMC_QUEUE_GNSS
      && r.state.queued[..|s.state.queued|] == s.state.queued
      && (forall i :: |s.state.queued| <= i < |r.state.queued| ==>
            r.state.queued[i].timestamp == now && r.state.queued[i].frame.valid)
      && (r.state.lastGps == s.state.lastGps || r.state.lastGps == now)
      && (|r.state.queued| > |s.state.queued| ==> r.state.lastGps == now)
  {
    if bytes != [] {
      var init := bytes[..|bytes| - 1];
      ReceiveQueuesOnlyLockedFixes(s, init, parse, now, delayS);
      var m := Receive(s, init, OnLine(parse, now, delayS));
      var f := Step(m.held, bytes[|bytes| - 1]);
      if f.line.Some? {
        var fix := parse(CString(f.line.value));
        WithoutFakeOnlyValid(fix, now, m.state.lastGps, delayS);
        var q := m.state.queued;
        var q' := Process(m.state, f.line.value, parse, now, delayS).queued;
        assert q'[..|q|] == q;
        assert q'[..|s.state.queued|] == q[..|s.state.queued|];
      }
    }
  }

  /** The module's statics: line buffer, last emission time and the RMC queue. */
  class GnssReceiver {
    const assembler: LineAssembler
    var lastGps: nat
    const rmcQueue: MsgQueue<RmcMsg>

    ghost predicate Valid()
      reads this, assembler, rmcQueue
    {
      assembler.Valid() && rmcQueue.Valid() && rmcQueue.capacity == RMC_QUEUE_GNSS
    }

    function Rx(): RxState<GnssState>
      reads this, assembler, assembler.buf, rmcQueue
      requires Valid()
    {
      RxState(assembler.Held(), GnssState(lastGps, rmcQueue.items))
    }

    constructor ()
      ensures Valid() && fresh(assembler) && fresh(assembler.buf) && fresh(rmcQueue)
      ensures Rx() == RxState([], GnssState(0, []))
    {
      assembler := new LineAssembler();
      rmcQueue := new MsgQueue(RMC_QUEUE_GNSS);
      lastGps := 0;
    }

    /** `process_reading`, called with the line the assembler completed. */
    method ProcessReading(line: seq<char>, parse: Parser, now: nat, delayS: nat)
      requires Valid()
      modifies this, rmcQueue
      ensures Valid()
      ensures GnssState(lastGps, rmcQueue.items) == Process(old(GnssState(lastGps, rmcQueue.items)), line, parse, now, delayS)
    {
      var fix := parse(CString(line));
      if fix.Some? {
        if Elapsed(now, lastGps) >= delayS * 1000 {
          if fix.value.valid {
            var _ := rmcQueue.Put(RmcMsg(now, fix.value));
            lastGps := now;
          }
        }
      }
    }

    /** `serial_cb`: the bytes one interrupt reads, all at uptime `now`. */
    method SerialCallback(bytes: seq<char>, parse: Parser, now: nat, delayS: nat)
      requires Valid()
      modifies this, assembler, assembler.buf, rmcQueue
      ensures Valid()
      ensures Rx() == Receive(old(Rx()), bytes, OnLine(parse, now, delayS))
    {
      var i := 0;
      while i < |bytes|
        invariant 0 <= i <= |bytes|
        invariant Valid()
        invariant Rx() == Receive(old(Rx()), bytes[..i], OnLine(parse, now, delayS))
      {
        assert bytes[..i + 1][..i] == bytes[..i];
        var line := assembler.Push(bytes[i]);
        if line.Some? {
          ProcessReading(line.value, parse, now, delayS);
        }
        i := i + 1;
      }
      assert bytes[..i] == bytes;
    }
  }
}
