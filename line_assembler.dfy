/**
 * The UART receive callback's line assembler (`serial_cb`): NMEA bytes arrive one at a
 * time into a fixed 128-byte buffer with a cursor; a newline ends a line, which is
 * terminated in place and handed on, and bytes that do not fit are dropped.
 */
module LineAssembly {
  import opened Optional

  const NMEA_SIZE: nat := 128

  /** One received byte: what the buffer holds afterwards, and the line it completed, if any. */
  datatype Fed = Fed(held: seq<char>, line: Option<seq<char>>)

  /**
   * The text in front of the NUL once a line ends: the held bytes and a newline, or the
   * held bytes alone when they already fill every slot but the last.
   */
  function Terminated(held: seq<char>): seq<char>
  {
    if |held| == NMEA_SIZE - 1 then held else held + ['\n']
  }

  /**
   * The assembler's reaction to one byte. A newline with an empty buffer is not a line
   * end: it is stored like any other byte.
   */
  function Step(held: seq<char>, c: char): (r: Fed)
    requires |held| < NMEA_SIZE
    ensures |r.held| < NMEA_SIZE
    ensures r.line.Some? ==> r.held == [] && 2 <= |r.line.value| < NMEA_SIZE
  {
    if c == '\n' && |held| > 0 then Fed([], Some(Terminated(held)))
    else if |held| < NMEA_SIZE - 1 then Fed(held + [c], None)
    else Fed(held, None)
  }

  /** What a run of bytes leaves in the buffer, and the lines it completed, in order. */
  datatype Assembled = Assembled(held: seq<char>, lines: seq<seq<char>>)

  function Assemble(held: seq<char>, bytes: seq<char>): (r: Assembled)
    requires |held| < NMEA_SIZE
    ensures |r.held| < NMEA_SIZE
    decreases |bytes|
  {
    if bytes == [] then Assembled(held, [])
    else
      var f := Step(held, bytes[0]);
      var rest := Assemble(f.held, bytes[1..]);
      Assembled(rest.held, (if f.line.Some? then [f.line.value] else []) + rest.lines)
  }

  /** The first 127 bytes of a run: all the buffer keeps of it. */
  function Clip(s: seq<char>): (r: seq<char>)
    ensures |r| < NMEA_SIZE
  {
    if |s| < NMEA_SIZE - 1 then s else s[..NMEA_SIZE - 1]
  }

  lemma {:induction false} AssembleAppend(held: seq<char>, a: seq<char>, b: seq<char>)
    requires |held| < NMEA_SIZE
    ensures var x := Assemble(held, a);
      var y := Assemble(x.held, b);
      Assemble(held, a + b) == Assembled(y.held, x.lines + y.lines)
    decreases |a|
  {
    if a != [] {
      var ab := a + b;
      assert ab[0] == a[0] && ab[1..] == a[1..] + b;
      AssembleAppend(Step(held, a[0]).held, a[1..], b);
    } else {
      assert a + b == b;
    }
  }

  /** A byte other than a newline is kept exactly when the buffer has room for it. */
  lemma StepKeeps(held: seq<char>, c: char)
    requires |held| < NMEA_SIZE && c != '\n'
    ensures Step(held, c) == Fed(Clip(held + [c]), None)
  {
    if |held| == NMEA_SIZE - 1 {
      assert (held + [c])[..NMEA_SIZE - 1] == held;
    } else if |held + [c]| == NMEA_SIZE - 1 {
      assert (held + [c])[..NMEA_SIZE - 1] == held + [c];
    }
  }

  /** Clipping before appending more bytes changes nothing once they are clipped too. */
  lemma ClipAppend(x: seq<char>, y: seq<char>)
    ensures Clip(Clip(x) + y) == Clip(x + y)
  {
    if |x| >= NMEA_SIZE - 1 {
      var k := x[..NMEA_SIZE - 1];
      assert (k + y)[..NMEA_SIZE - 1] == k;
      assert (x + y)[..NMEA_SIZE - 1] == k;
    }
  }

  /** Without a newline, the buffer keeps the first bytes up to its capacity and drops the rest. */
  lemma {:induction false} AssembleWithoutNewline(held: seq<char>, s: seq<char>)
    requires |held| < NMEA_SIZE
    requires forall i :: 0 <= i < |s| ==> s[i] != '\n'
    ensures Assemble(held, s) == Assembled(Clip(held + s), [])
    decreases |s|
  {
    if s == [] {
      assert held + s == held;
    } else {
      var x := held + [s[0]];
      StepKeeps(held, s[0]);
      assert Assemble(held, s) == Assemble(Clip(x), s[1..]);
      assert forall i :: 0 <= i < |s[1..]| ==> s[1..][i] != '\n';
      AssembleWithoutNewline(Clip(x), s[1..]);
      ClipAppend(x, s[1..]);
      assert held + s == x + s[1..];
    }
  }

  /**
   * The reference behaviour: from an empty buffer, a sentence `s` (non-empty, with no
   * newline after its first byte) followed by a newline yields exactly one line, namely
   * the first 127 bytes of `s` terminated as the firmware does, and leaves the buffer empty.
   */
  lemma {:induction false} AssembleOneLine(s: seq<char>)
    requires s != [] && forall i :: 1 <= i < |s| ==> s[i] != '\n'
    ensures Assemble([], s + ['\n']) == Assembled([], [Terminated(Clip(s))])
  {
    var t := s + ['\n'];
    assert t[1..] == s[1..] + ['\n'];
    var first := Step([], t[0]);
    assert first == Fed([s[0]], None);
    AssembleWithoutNewline([s[0]], s[1..]);
    assert [s[0]] + s[1..] == s;
    var c := Clip(s);
    var last := Assemble(c, ['\n']);
    assert Step(c, '\n') == Fed([], Some(Terminated(c)));
    assert ['\n'][1..] == [];
    assert last == Assembled([], [Terminated(c)]);
    AssembleAppend([s[0]], s[1..], ['\n']);
    assert Assemble([s[0]], t[1..]) == Assembled([], [Terminated(c)]);
  }

  /** The assembler's buffer together with the state kept by the handler of completed lines. */
  datatype RxState<S> = RxState(held: seq<char>, state: S)

  /** One received byte: assemble it, and hand the line it completes, if any, to `handle`. */
  function ReceiveByte<S>(r: RxState<S>, c: char, handle: (S, seq<char>) -> S): (r': RxState<S>)
    requires |r.held| < NMEA_SIZE
    ensures |r'.held| < NMEA_SIZE
  {
    var f := Step(r.held, c);
    RxState(f.held, if f.line.Some? then handle(r.state, f.line.value) else r.state)
  }

  /** The receive loop of one UART interrupt over the bytes it reads. */
  function Receive<S>(r: RxState<S>, bytes: seq<char>, handle: (S, seq<char>) -> S): (r': RxState<S>)
    requires |r.held| < NMEA_SIZE
    ensures |r'.held| < NMEA_SIZE
  {
    if bytes == [] then r
    else ReceiveByte(Receive(r, bytes[..|bytes| - 1], handle), bytes[|bytes| - 1], handle)
  }

  /** `handle` over the lines in order. */
  function HandleAll<S>(s: S, lines: seq<seq<char>>, handle: (S, seq<char>) -> S): S
  {
    if lines == [] then s
    else handle(HandleAll(s, lines[..|lines| - 1], handle), lines[|lines| - 1])
  }

  /**
   * The callback is the assembler followed by the line handler: the buffer ends as the
   * assembler leaves it, and the handler sees exactly the completed lines, in order.
   */
  lemma {:induction false} ReceiveIsAssembleThenHandle<S>(r: RxState<S>, bytes: seq<char>, handle: (S, seq<char>) -> S)
    requires |r.held| < NMEA_SIZE
    ensures var a := Assemble(r.held, bytes);
      Receive(r, bytes, handle) == RxState(a.held, HandleAll(r.state, a.lines, handle))
  {
    if bytes != [] {
      var init := bytes[..|bytes| - 1];
      var c := bytes[|bytes| - 1];
      ReceiveIsAssembleThenHandle(r, init, handle);
      var x := Assemble(r.held, init);
      AssembleAppend(r.held, init, [c]);
      assert init + [c] == bytes;
      var f := Step(x.held, c);
      assert [c][1..] == [];
      var y := Assemble(x.held, [c]);
      assert y.held == f.held;
      if f.line.Some? {
        assert y.lines == [f.line.value];
        assert (x.lines + y.lines)[..|x.lines|] == x.lines;
      } else {
        assert y.lines == [];
        assert x.lines + y.lines == x.lines;
      }
    }
  }

  /** The UART line buffer and its cursor (`rx_buf`, `rx_buf_pos`). */
  class LineAssembler {
    const buf: array<char>
    var pos: nat

    ghost predicate Valid()
      reads this
    {
      buf.Length == NMEA_SIZE && pos < NMEA_SIZE
    }

    /** The bytes of the line received so far. */
    function Held(): seq<char>
      reads this, buf
      requires Valid()
    {
      buf[..pos]
    }

    /** Static storage starts zeroed. */
    constructor ()
      ensures Valid() && fresh(buf) && pos == 0 && Held() == []
      ensures buf[..] == seq(NMEA_SIZE, _ => '\0')
    {
      buf := new char[NMEA_SIZE](_ => '\0');
      pos := 0;
    }

    /**
     * One iteration of the receive loop. A completed line is returned as the text in front
     * of the NUL that now terminates it in the buffer.
     */
    method Push(c: char) returns (line: Option<seq<char>>)
      requires Valid()
      modifies this, buf
      ensures Valid()
      ensures Step(old(Held()), c) == Fed(Held(), line)
      ensures line.Some? ==> buf[..|line.value|] == line.value && buf[|line.value|] == '\0'
      ensures buf[..] ==
        if c == '\n' && old(pos) > 0 then
          (if old(pos) == NMEA_SIZE - 1 then old(buf[..])[old(pos) := '\0']
           else old(buf[..])[old(pos) := '\n'][old(pos) + 1 := '\0'])
        else if old(pos) < NMEA_SIZE - 1 then old(buf[..])[old(pos) := c]
        else old(buf[..])
    {
      ghost var before := buf[..pos];
      if c == '\n' && pos > 0 {
        var end := pos;
        if pos == NMEA_SIZE - 1 {
          buf[pos] := '\0';
        } else {
          buf[pos] := '\n';
          buf[pos + 1] := '\0';
          end := pos + 1;
        }
        assert buf[..pos] == before;
        assert buf[..end] == Terminated(before);
        line := Some(buf[..end]);
        pos := 0;
      } else if pos < NMEA_SIZE - 1 {
        buf[pos] := c;
        pos := pos + 1;
        assert buf[..pos] == before + [c];
        line := None;
      } else {
        line := None;
      }
    }
  }
}
