/**
 * The `snprintk` conversions the tracker uses to build its ISO-8601-like record
 * timestamps: `%d` / `%0<w>d` of an `int`, and truncation to a fixed-size buffer.
 */
module TimeFormat {
  import opened Nmea

  predicate IsDigit(c: char) { '0' <= c <= '9' }

  predicate AllDigits(s: string) { forall i :: 0 <= i < |s| ==> IsDigit(s[i]) }

  function DigitChar(d: nat): (c: char)
    requires d < 10
    ensures IsDigit(c) && (c as int) - ('0' as int) == d
  {
    (('0' as int) + d) as char
  }

  function DigitValue(c: char): nat
    requires IsDigit(c)
  {
    (c as int) - ('0' as int)
  }

  /** The value of a string of decimal digits, most significant first. */
  function DecValue(s: string): nat
    requires AllDigits(s)
  {
    if s == [] then 0 else DecValue(s[..|s| - 1]) * 10 + DigitValue(s[|s| - 1])
  }

  function Pow10(k: nat): (p: nat)
    ensures p >= 1
  {
    if k == 0 then 1 else 10 * Pow10(k - 1)
  }

  /** Decimal digits of a natural number, without leading zeros. */
  function Digits(n: nat): (s: string)
    ensures |s| >= 1 && AllDigits(s)
  {
    if n < 10 then [DigitChar(n)] else Digits(n / 10) + [DigitChar(n % 10)]
  }

  function Zeros(k: nat): (s: string)
    ensures |s| == k && AllDigits(s)
  {
    if k == 0 then "" else Zeros(k - 1) + "0"
  }

  /** `%0<width>d`: sign, then zeros up to the field width, then the digits. */
  function ZeroPadded(n: int, width: nat): string
  {
    var sign := if n < 0 then "-" else "";
    var mag := Digits(if n < 0 then -n else n);
    var fill := width - |sign| - |mag|;
    sign + Zeros(if fill < 0 then 0 else fill) + mag
  }

  /** `%d` (and `%u` of a non-negative value). */
  function Decimal(n: int): string
  {
    ZeroPadded(n, 0)
  }

  /**
   * `snprintk` into a buffer of `size` bytes: the whole text when it fits in front of the
   * NUL, otherwise exactly its first `size - 1` characters.
   */
  function Snprintk(s: string, size: nat): (r: string)
    requires size >= 1
    ensures |r| < size && |r| <= |s| && r == s[..|r|]
    ensures |s| < size ==> r == s
    ensures |s| >= size ==> r == s[..size - 1]
  {
    if |s| < size then s else s[..size - 1]
  }

  /** Reading back what `%d` printed gives the number. */
  lemma {:induction false} DecValueDigits(n: nat)
    ensures DecValue(Digits(n)) == n
  {
    if n >= 10 {
      DecValueDigits(n / 10);
      var s := Digits(n);
      assert s[..|s| - 1] == Digits(n / 10);
    }
  }

  lemma {:induction false} DigitsLength(n: nat, k: nat)
    requires k >= 1 && n < Pow10(k)
    ensures |Digits(n)| <= k
  {
    if n >= 10 {
      assert n / 10 < Pow10(k - 1);
      DigitsLength(n / 10, k - 1);
    }
  }

  lemma {:induction false} DecValueOfZeros(k: nat)
    ensures DecValue(Zeros(k)) == 0
  {
    if k > 0 {
      assert Zeros(k)[..k - 1] == Zeros(k - 1);
      DecValueOfZeros(k - 1);
    }
  }

  lemma {:induction false} DecValueLeadingZeros(k: nat, s: string)
    requires AllDigits(s)
    ensures AllDigits(Zeros(k) + s) && DecValue(Zeros(k) + s) == DecValue(s)
    decreases |s|
  {
    if s == [] {
      assert Zeros(k) + s == Zeros(k);
      DecValueOfZeros(k);
    } else {
      var t := Zeros(k) + s;
      var init := s[..|s| - 1];
      assert t[..|t| - 1] == Zeros(k) + init;
      assert t[|t| - 1] == s[|s| - 1];
      DecValueLeadingZeros(k, init);
      assert DecValue(t) == DecValue(Zeros(k) + init) * 10 + DigitValue(s[|s| - 1]);
    }
  }

  /** `%0<w>d` of a value with at most `w` digits is exactly `w` digits that read back as the value. */
  lemma ZeroPaddedInRange(n: nat, width: nat)
    requires width >= 1 && n < Pow10(width)
    ensures |ZeroPadded(n, width)| == width
    ensures AllDigits(ZeroPadded(n, width)) && DecValue(ZeroPadded(n, width)) == n
  {
    var mag := Digits(n);
    DigitsLength(n, width);
    DecValueLeadingZeros(width - |mag|, mag);
    DecValueDigits(n);
    assert ZeroPadded(n, width) == "" + Zeros(width - |mag|) + mag;
    assert "" + Zeros(width - |mag|) == Zeros(width - |mag|);
  }

  /** Calendar fields small enough for their two-digit slots. */
  predicate TwoDigitFields(d: Date, t: Time)
  {
    && 0 <= d.year < 100 && 0 <= d.month < 100 && 0 <= d.day < 100
    && 0 <= t.hours < 100 && 0 <= t.minutes < 100 && 0 <= t.seconds < 100
  }

  /** "20YY-MM-DDT": the date half of both timestamp layouts. */
  function DatePart(d: Date): string
  {
    "20" + ZeroPadded(d.year, 2) + "-" + ZeroPadded(d.month, 2) + "-" + ZeroPadded(d.day, 2) + "T"
  }

  /** "HH:MM:SS.": the time half, up to the fraction. */
  function ClockPart(t: Time): string
  {
    ZeroPadded(t.hours, 2) + ":" + ZeroPadded(t.minutes, 2) + ":" + ZeroPadded(t.seconds, 2) + "."
  }

  function DateTimePrefix(d: Date, t: Time): string
  {
    DatePart(d) + ClockPart(t)
  }

  /**
   * The timestamp exactly as the firmware formats it: the parser's MICROSECOND count is
   * printed with `%03d` as if it were milliseconds.
   */
  function TimestampAsWritten(d: Date, t: Time): string
  {
    DateTimePrefix(d, t) + ZeroPadded(t.microseconds, 3) + "Z"
  }

  /** C's `/` truncates toward zero. */
  function Millis(us: int): int
  {
    if us < 0 then -((-us) / 1000) else us / 1000
  }

  /** The evidently intended timestamp: milliseconds in the three-digit fraction. */
  function Timestamp(d: Date, t: Time): string
  {
    DateTimePrefix(d, t) + ZeroPadded(Millis(t.microseconds), 3) + "Z"
  }

  /** The seconds fraction a reader of an ISO-8601 time assigns to the digits after the point. */
  function FractionSeconds(s: string): real
    requires AllDigits(s)
  {
    (DecValue(s) as real) / (Pow10(|s|) as real)
  }

  /** Where the pieces of "20YY-MM-DDT" sit, for any two-character fields. */
  lemma DateLayout(y: string, m: string, dd: string)
    requires |y| == 2 && |m| == 2 && |dd| == 2
    ensures var p := "20" + y + "-" + m + "-" + dd + "T";
      && |p| == 11 && p[..2] == "20" && p[4] == '-' && p[7] == '-' && p[10] == 'T'
      && p[2..4] == y && p[5..7] == m && p[8..10] == dd
  {
    var a1 := "20" + y;
    var a2 := a1 + "-";
    var a3 := a2 + m;
    var a4 := a3 + "-";
    var a5 := a4 + dd;
    LeftSlice(a5, "T", 0, 2);
    LeftSlice(a4, dd, 0, 2);
    LeftSlice(a3, "-", 0, 2);
    LeftSlice(a2, m, 0, 2);
    LeftSlice(a1, "-", 0, 2);
    LeftSlice("20", y, 0, 2);
    LeftSlice(a5, "T", 2, 4);
    LeftSlice(a4, dd, 2, 4);
    LeftSlice(a3, "-", 2, 4);
    LeftSlice(a2, m, 2, 4);
    LeftSlice(a1, "-", 2, 4);
    RightSlice("20", y, 0, 2);
    assert y[0..2] == y;
    LeftSlice(a5, "T", 5, 7);
    LeftSlice(a4, dd, 5, 7);
    LeftSlice(a3, "-", 5, 7);
    RightSlice(a2, m, 0, 2);
    assert m[0..2] == m;
    LeftSlice(a5, "T", 8, 10);
    RightSlice(a4, dd, 0, 2);
    assert dd[0..2] == dd;
  }

  /** Where the pieces of "HH:MM:SS." sit, for any two-character fields. */
  lemma ClockLayout(h: string, m: string, sec: string)
    requires |h| == 2 && |m| == 2 && |sec| == 2
    ensures var p := h + ":" + m + ":" + sec + ".";
      && |p| == 9 && p[2] == ':' && p[5] == ':' && p[8] == '.'
      && p[..2] == h && p[3..5] == m && p[6..8] == sec
  {
    var a1 := h + ":";
    var a2 := a1 + m;
    var a3 := a2 + ":";
    var a4 := a3 + sec;
    LeftSlice(a4, ".", 0, 2);
    LeftSlice(a3, sec, 0, 2);
    LeftSlice(a2, ":", 0, 2);
    LeftSlice(a1, m, 0, 2);
    LeftSlice(h, ":", 0, 2);
    assert h[0..2] == h;
    LeftSlice(a4, ".", 3, 5);
    LeftSlice(a3, sec, 3, 5);
    LeftSlice(a2, ":", 3, 5);
    RightSlice(a1, m, 0, 2);
    assert m[0..2] == m;
    LeftSlice(a4, ".", 6, 8);
    RightSlice(a3, sec, 0, 2);
    assert sec[0..2] == sec;
  }

  lemma DatePartShape(d: Date)
    requires 0 <= d.year < 100 && 0 <= d.month < 100 && 0 <= d.day < 100
    ensures var p := DatePart(d);
      && |p| == 11 && p[..2] == "20" && p[4] == '-' && p[7] == '-' && p[10] == 'T'
      && AllDigits(p[2..4]) && DecValue(p[2..4]) == d.year
      && AllDigits(p[5..7]) && DecValue(p[5..7]) == d.month
      && AllDigits(p[8..10]) && DecValue(p[8..10]) == d.day
  {
    ZeroPaddedInRange(d.year, 2);
    ZeroPaddedInRange(d.month, 2);
    ZeroPaddedInRange(d.day, 2);
    DateLayout(ZeroPadded(d.year, 2), ZeroPadded(d.month, 2), ZeroPadded(d.day, 2));
  }

  lemma ClockPartShape(t: Time)
    requires 0 <= t.hours < 100 && 0 <= t.minutes < 100 && 0 <= t.seconds < 100
    ensures var p := ClockPart(t);
      && |p| == 9 && p[2] == ':' && p[5] == ':' && p[8] == '.'
      && AllDigits(p[..2]) && DecValue(p[..2]) == t.hours
      && AllDigits(p[3..5]) && DecValue(p[3..5]) == t.minutes
      && AllDigits(p[6..8]) && DecValue(p[6..8]) == t.seconds
  {
    ZeroPaddedInRange(t.hours, 2);
    ZeroPaddedInRange(t.minutes, 2);
    ZeroPaddedInRange(t.seconds, 2);
    ClockLayout(ZeroPadded(t.hours, 2), ZeroPadded(t.minutes, 2), ZeroPadded(t.seconds, 2));
  }

  lemma LeftSlice(a: string, b: string, i: nat, j: nat)
    requires i <= j <= |a|
    ensures (a + b)[i..j] == a[i..j]
  {
  }

  lemma RightSlice(a: string, b: string, i: nat, j: nat)
    requires i <= j <= |b|
    ensures (a + b)[|a| + i..|a| + j] == b[i..j]
  {
  }

  /** The shared prefix is "20YY-MM-DDTHH:MM:SS." and each two-digit field reads back. */
  lemma DateTimePrefixShape(d: Date, t: Time)
    requires TwoDigitFields(d, t)
    ensures var p := DateTimePrefix(d, t);
      && |p| == 20 && p[..2] == "20"
      && p[4] == '-' && p[7] == '-' && p[10] == 'T' && p[13] == ':' && p[16] == ':' && p[19] == '.'
      && AllDigits(p[2..4]) && DecValue(p[2..4]) == d.year
      && AllDigits(p[5..7]) && DecValue(p[5..7]) == d.month
      && AllDigits(p[8..10]) && DecValue(p[8..10]) == d.day
      && AllDigits(p[11..13]) && DecValue(p[11..13]) == t.hours
      && AllDigits(p[14..16]) && DecValue(p[14..16]) == t.minutes
      && AllDigits(p[17..19]) && DecValue(p[17..19]) == t.seconds
  {
    DatePartShape(d);
    ClockPartShape(t);
    var a, b := DatePart(d), ClockPart(t);
    LeftSlice(a, b, 0, 2);
    LeftSlice(a, b, 2, 4);
    LeftSlice(a, b, 5, 7);
    LeftSlice(a, b, 8, 10);
    RightSlice(a, b, 0, 2);
    RightSlice(a, b, 3, 5);
    RightSlice(a, b, 6, 8);
  }

  /**
   * For in-range fields the timestamp is the 24-character "20YY-MM-DDTHH:MM:SS.mmmZ",
   * fits the 32-byte buffer untruncated, and every field reads back: the date and time
   * exactly, the fraction as the millisecond that contains the microsecond count.
   */
  lemma TimestampRoundTrip(d: Date, t: Time)
    requires TwoDigitFields(d, t) && 0 <= t.microseconds < 1000000
    ensures var ts := Timestamp(d, t);
      && |ts| == 24 && Snprintk(ts, 32) == ts
      && ts[..20] == DateTimePrefix(d, t) && ts[23] == 'Z'
      && AllDigits(ts[20..23])
      && DecValue(ts[20..23]) * 1000 <= t.microseconds < (DecValue(ts[20..23]) + 1) * 1000
      && FractionSeconds(ts[20..23]) <= (t.microseconds as real) / 1000000.0
  {
    DateTimePrefixShape(d, t);
    var ms := Millis(t.microseconds);
    ZeroPaddedInRange(ms, 3);
    var ts := Timestamp(d, t);
    assert ts[20..23] == ZeroPadded(ms, 3);
    assert Pow10(3) == 1000;
  }

  /** `%03d` of 10000 is its five digits: the width is only a minimum. */
  lemma TenThousandPrinted()
    ensures ZeroPadded(10000, 3) == "10000"
  {
    assert Digits(1) == "1";
    assert Digits(10) == "10";
    assert Digits(100) == "100";
    assert Digits(1000) == "1000";
    assert Digits(10000) == "10000";
  }

  /** A reader takes ".10000" as a tenth of a second. */
  lemma TenThousandFraction()
    ensures AllDigits("10000") && FractionSeconds("10000") == 1.0 / 10.0
  {
    assert DecValue("10000") == 10000 by {
      assert "10000"[..4] == "1000";
      assert "1000"[..3] == "100";
      assert "100"[..2] == "10";
      assert "10"[..1] == "1";
    }
    assert Pow10(5) == 100000;
  }

  /**
   * The firmware's layout misreports the sub-second part: 10000 microseconds (0.01 s)
   * comes out as ".10000", which reads as 0.1 s.
   */
  lemma TimestampAsWrittenMisreadsFraction(d: Date, t: Time)
    requires TwoDigitFields(d, t) && t.microseconds == 10000
    ensures var ts := TimestampAsWritten(d, t);
      && |ts| == 26 && ts[20..25] == "10000" && ts[25] == 'Z'
      && FractionSeconds(ts[20..25]) == 1.0 / 10.0
      && (t.microseconds as real) / 1000000.0 == 1.0 / 100.0
  {
    DateTimePrefixShape(d, t);
    TenThousandPrinted();
    TenThousandFraction();
    var p := DateTimePrefix(d, t);
    var ts := TimestampAsWritten(d, t);
    assert ts == (p + "10000") + "Z";
    LeftSlice(p + "10000", "Z", 20, 25);
    RightSlice(p, "10000", 0, 5);
  }
}
