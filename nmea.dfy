/**
 * The parsed NMEA 0183 RMC ("recommended minimum") sentence, as the sentence parser
 * hands it to the tracker. The parser itself is external: it is an oracle from the
 * text of a line to an optional fix.
 */
module Nmea {
  import opened Optional

  /** Date and time fields as the parser fills them (`-1` marks an empty field). */
  datatype Date = Date(day: int, month: int, year: int)
  datatype Time = Time(hours: int, minutes: int, seconds: int, microseconds: int)

  /**
   * The fields of an RMC fix the tracker uses. Coordinates are kept abstract as degrees;
   * `valid` is the receiver's "A"/"V" status, i.e. whether it has a satellite lock.
   */
  datatype Rmc = Rmc(time: Time, valid: bool, latitude: real, longitude: real, date: Date)

  /**
   * Sentence identification plus RMC parsing: `None` for a line that is not an RMC
   * sentence or that does not parse.
   */
  type Parser = seq<char> -> Option<Rmc>

  /** What a C string reader sees of a character buffer: everything before the first NUL. */
  function CString(s: seq<char>): (r: seq<char>)
    ensures |r| <= |s| && r == s[..|r|]
    ensures '\0' !in r
    ensures |r| < |s| ==> s[|r|] == '\0'
  {
    if s == [] || s[0] == '\0' then [] else [s[0]] + CString(s[1..])
  }
}
