/**
 * The part of Go's `time` package the program uses: `time.Parse` with the one
 * layout "2006-01-02T15:04:05", and `Format("2006-01-02")` of the result.
 *
 * Parsing follows Go's reading of that layout, chunk by chunk: a four-digit
 * year, "-", a two-digit month, "-", a two-digit day, "T", an hour of one or two
 * digits ("15" is read without a fixed width), ":", a two-digit minute, ":", a
 * two-digit second; a fractional second ("." or "," and digits) right after the
 * seconds is accepted although the layout has none; any other text left over is
 * an error. Go keeps such a fraction as nanoseconds; DateTime has no sub-second
 * part, so the model does not keep it, and the date format never shows it. Month 1..12, day 1..days in that month, hour below 24,
 * minute and second below 60 are checked; leap years are Gregorian. There is no
 * zone in the layout, so the time is UTC.
 */
module GoTime {
  import opened Wrappers
  import opened GoStrings

  datatype DateTime = DateTime(year: int, month: int, day: int, hour: int, minute: int, second: int)

  predicate IsLeap(year: int) {
    year % 4 == 0 && (year % 100 != 0 || year % 400 == 0)
  }

  function DaysIn(month: int, year: int): int
    requires 1 <= month <= 12
  {
    if month == 2 then (if IsLeap(year) then 29 else 28)
    else if month == 4 || month == 6 || month == 9 || month == 11 then 30
    else 31
  }

  /** A calendar date and time of day a four-digit-year layout can hold. */
  predicate Valid(t: DateTime) {
    && 0 <= t.year <= 9999
    && 1 <= t.month <= 12
    && 1 <= t.day <= DaysIn(t.month, t.year)
    && 0 <= t.hour < 24
    && 0 <= t.minute < 60
    && 0 <= t.second < 60
  }

  // ---------------------------------------------------------------------------
  // Numbers written in decimal digits.

  function TwoDigitValue(a: Byte, b: Byte): (n: nat)
    requires IsDigit(a) && IsDigit(b)
    ensures n < 100
  {
    10 * DigitValue(a) + DigitValue(b)
  }

  /** `n` written with exactly two digits, zero-padded. */
  function Pad2(n: nat): (r: GoString)
    requires n < 100
    ensures |r| == 2 && IsDigit(r[0]) && IsDigit(r[1])
    ensures TwoDigitValue(r[0], r[1]) == n
  {
    [DigitChar(n / 10), DigitChar(n % 10)]
  }

  /** `n` written with exactly four digits, zero-padded. */
  function Pad4(n: nat): (r: GoString)
    requires n < 10000
    ensures |r| == 4 && forall i :: 0 <= i < 4 ==> IsDigit(r[i])
    ensures 100 * TwoDigitValue(r[0], r[1]) + TwoDigitValue(r[2], r[3]) == n
  {
    Pad2(n / 100) + Pad2(n % 100)
  }

  lemma Pad2OfDigits(a: Byte, b: Byte)
    requires IsDigit(a) && IsDigit(b)
    ensures Pad2(TwoDigitValue(a, b)) == [a, b]
  {
    var n := TwoDigitValue(a, b);
    assert n / 10 == DigitValue(a) && n % 10 == DigitValue(b);
    assert DigitChar(DigitValue(a)) == a;
    assert DigitChar(DigitValue(b)) == b;
  }

  lemma Pad4OfDigits(s: GoString)
    requires |s| == 4 && forall i :: 0 <= i < 4 ==> IsDigit(s[i])
    ensures Pad4(100 * TwoDigitValue(s[0], s[1]) + TwoDigitValue(s[2], s[3])) == s
  {
    var hi, lo := TwoDigitValue(s[0], s[1]), TwoDigitValue(s[2], s[3]);
    assert (100 * hi + lo) / 100 == hi && (100 * hi + lo) % 100 == lo;
    Pad2OfDigits(s[0], s[1]);
    Pad2OfDigits(s[2], s[3]);
  }

  // ---------------------------------------------------------------------------
  // The chunks of the layout. Each reads a prefix and returns the rest.

  /** Layout "2006": four digits. */
  function FourDigits(s: GoString): Option<(nat, GoString)> {
    if |s| >= 4 && IsDigit(s[0]) && IsDigit(s[1]) && IsDigit(s[2]) && IsDigit(s[3]) then
      Some((100 * TwoDigitValue(s[0], s[1]) + TwoDigitValue(s[2], s[3]), s[4..]))
    else None
  }

  /** Layouts "01", "02", "04", "05": exactly two digits. */
  function TwoDigits(s: GoString): Option<(nat, GoString)> {
    if |s| >= 2 && IsDigit(s[0]) && IsDigit(s[1]) then Some((TwoDigitValue(s[0], s[1]), s[2..]))
    else None
  }

  /** Layout "15": one digit, or two when a second digit follows. */
  function OneOrTwoDigits(s: GoString): Option<(nat, GoString)> {
    if |s| >= 2 && IsDigit(s[0]) && IsDigit(s[1]) then Some((TwoDigitValue(s[0], s[1]), s[2..]))
    else if |s| >= 1 && IsDigit(s[0]) then Some((DigitValue(s[0]), s[1..]))
    else None
  }

  /** A literal byte of the layout. */
  function Literal(s: GoString, c: Byte): Option<GoString> {
    if |s| >= 1 && s[0] == c then Some(s[1..]) else None
  }

  function DropDigits(s: GoString): (r: GoString)
    ensures r == [] || !IsDigit(r[0])
    decreases |s|
  {
    if |s| >= 1 && IsDigit(s[0]) then DropDigits(s[1..]) else s
  }

  /** Skips a fractional second the layout does not ask for: "." or "," followed by at least one digit. */
  function DropFraction(s: GoString): GoString {
    if |s| >= 2 && (s[0] == '.' || s[0] == ',') && IsDigit(s[1]) then DropDigits(s[2..]) else s
  }

  /** Layout "2006-01-02": year, month and day, and the rest. */
  function ParseDateChunks(s: GoString): Option<(nat, nat, nat, GoString)> {
    var year :- FourDigits(s);
    var s1 :- Literal(year.1, '-');
    var month :- TwoDigits(s1);
    var s2 :- Literal(month.1, '-');
    var day :- TwoDigits(s2);
    Some((year.0, month.0, day.0, day.1))
  }

  /** Layout "15:04:05": hour, minute and second, and the rest. */
  function ParseClockChunks(s: GoString): Option<(nat, nat, nat, GoString)> {
    var hour :- OneOrTwoDigits(s);
    var s1 :- Literal(hour.1, ':');
    var minute :- TwoDigits(s1);
    var s2 :- Literal(minute.1, ':');
    var second :- TwoDigits(s2);
    Some((hour.0, minute.0, second.0, second.1))
  }

  /** `time.Parse("2006-01-02T15:04:05", s)`: the time, or None where Go returns an error. */
  function ParseLayout(s: GoString): (r: Option<DateTime>)
    ensures r.Some? ==> Valid(r.value)
  {
    var date :- ParseDateChunks(s);
    var rest :- Literal(date.3, 'T');
    var clock :- ParseClockChunks(rest);
    var t := DateTime(date.0, date.1, date.2, clock.0, clock.1, clock.2);
    if DropFraction(clock.3) == [] && Valid(t) then Some(t) else None
  }

  /** `t.Format("2006-01-02")`. */
  function FormatDate(t: DateTime): (r: GoString)
    requires Valid(t)
    ensures |r| == 10
  {
    Pad4(t.year) + "-" + Pad2(t.month) + "-" + Pad2(t.day)
  }

  /** `t.Format("2006-01-02T15:04:05")`, the layout written out. */
  function FormatLayout(t: DateTime): (r: GoString)
    requires Valid(t)
    ensures |r| == 19 && r[..10] == FormatDate(t)
  {
    FormatDate(t) + "T" + Pad2(t.hour) + ":" + Pad2(t.minute) + ":" + Pad2(t.second)
  }

  // ---------------------------------------------------------------------------
  // Properties.

  /**
   * When the parse succeeds, formatting the date gives back the first ten bytes
   * of the input unchanged: the calendar date as written.
   */
  lemma DateOfParse(s: GoString)
    requires ParseLayout(s).Some?
    ensures |s| >= 10 && FormatDate(ParseLayout(s).value) == s[..10]
  {
    var t := ParseLayout(s).value;
    Pad4OfDigits(s[..4]);
    Pad2OfDigits(s[5], s[6]);
    Pad2OfDigits(s[8], s[9]);
    DatePrefix(s);
  }

  /** The first ten elements in the pieces of the date layout; stated for any element type so that DateOfParse need not compare bytes. */
  lemma DatePrefix<T>(s: seq<T>)
    requires |s| >= 10
    ensures s[..10] == s[..4] + [s[4]] + [s[5], s[6]] + [s[7]] + [s[8], s[9]]
  {
  }

  /** Parsing a formatted time gives the time back. */
  lemma ParseFormat(t: DateTime)
    requires Valid(t)
    ensures ParseLayout(FormatLayout(t)) == Some(t)
  {
    ParseFormatFraction(t, []);
    assert FormatLayout(t) + [] == FormatLayout(t);
  }

  /**
   * A fractional second after the seconds ("." or "," and digits) is accepted;
   * with no fraction (`frac == []`) this is the plain round trip. The result
   * equals `t` because DateTime has no sub-second part: Go keeps the fraction
   * as nanoseconds.
   */
  lemma ParseFormatFraction(t: DateTime, frac: GoString)
    requires Valid(t)
    requires frac == [] || (|frac| >= 2 && (frac[0] == '.' || frac[0] == ',') && forall i :: 1 <= i < |frac| ==> IsDigit(frac[i]))
    ensures ParseLayout(FormatLayout(t) + frac) == Some(t)
  {
    var clock := Pad2(t.hour) + ":" + Pad2(t.minute) + ":" + Pad2(t.second);
    var tail := "T" + (clock + frac);
    assert FormatLayout(t) + frac == FormatDate(t) + tail;
    ReadDate(t, tail);
    assert Literal(tail, 'T') == Some(clock + frac);
    ReadClock(t.hour, t.minute, t.second, frac);
    if frac != [] {
      DropAllDigits(frac[2..]);
    }
    assert DropFraction(frac) == [];
  }

  lemma ReadDate(t: DateTime, rest: GoString)
    requires Valid(t)
    ensures ParseDateChunks(FormatDate(t) + rest) == Some((t.year, t.month, t.day, rest))
  {
    var r3 := Pad2(t.day) + rest;
    var r2 := "-" + r3;
    var r1 := Pad2(t.month) + r2;
    var r0 := "-" + r1;
    assert FormatDate(t) + rest == Pad4(t.year) + r0;
    ReadFour(t.year, r0);
    assert Literal(r0, '-') == Some(r1);
    ReadTwo(t.month, r2);
    assert Literal(r2, '-') == Some(r3);
    ReadTwo(t.day, rest);
  }

  lemma ReadClock(hour: nat, minute: nat, second: nat, rest: GoString)
    requires hour < 100 && minute < 100 && second < 100
    ensures ParseClockChunks(Pad2(hour) + ":" + Pad2(minute) + ":" + Pad2(second) + rest)
         == Some((hour, minute, second, rest))
  {
    var r3 := Pad2(second) + rest;
    var r2 := ":" + r3;
    var r1 := Pad2(minute) + r2;
    var r0 := ":" + r1;
    assert Pad2(hour) + ":" + Pad2(minute) + ":" + Pad2(second) + rest == Pad2(hour) + r0;
    ReadTwo(hour, r0);
    assert Literal(r0, ':') == Some(r1);
    ReadTwo(minute, r2);
    assert Literal(r2, ':') == Some(r3);
    ReadTwo(second, rest);
  }

  lemma ReadFour(n: nat, rest: GoString)
    requires n < 10000
    ensures FourDigits(Pad4(n) + rest) == Some((n, rest))
  {
    var s := Pad4(n) + rest;
    assert s[..4] == Pad4(n) && s[4..] == rest;
  }

  lemma ReadTwo(n: nat, rest: GoString)
    requires n < 100
    ensures TwoDigits(Pad2(n) + rest) == Some((n, rest))
    ensures OneOrTwoDigits(Pad2(n) + rest) == Some((n, rest))
  {
    var s := Pad2(n) + rest;
    assert s[2..] == rest;
  }

  lemma {:induction false} DropAllDigits(s: GoString)
    requires forall i :: 0 <= i < |s| ==> IsDigit(s[i])
    ensures DropDigits(s) == []
    decreases |s|
  {
    if s != [] {
      DropAllDigits(s[1..]);
    }
  }
}
