/** Calendar dates and DATETIME values as the MySQL functions used by the
    handlers (`DATE`, `YEAR`, `MONTH`, `TIMESTAMPDIFF(MINUTE, ...)`) see them.
    The server clock (`NOW()`, `CURDATE()`) is not read here: every
    operation that needs it receives the current instant as a parameter. */
module Clock {
  import opened Common

  datatype Date = Date(year: int, month: int, day: int)

  /** A DATETIME value at one-second resolution, as `NOW()` produces it. */
  datatype DateTime = DateTime(date: Date, secondOfDay: int)

  predicate IsLeapYear(y: int) {
    y % 4 == 0 && (y % 100 != 0 || y % 400 == 0)
  }

  function DaysInMonth(y: int, m: int): int
    requires 1 <= m <= 12
  {
    if m == 2 then (if IsLeapYear(y) then 29 else 28)
    else if m == 4 || m == 6 || m == 9 || m == 11 then 30
    else 31
  }

  predicate ValidDate(d: Date) {
    1 <= d.month <= 12 && 1 <= d.day <= DaysInMonth(d.year, d.month)
  }

  predicate ValidDateTime(t: DateTime) {
    ValidDate(t.date) && 0 <= t.secondOfDay < 86400
  }

  /** Days from 1970-01-01 in the proleptic Gregorian calendar. Dafny's `/`
      and `%` with a positive divisor round toward negative infinity, which
      is what the era arithmetic needs for years before year 0. */
  function DayNumber(d: Date): int {
    var y := if d.month <= 2 then d.year - 1 else d.year;
    var era := y / 400;
    var yearOfEra := y - era * 400;
    var shiftedMonth := (d.month + 9) % 12;
    var dayOfYear := (153 * shiftedMonth + 2) / 5 + d.day - 1;
    var dayOfEra := yearOfEra * 365 + yearOfEra / 4 - yearOfEra / 100 + dayOfYear;
    era * 146097 + dayOfEra - 719468
  }

  function EpochSecond(t: DateTime): int {
    DayNumber(t.date) * 86400 + t.secondOfDay
  }

  /** `TIMESTAMPDIFF(MINUTE, from, to)`: the whole minutes from `from` to
      `to`, truncated toward zero, so negative when `to` is earlier. */
  function MinutesBetween(from: DateTime, to: DateTime): (r: int)
    ensures var d := EpochSecond(to) - EpochSecond(from);
            if d >= 0 then 0 <= r && 0 <= d - 60 * r < 60
            else r <= 0 && 0 <= 60 * r - d < 60
  {
    var d := EpochSecond(to) - EpochSecond(from);
    if d >= 0 then d / 60 else -((-d) / 60)
  }

  /** The `YYYY-MM-DD` text a client sends as the `fecha` query parameter. */
  function FormatIsoDate(d: Date): (s: string)
    requires 0 <= d.year <= 9999 && 1 <= d.month <= 12 && 1 <= d.day <= 31
    ensures |s| == 10
  {
    FourDigits(d.year) + "-" + TwoDigits(d.month) + "-" + TwoDigits(d.day)
  }

  /** Four digits, a dash, two digits, a dash, two digits. */
  predicate IsoDateShape(s: string) {
    |s| == 10 && s[4] == '-' && s[7] == '-' && AllDigits(s[..4]) && AllDigits(s[5..7]) && AllDigits(s[8..])
  }

  /** How a `YYYY-MM-DD` parameter compared with `DATE(fecha)` is read as a
      date; text in any other shape names no date. */
  function ParseIsoDate(s: string): (d: Option<Date>)
    ensures d.Some? <==> IsoDateShape(s)
    ensures d.Some? ==> 0 <= d.value.year <= 9999 && 0 <= d.value.month <= 99 && 0 <= d.value.day <= 99
  {
    if IsoDateShape(s)
    then
      var y, m, dd := DigitsValue(s[..4]), DigitsValue(s[5..7]), DigitsValue(s[8..]);
      DigitsValueBound(s[..4]);
      DigitsValueBound(s[5..7]);
      DigitsValueBound(s[8..]);
      Some(Date(y, m, dd))
    else None
  }

  /** Reading back the text of a date gives that date. */
  lemma ParseFormatRoundTrip(d: Date)
    requires 0 <= d.year <= 9999 && 1 <= d.month <= 12 && 1 <= d.day <= 31
    ensures ParseIsoDate(FormatIsoDate(d)) == Some(d)
  {
    var s := FormatIsoDate(d);
    assert s[..4] == FourDigits(d.year);
    assert s[5..7] == TwoDigits(d.month);
    assert s[8..] == TwoDigits(d.day);
    FourDigitsValue(d.year);
    TwoDigitsValue(d.month);
    TwoDigitsValue(d.day);
  }

  /** Conversely, text that reads as a date with a month of 1..12 and a day
      of 1..31 is exactly the text of that date. */
  lemma FormatParseRoundTrip(s: string)
    requires ParseIsoDate(s).Some?
    requires 1 <= ParseIsoDate(s).value.month <= 12 && 1 <= ParseIsoDate(s).value.day <= 31
    ensures FormatIsoDate(ParseIsoDate(s).value) == s
  {
    var d := ParseIsoDate(s).value;
    FourDigitsOfValue(s[..4]);
    TwoDigitsOfValue(s[5..7]);
    TwoDigitsOfValue(s[8..]);
    assert s == s[..4] + "-" + s[5..7] + "-" + s[8..];
  }
}
