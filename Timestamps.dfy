/**
 * The WSJT-X timestamp text `YYMMDD_HHMMSS`: its digit-slicing decode (as in
 * `parse_wsjt_line` and `export_pass`, which read the year as 2000 + YY and
 * reject impossible calendar values the way `datetime(...)` does), and the
 * `%Y%m%d_%H%M%S` rendering used for the export file names.
 */
module Timestamps {
  import opened Records

  predicate IsDigit(c: char) { '0' <= c <= '9' }

  function DigitValue(c: char): (d: nat)
    requires IsDigit(c)
    ensures d < 10
  {
    c as int - '0' as int
  }

  function DigitChar(d: nat): (c: char)
    requires d < 10
    ensures IsDigit(c) && DigitValue(c) == d
  {
    ('0' as int + d) as char
  }

  /** The shape the log pattern guarantees: six digits, `_`, six digits. */
  predicate IsTsText(s: string)
  {
    |s| == 13 && s[6] == '_' && forall i :: 0 <= i < 13 && i != 6 ==> IsDigit(s[i])
  }

  /** `int(s[i:i+2])` for two digits. */
  function TwoDigits(s: string, i: nat): (n: nat)
    requires i + 2 <= |s| && IsDigit(s[i]) && IsDigit(s[i + 1])
    ensures n < 100
  {
    10 * DigitValue(s[i]) + DigitValue(s[i + 1])
  }

  datatype DateTime = DateTime(year: int, month: int, day: int, hour: int, minute: int, second: int)

  predicate IsLeapYear(y: int)
  {
    y % 4 == 0 && (y % 100 != 0 || y % 400 == 0)
  }

  function DaysInMonth(y: int, m: int): int
    requires 1 <= m <= 12
  {
    if m == 2 then (if IsLeapYear(y) then 29 else 28)
    else if m == 4 || m == 6 || m == 9 || m == 11 then 30
    else 31
  }

  /** The values `datetime(...)` accepts. */
  predicate ValidDateTime(d: DateTime)
  {
    && 1 <= d.month <= 12
    && 1 <= d.day <= DaysInMonth(d.year, d.month)
    && 0 <= d.hour < 24 && 0 <= d.minute < 60 && 0 <= d.second < 60
  }

  /** The timestamp of a log line, or `None` where `datetime` raises ValueError. */
  function DecodeTsText(s: string): (r: Option<DateTime>)
    requires IsTsText(s)
    ensures r.Some? ==> ValidDateTime(r.value) && 2000 <= r.value.year <= 2099
    // the six two-digit fields, year counted from 2000, accepted exactly when they form a valid date and time
    ensures var d := DateTime(2000 + TwoDigits(s, 0), TwoDigits(s, 2), TwoDigits(s, 4),
                              TwoDigits(s, 7), TwoDigits(s, 9), TwoDigits(s, 11));
      (r.Some? <==> ValidDateTime(d)) && (r.Some? ==> r.value == d)
  {
    var d := DateTime(2000 + TwoDigits(s, 0), TwoDigits(s, 2), TwoDigits(s, 4),
                      TwoDigits(s, 7), TwoDigits(s, 9), TwoDigits(s, 11));
    if ValidDateTime(d) then Some(d) else None
  }

  /** A number below 100 as two zero-padded digits. */
  function Pad2(n: nat): (s: string)
    requires n < 100
    ensures |s| == 2 && IsDigit(s[0]) && IsDigit(s[1]) && TwoDigits(s, 0) == n
  {
    [DigitChar(n / 10), DigitChar(n % 10)]
  }

  /** `strftime('%Y%m%d_%H%M%S')` for the years 2000 to 2099. */
  function FormatStamp(d: DateTime): (s: string)
    requires ValidDateTime(d) && 2000 <= d.year <= 2099
    ensures |s| == 15
  {
    Pad2(d.year / 100) + Pad2(d.year % 100) + Pad2(d.month) + Pad2(d.day) + "_"
      + Pad2(d.hour) + Pad2(d.minute) + Pad2(d.second)
  }

  /** Two digits read and written back are the same two characters. */
  lemma Pad2TwoDigits(s: string, i: nat)
    requires i + 2 <= |s| && IsDigit(s[i]) && IsDigit(s[i + 1])
    ensures Pad2(TwoDigits(s, i)) == s[i..i + 2]
  {
    var n := TwoDigits(s, i);
    assert n / 10 == DigitValue(s[i]) && n % 10 == DigitValue(s[i + 1]);
  }

  /**
   * Round trip: the file-name stamp of a decoded timestamp is the original
   * text with the century `20` in front.
   */
  lemma FormatStampRoundTrip(s: string)
    requires IsTsText(s) && DecodeTsText(s).Some?
    ensures FormatStamp(DecodeTsText(s).value) == "20" + s
  {
    var d := DecodeTsText(s).value;
    Pad2TwoDigits(s, 0);
    Pad2TwoDigits(s, 2);
    Pad2TwoDigits(s, 4);
    Pad2TwoDigits(s, 7);
    Pad2TwoDigits(s, 9);
    Pad2TwoDigits(s, 11);
    assert d.year / 100 == 20 && d.year % 100 == TwoDigits(s, 0);
    assert Pad2(20) == "20";
    assert s == s[0..2] + s[2..4] + s[4..6] + "_" + s[7..9] + s[9..11] + s[11..13];
  }
}
