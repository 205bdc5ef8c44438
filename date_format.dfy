/** The `'%Y-%m-%d'` date format in both directions: `datetime.strptime`,
    which the validator uses to accept a date string, and
    `date.strftime`, which the loader uses to name the daily files.

    Parsing follows CPython's `_strptime` patterns for the three fields:
    `%Y` is exactly four digits, `%m` is `1[0-2]|0[1-9]|[1-9]`, and `%d` is
    `3[01]|[12]\d|0[1-9]|[1-9]| [1-9]`; the match is not anchored at the
    end, but text left over after it is rejected ("unconverted data
    remains"), and the fields must then form a real date (year 1..9999,
    a day that exists in that month). */
module DateFormat {
  import opened Wrappers
  import opened Calendar

  predicate IsDigit(c: char) {
    '0' <= c <= '9'
  }

  function DigitValue(c: char): (n: int)
    requires IsDigit(c)
    ensures 0 <= n <= 9
  {
    c as int - '0' as int
  }

  function DigitChar(n: int): (c: char)
    requires 0 <= n <= 9
    ensures IsDigit(c) && DigitValue(c) == n
  {
    ('0' as int + n) as char
  }

  /** `%Y` applied to the first four characters. */
  function YearField(t: string): (r: Option<int>)
    requires |t| == 4
    ensures r.Some? ==> 0 <= r.value <= 9999
  {
    if IsDigit(t[0]) && IsDigit(t[1]) && IsDigit(t[2]) && IsDigit(t[3]) then
      Some(DigitValue(t[0]) * 1000 + DigitValue(t[1]) * 100 + DigitValue(t[2]) * 10 + DigitValue(t[3]))
    else None
  }

  /** `%m` matched against the whole text between the two separators. Only
      one of the alternatives can be followed by the second '-', so the
      month is that text read as 1 to 12, with or without a leading zero. */
  function MonthField(t: string): (r: Option<int>)
    ensures r.Some? ==> 1 <= r.value <= 12
  {
    if |t| == 1 && '1' <= t[0] <= '9' then Some(DigitValue(t[0]))
    else if |t| == 2 && IsDigit(t[0]) && IsDigit(t[1])
         && 1 <= DigitValue(t[0]) * 10 + DigitValue(t[1]) <= 12 then
      Some(DigitValue(t[0]) * 10 + DigitValue(t[1]))
    else None
  }

  /** `%d` matched against the rest of the string: the first alternative that
      matches must consume all of it. That accepts one digit 1-9, a space and
      one digit 1-9, or two digits reading 01 to 31. */
  function DayField(t: string): (r: Option<int>)
    ensures r.Some? ==> 1 <= r.value <= 31
  {
    if |t| == 1 && '1' <= t[0] <= '9' then Some(DigitValue(t[0]))
    else if |t| == 2 && t[0] == ' ' && '1' <= t[1] <= '9' then Some(DigitValue(t[1]))
    else if |t| == 2 && IsDigit(t[0]) && IsDigit(t[1])
         && 1 <= DigitValue(t[0]) * 10 + DigitValue(t[1]) <= 31 then
      Some(DigitValue(t[0]) * 10 + DigitValue(t[1]))
    else None
  }

  /** `datetime.strptime(s, '%Y-%m-%d')`: the date, or `None` where Python
      raises `ValueError`. */
  function ParseDate(s: string): (r: Option<Date>)
    ensures r.Some? ==> ValidDate(r.value)
  {
    if |s| < 5 || s[4] != '-' then None
    else
      var rest := s[5..];
      var monthLength := if |rest| >= 2 && rest[1] == '-' then 1
                         else if |rest| >= 3 && rest[2] == '-' then 2
                         else 0;
      if monthLength == 0 then None
      else
        match (YearField(s[..4]), MonthField(rest[..monthLength]), DayField(rest[monthLength + 1..]))
        case (Some(y), Some(m), Some(d)) =>
          if ValidDate(Date(y, m, d)) then Some(Date(y, m, d)) else None
        case _ => None
  }

  /** `n` written with exactly two digits (`%m`, `%d` on output). */
  function Pad2(n: int): (t: string)
    requires 0 <= n <= 99
    ensures |t| == 2 && IsDigit(t[0]) && IsDigit(t[1])
    ensures DigitValue(t[0]) * 10 + DigitValue(t[1]) == n
  {
    [DigitChar(n / 10), DigitChar(n % 10)]
  }

  /** `n` written with exactly four digits (`%Y` on output). */
  function Pad4(n: int): (t: string)
    requires 0 <= n <= 9999
    ensures |t| == 4 && YearField(t) == Some(n)
  {
    var hi, lo := Pad2(n / 100), Pad2(n % 100);
    assert n == n / 100 * 100 + n % 100;
    hi + lo
  }

  /** `date.strftime('%Y-%m-%d')`: zero-padded year, month and day. */
  function FormatDate(d: Date): (s: string)
    requires ValidDate(d)
    ensures |s| == 10 && s[4] == '-' && s[7] == '-'
    ensures forall i :: 0 <= i < 10 && i != 4 && i != 7 ==> IsDigit(s[i])
  {
    var y, m, dd := Pad4(d.year), Pad2(d.month), Pad2(d.day);
    assert IsDigit(y[0]) && IsDigit(y[1]) && IsDigit(y[2]) && IsDigit(y[3]);
    y + "-" + m + "-" + dd
  }

  /** Formatting a date and parsing the text back gives the same date, so
      distinct dates never share a formatted name. */
  lemma {:induction false} ParseFormatRoundTrip(d: Date)
    requires ValidDate(d)
    ensures ParseDate(FormatDate(d)) == Some(d)
  {
    var s := FormatDate(d);
    var rest := s[5..];
    assert s[..4] == Pad4(d.year);
    assert rest == Pad2(d.month) + "-" + Pad2(d.day);
    assert rest[..2] == Pad2(d.month);
    assert rest[3..] == Pad2(d.day);
  }

  lemma FormatDateInjective(a: Date, b: Date)
    requires ValidDate(a) && ValidDate(b) && FormatDate(a) == FormatDate(b)
    ensures a == b
  {
    ParseFormatRoundTrip(a);
    ParseFormatRoundTrip(b);
  }

  /** Month and day may be written without their leading zero, and a day
      may be written as a space and one digit. */
  lemma ParseAcceptsExamples()
    ensures ParseDate("2021-11-10") == Some(Date(2021, 11, 10))
    ensures ParseDate("2021-1-5") == Some(Date(2021, 1, 5))
    ensures ParseDate("2021-01- 5") == Some(Date(2021, 1, 5))
    ensures ParseDate("2020-02-29") == Some(Date(2020, 2, 29))
  {
    assert "2021-11-10"[5..] == "11-10";
    assert "2021-11-10"[5..][..2] == "11" && "2021-11-10"[5..][3..] == "10";
    assert "2021-1-5"[5..] == "1-5";
    assert "2021-1-5"[5..][..1] == "1" && "2021-1-5"[5..][2..] == "5";
    assert "2021-01- 5"[5..] == "01- 5";
    assert "2021-01- 5"[5..][..2] == "01" && "2021-01- 5"[5..][3..] == " 5";
    assert "2020-02-29"[5..] == "02-29";
    assert "2020-02-29"[5..][..2] == "02" && "2020-02-29"[5..][3..] == "29";
  }

  /** A day that does not exist in its month is rejected: 29 February
      outside leap years (1900 is not one), 31 April. */
  lemma ParseRejectsMissingDays()
    ensures ParseDate("2021-02-29") == None
    ensures ParseDate("1900-02-29") == None
    ensures ParseDate("2021-04-31") == None
  {
    assert "2021-02-29"[5..] == "02-29";
    assert "2021-02-29"[5..][..2] == "02" && "2021-02-29"[5..][3..] == "29";
    assert "1900-02-29"[5..] == "02-29";
    assert "1900-02-29"[5..][..2] == "02" && "1900-02-29"[5..][3..] == "29";
    assert "2021-04-31"[5..] == "04-31";
    assert "2021-04-31"[5..][..2] == "04" && "2021-04-31"[5..][3..] == "31";
  }

  /** Months outside 1..12 and year 0 are rejected. */
  lemma ParseRejectsOutOfRangeFields()
    ensures ParseDate("2021-13-01") == None
    ensures ParseDate("2021-00-10") == None
    ensures ParseDate("0000-01-01") == None
  {
    assert "2021-13-01"[5..] == "13-01";
    assert "2021-13-01"[5..][..2] == "13";
    assert "2021-00-10"[5..] == "00-10";
    assert "2021-00-10"[5..][..2] == "00";
    assert "0000-01-01"[..4] == "0000";
  }

  /** A short year, trailing text and other separators are rejected. */
  lemma ParseRejectsMalformedText()
    ensures ParseDate("21-01-01") == None
    ensures ParseDate("2021-01-010") == None
    ensures ParseDate("2021/01/01") == None
  {
    assert "2021-01-010"[5..] == "01-010";
    assert "2021-01-010"[5..][3..] == "010";
  }
}
