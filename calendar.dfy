/** Calendar dates on the proleptic Gregorian calendar, as Python's
    `datetime.date` counts them: ordinals (day 1 is 0001-01-01), weekdays
    (Monday = 0), the following day, and the inclusive daily range that
    `pandas.date_range(start, end)` produces. */
module Calendar {

  datatype Date = Date(year: int, month: int, day: int)

  /** A point in time: a date and the microseconds elapsed since its midnight. */
  datatype DateTime = DateTime(date: Date, microsecond: int)

  const MicrosecondsPerDay: int := 86_400_000_000

  /** The last date Python can represent (`date.max`). */
  const MaxDate: Date := Date(9999, 12, 31)

  predicate IsLeapYear(y: int) {
    y % 4 == 0 && (y % 100 != 0 || y % 400 == 0)
  }

  function DaysInYear(y: int): int {
    if IsLeapYear(y) then 366 else 365
  }

  function DaysInMonth(y: int, m: int): int
    requires 1 <= m <= 12
  {
    if m == 2 then (if IsLeapYear(y) then 29 else 28)
    else if m == 4 || m == 6 || m == 9 || m == 11 then 30
    else 31
  }

  /** A date `datetime.date` accepts: year 1..9999, month 1..12, a day of that month. */
  predicate ValidDate(d: Date) {
    1 <= d.year <= 9999 && 1 <= d.month <= 12 && 1 <= d.day <= DaysInMonth(d.year, d.month)
  }

  /** A point in time whose time of day lies within its day. */
  predicate ValidDateTime(t: DateTime) {
    ValidDate(t.date) && 0 <= t.microsecond < MicrosecondsPerDay
  }

  /** Strict calendar order: field by field, as Python compares dates. */
  predicate Before(a: Date, b: Date) {
    a.year < b.year
    || (a.year == b.year && (a.month < b.month || (a.month == b.month && a.day < b.day)))
  }

  /** Strict order on points in time: by date, then by time of day. */
  predicate DateTimeBefore(a: DateTime, b: DateTime) {
    Before(a.date, b.date) || (a.date == b.date && a.microsecond < b.microsecond)
  }

  /** What parsing a date alone yields: midnight of that date. */
  function Midnight(d: Date): DateTime {
    DateTime(d, 0)
  }

  function DaysBeforeYear(y: int): int
    requires y >= 1
  {
    var p := y - 1;
    p * 365 + p / 4 - p / 100 + p / 400
  }

  function DaysBeforeMonth(y: int, m: int): int
    requires 1 <= m <= 12
  {
    var table := [0, 31, 59, 90, 120, 151, 181, 212, 243, 273, 304, 334];
    table[m - 1] + (if m > 2 && IsLeapYear(y) then 1 else 0)
  }

  /** `date.toordinal()`: 0001-01-01 is day 1. */
  function Ordinal(d: Date): int
    requires d.year >= 1 && 1 <= d.month <= 12
  {
    DaysBeforeYear(d.year) + DaysBeforeMonth(d.year, d.month) + d.day
  }

  /** `date.weekday()`: Monday is 0 and Sunday is 6. */
  function Weekday(d: Date): (w: int)
    requires d.year >= 1 && 1 <= d.month <= 12
    ensures 0 <= w < 7
  {
    (Ordinal(d) + 6) % 7
  }

  /** The calendar day after `d`. */
  function NextDay(d: Date): Date
    requires ValidDate(d)
  {
    if d.day < DaysInMonth(d.year, d.month) then Date(d.year, d.month, d.day + 1)
    else if d.month < 12 then Date(d.year, d.month + 1, 1)
    else Date(d.year + 1, 1, 1)
  }

  /** Going from `y - 1` to `y` raises `y / k` by one exactly when `k` divides `y`. */
  lemma DivStep(y: int)
    requires y >= 1
    ensures y / 4 - (y - 1) / 4 == if y % 4 == 0 then 1 else 0
    ensures y / 100 - (y - 1) / 100 == if y % 100 == 0 then 1 else 0
    ensures y / 400 - (y - 1) / 400 == if y % 400 == 0 then 1 else 0
  {
  }

  /** Each year contributes exactly its own length to the ordinal count. */
  lemma DaysBeforeYearStep(y: int)
    requires y >= 1
    ensures DaysBeforeYear(y + 1) == DaysBeforeYear(y) + DaysInYear(y)
  {
    DivStep(y);
    var a, b := DaysBeforeYear(y + 1), DaysBeforeYear(y);
    assert a - b == 365 + (y / 4 - (y - 1) / 4) - (y / 100 - (y - 1) / 100) + (y / 400 - (y - 1) / 400);
    if y % 400 == 0 {
      assert y % 100 == 0 && y % 4 == 0 by {
        assert y == 400 * (y / 400);
      }
    } else if y % 100 == 0 {
      assert y % 4 == 0 by {
        assert y == 100 * (y / 100);
      }
    }
  }

  lemma {:induction false} DaysBeforeYearMonotone(a: int, b: int)
    requires 1 <= a < b
    ensures DaysBeforeYear(a) + DaysInYear(a) <= DaysBeforeYear(b)
    decreases b - a
  {
    DaysBeforeYearStep(a);
    if a + 1 < b {
      DaysBeforeYearMonotone(a + 1, b);
    }
  }

  /** The months of a year tile it: each month starts where the previous one ends. */
  lemma DaysBeforeMonthStep(y: int, m: int)
    requires 1 <= m < 12
    ensures DaysBeforeMonth(y, m + 1) == DaysBeforeMonth(y, m) + DaysInMonth(y, m)
  {
  }

  lemma DaysBeforeMonthMonotone(y: int, a: int, b: int)
    requires 1 <= a < b <= 12
    ensures DaysBeforeMonth(y, a) + DaysInMonth(y, a) <= DaysBeforeMonth(y, b)
  {
  }

  lemma DayOfYearBound(d: Date)
    requires ValidDate(d)
    ensures DaysBeforeMonth(d.year, d.month) + d.day <= DaysInYear(d.year)
  {
  }

  /** Ordinals count days in calendar order: the ordinal is strictly
      increasing in the calendar order, so it is also one-to-one. */
  lemma OrdinalOrder(a: Date, b: Date)
    requires ValidDate(a) && ValidDate(b)
    ensures Before(a, b) <==> Ordinal(a) < Ordinal(b)
    ensures a == b <==> Ordinal(a) == Ordinal(b)
  {
    if Before(a, b) {
      OrdinalBefore(a, b);
    } else if Before(b, a) {
      OrdinalBefore(b, a);
    }
  }

  lemma OrdinalBefore(a: Date, b: Date)
    requires ValidDate(a) && ValidDate(b) && Before(a, b)
    ensures Ordinal(a) < Ordinal(b)
  {
    if a.year < b.year {
      DayOfYearBound(a);
      DaysBeforeYearMonotone(a.year, b.year);
    } else if a.month < b.month {
      DaysBeforeMonthMonotone(a.year, a.month, b.month);
    }
  }

  /** The day after is one ordinal later and one weekday later; it is a valid
      date unless `d` is the last representable one. */
  lemma NextDayOrdinal(d: Date)
    requires ValidDate(d)
    ensures NextDay(d).year >= 1 && 1 <= NextDay(d).month <= 12
    ensures Ordinal(NextDay(d)) == Ordinal(d) + 1
    ensures Weekday(NextDay(d)) == (Weekday(d) + 1) % 7
    ensures d != MaxDate ==> ValidDate(NextDay(d))
  {
    if d.day < DaysInMonth(d.year, d.month) {
    } else if d.month < 12 {
      DaysBeforeMonthStep(d.year, d.month);
    } else {
      NewYearOrdinal(d.year);
    }
    WeekdayStep(Ordinal(d));
  }

  lemma NewYearOrdinal(y: int)
    requires 1 <= y
    ensures Ordinal(Date(y + 1, 1, 1)) == Ordinal(Date(y, 12, 31)) + 1
  {
    DaysBeforeYearStep(y);
  }

  lemma WeekdayStep(k: int)
    ensures (k + 1 + 6) % 7 == ((k + 6) % 7 + 1) % 7
  {
  }

  /** `pandas.date_range(start, end)`: every calendar day from `start` to
      `end` inclusive, one ordinal apart, and nothing when `start` is after `end`. */
  function DateRange(start: Date, end: Date): (r: seq<Date>)
    requires ValidDate(start) && ValidDate(end)
    ensures Ordinal(end) < Ordinal(start) ==> r == []
    ensures Ordinal(start) <= Ordinal(end) ==> |r| == Ordinal(end) - Ordinal(start) + 1
    ensures forall i :: 0 <= i < |r| ==> ValidDate(r[i]) && Ordinal(r[i]) == Ordinal(start) + i
    decreases Ordinal(end) - Ordinal(start)
  {
    if Ordinal(end) < Ordinal(start) then []
    else if Ordinal(end) == Ordinal(start) then [start]
    else
      NextDayOrdinal(start);
      OrdinalOrder(end, MaxDate);
      [start] + DateRange(NextDay(start), end)
  }

  /** The range holds exactly the valid dates between its ends, in calendar order. */
  lemma DateRangeExact(start: Date, end: Date, d: Date)
    requires ValidDate(start) && ValidDate(end) && ValidDate(d)
    ensures d in DateRange(start, end) <==> !Before(d, start) && !Before(end, d)
    ensures forall i, j :: 0 <= i < j < |DateRange(start, end)| ==>
      Before(DateRange(start, end)[i], DateRange(start, end)[j])
  {
    var r := DateRange(start, end);
    OrdinalOrder(d, start);
    OrdinalOrder(end, d);
    if Ordinal(start) <= Ordinal(d) <= Ordinal(end) {
      var i := Ordinal(d) - Ordinal(start);
      OrdinalOrder(r[i], d);
    }
    forall i, j | 0 <= i < j < |r| ensures Before(r[i], r[j]) {
      OrdinalOrder(r[i], r[j]);
    }
  }

  /** A point in time that starts at midnight of `d` lies after `now` exactly
      when `d` is a later calendar day than `now`'s: the time of day of `now`
      never matters. */
  lemma MidnightAfter(d: Date, now: DateTime)
    requires ValidDateTime(now)
    ensures DateTimeBefore(now, Midnight(d)) <==> Before(now.date, d)
  {
  }
}
