/** The part of Python's `datetime` the parsers rely on: proleptic
    Gregorian dates in years 1..9999, the next day, instants ordered
    field by field, and differences in seconds. */
module Calendar {
  import opened Wrappers
  import opened Sorting

  datatype Date = Date(year: int, month: int, day: int)

  /** A point in time as `datetime.datetime` holds it (no time zone). */
  datatype Instant = Instant(date: Date, hour: int, minute: int, second: int)

  predicate IsLeap(y: int) {
    y % 4 == 0 && (y % 100 != 0 || y % 400 == 0)
  }

  function DaysInMonth(y: int, m: int): (n: int)
    requires 1 <= m <= 12
    ensures 28 <= n <= 31
  {
    if m == 2 then (if IsLeap(y) then 29 else 28)
    else if m == 4 || m == 6 || m == 9 || m == 11 then 30
    else 31
  }

  /** The dates `datetime.date` accepts. */
  predicate ValidDate(d: Date) {
    1 <= d.year <= 9999 && 1 <= d.month <= 12 && 1 <= d.day <= DaysInMonth(d.year, d.month)
  }

  /** The instants `datetime.datetime` accepts. */
  predicate ValidInstant(t: Instant) {
    ValidDate(t.date) && 0 <= t.hour < 24 && 0 <= t.minute < 60 && 0 <= t.second < 60
  }

  /** The day after `d`, as `d + timedelta(days=1)`; there is none after
      9999-12-31 (Python raises OverflowError there). */
  function NextDay(d: Date): (r: Option<Date>)
    requires ValidDate(d)
    ensures r.Some? ==> ValidDate(r.value)
    ensures r.None? <==> d == Date(9999, 12, 31)
  {
    if d.day < DaysInMonth(d.year, d.month) then Some(Date(d.year, d.month, d.day + 1))
    else if d.month < 12 then Some(Date(d.year, d.month + 1, 1))
    else if d.year < 9999 then Some(Date(d.year + 1, 1, 1))
    else None
  }

  function YearDays(y: int): int {
    if IsLeap(y) then 366 else 365
  }

  /** Days in the years before `y`, counted from year 1. */
  function DaysBeforeYear(y: int): (n: nat)
    requires y >= 1
  {
    if y == 1 then 0 else DaysBeforeYear(y - 1) + YearDays(y - 1)
  }

  /** Days in the months of year `y` before month `m`. */
  function DaysBeforeMonth(y: int, m: int): (n: nat)
    requires 1 <= m <= 13
  {
    if m == 1 then 0 else DaysBeforeMonth(y, m - 1) + DaysInMonth(y, m - 1)
  }

  /** Day number of `d`, 1 for 0001-01-01 (Python's `date.toordinal`). */
  function Ordinal(d: Date): int
    requires ValidDate(d)
  {
    DaysBeforeYear(d.year) + DaysBeforeMonth(d.year, d.month) + d.day
  }

  lemma YearLength(y: int)
    ensures DaysBeforeMonth(y, 13) == YearDays(y)
  {
    var feb := DaysInMonth(y, 2);
    assert DaysBeforeMonth(y, 2) == 31;
    assert DaysBeforeMonth(y, 3) == 31 + feb;
    assert DaysBeforeMonth(y, 4) == 62 + feb;
    assert DaysBeforeMonth(y, 5) == 92 + feb;
    assert DaysBeforeMonth(y, 6) == 123 + feb;
    assert DaysBeforeMonth(y, 7) == 153 + feb;
    assert DaysBeforeMonth(y, 8) == 184 + feb;
    assert DaysBeforeMonth(y, 9) == 215 + feb;
    assert DaysBeforeMonth(y, 10) == 245 + feb;
    assert DaysBeforeMonth(y, 11) == 276 + feb;
    assert DaysBeforeMonth(y, 12) == 306 + feb;
    assert DaysBeforeMonth(y, 13) == 337 + feb;
  }

  /** The next day is exactly one day later. */
  lemma NextDayOrdinal(d: Date)
    requires ValidDate(d) && NextDay(d).Some?
    ensures Ordinal(NextDay(d).value) == Ordinal(d) + 1
  {
    if d.day == DaysInMonth(d.year, d.month) && d.month == 12 {
      YearLength(d.year);
    }
  }

  lemma {:induction false} DaysBeforeMonthGrows(y: int, m1: int, m2: int)
    requires 1 <= m1 < m2 <= 13
    ensures DaysBeforeMonth(y, m1) + DaysInMonth(y, m1) <= DaysBeforeMonth(y, m2)
    decreases m2
  {
    if m1 < m2 - 1 {
      DaysBeforeMonthGrows(y, m1, m2 - 1);
    }
  }

  lemma {:induction false} DaysBeforeYearGrows(y1: int, y2: int)
    requires 1 <= y1 < y2
    ensures DaysBeforeYear(y1) + YearDays(y1) <= DaysBeforeYear(y2)
    decreases y2
  {
    if y1 < y2 - 1 {
      DaysBeforeYearGrows(y1, y2 - 1);
    }
  }

  predicate DateBefore(a: Date, b: Date) {
    a.year < b.year
    || (a.year == b.year && (a.month < b.month || (a.month == b.month && a.day < b.day)))
  }

  /** Day numbers follow the calendar order. */
  lemma OrdinalMonotone(a: Date, b: Date)
    requires ValidDate(a) && ValidDate(b) && DateBefore(a, b)
    ensures Ordinal(a) < Ordinal(b)
  {
    if a.year < b.year {
      if a.month < 12 {
        DaysBeforeMonthGrows(a.year, a.month, 13);
      }
      YearLength(a.year);
      DaysBeforeYearGrows(a.year, b.year);
    } else if a.month < b.month {
      DaysBeforeMonthGrows(a.year, a.month, b.month);
    }
  }

  /** `a < b` on datetimes: field by field. */
  predicate Before(a: Instant, b: Instant) {
    DateBefore(a.date, b.date)
    || (a.date == b.date
        && (a.hour < b.hour
            || (a.hour == b.hour
                && (a.minute < b.minute || (a.minute == b.minute && a.second < b.second)))))
  }

  predicate NotAfter(a: Instant, b: Instant) {
    !Before(b, a)
  }

  /** Seconds since 0001-01-01 00:00:00; differences of these are
      `timedelta.total_seconds()`. */
  function Seconds(t: Instant): int
    requires ValidDate(t.date)
  {
    Ordinal(t.date) * 86400 + t.hour * 3600 + t.minute * 60 + t.second
  }

  lemma {:induction false} BeforeSeconds(a: Instant, b: Instant)
    requires ValidInstant(a) && ValidInstant(b) && Before(a, b)
    ensures Seconds(a) < Seconds(b)
  {
    if DateBefore(a.date, b.date) {
      OrdinalMonotone(a.date, b.date);
    }
  }

  /** On valid instants the datetime order is the order of their seconds,
      in both directions. */
  lemma BeforeIffSeconds(a: Instant, b: Instant)
    requires ValidInstant(a) && ValidInstant(b)
    ensures Before(a, b) <==> Seconds(a) < Seconds(b)
  {
    if Before(a, b) {
      BeforeSeconds(a, b);
    } else if Before(b, a) {
      BeforeSeconds(b, a);
    } else {
      assert a == b;
    }
  }

  lemma BeforeStrictOrder()
    ensures StrictTotalOrder(Before)
  {
  }

  lemma NotAfterPreorder()
    ensures TotalPreorder(NotAfter)
  {
  }
}
