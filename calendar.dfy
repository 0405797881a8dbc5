/**
 * Day-of-year to calendar date conversion (`jday2yyyymmdd`), over the
 * Gregorian month lengths that Python's `calendar.monthrange` reports.
 */
module Calendar {

  /** The one error `calendar.monthrange` raises here: a month outside 1..12. */
  datatype CalendarError = IllegalMonth(month: int)

  datatype Result<T> = Ok(value: T) | Err(error: CalendarError)

  datatype Date = Date(year: int, month: int, day: int)

  /** Gregorian leap rule, as `calendar.isleap` states it. */
  predicate IsLeap(y: int) {
    y % 4 == 0 && (y % 100 != 0 || y % 400 == 0)
  }

  /** Number of days of month `m` (1..12) of year `y`. */
  function DaysInMonth(y: int, m: int): (n: int)
    requires 1 <= m <= 12
    ensures 28 <= n <= 31
    ensures m == 2 ==> (n == 29 <==> IsLeap(y))
  {
    if m == 2 then (if IsLeap(y) then 29 else 28)
    else if m == 4 || m == 6 || m == 9 || m == 11 then 30
    else 31
  }

  function DaysInYear(y: int): int {
    if IsLeap(y) then 366 else 365
  }

  /**
   * The day count half of `calendar.monthrange(y, m)`: the month's length,
   * or the error it raises when `m` is not a month.
   */
  function MonthRange(y: int, m: int): (r: Result<int>)
    ensures r.Ok? <==> 1 <= m <= 12
    ensures r.Ok? ==> r.value == DaysInMonth(y, m)
    ensures r.Err? ==> r.error == IllegalMonth(m)
  {
    if 1 <= m <= 12 then Ok(DaysInMonth(y, m)) else Err(IllegalMonth(m))
  }

  /** Days in the months before month `m` (1..13) of year `y`. */
  function DaysBefore(y: int, m: int): nat
    requires 1 <= m <= 13
  {
    if m == 1 then 0 else DaysBefore(y, m - 1) + DaysInMonth(y, m - 1)
  }

  /** The day-of-year of a calendar date: the earlier months' days plus the day. */
  function DayOfYear(d: Date): int
    requires 1 <= d.month <= 12
  {
    DaysBefore(d.year, d.month) + d.day
  }

  predicate ValidDate(d: Date) {
    1 <= d.month <= 12 && 1 <= d.day <= DaysInMonth(d.year, d.month)
  }

  /** All twelve months together make up the year. */
  lemma {:induction false} YearLength(y: int)
    ensures DaysBefore(y, 13) == DaysInYear(y)
  {
    assert DaysBefore(y, 2) == 31;
    assert DaysBefore(y, 3) == 31 + DaysInMonth(y, 2);
    assert DaysBefore(y, 5) == DaysBefore(y, 3) + 31 + 30;
    assert DaysBefore(y, 7) == DaysBefore(y, 5) + 31 + 30;
    assert DaysBefore(y, 9) == DaysBefore(y, 7) + 31 + 31;
    assert DaysBefore(y, 11) == DaysBefore(y, 9) + 30 + 31;
    assert DaysBefore(y, 13) == DaysBefore(y, 11) + 30 + 31;
  }

  /** A later month starts no earlier than an earlier month ends. */
  lemma {:induction false} DaysBeforeGrows(y: int, m: int, k: int)
    requires 1 <= m < k <= 13
    ensures DaysBefore(y, m) + DaysInMonth(y, m) <= DaysBefore(y, k)
    decreases k - m
  {
    if m + 1 < k {
      DaysBeforeGrows(y, m + 1, k);
    }
  }

  /** Distinct valid dates of one year have distinct days of the year. */
  lemma DayOfYearInjective(d1: Date, d2: Date)
    requires ValidDate(d1) && ValidDate(d2) && d1.year == d2.year
    requires DayOfYear(d1) == DayOfYear(d2)
    ensures d1 == d2
  {
    if d1.month < d2.month {
      DaysBeforeGrows(d1.year, d1.month, d2.month);
    } else if d2.month < d1.month {
      DaysBeforeGrows(d1.year, d2.month, d1.month);
    }
  }

  /** Every valid date falls within its year's day count. */
  lemma DayOfYearInRange(d: Date)
    requires ValidDate(d)
    ensures 1 <= DayOfYear(d) <= DaysInYear(d.year)
  {
    DaysBeforeGrows(d.year, d.month, 13);
    YearLength(d.year);
  }

  /**
   * `jday2yyyymmdd(y, jd)`: subtract month lengths, starting with January,
   * while the remainder exceeds the current month's length.  The loop guard
   * asks `monthrange` for the month's length before it tests `month <= 12`,
   * so once all twelve months have been subtracted it raises for month 13.
   */
  method JdayToYmd(y: int, jd: int) returns (r: Result<Date>)
    ensures r.Ok? <==> jd <= DaysInYear(y)
    ensures r.Err? ==> r.error == IllegalMonth(13)
    ensures r.Ok? ==> r.value.year == y && 1 <= r.value.month <= 12
    ensures r.Ok? ==> r.value.day <= DaysInMonth(y, r.value.month)
    ensures r.Ok? ==> DayOfYear(r.value) == jd
    ensures r.Ok? && r.value.month > 1 ==> 1 <= r.value.day
    ensures 1 <= jd <= DaysInYear(y) ==> r.Ok? && ValidDate(r.value)
    ensures jd <= 31 ==> r == Ok(Date(y, 1, jd))
  {
    YearLength(y);
    var month := 1;
    var rest := jd;
    while true
      invariant 1 <= month <= 13
      invariant rest == jd - DaysBefore(y, month)
      invariant month > 1 ==> 1 <= rest
      decreases 13 - month
    {
      var len := MonthRange(y, month);
      if len.Err? {
        return Err(len.error);
      }
      if !(rest - len.value > 0 && month <= 12) {
        break;
      }
      rest := rest - MonthRange(y, month).value;
      month := month + 1;
    }
    DaysBeforeGrows(y, month, 13);
    if month > 1 {
      DaysBeforeGrows(y, 1, month);
    }
    r := Ok(Date(y, month, rest));
  }

  /**
   * Converting the day-of-year of any valid date gives that date back: the
   * converter inverts `DayOfYear` over the whole year.
   */
  method DateRoundTrip(d: Date) returns (r: Result<Date>)
    requires ValidDate(d)
    ensures r == Ok(d)
  {
    DayOfYearInRange(d);
    r := JdayToYmd(d.year, DayOfYear(d));
    DayOfYearInjective(r.value, d);
  }
}
