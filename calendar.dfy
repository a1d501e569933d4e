/** The proleptic Gregorian calendar as Python's `datetime` and `calendar`
    modules compute it: leap years, month lengths, day ordinals counted from
    0001-01-01 (ordinal 1, a Monday), weekdays with 0 = Monday, and
    `Calendar().itermonthdays2`, which pads a month out to whole weeks. */
module Calendar {
  import Ordered

  datatype Date = Date(year: int, month: int, day: int)

  /** `calendar.isleap`. */
  predicate IsLeap(year: int)
  {
    year % 4 == 0 && (year % 100 != 0 || year % 400 == 0)
  }

  /** `calendar.mdays`, indexed by month (entry 0 unused). */
  const MonthDays: seq<int> := [0, 31, 28, 31, 30, 31, 30, 31, 31, 30, 31, 30, 31]

  /** Second component of `calendar.monthrange(year, month)`. */
  function DaysInMonth(year: int, month: int): (n: int)
    requires 1 <= month <= 12
    ensures 28 <= n <= 31
    ensures n == 29 <==> month == 2 && IsLeap(year)
  {
    MonthDays[month] + (if month == 2 && IsLeap(year) then 1 else 0)
  }

  /** A date `datetime.date` accepts (no upper year limit in this model). */
  predicate ValidDate(d: Date)
  {
    1 <= d.year && 1 <= d.month <= 12 && 1 <= d.day <= DaysInMonth(d.year, d.month)
  }

  /** Chronological order of dates: by year, then month, then day. */
  predicate DateLess(a: Date, b: Date)
  {
    a.year < b.year
    || (a.year == b.year && a.month < b.month)
    || (a.year == b.year && a.month == b.month && a.day < b.day)
  }

  /** Number of days in the years before `year`. */
  function DaysBeforeYear(year: int): int
    requires year >= 1
  {
    var y := year - 1;
    y * 365 + y / 4 - y / 100 + y / 400
  }

  /** Number of days in `year` before the first of `month`. */
  function DaysBeforeMonth(year: int, month: int): int
    requires 1 <= month <= 12
  {
    if month == 1 then 0 else DaysBeforeMonth(year, month - 1) + DaysInMonth(year, month - 1)
  }

  /** `date.toordinal()`: 0001-01-01 is day 1. */
  function Ordinal(d: Date): int
    requires ValidDate(d)
  {
    DaysBeforeYear(d.year) + DaysBeforeMonth(d.year, d.month) + d.day
  }

  /** `date.weekday()`: 0 = Monday ... 6 = Sunday. */
  function Weekday(d: Date): (w: int)
    requires ValidDate(d)
    ensures 0 <= w < 7
  {
    (Ordinal(d) + 6) % 7
  }

  /** The calendar day after `d`. */
  function NextDay(d: Date): (e: Date)
    requires ValidDate(d)
    ensures ValidDate(e)
  {
    if d.day < DaysInMonth(d.year, d.month) then Date(d.year, d.month, d.day + 1)
    else if d.month < 12 then Date(d.year, d.month + 1, 1)
    else Date(d.year + 1, 1, 1)
  }

  /** A year has 365 days, 366 in a leap year. */
  lemma YearLength(year: int)
    requires year >= 1
    ensures DaysBeforeYear(year + 1) == DaysBeforeYear(year) + 365 + (if IsLeap(year) then 1 else 0)
  {
    CenturySteps(year);
    if year % 400 == 0 {
      Ordered.ModUnique(year, 100, 4 * (year / 400), 0);
    }
    if year % 100 == 0 {
      Ordered.ModUnique(year, 4, 25 * (year / 100), 0);
    }
  }

  /** How each of the three leap-year counts changes from `n - 1` to `n`. */
  lemma CenturySteps(n: int)
    requires n >= 1
    ensures n / 4 - (n - 1) / 4 == (if n % 4 == 0 then 1 else 0)
    ensures n / 100 - (n - 1) / 100 == (if n % 100 == 0 then 1 else 0)
    ensures n / 400 - (n - 1) / 400 == (if n % 400 == 0 then 1 else 0)
  {
  }

  /** The months of a year add up to the year's length. */
  lemma MonthsFillYear(year: int)
    ensures DaysBeforeMonth(year, 12) + DaysInMonth(year, 12) == 365 + (if IsLeap(year) then 1 else 0)
  {
    var leap := if IsLeap(year) then 1 else 0;
    assert DaysBeforeMonth(year, 2) == 31;
    assert DaysBeforeMonth(year, 3) == 59 + leap;
    assert DaysBeforeMonth(year, 4) == 90 + leap;
    assert DaysBeforeMonth(year, 5) == 120 + leap;
    assert DaysBeforeMonth(year, 6) == 151 + leap;
    assert DaysBeforeMonth(year, 7) == 181 + leap;
    assert DaysBeforeMonth(year, 8) == 212 + leap;
    assert DaysBeforeMonth(year, 9) == 243 + leap;
    assert DaysBeforeMonth(year, 10) == 273 + leap;
    assert DaysBeforeMonth(year, 11) == 304 + leap;
    assert DaysBeforeMonth(year, 12) == 334 + leap;
  }

  /** The next day is the chronological successor of `d`: later, with no
      valid date in between. */
  lemma NextDaySucceeds(d: Date)
    requires ValidDate(d)
    ensures DateLess(d, NextDay(d))
    ensures forall e :: ValidDate(e) && DateLess(d, e) ==> !DateLess(e, NextDay(d))
  {
  }

  /** Adding to a number shifts its remainder modulo 7 by the same amount. */
  lemma ModSevenShift(a: int, b: int)
    ensures (a + b) % 7 == (a % 7 + b) % 7
  {
    var q, r := a / 7, a % 7;
    assert a == 7 * q + r;
    var q', r' := (r + b) / 7, (r + b) % 7;
    assert r + b == 7 * q' + r';
    Ordered.ModUnique(a + b, 7, q + q', r');
  }

  /** New Year's Day directly follows 31 December. */
  lemma NewYearOrdinal(year: int)
    requires year >= 1
    ensures Ordinal(Date(year + 1, 1, 1)) == Ordinal(Date(year, 12, 31)) + 1
  {
    YearLength(year);
    MonthsFillYear(year);
  }

  /** The first of a month directly follows the last day of the month before. */
  lemma MonthEndStep(year: int, month: int)
    requires year >= 1 && 1 <= month < 12
    ensures Ordinal(Date(year, month + 1, 1)) == Ordinal(Date(year, month, DaysInMonth(year, month))) + 1
  {
  }

  /** The ordinal of the next day is one more: ordinals count days. */
  lemma NextDayStep(d: Date)
    requires ValidDate(d)
    ensures Ordinal(NextDay(d)) == Ordinal(d) + 1
  {
    if d.day == DaysInMonth(d.year, d.month) {
      if d.month < 12 {
        MonthEndStep(d.year, d.month);
      } else {
        NewYearOrdinal(d.year);
      }
    }
  }

  /** The ordinal of the next day is one more, so the weekday advances by
      one, wrapping from Sunday to Monday. */
  lemma NextDayOrdinal(d: Date)
    requires ValidDate(d)
    ensures Ordinal(NextDay(d)) == Ordinal(d) + 1
    ensures Weekday(NextDay(d)) == (Weekday(d) + 1) % 7
  {
    NextDayStep(d);
    ModSevenShift(Ordinal(d) + 6, 1);
  }

  /** Weekday of the `day`-th of a month, from the weekday of its first. */
  lemma WeekdayInMonth(year: int, month: int, day: int)
    requires ValidDate(Date(year, month, day))
    ensures Weekday(Date(year, month, day)) == (Weekday(Date(year, month, 1)) + day - 1) % 7
  {
    assert Ordinal(Date(year, month, day)) == Ordinal(Date(year, month, 1)) + day - 1;
    ModSevenShift(Ordinal(Date(year, month, 1)) + 6, day - 1);
  }

  /** `calendar.Calendar().itermonthdays2(year, month)` with the default first
      weekday Monday: whole weeks of (day-of-month, weekday) pairs, where the
      padding days before the 1st and after the last day carry day 0. */
  function MonthDays2(year: int, month: int): (days: seq<(int, int)>)
    requires year >= 1 && 1 <= month <= 12
    ensures |days| % 7 == 0
    ensures Weekday(Date(year, month, 1)) + DaysInMonth(year, month) <= |days|
      < Weekday(Date(year, month, 1)) + DaysInMonth(year, month) + 7
  {
    var first := Weekday(Date(year, month, 1));
    var n := DaysInMonth(year, month);
    var after := (0 - first - n) % 7;
    seq(first + n + after, i => (if first <= i < first + n then i - first + 1 else 0, i % 7))
  }

  /** Every non-padding entry of `MonthDays2` is a real day of the month,
      sits at position `first + day - 1`, and carries that day's weekday. */
  lemma MonthDays2Entry(year: int, month: int, k: int)
    requires year >= 1 && 1 <= month <= 12
    requires 0 <= k < |MonthDays2(year, month)|
    ensures var e := MonthDays2(year, month)[k];
      e.0 == 0 ||
      (1 <= e.0 <= DaysInMonth(year, month)
       && k == Weekday(Date(year, month, 1)) + e.0 - 1
       && e.1 == Weekday(Date(year, month, e.0)))
  {
    var e := MonthDays2(year, month)[k];
    if e.0 != 0 {
      WeekdayInMonth(year, month, e.0);
    }
  }

  /** Every day of the month occurs in `MonthDays2`, at position `first + day - 1`. */
  lemma MonthDays2Covers(year: int, month: int, day: int)
    requires ValidDate(Date(year, month, day))
    ensures var k := Weekday(Date(year, month, 1)) + day - 1;
      k < |MonthDays2(year, month)| && MonthDays2(year, month)[k].0 == day
  {
  }

  /** 1 January 2022 was a Saturday. */
  lemma NewYear2022()
    ensures Weekday(Date(2022, 1, 1)) == 5
  {
  }
}
