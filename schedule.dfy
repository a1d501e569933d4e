/** The parsed schedule (`Crontab`) and the generators that walk the
    calendar for it. The Python generators never stop; here each one returns
    the part of its stream that falls in the years up to `untilYear`, and the
    lemmas show that this part is exactly the matching dates (or date-times)
    from the start on, in strictly ascending order. */
module Schedule {
  import opened Ordered
  import opened Calendar

  datatype Option<T> = None | Some(value: T)

  /** `_day_of_week_to_cron`: Python numbers weekdays from Monday = 0,
      cron from Sunday = 0. */
  function DayOfWeekToCron(dayOfWeek: int): (c: int)
    ensures 0 <= c <= 6
    ensures dayOfWeek == 6 ==> c == 0
    ensures 0 <= dayOfWeek <= 6 ==> CronToDayOfWeek(c) == dayOfWeek
  {
    (dayOfWeek + 1) % 7
  }

  /** The inverse numbering: cron weekday to Python weekday. */
  function CronToDayOfWeek(c: int): (d: int)
    ensures 0 <= d <= 6
  {
    (c + 6) % 7
  }

  /** The conversion is a bijection of 0..6 onto 0..6. */
  lemma DayOfWeekToCronBijective(c: int)
    requires 0 <= c <= 6
    ensures DayOfWeekToCron(CronToDayOfWeek(c)) == c
  {
  }

  /** A point in time to the minute (seconds are not modelled). */
  datatype DateTime = DateTime(date: Date, hour: int, minute: int)

  predicate ValidDateTime(t: DateTime)
  {
    ValidDate(t.date) && 0 <= t.hour <= 23 && 0 <= t.minute <= 59
  }

  /** Chronological order of date-times: by date, then hour, then minute. */
  predicate TimeLess(a: DateTime, b: DateTime)
  {
    DateLess(a.date, b.date)
    || (a.date == b.date && a.hour < b.hour)
    || (a.date == b.date && a.hour == b.hour && a.minute < b.minute)
  }

  predicate DatesAscending(s: seq<Date>)
  {
    forall i, j :: 0 <= i < j < |s| ==> DateLess(s[i], s[j])
  }

  predicate TimesAscending(s: seq<DateTime>)
  {
    forall i, j :: 0 <= i < j < |s| ==> TimeLess(s[i], s[j])
  }

  lemma AppendDatesAscending(a: seq<Date>, b: seq<Date>)
    requires DatesAscending(a) && DatesAscending(b)
    requires forall i, j :: 0 <= i < |a| && 0 <= j < |b| ==> DateLess(a[i], b[j])
    ensures DatesAscending(a + b)
  {
  }

  lemma AppendTimesAscending(a: seq<DateTime>, b: seq<DateTime>)
    requires TimesAscending(a) && TimesAscending(b)
    requires forall i, j :: 0 <= i < |a| && 0 <= j < |b| ==> TimeLess(a[i], b[j])
    ensures TimesAscending(a + b)
  {
  }

  /** The head of an ascending list comes no later than any member. */
  lemma AscendingHead(s: seq<DateTime>, t: DateTime)
    requires TimesAscending(s) && t in s
    ensures s[0] == t || TimeLess(s[0], t)
  {
    var j :| 0 <= j < |s| && s[j] == t;
  }

  /** Once the heads agree, the tails of `r` and `l` are related as the
      lists themselves are. */
  lemma PrefixTail(r: seq<DateTime>, l: seq<DateTime>, last: DateTime)
    requires TimesAscending(r) && TimesAscending(l)
    requires |l| > 1 && |r| > 0 && r[0] == l[0]
    requires forall t :: t in l <==> t in r && !TimeLess(last, t)
    ensures forall t :: t in l[1..] <==> t in r[1..] && !TimeLess(last, t)
  {
    forall t
      ensures t in l[1..] <==> t in r[1..] && !TimeLess(last, t)
    {
      if t in l[1..] {
        var i :| 1 <= i < |l| && l[i] == t;
        assert t in l && TimeLess(l[0], t);
        var j :| 0 <= j < |r| && r[j] == t;
        assert j != 0;
        assert r[1..][j - 1] == t;
      }
      if t in r[1..] && !TimeLess(last, t) {
        var j :| 1 <= j < |r| && r[j] == t;
        assert t in r && TimeLess(r[0], t);
        var i :| 0 <= i < |l| && l[i] == t;
        assert i != 0;
        assert l[1..][i - 1] == t;
      }
    }
  }

  /** An ascending list `r` starts with the ascending list `l` when the
      members of `l` are exactly the members of `r` up to the last one of `l`:
      which is how the first few date-times a generator yields are pinned
      down by what it yields at all. */
  lemma {:induction false} TimesPrefix(r: seq<DateTime>, l: seq<DateTime>, last: DateTime)
    requires TimesAscending(r) && TimesAscending(l)
    requires |l| > 0 && l[|l| - 1] == last
    requires forall t :: t in l <==> t in r && !TimeLess(last, t)
    ensures |l| <= |r| && r[..|l|] == l
    decreases |l|
  {
    var x := l[0];
    assert x in l;
    var y := r[0];
    AscendingHead(l, last);
    AscendingHead(r, x);
    assert y in l;
    AscendingHead(l, y);
    if |l| > 1 {
      PrefixTail(r, l, last);
      TimesPrefix(r[1..], l[1..], last);
      assert r[..|l|] == [y] + r[1..][..|l| - 1];
      assert l == [x] + l[1..];
    } else {
      assert r[..1] == [y];
    }
  }

  /** The frozen dataclass `Crontab`: the five value lists and whether the
      day-of-month and day-of-week fields were written as a bare `*`. */
  datatype Crontab = Crontab(
    minutes: seq<int>,
    hours: seq<int>,
    dayOfMonth: seq<int>,
    months: seq<int>,
    dayOfWeek: seq<int>,
    dayOfMonthAsterisk: bool,
    dayOfWeekAsterisk: bool)
  {
    /** What `parse` guarantees of every `Crontab` it builds: each list
        strictly ascending and inside its field's bounds. */
    predicate Valid()
    {
      && StrictlyAscending(minutes) && Within(minutes, 0, 59)
      && StrictlyAscending(hours) && Within(hours, 0, 23)
      && StrictlyAscending(dayOfMonth) && Within(dayOfMonth, 1, 31)
      && StrictlyAscending(months) && Within(months, 1, 12)
      && StrictlyAscending(dayOfWeek) && Within(dayOfWeek, 0, 6)
    }

    /** The POSIX rule for combining the two day fields: a `*` day-of-week
        leaves the day-of-month in charge, a `*` day-of-month leaves the
        day-of-week in charge, otherwise either one matching is enough. */
    predicate DayRule(dayOfMonthMatch: bool, dayOfWeekMatch: bool)
      ensures DayRule(dayOfMonthMatch, dayOfWeekMatch) ==> dayOfMonthMatch || dayOfWeekMatch
      ensures dayOfMonthMatch && dayOfWeekMatch ==> DayRule(dayOfMonthMatch, dayOfWeekMatch)
    {
      if dayOfWeekAsterisk then dayOfMonthMatch
      else if dayOfMonthAsterisk then dayOfWeekMatch
      else dayOfMonthMatch || dayOfWeekMatch
    }

    /** The day rule applied to a calendar date. */
    predicate DayMatches(d: Date)
      requires ValidDate(d)
      ensures DayMatches(d) ==> d.day in dayOfMonth || DayOfWeekToCron(Weekday(d)) in dayOfWeek
      ensures !dayOfWeekAsterisk && !dayOfMonthAsterisk ==>
        (DayMatches(d) <==> d.day in dayOfMonth || DayOfWeekToCron(Weekday(d)) in dayOfWeek)
    {
      DayRule(d.day in dayOfMonth, DayOfWeekToCron(Weekday(d)) in dayOfWeek)
    }

    /** A date the schedule fires on that is not before `start`. */
    predicate IsRunDate(start: Date, d: Date)
    {
      ValidDate(d) && !DateLess(d, start) && d.month in months && DayMatches(d)
    }

    /** A date-time the schedule fires at that is not before `start`. */
    predicate IsRunTime(start: DateTime, t: DateTime)
    {
      IsRunDate(start.date, t.date) && t.hour in hours && t.minute in minutes && !TimeLess(t, start)
    }

    // ---------------------------------------------------------------
    // `dates`, step by step: the loop over one month's entries, the loop
    // over the months of a year, and the loop over the years.
    // ---------------------------------------------------------------

    /** What one `itermonthdays2` entry `(dayOfMonthValue, dayOfWeekValue)` of
        `month` contributes: nothing for padding, for days before the anchor
        day in the anchor month, and for days the day rule rejects. */
    function EntryDates(anchor: Date, month: int, e: (int, int)): seq<Date>
    {
      if e.0 == 0 then []
      else if month == anchor.month && e.0 < anchor.day then []
      else if !DayRule(e.0 in dayOfMonth, DayOfWeekToCron(e.1) in dayOfWeek) then []
      else [Date(anchor.year, month, e.0)]
    }

    /** Dates yielded by the first `k` entries of `month` in the anchor's year. */
    function MonthDates(anchor: Date, month: int, k: int): seq<Date>
      requires anchor.year >= 1 && 1 <= month <= 12
      requires 0 <= k <= |MonthDays2(anchor.year, month)|
    {
      if k == 0 then []
      else MonthDates(anchor, month, k - 1) + EntryDates(anchor, month, MonthDays2(anchor.year, month)[k - 1])
    }

    /** Dates yielded by the first `i` months of `months` in the anchor's year;
        months before the anchor month are skipped. */
    function YearDates(anchor: Date, i: int): seq<Date>
      requires Valid() && anchor.year >= 1
      requires 0 <= i <= |months|
    {
      if i == 0 then []
      else if months[i - 1] < anchor.month then YearDates(anchor, i - 1)
      else YearDates(anchor, i - 1) + MonthDates(anchor, months[i - 1], |MonthDays2(anchor.year, months[i - 1])|)
    }

    /** The anchor of `dates(start)` while it walks `year`: the start date in
        the first year, 1 January afterwards. */
    function AnchorOf(start: Date, year: int): Date
    {
      if year == start.year then start else Date(year, 1, 1)
    }


    /** Position of the date `x` in the `itermonthdays2` list of its month. */
    function Slot(x: Date): int
      requires x.year >= 1 && 1 <= x.month <= 12
    {
      Weekday(Date(x.year, x.month, 1)) + x.day - 1
    }

    /** `x` is a date of `month` in the anchor's year that the month loop yields. */
    predicate InMonthRun(anchor: Date, month: int, x: Date)
    {
      && x.year == anchor.year && x.month == month && ValidDate(x)
      && (month == anchor.month ==> x.day >= anchor.day)
      && DayMatches(x)
    }

    /** The month loop yields exactly the matching days of the month from the
        anchor day on, among the entries it has visited. */
    lemma {:induction false} MonthDatesMembers(anchor: Date, month: int, k: int, x: Date)
      requires anchor.year >= 1 && 1 <= month <= 12
      requires 0 <= k <= |MonthDays2(anchor.year, month)|
      ensures x in MonthDates(anchor, month, k) <==> InMonthRun(anchor, month, x) && Slot(x) < k
      decreases k
    {
      if k > 0 {
        MonthDatesMembers(anchor, month, k - 1, x);
        EntryMembers(anchor, month, k - 1, x);
        var e := MonthDays2(anchor.year, month)[k - 1];
        assert MonthDates(anchor, month, k) == MonthDates(anchor, month, k - 1) + EntryDates(anchor, month, e);
      }
    }

    /** The `k`-th entry of the month yields `x` exactly when `x` is in the
        month's run and sits in slot `k`. */
    lemma EntryMembers(anchor: Date, month: int, k: int, x: Date)
      requires anchor.year >= 1 && 1 <= month <= 12
      requires 0 <= k < |MonthDays2(anchor.year, month)|
      ensures x in EntryDates(anchor, month, MonthDays2(anchor.year, month)[k])
        <==> InMonthRun(anchor, month, x) && Slot(x) == k
    {
      MonthDays2Entry(anchor.year, month, k);
      if InMonthRun(anchor, month, x) && Slot(x) == k {
        MonthDays2Covers(x.year, x.month, x.day);
      }
    }

    /** The month loop yields its dates in ascending order. */
    lemma {:induction false} MonthDatesAscending(anchor: Date, month: int, k: int)
      requires anchor.year >= 1 && 1 <= month <= 12
      requires 0 <= k <= |MonthDays2(anchor.year, month)|
      ensures DatesAscending(MonthDates(anchor, month, k))
      decreases k
    {
      if k > 0 {
        MonthDatesAscending(anchor, month, k - 1);
        var prev := MonthDates(anchor, month, k - 1);
        var e := MonthDays2(anchor.year, month)[k - 1];
        var last := EntryDates(anchor, month, e);
        if last != [] {
          var x := last[0];
          assert x in MonthDates(anchor, month, k);
          MonthDatesMembers(anchor, month, k, x);
          MonthDays2Entry(anchor.year, month, k - 1);
          forall i | 0 <= i < |prev|
            ensures DateLess(prev[i], x)
          {
            var p := prev[i];
            assert p in prev;
            MonthDatesMembers(anchor, month, k - 1, p);
          }
          AppendDatesAscending(prev, last);
        }
      }
    }

    /** `x` is a date of the anchor's year that the year loop yields from the
        first `i` months. */
    predicate InYearRun(anchor: Date, i: int, x: Date)
      requires 0 <= i <= |months|
    {
      x.month in months[..i] && x.month >= anchor.month && InMonthRun(anchor, x.month, x)
    }

    lemma {:induction false} YearDatesMembers(anchor: Date, i: int, x: Date)
      requires Valid() && anchor.year >= 1
      requires 0 <= i <= |months|
      ensures x in YearDates(anchor, i) <==> InYearRun(anchor, i, x)
      decreases i
    {
      if i > 0 {
        YearDatesMembers(anchor, i - 1, x);
        var m := months[i - 1];
        assert months[..i] == months[..i - 1] + [m];
        if m >= anchor.month {
          MonthDatesMembers(anchor, m, |MonthDays2(anchor.year, m)|, x);
          if InMonthRun(anchor, m, x) {
            MonthDays2Covers(x.year, x.month, x.day);
          }
        }
      }
    }

    lemma {:induction false} YearDatesAscending(anchor: Date, i: int)
      requires Valid() && anchor.year >= 1
      requires 0 <= i <= |months|
      ensures DatesAscending(YearDates(anchor, i))
      decreases i
    {
      if i > 0 {
        YearDatesAscending(anchor, i - 1);
        var m := months[i - 1];
        if m >= anchor.month {
          var prev := YearDates(anchor, i - 1);
          var n := |MonthDays2(anchor.year, m)|;
          var last := MonthDates(anchor, m, n);
          MonthDatesAscending(anchor, m, n);
          forall a, b | 0 <= a < |prev| && 0 <= b < |last|
            ensures DateLess(prev[a], last[b])
          {
            var p, q := prev[a], last[b];
            assert p in prev && q in last;
            YearDatesMembers(anchor, i - 1, p);
            MonthDatesMembers(anchor, m, n, q);
            var t :| 0 <= t < i - 1 && months[t] == p.month;
          }
          AppendDatesAscending(prev, last);
        }
      }
    }

    /** Within one year, the anchor filter of the loops is "not before the
        start date". */
    lemma AnchorFilter(start: Date, year: int, x: Date)
      requires Valid() && ValidDate(start) && year >= start.year
      requires x.year == year && ValidDate(x)
      ensures (x.month >= AnchorOf(start, year).month
               && (x.month == AnchorOf(start, year).month ==> x.day >= AnchorOf(start, year).day))
              <==> !DateLess(x, start)
    {
    }

    /** The whole of one year's run, as the year loop yields it: ascending,
        and exactly the run dates of that year from the start on. */
    lemma YearDatesCorrect(start: Date, anchor: Date)
      requires Valid() && ValidDate(start) && anchor.year >= start.year
      requires anchor == AnchorOf(start, anchor.year)
      ensures DatesAscending(YearDates(anchor, |months|))
      ensures forall x :: x in YearDates(anchor, |months|) <==> IsRunDate(start, x) && x.year == anchor.year
    {
      YearDatesAscending(anchor, |months|);
      assert months[..|months|] == months;
      forall x
        ensures x in YearDates(anchor, |months|) <==> IsRunDate(start, x) && x.year == anchor.year
      {
        YearDatesMembers(anchor, |months|, x);
        if x.year == anchor.year && ValidDate(x) {
          AnchorFilter(start, anchor.year, x);
        }
      }
    }

    /** Appending the run of `year` to the run of the years before it gives
        the run of the years up to and including `year`. */
    lemma AppendYear(start: Date, year: int, r: seq<Date>, hits: seq<Date>)
      requires DatesAscending(r) && forall x :: x in r <==> IsRunDate(start, x) && x.year < year
      requires DatesAscending(hits) && forall x :: x in hits <==> IsRunDate(start, x) && x.year == year
      ensures DatesAscending(r + hits)
      ensures forall x :: x in r + hits <==> IsRunDate(start, x) && x.year < year + 1
    {
      forall i, j | 0 <= i < |r| && 0 <= j < |hits|
        ensures DateLess(r[i], hits[j])
      {
        var p, q := r[i], hits[j];
        assert p in r && q in hits;
      }
      AppendDatesAscending(r, hits);
    }

    /** The body of the month loop of `dates`: walk the `itermonthdays2` entries
        of `month` in the anchor's year and collect the days to yield. */
    method MonthRun(anchor: Date, month: int) returns (hits: seq<Date>)
      requires anchor.year >= 1 && 1 <= month <= 12
      ensures hits == MonthDates(anchor, month, |MonthDays2(anchor.year, month)|)
    {
      var days := MonthDays2(anchor.year, month);
      hits := [];
      for k := 0 to |days|
        invariant hits == MonthDates(anchor, month, k)
      {
        var (dayOfMonthValue, dayOfWeekValue) := days[k];
        assert MonthDates(anchor, month, k + 1)
          == MonthDates(anchor, month, k) + EntryDates(anchor, month, (dayOfMonthValue, dayOfWeekValue));
        if dayOfMonthValue == 0 {
          continue;
        }
        if month == anchor.month && dayOfMonthValue < anchor.day {
          continue;
        }
        var dayOfMonthMatch := dayOfMonthValue in dayOfMonth;
        var dayOfWeekMatch := DayOfWeekToCron(dayOfWeekValue) in dayOfWeek;
        if dayOfWeekAsterisk {
          if !dayOfMonthMatch {
            continue;
          }
        } else if dayOfMonthAsterisk {
          if !dayOfWeekMatch {
            continue;
          }
        } else {
          if !dayOfMonthMatch && !dayOfWeekMatch {
            continue;
          }
        }
        hits := hits + [Date(anchor.year, month, dayOfMonthValue)];
      }
    }

    /** The body of the year loop of `dates`: walk `months`, skip those before
        the anchor month, and collect each remaining month's days
        (`YearDatesCorrect` shows this is the year's run). */
    method YearRun(anchor: Date) returns (hits: seq<Date>)
      requires Valid() && anchor.year >= 1
      ensures hits == YearDates(anchor, |months|)
    {
      hits := [];
      for i := 0 to |months|
        invariant hits == YearDates(anchor, i)
      {
        var month := months[i];
        if month < anchor.month {
          continue;
        }
        var monthHits := MonthRun(anchor, month);
        hits := hits + monthHits;
      }
    }

    /** `Crontab.dates(start)`, run until the end of `untilYear`: the dates
        it yields are ascending, and they are exactly the run dates from
        `start` on up to the end of `untilYear`. */
    method Dates(start: Date, untilYear: int) returns (r: seq<Date>)
      requires Valid() && ValidDate(start)
      ensures DatesAscending(r)
      ensures forall x :: x in r <==> IsRunDate(start, x) && x.year <= untilYear
    {
      r := [];
      var anchor := start;
      while anchor.year <= untilYear
        invariant anchor.year >= start.year
        invariant anchor.year == start.year || anchor.year <= untilYear + 1
        invariant anchor == AnchorOf(start, anchor.year)
        invariant DatesAscending(r)
        invariant forall x :: x in r <==> IsRunDate(start, x) && x.year < anchor.year
        decreases untilYear - anchor.year
      {
        var hits := YearRun(anchor);
        YearDatesCorrect(start, anchor);
        AppendYear(start, anchor.year, r, hits);
        r := r + hits;
        anchor := Date(anchor.year + 1, 1, 1);
      }
    }

    // ---------------------------------------------------------------
    // `date_times`: the hour loop and the minute loop inside each date
    // `dates` yields, with the start time filtering only the start day.
    // ---------------------------------------------------------------

    /** The minute loop of `date_times` for one `day` and `hour`: every
        listed minute, except those before `startMinute` when this is the
        start hour of the start day. */
    method MinuteRun(day: Date, hour: int, isStartHour: bool, startMinute: int) returns (hits: seq<DateTime>)
      requires Valid()
      ensures TimesAscending(hits)
      ensures forall t :: t in hits <==>
        t.date == day && t.hour == hour && t.minute in minutes && !(isStartHour && t.minute < startMinute)
    {
      hits := [];
      for j := 0 to |minutes|
        invariant TimesAscending(hits)
        invariant forall t :: t in hits <==>
          t.date == day && t.hour == hour && t.minute in minutes[..j] && !(isStartHour && t.minute < startMinute)
      {
        assert minutes[..j + 1] == minutes[..j] + [minutes[j]];
        var minute := minutes[j];
        if isStartHour && minute < startMinute {
          continue;
        }
        forall k | 0 <= k < |hits|
          ensures TimeLess(hits[k], DateTime(day, hour, minute))
        {
          var t := hits[k];
          assert t in hits;
          var m :| 0 <= m < j && minutes[m] == t.minute;
        }
        AppendTimesAscending(hits, [DateTime(day, hour, minute)]);
        hits := hits + [DateTime(day, hour, minute)];
      }
      assert minutes[..|minutes|] == minutes;
    }

    /** The hour loop of `date_times` for one `day`: the listed hours and
        minutes of that day, from the start time on when it is the start day. */
    method DayRun(start: DateTime, day: Date) returns (hits: seq<DateTime>)
      requires Valid() && !DateLess(day, start.date)
      ensures TimesAscending(hits)
      ensures forall t :: t in hits <==>
        t.date == day && t.hour in hours && t.minute in minutes && !TimeLess(t, start)
    {
      var isStartDay := day == start.date;
      hits := [];
      for j := 0 to |hours|
        invariant TimesAscending(hits)
        invariant forall t :: t in hits <==>
          t.date == day && t.hour in hours[..j] && t.minute in minutes && !TimeLess(t, start)
      {
        assert hours[..j + 1] == hours[..j] + [hours[j]];
        var hour := hours[j];
        var isStartHour := isStartDay && hour == start.hour;
        if isStartDay && hour < start.hour {
          continue;
        }
        var hourHits := MinuteRun(day, hour, isStartHour, start.minute);
        forall a, b | 0 <= a < |hits| && 0 <= b < |hourHits|
          ensures TimeLess(hits[a], hourHits[b])
        {
          var t, u := hits[a], hourHits[b];
          assert t in hits && u in hourHits;
          var m :| 0 <= m < j && hours[m] == t.hour;
        }
        AppendTimesAscending(hits, hourHits);
        hits := hits + hourHits;
      }
      assert hours[..|hours|] == hours;
    }

    /** `Crontab.date_times(start)`, run until the end of `untilYear`: the
        date-times it yields are ascending, and they are exactly the run
        times from `start` on up to the end of `untilYear`. */
    method DateTimes(start: DateTime, untilYear: int) returns (r: seq<DateTime>)
      requires Valid() && ValidDateTime(start)
      ensures TimesAscending(r)
      ensures forall t :: t in r <==> IsRunTime(start, t) && t.date.year <= untilYear
    {
      var days := Dates(start.date, untilYear);
      r := [];
      for d := 0 to |days|
        invariant TimesAscending(r)
        invariant forall t :: t in r <==>
          t.date in days[..d] && t.hour in hours && t.minute in minutes && !TimeLess(t, start)
      {
        assert days[..d + 1] == days[..d] + [days[d]];
        var day := days[d];
        assert day in days;
        var dayHits := DayRun(start, day);
        forall a, b | 0 <= a < |r| && 0 <= b < |dayHits|
          ensures TimeLess(r[a], dayHits[b])
        {
          var t, u := r[a], dayHits[b];
          assert t in r && u in dayHits;
          var e :| 0 <= e < d && days[e] == t.date;
        }
        AppendTimesAscending(r, dayHits);
        r := r + dayHits;
      }
      assert days[..|days|] == days;
    }

    /** `t` is the first run time from `start` on. */
    ghost predicate IsNextRunTime(start: DateTime, t: DateTime)
    {
      IsRunTime(start, t) && forall u :: IsRunTime(start, u) ==> !TimeLess(u, t)
    }

    /** There is at most one first run time. */
    lemma NextRunTimeUnique(start: DateTime, t: DateTime, u: DateTime)
      requires IsNextRunTime(start, t) && IsNextRunTime(start, u)
      ensures t == u
    {
      assert !TimeLess(t, u) && !TimeLess(u, t);
    }

    /** `Crontab.next`, from `start` instead of the clock: the first date-time
        of `date_times(start)`, or `None` when there is none up to the end of
        `untilYear`. */
    method Next(start: DateTime, untilYear: int) returns (o: Option<DateTime>)
      requires Valid() && ValidDateTime(start)
      ensures o.Some? ==> IsNextRunTime(start, o.value) && o.value.date.year <= untilYear
      ensures o.None? <==> forall t :: IsRunTime(start, t) ==> t.date.year > untilYear
    {
      var times := DateTimes(start, untilYear);
      if |times| == 0 {
        o := None;
      } else {
        o := Some(times[0]);
        assert times[0] in times;
        forall t | IsRunTime(start, t)
          ensures !TimeLess(t, times[0])
        {
          if t.date.year <= untilYear {
            assert t in times;
            var k :| 0 <= k < |times| && times[k] == t;
          }
        }
      }
    }
  }
}
