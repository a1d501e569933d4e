/** Concrete runs: the first date-times the project's own tests expect,
    checked against the schedule model. */
module ScheduleExamples {
  import opened Text
  import opened Ordered
  import opened Calendar
  import opened Schedule
  import opened CronParser
  import opened CronExamples

  // ---------------------------------------------------------------
  // `0 20 * * *` from 2022-03-31 23:00: the run of the 31st has passed,
  // so the next one is on the first of April.
  // ---------------------------------------------------------------

  lemma ParsesEveningFields()
    ensures ParseParts(["0", "20", "*", "*", "*"])
      == Ok(Crontab([0], [20], Range(1, 32, 1), Range(1, 13, 1), Range(0, 7, 1), true, true))
  {
    assert Decimal(0) == "0" && Decimal(20) == "20";
    StarDaysOfMonth();
    StarMonths();
    StarDaysOfWeek();
    NumbersParse(0);
    NumbersParse(20);
    ParsePartsFields(["0", "20", "*", "*", "*"]);
  }

  lemma ParsesEvening()
    ensures Parse("0 20 * * *")
      == Ok(Crontab([0], [20], Range(1, 32, 1), Range(1, 13, 1), Range(0, 7, 1), true, true))
  {
    assert Join(["0", "20", "*", "*", "*"], ' ') == "0 20 * * *";
    ParseJoin(["0", "20", "*", "*", "*"]);
    ParsesEveningFields();
  }

  lemma MonthEndNext()
    ensures Crontab([0], [20], Range(1, 32, 1), Range(1, 13, 1), Range(0, 7, 1), true, true)
      .IsNextRunTime(DateTime(Date(2022, 3, 31), 23, 0), DateTime(Date(2022, 4, 1), 20, 0))
  {
    var c := Crontab([0], [20], Range(1, 32, 1), Range(1, 13, 1), Range(0, 7, 1), true, true);
    var start, t := DateTime(Date(2022, 3, 31), 23, 0), DateTime(Date(2022, 4, 1), 20, 0);
    RangeMembers(1, 13, 1, 4);
    RangeMembers(1, 32, 1, 1);
    assert c.IsRunTime(start, t);
    forall u | c.IsRunTime(start, u)
      ensures !TimeLess(u, t)
    {
      assert u.hour == 20 && u.minute == 0;
    }
  }

  /** `crontab.next` for `0 20 * * *` at 2022-03-31 23:00 is 2022-04-01 20:00. */
  lemma MonthEnd()
    ensures Parse("0 20 * * *").Ok?
    ensures Parse("0 20 * * *").value
      .IsNextRunTime(DateTime(Date(2022, 3, 31), 23, 0), DateTime(Date(2022, 4, 1), 20, 0))
  {
    ParsesEvening();
    MonthEndNext();
  }

  // ---------------------------------------------------------------
  // `0 0 1 * *` from 2022-05-09: the first of the next month.
  // ---------------------------------------------------------------

  lemma FirstOfMonthNext()
    ensures Crontab([0], [0], [1], Range(1, 13, 1), Range(0, 7, 1), false, true)
      .IsNextRunTime(DateTime(Date(2022, 5, 9), 0, 0), DateTime(Date(2022, 6, 1), 0, 0))
  {
    var c := Crontab([0], [0], [1], Range(1, 13, 1), Range(0, 7, 1), false, true);
    var start, t := DateTime(Date(2022, 5, 9), 0, 0), DateTime(Date(2022, 6, 1), 0, 0);
    RangeMembers(1, 13, 1, 6);
    assert c.IsRunTime(start, t);
    forall u | c.IsRunTime(start, u)
      ensures !TimeLess(u, t)
    {
      assert u.date.day == 1 && u.hour == 0 && u.minute == 0;
    }
  }

  /** `crontab.next` for `0 0 1 * *` on 2022-05-09 is 2022-06-01 00:00. */
  lemma DayOfMonth()
    ensures Parse("0 0 1 * *").Ok?
    ensures Parse("0 0 1 * *").value
      .IsNextRunTime(DateTime(Date(2022, 5, 9), 0, 0), DateTime(Date(2022, 6, 1), 0, 0))
  {
    ParsesFirstOfMonth();
    FirstOfMonthNext();
  }

  // ---------------------------------------------------------------
  // `0 0 * 4 *` from 2022-12-31 23:59: April of the next year.
  // ---------------------------------------------------------------

  lemma ParsesAprilFields()
    ensures ParseParts(["0", "0", "*", "4", "*"])
      == Ok(Crontab([0], [0], Range(1, 32, 1), [4], Range(0, 7, 1), true, true))
  {
    assert Decimal(0) == "0" && Decimal(4) == "4";
    StarDaysOfMonth();
    StarDaysOfWeek();
    NumbersParse(0);
    NumbersParse(4);
    ParsePartsFields(["0", "0", "*", "4", "*"]);
  }

  lemma ParsesApril()
    ensures Parse("0 0 * 4 *") == Ok(Crontab([0], [0], Range(1, 32, 1), [4], Range(0, 7, 1), true, true))
  {
    assert Join(["0", "0", "*", "4", "*"], ' ') == "0 0 * 4 *";
    ParseJoin(["0", "0", "*", "4", "*"]);
    ParsesAprilFields();
  }

  lemma NextAprilNext()
    ensures Crontab([0], [0], Range(1, 32, 1), [4], Range(0, 7, 1), true, true)
      .IsNextRunTime(DateTime(Date(2022, 12, 31), 23, 59), DateTime(Date(2023, 4, 1), 0, 0))
  {
    var c := Crontab([0], [0], Range(1, 32, 1), [4], Range(0, 7, 1), true, true);
    var start, t := DateTime(Date(2022, 12, 31), 23, 59), DateTime(Date(2023, 4, 1), 0, 0);
    RangeMembers(1, 32, 1, 1);
    assert c.IsRunTime(start, t);
    forall u | c.IsRunTime(start, u)
      ensures !TimeLess(u, t)
    {
      assert u.date.month == 4 && u.hour == 0 && u.minute == 0;
    }
  }

  /** `crontab.next` for `0 0 * 4 *` at 2022-12-31 23:59 is 2023-04-01 00:00. */
  lemma Year()
    ensures Parse("0 0 * 4 *").Ok?
    ensures Parse("0 0 * 4 *").value
      .IsNextRunTime(DateTime(Date(2022, 12, 31), 23, 59), DateTime(Date(2023, 4, 1), 0, 0))
  {
    ParsesApril();
    NextAprilNext();
  }

  // ---------------------------------------------------------------
  // `*/10 3,6 * * 1-4` from 2022-04-01 00:00. The day-of-month field is a
  // bare `*`, so only the day-of-week field decides, and 1 April 2022 is a
  // Friday (cron weekday 5): the first run is on Monday 4 April.
  // ---------------------------------------------------------------

  /** The weekdays of 1 to 4 April 2022: Friday to Monday. */
  lemma EarlyApril2022()
    ensures Weekday(Date(2022, 4, 1)) == 4 && Weekday(Date(2022, 4, 2)) == 5
    ensures Weekday(Date(2022, 4, 3)) == 6 && Weekday(Date(2022, 4, 4)) == 0
  {
    assert DaysBeforeYear(2022) == 738155;
    assert DaysBeforeMonth(2022, 4) == 90;
  }

  lemma ParsesMondayToThursdayFields()
    ensures ParseParts(["*/10", "3,6", "*", "*", "1-4"])
      == Ok(Crontab(Range(0, 60, 10), [3, 6], Range(1, 32, 1), Range(1, 13, 1), Range(1, 5, 1), true, false))
  {
    StarDaysOfMonth();
    StarMonths();
    EveryTenMinutes();
    TensUpTo60();
    ThreeAndSix();
    MondayToThursday();
    ParsePartsFields(["*/10", "3,6", "*", "*", "1-4"]);
  }

  lemma ThreeAndSix()
    ensures ExpressionToList("3,6", 23, 0, 1) == Ok([3, 6])
  {
    assert Decimal(3) == "3" && Decimal(6) == "6";
    assert "3,6" == "3" + [','] + "6";
    assert ',' !in "3" && ',' !in "6";
    assert [3] + [6] == [3, 6];
    SortedSetAscending([3, 6]);
    NumbersParse(3);
    NumbersParse(6);
    CommaOfTwo("3", "6", [3], [6], 23, 0, 1);
  }

  lemma MondayToThursday()
    ensures ExpressionToList("1-4", 6, 0, 1) == Ok(Range(1, 5, 1))
  {
    assert Decimal(1) + "-" + Decimal(4) == "1-4";
    RangeValues(1, 4, 6, 0, 1);
  }

  lemma ParsesMondayToThursday()
    ensures Parse("*/10 3,6 * * 1-4")
      == Ok(Crontab(Range(0, 60, 10), [3, 6], Range(1, 32, 1), Range(1, 13, 1), Range(1, 5, 1), true, false))
  {
    assert Join(["*/10", "3,6", "*", "*", "1-4"], ' ') == "*/10 3,6 * * 1-4";
    ParseJoin(["*/10", "3,6", "*", "*", "1-4"]);
    ParsesMondayToThursdayFields();
  }

  lemma MondayToThursdayNext()
    ensures Crontab(Range(0, 60, 10), [3, 6], Range(1, 32, 1), Range(1, 13, 1), Range(1, 5, 1), true, false)
      .IsNextRunTime(DateTime(Date(2022, 4, 1), 0, 0), DateTime(Date(2022, 4, 4), 3, 0))
  {
    var c := Crontab(Range(0, 60, 10), [3, 6], Range(1, 32, 1), Range(1, 13, 1), Range(1, 5, 1), true, false);
    var start, t := DateTime(Date(2022, 4, 1), 0, 0), DateTime(Date(2022, 4, 4), 3, 0);
    EarlyApril2022();
    RangeMembers(1, 13, 1, 4);
    RangeMembers(0, 60, 10, 0);
    RangeMembers(1, 5, 1, 1);
    assert c.IsRunTime(start, t);
    forall u | c.IsRunTime(start, u)
      ensures !TimeLess(u, t)
    {
      if DateLess(u.date, t.date) {
        assert u.date == Date(2022, 4, 1) || u.date == Date(2022, 4, 2) || u.date == Date(2022, 4, 3);
        RangeMembers(1, 5, 1, 5);
        RangeMembers(1, 5, 1, 6);
        RangeMembers(1, 5, 1, 0);
        assert false;
      }
    }
  }

  // `crontab.next` for `*/10 3,6 * * 1-4` on 2022-04-01 is Monday
  // 2022-04-04 03:00, not 2022-04-01 03:00.
  lemma MondayToThursdayFromFriday()
    ensures Parse("*/10 3,6 * * 1-4").Ok?
    ensures Parse("*/10 3,6 * * 1-4").value
      .IsNextRunTime(DateTime(Date(2022, 4, 1), 0, 0), DateTime(Date(2022, 4, 4), 3, 0))
    ensures !Parse("*/10 3,6 * * 1-4").value
      .IsNextRunTime(DateTime(Date(2022, 4, 1), 0, 0), DateTime(Date(2022, 4, 1), 3, 0))
  {
    ParsesMondayToThursday();
    MondayToThursdayNext();
    var c := Parse("*/10 3,6 * * 1-4").value;
    if c.IsNextRunTime(DateTime(Date(2022, 4, 1), 0, 0), DateTime(Date(2022, 4, 1), 3, 0)) {
      c.NextRunTimeUnique(DateTime(Date(2022, 4, 1), 0, 0),
        DateTime(Date(2022, 4, 1), 3, 0), DateTime(Date(2022, 4, 4), 3, 0));
    }
  }

  // ---------------------------------------------------------------
  // `15 3 * * *` from 2022-03-30 00:00: one run a day at 03:15, starting
  // on the start day.
  // ---------------------------------------------------------------

  lemma ParsesQuarterPastThreeFields()
    ensures ParseParts(["15", "3", "*", "*", "*"])
      == Ok(Crontab([15], [3], Range(1, 32, 1), Range(1, 13, 1), Range(0, 7, 1), true, true))
  {
    assert Decimal(15) == "15" && Decimal(3) == "3";
    StarDaysOfMonth();
    StarMonths();
    StarDaysOfWeek();
    NumbersParse(15);
    NumbersParse(3);
    ParsePartsFields(["15", "3", "*", "*", "*"]);
  }

  lemma ParsesQuarterPastThree()
    ensures Parse("15 3 * * *")
      == Ok(Crontab([15], [3], Range(1, 32, 1), Range(1, 13, 1), Range(0, 7, 1), true, true))
  {
    assert Join(["15", "3", "*", "*", "*"], ' ') == "15 3 * * *";
    ParseJoin(["15", "3", "*", "*", "*"]);
    ParsesQuarterPastThreeFields();
  }

  /** The run times of `15 3 * * *` from 2022-03-30 00:00 up to
      2022-04-02 03:15 are 03:15 on each of those four days. */
  lemma StartRunsUpTo(t: DateTime)
    ensures Crontab([15], [3], Range(1, 32, 1), Range(1, 13, 1), Range(0, 7, 1), true, true)
        .IsRunTime(DateTime(Date(2022, 3, 30), 0, 0), t)
        && !TimeLess(DateTime(Date(2022, 4, 2), 3, 15), t)
      <==> t in [DateTime(Date(2022, 3, 30), 3, 15), DateTime(Date(2022, 3, 31), 3, 15),
                 DateTime(Date(2022, 4, 1), 3, 15), DateTime(Date(2022, 4, 2), 3, 15)]
  {
    var c := Crontab([15], [3], Range(1, 32, 1), Range(1, 13, 1), Range(0, 7, 1), true, true);
    var start := DateTime(Date(2022, 3, 30), 0, 0);
    RangeMembers(1, 13, 1, 3);
    RangeMembers(1, 13, 1, 4);
    RangeMembers(1, 32, 1, 1);
    RangeMembers(1, 32, 1, 2);
    RangeMembers(1, 32, 1, 30);
    RangeMembers(1, 32, 1, 31);
    if c.IsRunTime(start, t) && !TimeLess(DateTime(Date(2022, 4, 2), 3, 15), t) {
      assert t.hour == 3 && t.minute == 15;
      assert t.date == Date(2022, 3, 30) || t.date == Date(2022, 3, 31)
          || t.date == Date(2022, 4, 1) || t.date == Date(2022, 4, 2);
    }
  }

  lemma StartFourAscending()
    ensures TimesAscending([DateTime(Date(2022, 3, 30), 3, 15), DateTime(Date(2022, 3, 31), 3, 15),
                            DateTime(Date(2022, 4, 1), 3, 15), DateTime(Date(2022, 4, 2), 3, 15)])
  {
  }

  /** Any list meeting the contract of `date_times` from 2022-03-30 00:00 for
      `15 3 * * *` (here up to the end of 2022) starts with 03:15 on
      30 March, 31 March, 1 April and 2 April. */
  lemma StartFirstFour(r: seq<DateTime>)
    requires TimesAscending(r)
    requires forall t :: t in r <==>
      Crontab([15], [3], Range(1, 32, 1), Range(1, 13, 1), Range(0, 7, 1), true, true)
        .IsRunTime(DateTime(Date(2022, 3, 30), 0, 0), t) && t.date.year <= 2022
    ensures |r| >= 4
    ensures r[..4] == [DateTime(Date(2022, 3, 30), 3, 15), DateTime(Date(2022, 3, 31), 3, 15),
                       DateTime(Date(2022, 4, 1), 3, 15), DateTime(Date(2022, 4, 2), 3, 15)]
  {
    var l := [DateTime(Date(2022, 3, 30), 3, 15), DateTime(Date(2022, 3, 31), 3, 15),
              DateTime(Date(2022, 4, 1), 3, 15), DateTime(Date(2022, 4, 2), 3, 15)];
    forall t
      ensures t in l <==> t in r && !TimeLess(l[3], t)
    {
      StartRunsUpTo(t);
    }
    StartFourAscending();
    TimesPrefix(r, l, l[3]);
  }

  // ---------------------------------------------------------------
  // `*/5 * * * *` from 2022-04-01 10:30: every fifth minute from the start
  // minute on, across the hour boundary.
  // ---------------------------------------------------------------

  lemma EveryFiveMinutes()
    ensures ExpressionToList("*/5", 59, 0, 1) == Ok(Range(0, 60, 5))
  {
    assert "*/" + Decimal(5) == "*/5";
    StarStep(5, 59, 0, 1);
  }

  lemma ParsesEveryFiveFields()
    ensures ParseParts(["*/5", "*", "*", "*", "*"])
      == Ok(Crontab(Range(0, 60, 5), Range(0, 24, 1), Range(1, 32, 1), Range(1, 13, 1), Range(0, 7, 1), true, true))
  {
    EveryFiveMinutes();
    StarHours();
    StarDaysOfMonth();
    StarMonths();
    StarDaysOfWeek();
    ParsePartsFields(["*/5", "*", "*", "*", "*"]);
  }

  lemma ParsesEveryFive()
    ensures Parse("*/5 * * * *")
      == Ok(Crontab(Range(0, 60, 5), Range(0, 24, 1), Range(1, 32, 1), Range(1, 13, 1), Range(0, 7, 1), true, true))
  {
    assert Join(["*/5", "*", "*", "*", "*"], ' ') == "*/5 * * * *";
    ParseJoin(["*/5", "*", "*", "*", "*"]);
    ParsesEveryFiveFields();
  }

  /** The twelve date-times `test_minutes` expects first: 10:30, 10:35, ...,
      10:55, then 11:00, 11:05, ..., 11:25 on 2022-04-01. */
  function FirstTwelve(): (l: seq<DateTime>)
    ensures |l| == 12
  {
    seq(12, i => if i < 6 then DateTime(Date(2022, 4, 1), 10, 30 + 5 * i) else DateTime(Date(2022, 4, 1), 11, 5 * (i - 6)))
  }

  // A run time of `*/5 * * * *` falls on a multiple of five minutes.
  lemma FiveMinuteMark(start: DateTime, t: DateTime)
    requires Crontab(Range(0, 60, 5), Range(0, 24, 1), Range(1, 32, 1), Range(1, 13, 1), Range(0, 7, 1), true, true)
      .IsRunTime(start, t)
    ensures 0 <= t.minute < 60 && t.minute == 5 * (t.minute / 5)
  {
    RangeMembers(0, 60, 5, t.minute);
  }

  // Every date-time of 2022-04-01 at a fifth minute is a run time of
  // `*/5 * * * *` from 10:30 onwards.
  lemma FiveMinuteRun(q: int, h: int)
    requires 0 <= q < 12 && 10 <= h <= 23 && (h == 10 ==> q >= 6)
    ensures Crontab(Range(0, 60, 5), Range(0, 24, 1), Range(1, 32, 1), Range(1, 13, 1), Range(0, 7, 1), true, true)
      .IsRunTime(DateTime(Date(2022, 4, 1), 10, 30), DateTime(Date(2022, 4, 1), h, 5 * q))
  {
    RangeMembers(0, 60, 5, 5 * q);
    RangeMembers(0, 24, 1, h);
    RangeMembers(1, 13, 1, 4);
    RangeMembers(1, 32, 1, 1);
    assert (5 * q - 0) % 5 == 0 by {
      Ordered.ModUnique(5 * q, 5, q, 0);
    }
  }

  // The run times of `*/5 * * * *` from 2022-04-01 10:30 up to 11:25.
  lemma TwelveRunsUpTo(t: DateTime)
    ensures Crontab(Range(0, 60, 5), Range(0, 24, 1), Range(1, 32, 1), Range(1, 13, 1), Range(0, 7, 1), true, true)
        .IsRunTime(DateTime(Date(2022, 4, 1), 10, 30), t)
        && !TimeLess(DateTime(Date(2022, 4, 1), 11, 25), t)
      <==> t in FirstTwelve()
  {
    var c := Crontab(Range(0, 60, 5), Range(0, 24, 1), Range(1, 32, 1), Range(1, 13, 1), Range(0, 7, 1), true, true);
    var start := DateTime(Date(2022, 4, 1), 10, 30);
    var l := FirstTwelve();
    if c.IsRunTime(start, t) && !TimeLess(DateTime(Date(2022, 4, 1), 11, 25), t) {
      FiveMinuteMark(start, t);
      var q := t.minute / 5;
      assert t.date == Date(2022, 4, 1);
      assert t.hour == 10 || t.hour == 11;
      assert t == DateTime(Date(2022, 4, 1), t.hour, 5 * q);
      if t.hour == 10 {
        assert t == l[q - 6];
      } else {
        assert t == l[q + 6];
      }
    }
    if t in l {
      var i :| 0 <= i < |l| && l[i] == t;
      if i < 6 {
        assert t == DateTime(Date(2022, 4, 1), 10, 5 * (i + 6));
        FiveMinuteRun(i + 6, 10);
      } else {
        FiveMinuteRun(i - 6, 11);
      }
    }
  }

  lemma TwelveAscending()
    ensures TimesAscending(FirstTwelve())
  {
  }

  // Any list meeting the contract of `date_times` from 2022-04-01 10:30 for
  // `*/5 * * * *` (here up to the end of 2022) starts with the twelve
  // date-times from 10:30 to 11:25.
  lemma MinutesFirstTwelve(r: seq<DateTime>)
    requires TimesAscending(r)
    requires forall t :: t in r <==>
      Crontab(Range(0, 60, 5), Range(0, 24, 1), Range(1, 32, 1), Range(1, 13, 1), Range(0, 7, 1), true, true)
        .IsRunTime(DateTime(Date(2022, 4, 1), 10, 30), t) && t.date.year <= 2022
    ensures |r| >= 12 && r[..12] == FirstTwelve()
  {
    var l := FirstTwelve();
    forall t
      ensures t in l <==> t in r && !TimeLess(l[11], t)
    {
      TwelveRunsUpTo(t);
    }
    TwelveAscending();
    TimesPrefix(r, l, l[11]);
  }

  // On the next day the minutes skipped on 2022-04-01 are not skipped: from
  // 2022-04-02 10:00 the run starts at 10:00.

  /** The twelve date-times `test_minutes` expects from 2022-04-02 10:00:
      10:00, 10:05, ..., 10:55. */
  function NextDayTwelve(): (l: seq<DateTime>)
    ensures |l| == 12
  {
    seq(12, i => DateTime(Date(2022, 4, 2), 10, 5 * i))
  }

  // Every fifth minute of 10 o'clock on 2022-04-02 is a run time of
  // `*/5 * * * *` from 10:00 that day.
  lemma NextDayFiveMinuteRun(q: int)
    requires 0 <= q < 12
    ensures Crontab(Range(0, 60, 5), Range(0, 24, 1), Range(1, 32, 1), Range(1, 13, 1), Range(0, 7, 1), true, true)
      .IsRunTime(DateTime(Date(2022, 4, 2), 10, 0), DateTime(Date(2022, 4, 2), 10, 5 * q))
  {
    RangeMembers(0, 60, 5, 5 * q);
    RangeMembers(0, 24, 1, 10);
    RangeMembers(1, 13, 1, 4);
    RangeMembers(1, 32, 1, 2);
    assert (5 * q - 0) % 5 == 0 by {
      Ordered.ModUnique(5 * q, 5, q, 0);
    }
  }

  // The run times of `*/5 * * * *` from 2022-04-02 10:00 up to 10:55.
  lemma NextDayRunsUpTo(t: DateTime)
    ensures Crontab(Range(0, 60, 5), Range(0, 24, 1), Range(1, 32, 1), Range(1, 13, 1), Range(0, 7, 1), true, true)
        .IsRunTime(DateTime(Date(2022, 4, 2), 10, 0), t)
        && !TimeLess(DateTime(Date(2022, 4, 2), 10, 55), t)
      <==> t in NextDayTwelve()
  {
    var c := Crontab(Range(0, 60, 5), Range(0, 24, 1), Range(1, 32, 1), Range(1, 13, 1), Range(0, 7, 1), true, true);
    var start := DateTime(Date(2022, 4, 2), 10, 0);
    var l := NextDayTwelve();
    if c.IsRunTime(start, t) && !TimeLess(DateTime(Date(2022, 4, 2), 10, 55), t) {
      FiveMinuteMark(start, t);
      var q := t.minute / 5;
      assert t.date == Date(2022, 4, 2) && t.hour == 10;
      assert 0 <= q < 12;
      assert t == l[q];
    }
    if t in l {
      var i :| 0 <= i < |l| && l[i] == t;
      assert t == DateTime(Date(2022, 4, 2), 10, 5 * i);
      NextDayFiveMinuteRun(i);
    }
  }

  lemma NextDayAscending()
    ensures TimesAscending(NextDayTwelve())
  {
  }

  // Any list meeting the contract of `date_times` from 2022-04-02 10:00 for
  // `*/5 * * * *` (here up to the end of 2022) starts with the twelve
  // date-times from 10:00 to 10:55.
  lemma NextDayFirstTwelve(r: seq<DateTime>)
    requires TimesAscending(r)
    requires forall t :: t in r <==>
      Crontab(Range(0, 60, 5), Range(0, 24, 1), Range(1, 32, 1), Range(1, 13, 1), Range(0, 7, 1), true, true)
        .IsRunTime(DateTime(Date(2022, 4, 2), 10, 0), t) && t.date.year <= 2022
    ensures |r| >= 12 && r[..12] == NextDayTwelve()
  {
    var l := NextDayTwelve();
    forall t
      ensures t in l <==> t in r && !TimeLess(l[11], t)
    {
      NextDayRunsUpTo(t);
    }
    NextDayAscending();
    TimesPrefix(r, l, l[11]);
  }

  // ---------------------------------------------------------------
  // The day rule in January 2022, one schedule per branch: day-of-month
  // only, day-of-week only, and either one.
  // ---------------------------------------------------------------

  /** In January 2022 the cron weekday of day `day` is `(day + 5) % 7`:
      the 1st was a Saturday (cron 6). */
  lemma JanuaryWeekday(day: int)
    requires 1 <= day <= 31
    ensures DayOfWeekToCron(Weekday(Date(2022, 1, day))) == (day + 5) % 7
  {
    NewYear2022();
    WeekdayInMonth(2022, 1, day);
    ModSevenShift(Weekday(Date(2022, 1, day)), 1);
    ModSevenShift(5 + day - 1, 1);
  }

  /** `0 0 3 * *` (day-of-week `*`): the 3rd of January only. */
  lemma ThirdOfJanuary(day: int)
    requires 1 <= day <= 31
    ensures Crontab([0], [0], [3], Range(1, 13, 1), Range(0, 7, 1), false, true)
      .IsRunDate(Date(2022, 1, 1), Date(2022, 1, day))
      <==> day == 3
  {
    RangeMembers(1, 13, 1, 1);
  }

  /** `0 0 * * 5` (day-of-month `*`): the Fridays of January. */
  lemma FridaysOfJanuary(day: int)
    requires 1 <= day <= 31
    ensures Crontab([0], [0], Range(1, 32, 1), Range(1, 13, 1), [5], true, false)
      .IsRunDate(Date(2022, 1, 1), Date(2022, 1, day))
      <==> day in {7, 14, 21, 28}
  {
    RangeMembers(1, 13, 1, 1);
    JanuaryWeekday(day);
  }

  /** `0 0 3 * 5` (neither `*`): the 3rd and the Fridays of January. */
  lemma ThirdOrFridayOfJanuary(day: int)
    requires 1 <= day <= 31
    ensures Crontab([0], [0], [3], Range(1, 13, 1), [5], false, false)
      .IsRunDate(Date(2022, 1, 1), Date(2022, 1, day))
      <==> day in {3, 7, 14, 21, 28}
  {
    RangeMembers(1, 13, 1, 1);
    JanuaryWeekday(day);
  }
}
