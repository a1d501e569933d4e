# crontabula in Dafny

A model of the core of `crontabula`, a small Python library that parses
five-field cron expressions and walks the calendar to list the times a
schedule fires.

The model covers three parts of the core:

- **`parse`.** It expands the `@` macros (`MACROS`), splits the expression
  on single spaces, and parses each field with the recursive field parser
  `_expression_to_list`. That parser handles comma lists, `*`, numbers,
  `lhs/step` and `a-b`. The integer reader `_try_int` checks each field's
  bounds.
- **The frozen `Crontab` record.** It holds the five value lists and two
  flags that say whether the day-of-month and day-of-week fields were a
  bare `*`.
- **The `Crontab` generators.** `dates` walks `calendar.itermonthdays2`,
  month by month and year by year, and applies the POSIX day rule.
  `date_times` walks the hours and minutes of each of those dates from the
  start time on. `next` takes the first date-time.

Modules:

- `Text` (`text.dfy`): `str.split`, its inverse `Join`, and the digit
  strings that `str.isnumeric`, `int` and `str` deal with.
- `Ordered` (`ordered.dfy`): Python's `range(lo, hi, step)` and
  `sorted(set(...))` on integer lists.
- `Calendar` (`calendar.dfy`): the proleptic Gregorian calendar that
  `datetime` and `calendar` compute. It has leap years, month lengths,
  ordinals, weekdays with 0 = Monday, and `itermonthdays2`, which includes
  its zero padding to whole weeks.
- `Schedule` (`schedule.dfy`): `_day_of_week_to_cron`, the `Crontab`
  datatype, and the generators as loop methods. The loops keep the
  source's shape: years, then months, then `itermonthdays2` entries for
  `dates`; days, then hours, then minutes for `date_times`.
- `CronParser` (`parser.dfy`): `MACROS`, `_try_int`,
  `_expression_to_list` and `parse`. Errors are a `Result` type.
- `CronExamples` and `ScheduleExamples` (`examples_cron.dfy`,
  `examples_schedule.dfy`): the inputs and expected outputs of
  `tests/test_parse.py`, proved for the model.

A Python generator never ends. Each generator method therefore takes a
year horizon `untilYear` and returns the part of the stream up to the end
of that year. Its contract says that this part is strictly ascending and
holds exactly the dates (or date-times) the schedule fires on from the
start on. The stream order is fixed by the ascending order:
`Schedule.TimesPrefix` shows that any ascending list with the right
members starts with the expected values. This is how the `islice`
expectations of the tests are proved.

`datetime.datetime.now()` and `datetime.date.today()` are not modelled as
clocks. The start is always a parameter, the way the tests freeze the
clock.

## Code and tests

The code and one of the tests disagree, and the model follows the code.

`test_next` (tests/test_parse.py:40-46) expects `*/10 3,6 * * 1-4` to fire
first at 2022-04-01 03:00 when the clock stands at 2022-04-01. That day was
a Friday, which is cron weekday 5. The day-of-month field is `*`, so
`dates` lets the day-of-week field alone decide (crontabula/__init__.py:115-117).
Friday is not in `1-4`. `ScheduleExamples.MondayToThursdayFromFriday`
proves that the first run is Monday 2022-04-04 03:00, and that
2022-04-01 03:00 is not the first run.

## Model

| member | source | states |
|---|---|---|
| CronParser.ExpandMacro | crontabula/__init__.py:134 | a name listed in `MACROS` becomes its expansion; any other expression is kept unchanged |
| CronParser.MacroShapes | crontabula/__init__.py:11-19 | no macro name contains a space, and no expansion is itself a macro name |
| CronParser.MacroExpansion | crontabula/__init__.py:134 | parsing a macro name gives the same result as parsing its expansion |
| CronParser.ParseMacro | crontabula/__init__.py:134-140 | a macro whose expansion joins five space-free fields parses as those five fields |
| CronParser.TryInt | crontabula/__init__.py:202-213 | a value `_try_int` returns is the value `int` reads from an integer literal, at least 0 and within `[min_value, max_value]`; a string `int` refuses gives the "not an integer" error, and any other failure is the bounds error |
| CronParser.TryIntAccepts | crontabula/__init__.py:202-213 | `_try_int` succeeds exactly on integer literals whose value is at least 0 and within `[min_value, max_value]`; any value it returns lies in those bounds |
| CronParser.TryIntDecimal | crontabula/__init__.py:202-213 | `_try_int` reads back the decimal spelling of `n`: it gives `n` inside the bounds and the bounds error (with `n` and both bounds) otherwise |
| CronParser.TryIntNegative | crontabula/__init__.py:204-211 | `int` accepts `-n`, and the bounds check then refuses the negative value |
| CronParser.ExpressionToList | crontabula/__init__.py:159-199 | every list the field parser returns is strictly ascending and lies inside the field's bounds; its errors are never the field-count error |
| CronParser.Items | crontabula/__init__.py:166-173 | a comma list has one result per comma-separated part, and each is that part parsed with the same bounds and step |
| CronParser.Collect | crontabula/__init__.py:167-173 | the results succeed together exactly when every part does; the collected values are the union of the parts' values; otherwise the error is that of the first failing part |
| CronParser.CollectSorted | crontabula/__init__.py:166-174 | collecting and then sorting keeps the success condition, the members and the first error |
| CronParser.CommaUnion | crontabula/__init__.py:166-174 | an expression with a comma succeeds exactly when every part does; its values are the union of the parts' values, ascending and without duplicates; otherwise its error is that of the first failing part |
| CronParser.WithinSortedSet | crontabula/__init__.py:174 | `sorted(set(...))` keeps every value inside the bounds the parts respected |
| CronParser.StarValues | crontabula/__init__.py:175-177 | `*` selects exactly the values in `[min_value, max_value]` whose distance from `min_value` is a multiple of the step; step 0 is the `range` error |
| CronParser.NumberValue | crontabula/__init__.py:178-180 | a decimal number selects just itself, whatever the step, when it is inside the bounds, and gives the bounds error otherwise |
| CronParser.StepBranch | crontabula/__init__.py:181-186 | `lhs/rhs` reads `rhs` with `_try_int` and parses `lhs` with that value as its step, or fails with `rhs`'s error |
| CronParser.StarStep | crontabula/__init__.py:181-186 | `*/n` selects what `*` selects with step `n` |
| CronParser.StarNegativeStep | crontabula/__init__.py:181-186 | `*/-n` is refused by the bounds check on the step |
| CronParser.RangeBranch | crontabula/__init__.py:187-197 | `a-b` reads both ends with `_try_int` (start first) and gives `range(a, b + 1, step)`; step 0 is the `range` error |
| CronParser.RangeValues | crontabula/__init__.py:187-197 | `a-b` with both ends inside the bounds selects `a`, `a + step`, ... up to `b`; nothing checks `a <= b`, so the list is then empty |
| CronParser.RangeStep | crontabula/__init__.py:181-197 | `a-b/n` with `n` inside the bounds selects what `a-b` selects with step `n`, whatever `a` and `b` are |
| CronParser.NoAlternative | crontabula/__init__.py:199 | an expression that has no comma, is not `*`, is not numeric and holds neither `/` nor `-` is refused as invalid syntax |
| CronParser.StepUnpack | crontabula/__init__.py:181-184 | an expression with `/` (and no comma) that does not split into exactly two pieces at `/` fails the tuple unpacking |
| CronParser.RangeUnpack | crontabula/__init__.py:187-190 | an expression with `-` (and no comma or `/`) that does not split into exactly two pieces at `-` fails the tuple unpacking |
| CronParser.Parse | crontabula/__init__.py:126-156 | every `Crontab` that `parse` returns has all five lists strictly ascending and inside their field bounds |
| CronParser.ParseParts | crontabula/__init__.py:140-156 | the five fields build a `Crontab` meeting `Valid`; errors from the fields are never the field-count error |
| CronParser.ParsePartsFields | crontabula/__init__.py:140-156 | the result succeeds exactly when all five fields parse (bounds 0-59, 0-23, 1-31, 1-12, 0-6); it then holds those five lists and the two `*` flags; otherwise it is the error of the first failing field |
| CronParser.ParseFieldCount | crontabula/__init__.py:136-138 | `parse` fails with the field-count error exactly when the expanded expression does not split into five parts on single spaces |
| CronParser.ParseJoin | crontabula/__init__.py:134-140 | five space-free fields joined by single spaces are parsed as exactly those five fields |
| Text.Split | crontabula/__init__.py:136 | `str.split(sep)` gives at least one part, and no part contains the separator; each part is shorter than the input when the separator occurs, and the input is the only part when it does not |
| Text.JoinSplit | crontabula/__init__.py:136 | joining the parts of a split with the separator gives back the original string |
| Text.SplitJoin | crontabula/__init__.py:136 | splitting a join of separator-free parts gives back those parts |
| Text.NumericIntValue | crontabula/__init__.py:178-180 | a string that `isnumeric` accepts is an `int` literal, and `int` reads it as its decimal digit value |
| Text.DecimalValue | crontabula/__init__.py:204 | `int(str(n)) == n` for every `n >= 0` |
| Text.ValueDecimal | crontabula/__init__.py:204 | `str(int(s)) == s` for every digit string without a leading zero |
| Text.IsNumeric | crontabula/__init__.py:178 | numeric text holds no `*`, comma, `/`, `-` or space, so no later branch of `_expression_to_list` and no field split ever sees a number |
| Text.IntValue | crontabula/__init__.py:204 | `int` gives a negative value only for a leading `-` sign with a non-zero digit string after it, and a value of at least 0 otherwise |
| Text.SplitThree | crontabula/__init__.py:184 | three separator-free pieces joined by the separator split back into those three pieces |
| Ordered.Range | crontabula/__init__.py:177 | `range(lo, hi, step)` has length `RangeLength` and its `k`-th element is `lo + k * step` |
| Ordered.RangeShape | crontabula/__init__.py:191-197 | a range is strictly ascending, lies in `[lo, hi - 1]`, and starts at `lo` when it is not empty |
| Ordered.RangeMembers | crontabula/__init__.py:175-197 | `x` is in `range(lo, hi, step)` exactly when `lo <= x < hi` and `x - lo` is a multiple of `step` |
| Ordered.Insert | crontabula/__init__.py:174 | inserting into a strictly ascending list keeps it strictly ascending and adds exactly the one value |
| Ordered.SortedSet | crontabula/__init__.py:174 | `sorted(set(s))` is strictly ascending and has exactly the members of `s` |
| Ordered.AscendingUnique | crontabula/__init__.py:174 | two strictly ascending lists with the same members are equal, so `sorted(set(s))` is determined by the members of `s` |
| Ordered.SortedSetAscending | crontabula/__init__.py:174 | `sorted(set(s))` leaves a strictly ascending list unchanged |
| Calendar.DaysInMonth | crontabula/__init__.py:98 | a month has 28 to 31 days, and it has 29 exactly for February of a leap year |
| Calendar.YearLength | crontabula/__init__.py:98 | a year has 365 days, or 366 when it is a leap year |
| Calendar.MonthsFillYear | crontabula/__init__.py:98 | the twelve months together fill the year |
| Calendar.NextDaySucceeds | crontabula/__init__.py:98 | the following day is later than `d`, and no valid date lies strictly between the two |
| Calendar.NextDayOrdinal | crontabula/__init__.py:98 | the following day has the next ordinal and the next weekday, modulo 7; together with `NewYear2022` this pins down the weekdays that `itermonthdays2` reports |
| Calendar.WeekdayInMonth | crontabula/__init__.py:98 | the weekday of day `n` of a month is that of the 1st plus `n - 1`, modulo 7 |
| Calendar.Weekday | crontabula/__init__.py:98-110 | the weekday `itermonthdays2` pairs with a date is in 0..6, with 0 = Monday |
| Calendar.MonthDays2 | crontabula/__init__.py:98 | `itermonthdays2` covers whole weeks: its length is a multiple of 7, at least `weekday(1st) + days in month` and less than that plus 7 |
| Calendar.MonthDays2Entry | crontabula/__init__.py:98-102 | every `itermonthdays2` entry is padding (day 0) or a real day of the month at position `weekday(1st) + day - 1`, carrying its own weekday |
| Calendar.MonthDays2Covers | crontabula/__init__.py:98-102 | every day of the month occurs in `itermonthdays2` at position `weekday(1st) + day - 1` |
| Calendar.NewYear2022 | crontabula/__init__.py:98 | 1 January 2022 was a Saturday (weekday 5) |
| Schedule.DayOfWeekToCron | crontabula/__init__.py:216-218 | the cron weekday is in 0..6, Python's Sunday (6) becomes 0, and `CronToDayOfWeek` undoes the conversion on 0..6 |
| Schedule.DayOfWeekToCronBijective | crontabula/__init__.py:216-218 | every cron weekday 0..6 is the conversion of a Python weekday, namely the one `CronToDayOfWeek` gives, so the conversion is onto 0..6 |
| Schedule.Crontab.DayRule | crontabula/__init__.py:107-120 | a day passes the day rule only when at least one of its two fields matches it, and always passes when both do |
| Schedule.Crontab.DayMatches | crontabula/__init__.py:107-120 | a date passes only when its day of month or its cron weekday is listed; with neither day field `*`, either one being listed is enough |
| Schedule.TimesPrefix | crontabula/__init__.py:45-80 | an ascending stream starts with the ascending list `l` when the members of `l` are exactly the stream's members up to the last element of `l` |
| Schedule.Crontab.EntryMembers | crontabula/__init__.py:98-122 | one `itermonthdays2` entry yields `x` exactly when `x` sits in that slot and the month loop keeps it |
| Schedule.Crontab.MonthDatesMembers | crontabula/__init__.py:98-122 | the month loop yields exactly the days of the month from the anchor day on that pass the day rule |
| Schedule.Crontab.MonthDatesAscending | crontabula/__init__.py:98-122 | the month loop yields its dates in ascending order |
| Schedule.Crontab.YearDatesMembers | crontabula/__init__.py:94-122 | the year loop yields exactly the matching dates in the listed months, from the anchor month on |
| Schedule.Crontab.YearDatesAscending | crontabula/__init__.py:94-122 | the year loop yields its dates in ascending order |
| Schedule.Crontab.AnchorFilter | crontabula/__init__.py:95-105 | in each year, skipping months before the anchor month and days before the anchor day means "not before the start date" |
| Schedule.Crontab.YearDatesCorrect | crontabula/__init__.py:94-122 | one pass of the year loop yields the run dates of that year from the start on, ascending |
| Schedule.Crontab.AppendYear | crontabula/__init__.py:93-123 | appending one year's run to the run of the earlier years gives the run up to the end of that year, still ascending |
| Schedule.Crontab.MonthRun | crontabula/__init__.py:98-122 | the month loop over `itermonthdays2` (padding, anchor day, day rule) computes the month's run; `MonthDatesMembers` and `MonthDatesAscending` state what that run is |
| Schedule.Crontab.YearRun | crontabula/__init__.py:94-122 | the loop over `months` computes the year's run; `YearDatesCorrect` states what that run is |
| Schedule.Crontab.Dates | crontabula/__init__.py:82-123 | `dates(start)` up to the end of `untilYear` is strictly ascending and holds exactly the valid dates from `start` on, in a listed month, that pass the day rule |
| Schedule.Crontab.MinuteRun | crontabula/__init__.py:70-80 | the minute loop yields the listed minutes of one hour in ascending order, dropping those before the start minute in the start hour of the start day |
| Schedule.Crontab.DayRun | crontabula/__init__.py:61-80 | the hour loop yields the listed hours and minutes of one day in ascending order, from the start time on when it is the start day |
| Schedule.Crontab.DateTimes | crontabula/__init__.py:47-80 | `date_times(start)` up to the end of `untilYear` is strictly ascending and holds exactly the run times from `start` on |
| Schedule.Crontab.NextRunTimeUnique | crontabula/__init__.py:36-45 | there is at most one first run time |
| Schedule.Crontab.Next | crontabula/__init__.py:36-45 | `next` is the first run time from `start` on; it is `None` exactly when no run time falls up to the end of `untilYear` |
| CronExamples.EveryTenMinutes | tests/test_parse.py:29 | `*/10` in the minute field is `[0, 10, 20, 30, 40, 50]` |
| CronExamples.SteppedRange | tests/test_parse.py:30 | `0-20/10` in the minute field is `[0, 10, 20]` |
| CronExamples.CommaOfRanges | tests/test_parse.py:31 | `0-20/10,40-50/10` in the minute field is `[0, 10, 20, 40, 50]` |
| CronExamples.CommaMixed | tests/test_parse.py:32 | `0-20/10,*/10,12` in the minute field is `[0, 10, 12, 20, 30, 40, 50]` |
| CronExamples.CommaOfTwo | crontabula/__init__.py:166-174 | two comma-free items that parse give the sorted set of both lists |
| CronExamples.CommaOfThree | crontabula/__init__.py:166-174 | three comma-free items that parse give the sorted set of all three lists |
| CronExamples.ZeroStepMinutes | crontabula/__init__.py:175-186 | `*/0` in the minute field is Python's `range` error for step 0 |
| CronExamples.NegativeStep | crontabula/__init__.py:181-186 | `*/-5` in the minute field is the bounds error for -5 |
| CronExamples.DoubleStep | crontabula/__init__.py:184 | `*/a/b`, such as `*/2/3`, fails the unpacking of the step branch |
| CronExamples.DoubleRange | crontabula/__init__.py:190 | `a-b-c`, such as `1-2-3`, fails the unpacking of the range branch |
| CronExamples.NegativeRangeStart | crontabula/__init__.py:190 | `-a-b`, such as `-1-5`, splits into three pieces at `-` and fails the unpacking |
| CronExamples.WeekdayNames | crontabula/__init__.py:190-206 | `MON-FRI` in the weekday field is a range whose start `MON` is not an integer |
| CronExamples.PlainWord | crontabula/__init__.py:199 | `MON` in the weekday field is invalid syntax |
| CronExamples.NumbersParse | crontabula/__init__.py:142-146 | a number inside each field's bounds parses as itself in that field |
| CronExamples.ParsesDaily | tests/test_parse.py:11 | `5 4 * * *` parses, with its lists and both `*` flags set |
| CronExamples.ParsesAugust | tests/test_parse.py:12 | `5 0 * 8 *` parses to the expected lists |
| CronExamples.ParsesMonthly | tests/test_parse.py:13 | `15 14 1 * *` parses to the expected lists |
| CronExamples.ParsesWorkdays | tests/test_parse.py:14 | `0 22 * * 1-5` parses, with weekdays 1 to 5 |
| CronExamples.ParsesEvenHours | tests/test_parse.py:15 | `23 0-20/2 * * *` parses, with hours 0, 2, ..., 20 |
| CronExamples.ParsesOddMonths | tests/test_parse.py:16 | `0 0,12 1 */2 *` parses, with hours 0 and 12 and months 1, 3, ..., 11 |
| CronExamples.MacroYearly | tests/test_parse.py:18 | `@yearly` parses as `0 0 1 1 *` |
| CronExamples.MacroAnnually | tests/test_parse.py:18 | `@annually` parses as `0 0 1 1 *` |
| CronExamples.MacroMonthly | tests/test_parse.py:18 | `@monthly` parses as `0 0 1 * *` |
| CronExamples.MacroWeekly | tests/test_parse.py:18 | `@weekly` parses as `0 0 * * 0` |
| CronExamples.MacroDaily | tests/test_parse.py:18 | `@daily` parses as `0 0 * * *` |
| CronExamples.MacroMidnight | tests/test_parse.py:18 | `@midnight` parses as `0 0 * * *` |
| CronExamples.MacroHourly | tests/test_parse.py:18 | `@hourly` parses as `0 * * * *` |
| ScheduleExamples.MondayToThursdayFromFriday | tests/test_parse.py:40-46 | for `*/10 3,6 * * 1-4` from 2022-04-01 00:00, `next` is 2022-04-04 03:00 and not 2022-04-01 03:00 |
| ScheduleExamples.EarlyApril2022 | tests/test_parse.py:40-46 | 1 to 4 April 2022 were Friday to Monday |
| ScheduleExamples.MonthEnd | tests/test_parse.py:49-52 | for `0 20 * * *` at 2022-03-31 23:00, `next` is 2022-04-01 20:00 |
| ScheduleExamples.DayOfMonth | tests/test_parse.py:55-58 | for `0 0 1 * *` on 2022-05-09, `next` is 2022-06-01 00:00 |
| ScheduleExamples.StartRunsUpTo | tests/test_parse.py:61-72 | the run times of `15 3 * * *` from 2022-03-30 up to 2022-04-02 03:15 are 03:15 on each of those four days |
| ScheduleExamples.StartFirstFour | tests/test_parse.py:61-72 | every stream that meets the `date_times` contract for `15 3 * * *` from 2022-03-30 starts with those four date-times |
| ScheduleExamples.TwelveRunsUpTo | tests/test_parse.py:75-93 | the run times of `*/5 * * * *` from 2022-04-01 10:30 up to 11:25 are the twelve fifth minutes in between |
| ScheduleExamples.MinutesFirstTwelve | tests/test_parse.py:75-93 | every stream that meets the `date_times` contract for `*/5 * * * *` from 2022-04-01 10:30 starts with 10:30, 10:35, ..., 11:25 |
| ScheduleExamples.NextDayRunsUpTo | tests/test_parse.py:95-111 | the run times of `*/5 * * * *` from 2022-04-02 10:00 up to 10:55 are the twelve fifth minutes of that hour |
| ScheduleExamples.NextDayFirstTwelve | tests/test_parse.py:95-111 | from 2022-04-02 10:00 such a stream starts with 10:00, 10:05, ..., 10:55, so the minutes skipped on the start day are not skipped later |
| ScheduleExamples.Year | tests/test_parse.py:114-117 | for `0 0 * 4 *` at 2022-12-31 23:59, `next` is 2023-04-01 00:00 |
| ScheduleExamples.ThirdOfJanuary | crontabula/__init__.py:112-114 | with the day-of-week field `*`, `0 0 3 * *` fires in January 2022 on the 3rd only |
| ScheduleExamples.FridaysOfJanuary | crontabula/__init__.py:115-117 | with the day-of-month field `*`, `0 0 * * 5` fires in January 2022 on the Fridays 7, 14, 21 and 28 |
| ScheduleExamples.ThirdOrFridayOfJanuary | crontabula/__init__.py:118-120 | with neither field `*`, `0 0 3 * 5` fires in January 2022 on the 3rd and on every Friday |

## Left out

- Schedule.Crontab.Dates: the Python generator never ends. The model returns the part of its stream up to the end of `untilYear`. Nothing past the horizon is modelled.
- Schedule.Crontab.DateTimes: bounded by `untilYear` for the same reason. `itertools.islice` over the stream becomes a statement about the stream's first elements (`TimesPrefix`).
- Schedule.Crontab.Next: returns `None` when no run time falls up to the end of `untilYear`. Python's `next` goes on searching instead; for a schedule that never fires (for example 31 February) `dates` walks every year up to 9999 and then fails with the `ValueError` that `datetime.date` raises for year 10000 (crontabula/__init__.py:123).
- Clock: `datetime.datetime.now()` and `datetime.date.today()` are not modelled. The start is a parameter.
- Seconds and microseconds of the start time are not modelled. The source compares only the hour and the minute, so they do not change which date-times are yielded.
- Year limit: `datetime` stops at year 9999. When `dates` moves past it, `datetime.date(year=anchor.year + 1, month=1, day=1)` raises `ValueError` (crontabula/__init__.py:123). The model has no upper year limit.
- CronParser.TryInt: `int` is modelled on ASCII text only, as an optional sign followed by decimal digits. Surrounding whitespace, `_` digit separators and non-ASCII digits, which Python's `int` also accepts, are left out.
- Text.IsNumeric: `str.isnumeric` is modelled on ASCII decimal digits. Other Unicode numeric characters are left out.
- Error messages: the text of each `InvalidExpression` becomes a constructor of `CronParser.Error` that carries the values the message quotes.
- Python exceptions: the `ValueError` from unpacking a split of the wrong length becomes `UnpackMismatch`, and the one from `range` with step 0 becomes `ZeroStep`.
- Calendar: `calendar.Calendar()` with its default first weekday, Monday, is the only one modelled.
- crontabula/cli.py (the command-line wrapper) and tests/conftest.py are not part of this model.
