/** Concrete schedules: the expressions and expected values the project's
    own tests name, checked against the model. */
module CronExamples {
  import opened Text
  import opened Ordered
  import opened Schedule
  import opened CronParser

  // `*/10` in the minute field: every tenth minute.
  lemma EveryTenMinutes()
    ensures ExpressionToList("*/10", 59, 0, 1) == Ok([0, 10, 20, 30, 40, 50])
  {
    assert "*/" + Decimal(10) == "*/10";
    TensUpTo60();
    StarStep(10, 59, 0, 1);
  }

  lemma TensUpTo60()
    ensures Range(0, 60, 10) == [0, 10, 20, 30, 40, 50]
  {
    assert Range(60, 60, 10) == [];
    assert Range(50, 60, 10) == [50];
    assert Range(40, 60, 10) == [40, 50];
    assert Range(30, 60, 10) == [30, 40, 50];
    assert Range(20, 60, 10) == [20, 30, 40, 50];
    assert Range(10, 60, 10) == [10, 20, 30, 40, 50];
  }

  /** The text `a-b/n`. */
  function StepText(a: nat, b: nat, n: nat): string
  {
    Decimal(a) + "-" + Decimal(b) + "/" + Decimal(n)
  }

  /** An expression `e` spelled `a-b/n`, with all three numbers inside the
      bounds, selects every `n`-th value from `a` to `b`; it holds no comma. */
  lemma SteppedRangeText(e: string, a: nat, b: nat, n: nat, maxValue: int, minValue: int, step: nat)
    requires e == StepText(a, b, n)
    requires minValue <= a <= maxValue && minValue <= b <= maxValue && minValue <= n <= maxValue && n > 0
    ensures ExpressionToList(e, maxValue, minValue, step) == Ok(Range(a, b + 1, n))
    ensures ',' !in e
  {
    RangeStep(a, b, n, maxValue, minValue, step);
    RangeValues(a, b, maxValue, minValue, n);
    DecimalPlain(a);
    DecimalPlain(b);
    DecimalPlain(n);
  }

  /** `0-20/10`: every tenth minute from 0 to 20. */
  lemma SteppedRange()
    ensures ExpressionToList("0-20/10", 59, 0, 1) == Ok([0, 10, 20])
  {
    assert Range(0, 21, 10) == [0, 10, 20];
    SteppedRangeText("0-20/10", 0, 20, 10, 59, 0, 1);
  }

  /** Two successful items collect to their concatenation. */
  lemma CollectOk2(a: seq<int>, b: seq<int>)
    ensures Collect([Ok(a), Ok(b)]) == Ok(a + b)
  {
    var rs := [Ok(a), Ok(b)];
    assert rs[1..] == [Ok(b)];
    assert rs[1..][1..] == [];
    assert b + [] == b;
    assert Collect(rs[1..]) == Ok(b);
  }

  /** Three successful items collect to their concatenation. */
  lemma CollectOk3(a: seq<int>, b: seq<int>, c: seq<int>)
    ensures Collect([Ok(a), Ok(b), Ok(c)]) == Ok(a + b + c)
  {
    var rs := [Ok(a), Ok(b), Ok(c)];
    assert rs[1..] == [Ok(b), Ok(c)];
    CollectOk2(b, c);
    assert a + (b + c) == a + b + c;
  }

  /** The items of a comma list of three, each parsed on its own. */
  lemma ItemsOk3(a: string, b: string, c: string, va: seq<int>, vb: seq<int>, vc: seq<int>,
                 maxValue: int, minValue: int, step: nat, bound: nat)
    requires |a| < bound && |b| < bound && |c| < bound
    requires ExpressionToList(a, maxValue, minValue, step) == Ok(va)
    requires ExpressionToList(b, maxValue, minValue, step) == Ok(vb)
    requires ExpressionToList(c, maxValue, minValue, step) == Ok(vc)
    ensures Items([a, b, c], maxValue, minValue, step, bound) == [Ok(va), Ok(vb), Ok(vc)]
  {
    var rs := Items([a, b, c], maxValue, minValue, step, bound);
    assert rs[0] == Ok(va) && rs[1] == Ok(vb) && rs[2] == Ok(vc);
  }

  lemma JoinThree(a: string, b: string, c: string)
    ensures Join([a, b, c], ',') == a + [','] + b + [','] + c
  {
    assert [a, b, c][1..] == [b, c];
    assert [b, c][1..] == [c];
    assert Join([b, c], ',') == b + [','] + c;
  }

  lemma Ascending5()
    ensures SortedSet([0, 10, 20, 40, 50]) == [0, 10, 20, 40, 50]
  {
    SortedSetAscending([0, 10, 20, 40, 50]);
  }

  /** `40-50/10`: minutes 40 and 50. */
  lemma SteppedRangeHigh()
    ensures ExpressionToList("40-50/10", 59, 0, 1) == Ok([40, 50])
  {
    assert Range(40, 51, 10) == [40, 50];
    SteppedRangeText("40-50/10", 40, 50, 10, 59, 0, 1);
  }

  /** A comma list of two items that both parse is the sorted union of
      their values. */
  lemma CommaOfTwo(a: string, b: string, va: seq<int>, vb: seq<int>, maxValue: int, minValue: int, step: nat)
    requires ',' !in a && ',' !in b
    requires ExpressionToList(a, maxValue, minValue, step) == Ok(va)
    requires ExpressionToList(b, maxValue, minValue, step) == Ok(vb)
    ensures ExpressionToList(a + [','] + b, maxValue, minValue, step) == Ok(SortedSet(va + vb))
  {
    var e := a + [','] + b;
    assert e[|a|] == ',';
    SplitPair(a, b, ',');
    var rs := Items([a, b], maxValue, minValue, step, |e|);
    assert rs == [Ok(va), Ok(vb)];
    CollectOk2(va, vb);
  }

  /** `0-20/10,40-50/10`: the union of the two stepped ranges. */
  lemma CommaOfRanges()
    ensures ExpressionToList("0-20/10,40-50/10", 59, 0, 1) == Ok([0, 10, 20, 40, 50])
  {
    assert "0-20/10" + [','] + "40-50/10" == "0-20/10,40-50/10";
    assert ',' !in "0-20/10" && ',' !in "40-50/10";
    assert [0, 10, 20] + [40, 50] == [0, 10, 20, 40, 50];
    Ascending5();
    SteppedRange();
    SteppedRangeHigh();
    CommaOfTwo("0-20/10", "40-50/10", [0, 10, 20], [40, 50], 59, 0, 1);
  }

  /** A comma list of three items that all parse is the sorted union of
      their values. */
  lemma CommaOfThree(a: string, b: string, c: string, va: seq<int>, vb: seq<int>, vc: seq<int>,
                     maxValue: int, minValue: int, step: nat)
    requires ',' !in a && ',' !in b && ',' !in c
    requires ExpressionToList(a, maxValue, minValue, step) == Ok(va)
    requires ExpressionToList(b, maxValue, minValue, step) == Ok(vb)
    requires ExpressionToList(c, maxValue, minValue, step) == Ok(vc)
    ensures ExpressionToList(a + [','] + b + [','] + c, maxValue, minValue, step) == Ok(SortedSet(va + vb + vc))
  {
    var e := a + [','] + b + [','] + c;
    JoinThree(a, b, c);
    SplitJoin([a, b, c], ',');
    assert e[|a|] == ',';
    ItemsOk3(a, b, c, va, vb, vc, maxValue, minValue, step, |e|);
    CollectOk3(va, vb, vc);
  }

  lemma UnionOfParts()
    ensures SortedSet([0, 10, 20] + [0, 10, 20, 30, 40, 50] + [12]) == [0, 10, 12, 20, 30, 40, 50]
  {
    var s := [0, 10, 20] + [0, 10, 20, 30, 40, 50] + [12];
    var t := [0, 10, 12, 20, 30, 40, 50];
    assert forall x :: x in s <==> x in t;
    AscendingUnique(SortedSet(s), t);
  }

  // `0-20/10,*/10,12`: overlapping items are merged and sorted.
  lemma CommaMixed()
    ensures ExpressionToList("0-20/10,*/10,12", 59, 0, 1) == Ok([0, 10, 12, 20, 30, 40, 50])
  {
    assert Decimal(12) == "12";
    assert "0-20/10,*/10,12" == "0-20/10" + [','] + "*/10" + [','] + "12";
    assert ',' !in "0-20/10" && ',' !in "*/10" && ',' !in "12";
    UnionOfParts();
    NumberValue(12, 59, 0, 1);
    SteppedRange();
    EveryTenMinutes();
    CommaOfThree("0-20/10", "*/10", "12", [0, 10, 20], [0, 10, 20, 30, 40, 50], [12], 59, 0, 1);
  }

  // `*/0`: a step of zero is read, and Python's `range` then refuses it.
  lemma ZeroStepMinutes()
    ensures ExpressionToList("*/0", 59, 0, 1) == Err(ZeroStep("*"))
  {
    assert "*/" + Decimal(0) == "*/0";
    StarStep(0, 59, 0, 1);
    StarValues(59, 0, 0);
  }

  // `*/-5`: `int` reads the negative step, and the bounds check refuses it.
  lemma NegativeStep()
    ensures ExpressionToList("*/-5", 59, 0, 1) == Err(OutOfBounds(-5, 59, 0))
  {
    assert "*/-" + Decimal(5) == "*/-5";
    StarNegativeStep(5, 59, 0, 1);
  }

  /** A bare `*` selects every value of its field. */
  lemma StarMinutes()
    ensures ExpressionToList("*", 59, 0, 1) == Ok(Range(0, 60, 1))
  {
  }

  lemma StarHours()
    ensures ExpressionToList("*", 23, 0, 1) == Ok(Range(0, 24, 1))
  {
  }

  lemma StarDaysOfMonth()
    ensures ExpressionToList("*", 31, 1, 1) == Ok(Range(1, 32, 1))
  {
  }

  lemma StarMonths()
    ensures ExpressionToList("*", 12, 1, 1) == Ok(Range(1, 13, 1))
  {
  }

  lemma StarDaysOfWeek()
    ensures ExpressionToList("*", 6, 0, 1) == Ok(Range(0, 7, 1))
  {
  }

  /** Number fields parse in every field that admits them. */
  lemma NumbersParse(n: nat)
    ensures n <= 59 ==> ExpressionToList(Decimal(n), 59, 0, 1) == Ok([n])
    ensures n <= 23 ==> ExpressionToList(Decimal(n), 23, 0, 1) == Ok([n])
    ensures 1 <= n <= 31 ==> ExpressionToList(Decimal(n), 31, 1, 1) == Ok([n])
    ensures 1 <= n <= 12 ==> ExpressionToList(Decimal(n), 12, 1, 1) == Ok([n])
    ensures n <= 6 ==> ExpressionToList(Decimal(n), 6, 0, 1) == Ok([n])
  {
    NumberValue(n, 59, 0, 1);
    NumberValue(n, 23, 0, 1);
    NumberValue(n, 31, 1, 1);
    NumberValue(n, 12, 1, 1);
    NumberValue(n, 6, 0, 1);
  }

  /** `5 4 * * *`: minute 5 of hour 4, every day. */
  lemma ParsesDailyFields()
    ensures ParseParts(["5", "4", "*", "*", "*"]) == Ok(Crontab([5], [4], Range(1, 32, 1), Range(1, 13, 1), Range(0, 7, 1), true, true))
  {
    assert Decimal(5) == "5" && Decimal(4) == "4";
    StarDaysOfMonth();
    StarMonths();
    StarDaysOfWeek();
    NumbersParse(5);
    NumbersParse(4);
    ParsePartsFields(["5", "4", "*", "*", "*"]);
  }

  lemma ParsesDaily()
    ensures Parse("5 4 * * *") == Ok(Crontab([5], [4], Range(1, 32, 1), Range(1, 13, 1), Range(0, 7, 1), true, true))
  {
    assert Join(["5", "4", "*", "*", "*"], ' ') == "5 4 * * *";
    ParseJoin(["5", "4", "*", "*", "*"]);
    ParsesDailyFields();
  }

  /** `5 0 * 8 *`: every day of August. */
  lemma ParsesAugustFields()
    ensures ParseParts(["5", "0", "*", "8", "*"]) == Ok(Crontab([5], [0], Range(1, 32, 1), [8], Range(0, 7, 1), true, true))
  {
    assert Decimal(5) == "5" && Decimal(0) == "0" && Decimal(8) == "8";
    StarDaysOfMonth();
    StarDaysOfWeek();
    NumbersParse(5);
    NumbersParse(0);
    NumbersParse(8);
    ParsePartsFields(["5", "0", "*", "8", "*"]);
  }

  lemma ParsesAugust()
    ensures Parse("5 0 * 8 *") == Ok(Crontab([5], [0], Range(1, 32, 1), [8], Range(0, 7, 1), true, true))
  {
    assert Join(["5", "0", "*", "8", "*"], ' ') == "5 0 * 8 *";
    ParseJoin(["5", "0", "*", "8", "*"]);
    ParsesAugustFields();
  }

  /** `15 14 1 * *`: the first of every month; the day-of-month field is not a wildcard. */
  lemma ParsesMonthlyFields()
    ensures ParseParts(["15", "14", "1", "*", "*"]) == Ok(Crontab([15], [14], [1], Range(1, 13, 1), Range(0, 7, 1), false, true))
  {
    assert Decimal(15) == "15" && Decimal(14) == "14" && Decimal(1) == "1";
    StarMonths();
    StarDaysOfWeek();
    NumbersParse(15);
    NumbersParse(14);
    NumbersParse(1);
    ParsePartsFields(["15", "14", "1", "*", "*"]);
  }

  lemma ParsesMonthly()
    ensures Parse("15 14 1 * *") == Ok(Crontab([15], [14], [1], Range(1, 13, 1), Range(0, 7, 1), false, true))
  {
    assert Join(["15", "14", "1", "*", "*"], ' ') == "15 14 1 * *";
    ParseJoin(["15", "14", "1", "*", "*"]);
    ParsesMonthlyFields();
  }

  /** `0 22 * * 1-5`: Monday to Friday; the day-of-week field is not a wildcard. */
  lemma ParsesWorkdaysFields()
    ensures ParseParts(["0", "22", "*", "*", "1-5"]) == Ok(Crontab([0], [22], Range(1, 32, 1), Range(1, 13, 1), Range(1, 6, 1), true, false))
  {
    assert Decimal(0) == "0" && Decimal(22) == "22";
    StarDaysOfMonth();
    StarMonths();
    NumbersParse(0);
    NumbersParse(22);
    WorkdaysField();
    ParsePartsFields(["0", "22", "*", "*", "1-5"]);
  }

  lemma WorkdaysField()
    ensures ExpressionToList("1-5", 6, 0, 1) == Ok(Range(1, 6, 1))
  {
    assert Decimal(1) + "-" + Decimal(5) == "1-5";
    RangeValues(1, 5, 6, 0, 1);
  }

  lemma ParsesWorkdays()
    ensures Parse("0 22 * * 1-5") == Ok(Crontab([0], [22], Range(1, 32, 1), Range(1, 13, 1), Range(1, 6, 1), true, false))
  {
    assert Join(["0", "22", "*", "*", "1-5"], ' ') == "0 22 * * 1-5";
    ParseJoin(["0", "22", "*", "*", "1-5"]);
    ParsesWorkdaysFields();
  }

  /** `23 0-20/2 * * *`: every second hour from 0 to 20. */
  lemma ParsesEvenHoursFields()
    ensures ParseParts(["23", "0-20/2", "*", "*", "*"]) == Ok(Crontab([23], Range(0, 21, 2), Range(1, 32, 1), Range(1, 13, 1), Range(0, 7, 1), true, true))
  {
    assert Decimal(23) == "23";
    StarDaysOfMonth();
    StarMonths();
    StarDaysOfWeek();
    NumbersParse(23);
    EvenHoursField();
    ParsePartsFields(["23", "0-20/2", "*", "*", "*"]);
  }

  lemma EvenHoursField()
    ensures ExpressionToList("0-20/2", 23, 0, 1) == Ok(Range(0, 21, 2))
  {
    assert Decimal(0) + "-" + Decimal(20) == "0-20";
    assert Decimal(0) + "-" + Decimal(20) + "/" + Decimal(2) == "0-20/2";
    RangeStep(0, 20, 2, 23, 0, 1);
    RangeValues(0, 20, 23, 0, 2);
  }

  lemma ParsesEvenHours()
    ensures Parse("23 0-20/2 * * *") == Ok(Crontab([23], Range(0, 21, 2), Range(1, 32, 1), Range(1, 13, 1), Range(0, 7, 1), true, true))
  {
    assert Join(["23", "0-20/2", "*", "*", "*"], ' ') == "23 0-20/2 * * *";
    ParseJoin(["23", "0-20/2", "*", "*", "*"]);
    ParsesEvenHoursFields();
  }

  // `0 0,12 1 */2 *`: midnight and noon on the first of every second month.
  lemma ParsesOddMonthsFields()
    ensures ParseParts(["0", "0,12", "1", "*/2", "*"]) == Ok(Crontab([0], [0, 12], [1], Range(1, 13, 2), Range(0, 7, 1), false, true))
  {
    assert Decimal(0) == "0" && Decimal(1) == "1";
    StarDaysOfWeek();
    NumbersParse(0);
    NumbersParse(1);
    NoonField();
    OddMonthsField();
    ParsePartsFields(["0", "0,12", "1", "*/2", "*"]);
  }

  lemma NoonField()
    ensures ExpressionToList("0,12", 23, 0, 1) == Ok([0, 12])
  {
    assert Decimal(0) == "0" && Decimal(12) == "12";
    assert "0,12" == "0" + [','] + "12";
    assert ',' !in "0" && ',' !in "12";
    assert [0] + [12] == [0, 12];
    SortedSetAscending([0, 12]);
    NumbersParse(0);
    NumbersParse(12);
    CommaOfTwo("0", "12", [0], [12], 23, 0, 1);
  }

  // `*/2` in the month field: January, March, ..., November.
  lemma OddMonthsField()
    ensures ExpressionToList("*/2", 12, 1, 1) == Ok(Range(1, 13, 2))
  {
    assert "*/" + Decimal(2) == "*/2";
    StarStep(2, 12, 1, 1);
  }

  lemma ParsesOddMonths()
    ensures Parse("0 0,12 1 */2 *") == Ok(Crontab([0], [0, 12], [1], Range(1, 13, 2), Range(0, 7, 1), false, true))
  {
    assert Join(["0", "0,12", "1", "*/2", "*"], ' ') == "0 0,12 1 */2 *";
    ParseJoin(["0", "0,12", "1", "*/2", "*"]);
    ParsesOddMonthsFields();
  }

  /** `0 0 1 1 *`, the expansion of `@yearly` and `@annually`: midnight on 1 January. */
  lemma ParsesYearlyFields()
    ensures ParseParts(["0", "0", "1", "1", "*"]) == Ok(Crontab([0], [0], [1], [1], Range(0, 7, 1), false, true))
  {
    assert Decimal(0) == "0" && Decimal(1) == "1";
    StarDaysOfWeek();
    NumbersParse(0);
    NumbersParse(1);
    ParsePartsFields(["0", "0", "1", "1", "*"]);
  }

  lemma ParsesYearly()
    ensures Parse("0 0 1 1 *") == Ok(Crontab([0], [0], [1], [1], Range(0, 7, 1), false, true))
  {
    assert Join(["0", "0", "1", "1", "*"], ' ') == "0 0 1 1 *";
    ParseJoin(["0", "0", "1", "1", "*"]);
    ParsesYearlyFields();
  }

  /** `0 0 1 * *`, the expansion of `@monthly`: midnight on the first of each month. */
  lemma ParsesFirstOfMonthFields()
    ensures ParseParts(["0", "0", "1", "*", "*"]) == Ok(Crontab([0], [0], [1], Range(1, 13, 1), Range(0, 7, 1), false, true))
  {
    assert Decimal(0) == "0" && Decimal(1) == "1";
    StarMonths();
    StarDaysOfWeek();
    NumbersParse(0);
    NumbersParse(1);
    ParsePartsFields(["0", "0", "1", "*", "*"]);
  }

  lemma ParsesFirstOfMonth()
    ensures Parse("0 0 1 * *") == Ok(Crontab([0], [0], [1], Range(1, 13, 1), Range(0, 7, 1), false, true))
  {
    assert Join(["0", "0", "1", "*", "*"], ' ') == "0 0 1 * *";
    ParseJoin(["0", "0", "1", "*", "*"]);
    ParsesFirstOfMonthFields();
  }

  /** `0 0 * * 0`, the expansion of `@weekly`: midnight on Sundays. */
  lemma ParsesSundaysFields()
    ensures ParseParts(["0", "0", "*", "*", "0"]) == Ok(Crontab([0], [0], Range(1, 32, 1), Range(1, 13, 1), [0], true, false))
  {
    assert Decimal(0) == "0";
    StarDaysOfMonth();
    StarMonths();
    NumbersParse(0);
    ParsePartsFields(["0", "0", "*", "*", "0"]);
  }

  lemma ParsesSundays()
    ensures Parse("0 0 * * 0") == Ok(Crontab([0], [0], Range(1, 32, 1), Range(1, 13, 1), [0], true, false))
  {
    assert Join(["0", "0", "*", "*", "0"], ' ') == "0 0 * * 0";
    ParseJoin(["0", "0", "*", "*", "0"]);
    ParsesSundaysFields();
  }

  /** `0 0 * * *`, the expansion of `@daily` and `@midnight`: every midnight. */
  lemma ParsesMidnightFields()
    ensures ParseParts(["0", "0", "*", "*", "*"]) == Ok(Crontab([0], [0], Range(1, 32, 1), Range(1, 13, 1), Range(0, 7, 1), true, true))
  {
    assert Decimal(0) == "0";
    StarDaysOfMonth();
    StarMonths();
    StarDaysOfWeek();
    NumbersParse(0);
    ParsePartsFields(["0", "0", "*", "*", "*"]);
  }

  lemma ParsesMidnight()
    ensures Parse("0 0 * * *") == Ok(Crontab([0], [0], Range(1, 32, 1), Range(1, 13, 1), Range(0, 7, 1), true, true))
  {
    assert Join(["0", "0", "*", "*", "*"], ' ') == "0 0 * * *";
    ParseJoin(["0", "0", "*", "*", "*"]);
    ParsesMidnightFields();
  }

  /** `0 * * * *`, the expansion of `@hourly`: the start of every hour. */
  lemma ParsesHourlyFields()
    ensures ParseParts(["0", "*", "*", "*", "*"]) == Ok(Crontab([0], Range(0, 24, 1), Range(1, 32, 1), Range(1, 13, 1), Range(0, 7, 1), true, true))
  {
    assert Decimal(0) == "0";
    StarHours();
    StarDaysOfMonth();
    StarMonths();
    StarDaysOfWeek();
    NumbersParse(0);
    ParsePartsFields(["0", "*", "*", "*", "*"]);
  }

  lemma ParsesHourly()
    ensures Parse("0 * * * *") == Ok(Crontab([0], Range(0, 24, 1), Range(1, 32, 1), Range(1, 13, 1), Range(0, 7, 1), true, true))
  {
    assert Join(["0", "*", "*", "*", "*"], ' ') == "0 * * * *";
    ParseJoin(["0", "*", "*", "*", "*"]);
    ParsesHourlyFields();
  }

  // Each macro name parses, as the expression it stands for.

  lemma MacroYearly()
    ensures Parse("@yearly") == Ok(Crontab([0], [0], [1], [1], Range(0, 7, 1), false, true))
  {
    ParseMacro("@yearly", ["0", "0", "1", "1", "*"]);
    ParsesYearlyFields();
  }

  lemma MacroAnnually()
    ensures Parse("@annually") == Ok(Crontab([0], [0], [1], [1], Range(0, 7, 1), false, true))
  {
    ParseMacro("@annually", ["0", "0", "1", "1", "*"]);
    ParsesYearlyFields();
  }

  lemma MacroMonthly()
    ensures Parse("@monthly") == Ok(Crontab([0], [0], [1], Range(1, 13, 1), Range(0, 7, 1), false, true))
  {
    ParseMacro("@monthly", ["0", "0", "1", "*", "*"]);
    ParsesFirstOfMonthFields();
  }

  lemma MacroWeekly()
    ensures Parse("@weekly") == Ok(Crontab([0], [0], Range(1, 32, 1), Range(1, 13, 1), [0], true, false))
  {
    ParseMacro("@weekly", ["0", "0", "*", "*", "0"]);
    ParsesSundaysFields();
  }

  lemma MacroDaily()
    ensures Parse("@daily") == Ok(Crontab([0], [0], Range(1, 32, 1), Range(1, 13, 1), Range(0, 7, 1), true, true))
  {
    ParseMacro("@daily", ["0", "0", "*", "*", "*"]);
    ParsesMidnightFields();
  }

  lemma MacroMidnight()
    ensures Parse("@midnight") == Ok(Crontab([0], [0], Range(1, 32, 1), Range(1, 13, 1), Range(0, 7, 1), true, true))
  {
    ParseMacro("@midnight", ["0", "0", "*", "*", "*"]);
    ParsesMidnightFields();
  }

  lemma MacroHourly()
    ensures Parse("@hourly") == Ok(Crontab([0], Range(0, 24, 1), Range(1, 32, 1), Range(1, 13, 1), Range(0, 7, 1), true, true))
  {
    ParseMacro("@hourly", ["0", "*", "*", "*", "*"]);
    ParsesHourlyFields();
  }

  // `*/a/b`, such as `*/2/3`: a second `/` fails the two-way unpacking of
  // the step branch.
  lemma DoubleStep(a: nat, b: nat, maxValue: int, minValue: int, step: nat)
    ensures var e := "*/" + Decimal(a) + "/" + Decimal(b);
      ExpressionToList(e, maxValue, minValue, step) == Err(UnpackMismatch(e))
  {
    var da, db := Decimal(a), Decimal(b);
    var e := "*/" + da + "/" + db;
    assert '/' !in da && ',' !in da by { DecimalPlain(a); }
    assert '/' !in db && ',' !in db by { DecimalPlain(b); }
    assert |Split(e, '/')| == 3 by {
      assert e == "*" + ['/'] + da + ['/'] + db;
      SplitThree("*", da, db, '/');
    }
    assert '/' in e && ',' !in e by { assert e[1] == '/'; }
    StepUnpack(e, maxValue, minValue, step);
  }

  /** `a-b-c`, such as `1-2-3`: a second `-` fails the two-way unpacking of
      the range branch. */
  lemma DoubleRange(a: nat, b: nat, c: nat, maxValue: int, minValue: int, step: nat)
    ensures var e := Decimal(a) + "-" + Decimal(b) + "-" + Decimal(c);
      ExpressionToList(e, maxValue, minValue, step) == Err(UnpackMismatch(e))
  {
    var da, db, dc := Decimal(a), Decimal(b), Decimal(c);
    var e := da + "-" + db + "-" + dc;
    assert '-' !in da && '/' !in da && ',' !in da by { DecimalPlain(a); }
    assert '-' !in db && '/' !in db && ',' !in db by { DecimalPlain(b); }
    assert '-' !in dc && '/' !in dc && ',' !in dc by { DecimalPlain(c); }
    assert |Split(e, '-')| == 3 by {
      assert e == da + ['-'] + db + ['-'] + dc;
      SplitThree(da, db, dc, '-');
    }
    assert '-' in e && '/' !in e && ',' !in e by { assert e[|da|] == '-'; }
    RangeUnpack(e, maxValue, minValue, step);
  }

  /** `-a-b`, such as `-1-5`: a negative lower end splits into three pieces
      at `-` and fails the unpacking as well. */
  lemma NegativeRangeStart(a: nat, b: nat, maxValue: int, minValue: int, step: nat)
    ensures var e := "-" + Decimal(a) + "-" + Decimal(b);
      ExpressionToList(e, maxValue, minValue, step) == Err(UnpackMismatch(e))
  {
    var da, db := Decimal(a), Decimal(b);
    var e := "-" + da + "-" + db;
    assert '-' !in da && '/' !in da && ',' !in da by { DecimalPlain(a); }
    assert '-' !in db && '/' !in db && ',' !in db by { DecimalPlain(b); }
    assert |Split(e, '-')| == 3 by {
      assert e == "" + ['-'] + da + ['-'] + db;
      SplitThree("", da, db, '-');
    }
    assert '-' in e && '/' !in e && ',' !in e by { assert e[0] == '-'; }
    RangeUnpack(e, maxValue, minValue, step);
  }

  /** Weekday names are not understood: `MON-FRI` is a range whose lower
      end is not an integer. */
  lemma WeekdayNames()
    ensures ExpressionToList("MON-FRI", 6, 0, 1) == Err(NotAnInteger("MON"))
  {
    assert "MON-FRI" == "MON" + ['-'] + "FRI";
    assert !IsIntLiteral("MON") by {
      assert !IsDigit("MON"[0]);
    }
    RangeBranch("MON-FRI", "MON", "FRI", 6, 0, 1);
  }

  /** A word with none of the syntax characters is invalid syntax. */
  lemma PlainWord()
    ensures ExpressionToList("MON", 6, 0, 1) == Err(InvalidSyntax("MON"))
  {
    assert !IsNumeric("MON") by {
      assert !IsDigit("MON"[0]);
    }
    NoAlternative("MON", 6, 0, 1);
  }
}
