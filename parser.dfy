/** The cron expression parser: the `@` macros, `parse`, which splits an
    expression into its five fields, and the small recursive field parser
    `_expression_to_list` with its integer reader `_try_int`. */
module CronParser {
  import opened Text
  import opened Ordered
  import opened Schedule

  /** Why an expression is refused. `InvalidExpression` carries a message in
      the source; here each message is its own constructor. The last two are
      the `ValueError`s Python raises on its own (a tuple unpacking of the
      wrong length, `range` with step 0), which escape `parse` unconverted. */
  datatype Error =
    | FieldCount(expression: string)
    | NotAnInteger(v: string)
    | OutOfBounds(result: int, maxValue: int, minValue: int)
    | InvalidSyntax(expr: string)
    | UnpackMismatch(expr: string)
    | ZeroStep(expr: string)

  datatype Result<T> = Ok(value: T) | Err(error: Error)

  /** `MACROS`: the nonstandard predefined schedules. */
  const Macros: map<string, string> := map[
    "@yearly" := "0 0 1 1 *",
    "@annually" := "0 0 1 1 *",
    "@monthly" := "0 0 1 * *",
    "@weekly" := "0 0 * * 0",
    "@daily" := "0 0 * * *",
    "@midnight" := "0 0 * * *",
    "@hourly" := "0 * * * *"
  ]

  /** `MACROS.get(expression, expression)`. */
  function ExpandMacro(expression: string): (e: string)
    ensures expression in Macros ==> e == Macros[expression]
    ensures expression !in Macros ==> e == expression
  {
    if expression in Macros then Macros[expression] else expression
  }

  /** `_try_int(v, max_value, min_value)`: `int(v)` checked against the
      bounds of the field. */
  function TryInt(v: string, maxValue: int, minValue: int): (r: Result<int>)
    ensures r.Ok? ==> IsIntLiteral(v) && r.value == IntValue(v) && 0 <= r.value && minValue <= r.value <= maxValue
    ensures r.Err? ==> (r.error.NotAnInteger? <==> !IsIntLiteral(v))
    ensures r.Err? ==> r.error == NotAnInteger(v) || r.error.OutOfBounds?
  {
    if !IsIntLiteral(v) then Err(NotAnInteger(v))
    else
      var result := IntValue(v);
      if result < 0 || minValue > result || maxValue < result then Err(OutOfBounds(result, maxValue, minValue))
      else Ok(result)
  }

  /** `_try_int` reads back what `str` writes: the decimal spelling of `n` is
      accepted exactly when `n` lies within the bounds, and then gives `n`. */
  lemma TryIntDecimal(n: nat, maxValue: int, minValue: int)
    ensures TryInt(Decimal(n), maxValue, minValue)
      == if minValue <= n <= maxValue then Ok(n) else Err(OutOfBounds(n, maxValue, minValue))
  {
    DecimalValue(n);
    NumericIntValue(Decimal(n));
  }

  /** `_try_int` accepts exactly the integer literals whose value is not
      negative and within the bounds, and every value it returns is one. */
  lemma TryIntAccepts(v: string, maxValue: int, minValue: int)
    ensures TryInt(v, maxValue, minValue).Ok?
      <==> IsIntLiteral(v) && 0 <= IntValue(v) && minValue <= IntValue(v) <= maxValue
    ensures TryInt(v, maxValue, minValue).Ok? ==>
      var n := TryInt(v, maxValue, minValue).value;
      0 <= n && minValue <= n <= maxValue
  {
  }

  /** The values of a list of sub-results, concatenated in order; the first
      failing sub-result's error if there is one. */
  function Collect(results: seq<Result<seq<int>>>): (r: Result<seq<int>>)
    ensures r.Ok? <==> forall i :: 0 <= i < |results| ==> results[i].Ok?
    ensures r.Ok? ==> forall x :: x in r.value <==> exists i :: 0 <= i < |results| && x in results[i].value
    ensures r.Err? ==> exists i :: 0 <= i < |results| && results[i] == Err(r.error)
                                   && forall j :: 0 <= j < i ==> results[j].Ok?
  {
    if |results| == 0 then Ok([])
    else
      match results[0]
      case Err(e) => Err(e)
      case Ok(vs) =>
        match Collect(results[1..])
        case Err(e) => Err(e)
        case Ok(ws) => Ok(vs + ws)
  }

  /** Sub-results inside the bounds collect to a list inside the bounds. */
  lemma {:induction false} CollectWithin(results: seq<Result<seq<int>>>, lo: int, hi: int)
    requires forall i :: 0 <= i < |results| ==> results[i].Ok? ==> Within(results[i].value, lo, hi)
    ensures Collect(results).Ok? ==> Within(Collect(results).value, lo, hi)
  {
    if |results| > 0 {
      CollectWithin(results[1..], lo, hi);
    }
  }

  /** `sorted(set(s))` stays inside any bounds `s` is inside. */
  lemma WithinSortedSet(s: seq<int>, lo: int, hi: int)
    requires Within(s, lo, hi)
    ensures Within(SortedSet(s), lo, hi)
  {
    var r := SortedSet(s);
    forall k | 0 <= k < |r|
      ensures lo <= r[k] <= hi
    {
      var x := r[k];
      assert x in r;
      var j :| 0 <= j < |s| && s[j] == x;
    }
  }

  /** `_expression_to_list(expr, max_value, min_value=..., step=...)`. The
      branches are tried in the source's order: a comma list, `*`, a number,
      a step `lhs/rhs`, a range `a-b`. Every list it returns is strictly
      ascending and inside the field's bounds. */
  function ExpressionToList(expr: string, maxValue: int, minValue: int, step: nat): (r: Result<seq<int>>)
    ensures r.Ok? ==> StrictlyAscending(r.value) && Within(r.value, minValue, maxValue)
    ensures r.Err? ==> !r.error.FieldCount?
    decreases |expr|, 1
  {
    if ',' in expr then
      var parts := Split(expr, ',');
      var results := Items(parts, maxValue, minValue, step, |expr|);
      CollectWithin(results, minValue, maxValue);
      match Collect(results)
      case Err(e) => Err(e)
      case Ok(values) => WithinSortedSet(values, minValue, maxValue); Ok(SortedSet(values))
    else if expr == "*" then
      if step == 0 then Err(ZeroStep(expr))
      else RangeShape(minValue, maxValue + 1, step); Ok(Range(minValue, maxValue + 1, step))
    else if IsNumeric(expr) then
      match TryInt(expr, maxValue, minValue)
      case Err(e) => Err(e)
      case Ok(n) => Ok([n])
    else if '/' in expr then
      var parts := Split(expr, '/');
      if |parts| != 2 then Err(UnpackMismatch(expr))
      else
        match TryInt(parts[1], maxValue, minValue)
        case Err(e) => Err(e)
        case Ok(rhsStep) => ExpressionToList(parts[0], maxValue, minValue, rhsStep)
    else if '-' in expr then
      var parts := Split(expr, '-');
      if |parts| != 2 then Err(UnpackMismatch(expr))
      else
        match TryInt(parts[0], maxValue, minValue)
        case Err(e) => Err(e)
        case Ok(rangeStart) =>
          match TryInt(parts[1], maxValue, minValue)
          case Err(e) => Err(e)
          case Ok(rangeEnd) =>
            if step == 0 then Err(ZeroStep(expr))
            else RangeShape(rangeStart, rangeEnd + 1, step); Ok(Range(rangeStart, rangeEnd + 1, step))
    else Err(InvalidSyntax(expr))
  }

  /** The results of the items of a comma list, each parsed on its own with
      the same bounds and step; `bound` exceeds the length of every item. */
  function Items(parts: seq<string>, maxValue: int, minValue: int, step: nat, ghost bound: nat): (rs: seq<Result<seq<int>>>)
    requires forall i :: 0 <= i < |parts| ==> |parts[i]| < bound
    ensures |rs| == |parts|
    ensures forall i :: 0 <= i < |parts| ==> rs[i] == ExpressionToList(parts[i], maxValue, minValue, step)
    ensures forall i :: 0 <= i < |rs| ==> rs[i].Ok? ==> Within(rs[i].value, minValue, maxValue)
    decreases bound, 0, |parts|
  {
    if |parts| == 0 then []
    else [ExpressionToList(parts[0], maxValue, minValue, step)] + Items(parts[1..], maxValue, minValue, step, bound)
  }

  /** `parse(expression)`: expand a macro, split on single spaces, and
      require five fields. */
  function Parse(expression: string): (r: Result<Crontab>)
    ensures r.Ok? ==> r.value.Valid()
  {
    var expression := ExpandMacro(expression);
    var parts := Split(expression, ' ');
    if |parts| != 5 then Err(FieldCount(expression))
    else ParseParts(parts)
  }

  /** The rest of `parse`: the five fields parsed in order with their bounds,
      and whether the two day fields were a bare `*`. Every `Crontab` it
      builds satisfies `Valid`. */
  function ParseParts(parts: seq<string>): (r: Result<Crontab>)
    requires |parts| == 5
    ensures r.Ok? ==> r.value.Valid()
    ensures r.Err? ==> !r.error.FieldCount?
  {
    match ExpressionToList(parts[0], 59, 0, 1)
    case Err(e) => Err(e)
    case Ok(minutes) =>
      match ExpressionToList(parts[1], 23, 0, 1)
      case Err(e) => Err(e)
      case Ok(hours) =>
        match ExpressionToList(parts[2], 31, 1, 1)
        case Err(e) => Err(e)
        case Ok(dayMonths) =>
          match ExpressionToList(parts[3], 12, 1, 1)
          case Err(e) => Err(e)
          case Ok(months) =>
            match ExpressionToList(parts[4], 6, 0, 1)
            case Err(e) => Err(e)
            case Ok(dayWeeks) =>
              Ok(Crontab(minutes, hours, dayMonths, months, dayWeeks, parts[2] == "*", parts[4] == "*"))
  }

  /** The fields parse one by one: the result holds the five value lists
      when every field parses, and is otherwise the error of the first field
      that does not. */
  lemma ParsePartsFields(parts: seq<string>)
    requires |parts| == 5
    ensures var r := ParseParts(parts);
      var m, h, dm, mo, dw := ExpressionToList(parts[0], 59, 0, 1), ExpressionToList(parts[1], 23, 0, 1),
        ExpressionToList(parts[2], 31, 1, 1), ExpressionToList(parts[3], 12, 1, 1), ExpressionToList(parts[4], 6, 0, 1);
      && (r.Ok? <==> m.Ok? && h.Ok? && dm.Ok? && mo.Ok? && dw.Ok?)
      && (r.Ok? ==> r.value == Crontab(m.value, h.value, dm.value, mo.value, dw.value, parts[2] == "*", parts[4] == "*"))
      && (r.Err? ==> r.error == if m.Err? then m.error else if h.Err? then h.error else if dm.Err? then dm.error
                                else if mo.Err? then mo.error else dw.error)
  {
  }

  /** No macro name holds a space, and no macro expands to another macro. */
  lemma MacroShapes()
    ensures forall m :: m in Macros ==> ' ' !in m
    ensures forall m :: m in Macros ==> Macros[m] !in Macros
  {
  }

  /** A macro parses as the expression it stands for. */
  lemma MacroExpansion(m: string)
    requires m in Macros
    ensures Parse(m) == Parse(Macros[m])
  {
    MacroShapes();
  }

  /** `parse` refuses with the field count error exactly when the expanded
      expression does not split into five fields. */
  lemma ParseFieldCount(expression: string)
    ensures (Parse(expression).Err? && Parse(expression).error.FieldCount?)
      <==> |Split(ExpandMacro(expression), ' ')| != 5
  {
  }

  /** Five space-free fields joined by single spaces are parsed as those
      five fields. */
  lemma ParseJoin(fields: seq<string>)
    requires |fields| == 5 && forall i :: 0 <= i < 5 ==> ' ' !in fields[i]
    ensures Parse(Join(fields, ' ')) == ParseParts(fields)
  {
    var e := Join(fields, ' ');
    assert e == fields[0] + [' '] + Join(fields[1..], ' ');
    assert e[|fields[0]|] == ' ';
    MacroShapes();
    assert e !in Macros;
    SplitJoin(fields, ' ');
  }

  /** A macro whose expansion joins five space-free fields is parsed as
      those five fields. */
  lemma ParseMacro(m: string, fields: seq<string>)
    requires m in Macros && Macros[m] == Join(fields, ' ')
    requires |fields| == 5 && forall i :: 0 <= i < 5 ==> ' ' !in fields[i]
    ensures Parse(m) == ParseParts(fields)
  {
    MacroShapes();
    SplitJoin(fields, ' ');
  }

  // ---------------------------------------------------------------
  // What each form of field expression denotes.
  // ---------------------------------------------------------------

  /** Splitting two separator-free pieces joined by the separator. */
  lemma SplitPair(a: string, b: string, sep: char)
    requires sep !in a && sep !in b
    ensures Split(a + [sep] + b, sep) == [a, b]
  {
    assert Join([a, b], sep) == a + [sep] + Join([b], sep);
    SplitJoin([a, b], sep);
  }

  /** A decimal spelling holds none of the expression syntax characters. */
  lemma DecimalPlain(n: nat)
    ensures ',' !in Decimal(n) && '/' !in Decimal(n) && '-' !in Decimal(n) && ' ' !in Decimal(n)
    ensures Decimal(n) != "*"
  {
    assert '*' !in Decimal(n);
  }

  /** A number selects itself, whatever step is in force, when it is within
      the bounds, and is refused otherwise. */
  lemma NumberValue(n: nat, maxValue: int, minValue: int, step: nat)
    ensures ExpressionToList(Decimal(n), maxValue, minValue, step)
      == if minValue <= n <= maxValue then Ok([n]) else Err(OutOfBounds(n, maxValue, minValue))
  {
    DecimalPlain(n);
    TryIntDecimal(n, maxValue, minValue);
  }

  /** `*` selects every value of the field from the lower bound on, `step`
      apart; with step 0 Python's `range` fails. */
  lemma StarValues(maxValue: int, minValue: int, step: nat)
    ensures step == 0 ==> ExpressionToList("*", maxValue, minValue, step) == Err(ZeroStep("*"))
    ensures step > 0 ==> ExpressionToList("*", maxValue, minValue, step).Ok?
    ensures step > 0 ==> forall x :: x in ExpressionToList("*", maxValue, minValue, step).value
                             <==> minValue <= x <= maxValue && (x - minValue) % step == 0
  {
    if step > 0 {
      var values := Range(minValue, maxValue + 1, step);
      forall x
        ensures x in values <==> minValue <= x <= maxValue && (x - minValue) % step == 0
      {
        RangeMembers(minValue, maxValue + 1, step, x);
      }
    }
  }

  /** The step branch of `_expression_to_list`: `lhs/rhs` reads `rhs` as
      the step and parses `lhs` with it. */
  lemma StepBranch(e: string, lhs: string, rhs: string, maxValue: int, minValue: int, step: nat)
    requires e == lhs + ['/'] + rhs && '/' !in lhs && '/' !in rhs
    requires ',' !in e
    ensures ExpressionToList(e, maxValue, minValue, step)
      == var n := TryInt(rhs, maxValue, minValue);
         if n.Err? then Err(n.error) else ExpressionToList(lhs, maxValue, minValue, n.value)
  {
    SeparatorText(e, |lhs|);
    SplitPair(lhs, rhs, '/');
  }

  /** The range branch of `_expression_to_list`: `a-b` with both ends read
      as integers within the bounds. */
  lemma RangeBranch(e: string, lhs: string, rhs: string, maxValue: int, minValue: int, step: nat)
    requires e == lhs + ['-'] + rhs && '-' !in lhs && '-' !in rhs
    requires ',' !in e && '/' !in e
    ensures ExpressionToList(e, maxValue, minValue, step)
      == var a, b := TryInt(lhs, maxValue, minValue), TryInt(rhs, maxValue, minValue);
         if a.Err? then Err(a.error)
         else if b.Err? then Err(b.error)
         else if step == 0 then Err(ZeroStep(e))
         else Ok(Range(a.value, b.value + 1, step))
  {
    SeparatorText(e, |lhs|);
    SplitPair(lhs, rhs, '-');
  }

  /** A text holding a `/` or a `-` is neither `*` nor a number. */
  lemma SeparatorText(e: string, k: nat)
    requires k < |e| && (e[k] == '/' || e[k] == '-')
    ensures e != "*" && !IsNumeric(e)
  {
    assert !IsDigit(e[k]);
  }

  /** An expression that is no list, no `*`, no number, no step and no
      range is refused as invalid syntax. */
  lemma NoAlternative(e: string, maxValue: int, minValue: int, step: nat)
    requires ',' !in e && e != "*" && !IsNumeric(e) && '/' !in e && '-' !in e
    ensures ExpressionToList(e, maxValue, minValue, step) == Err(InvalidSyntax(e))
  {
  }

  /** A step expression that does not split into exactly two pieces at `/`
      fails the tuple unpacking `lhs, rhs = expression.split("/")`. */
  lemma StepUnpack(e: string, maxValue: int, minValue: int, step: nat)
    requires ',' !in e && '/' in e && |Split(e, '/')| != 2
    ensures ExpressionToList(e, maxValue, minValue, step) == Err(UnpackMismatch(e))
  {
    var k :| 0 <= k < |e| && e[k] == '/';
    SeparatorText(e, k);
  }

  /** A range expression that does not split into exactly two pieces at `-`
      fails the tuple unpacking `lhs, rhs = expression.split("-")`; a
      negative bound such as `-1-5` is refused this way. */
  lemma RangeUnpack(e: string, maxValue: int, minValue: int, step: nat)
    requires ',' !in e && '/' !in e && '-' in e && |Split(e, '-')| != 2
    ensures ExpressionToList(e, maxValue, minValue, step) == Err(UnpackMismatch(e))
  {
    var k :| 0 <= k < |e| && e[k] == '-';
    SeparatorText(e, k);
  }

  // `*/n` selects every `n`-th value of the field from its lower bound on.
  lemma StarStep(n: nat, maxValue: int, minValue: int, step: nat)
    requires minValue <= n <= maxValue
    ensures ExpressionToList("*/" + Decimal(n), maxValue, minValue, step)
      == ExpressionToList("*", maxValue, minValue, n)
  {
    var d := Decimal(n);
    var e := "*/" + d;
    assert e == "*" + ['/'] + d;
    assert '/' !in d && ',' !in d by { DecimalPlain(n); }
    assert ',' !in e;
    assert !IsNumeric(e) by {
      assert !IsDigit(e[0]);
    }
    TryIntDecimal(n, maxValue, minValue);
    StepBranch(e, "*", d, maxValue, minValue, step);
  }

  /** `_try_int` reads a minus sign and then refuses the negative value. */
  lemma TryIntNegative(n: nat, maxValue: int, minValue: int)
    requires n > 0
    ensures TryInt("-" + Decimal(n), maxValue, minValue) == Err(OutOfBounds(0 - n, maxValue, minValue))
  {
    var rhs := "-" + Decimal(n);
    DecimalValue(n);
    assert rhs[1..] == Decimal(n);
  }

  // `*/-n` is read as a negative step, which the bounds check refuses.
  lemma StarNegativeStep(n: nat, maxValue: int, minValue: int, step: nat)
    requires n > 0
    ensures ExpressionToList("*/-" + Decimal(n), maxValue, minValue, step)
      == Err(OutOfBounds(0 - n, maxValue, minValue))
  {
    var d := Decimal(n);
    var rhs := "-" + d;
    var e := "*/-" + d;
    assert e == "*" + ['/'] + rhs;
    assert '/' !in rhs && ',' !in rhs by { DecimalPlain(n); }
    assert ',' !in e;
    assert !IsNumeric(e) by {
      assert !IsDigit(e[0]);
    }
    TryIntNegative(n, maxValue, minValue);
    StepBranch(e, "*", rhs, maxValue, minValue, step);
  }

  /** `a-b` selects the values from `a` to `b`, `step` apart, when both ends
      are within the bounds. Nothing checks that `a <= b`: otherwise the
      list is empty. */
  lemma RangeValues(a: nat, b: nat, maxValue: int, minValue: int, step: nat)
    requires minValue <= a <= maxValue && minValue <= b <= maxValue
    ensures ExpressionToList(Decimal(a) + "-" + Decimal(b), maxValue, minValue, step)
      == if step == 0 then Err(ZeroStep(Decimal(a) + "-" + Decimal(b))) else Ok(Range(a, b + 1, step))
  {
    var da, db := Decimal(a), Decimal(b);
    var e := da + "-" + db;
    assert e == da + ['-'] + db;
    assert '-' !in da && ',' !in da && '/' !in da by { DecimalPlain(a); }
    assert '-' !in db && ',' !in db && '/' !in db by { DecimalPlain(b); }
    assert ',' !in e && '/' !in e;
    assert e[|da|] == '-';
    assert !IsNumeric(e) by {
      assert !IsDigit(e[|da|]);
    }
    assert e != "*" by {
      assert e[0] == da[0];
      assert IsDigit(da[0]);
    }
    TryIntDecimal(a, maxValue, minValue);
    TryIntDecimal(b, maxValue, minValue);
    RangeBranch(e, da, db, maxValue, minValue, step);
  }

  /** `a-b/n` selects every `n`-th value from `a` to `b`. */
  lemma RangeStep(a: nat, b: nat, n: nat, maxValue: int, minValue: int, step: nat)
    requires minValue <= n <= maxValue
    ensures ExpressionToList(Decimal(a) + "-" + Decimal(b) + "/" + Decimal(n), maxValue, minValue, step)
      == ExpressionToList(Decimal(a) + "-" + Decimal(b), maxValue, minValue, n)
  {
    var da, db, dn := Decimal(a), Decimal(b), Decimal(n);
    var lhs := da + "-" + db;
    var e := lhs + "/" + dn;
    assert e == lhs + ['/'] + dn;
    assert '/' !in da && ',' !in da by { DecimalPlain(a); }
    assert '/' !in db && ',' !in db by { DecimalPlain(b); }
    assert '/' !in dn && ',' !in dn by { DecimalPlain(n); }
    assert '/' !in lhs && ',' !in e;
    assert e[|da|] == '-';
    assert !IsNumeric(e) by {
      assert !IsDigit(e[|da|]);
    }
    assert e != "*" by {
      assert e[0] == da[0];
      assert IsDigit(da[0]);
    }
    TryIntDecimal(n, maxValue, minValue);
    StepBranch(e, lhs, dn, maxValue, minValue, step);
  }

  /** A comma list denotes the union of its items, ascending and without
      duplicates, and fails with the error of its first failing item; the
      items are the comma-separated parts, each parsed on its own
      (`Items`). */
  lemma CommaUnion(expr: string, maxValue: int, minValue: int, step: nat)
    requires ',' in expr
    ensures var results := Items(Split(expr, ','), maxValue, minValue, step, |expr|);
      var r := ExpressionToList(expr, maxValue, minValue, step);
      && (r.Ok? <==> forall i :: 0 <= i < |results| ==> results[i].Ok?)
      && (r.Ok? ==> forall x :: x in r.value <==> exists i :: 0 <= i < |results| && x in results[i].value)
      && (r.Err? ==> exists i :: 0 <= i < |results| && results[i] == Err(r.error)
                             && forall j :: 0 <= j < i ==> results[j].Ok?)
  {
    CommaBranch(expr, maxValue, minValue, step);
    CollectSorted(Items(Split(expr, ','), maxValue, minValue, step, |expr|));
  }

  /** The comma branch of `_expression_to_list`. */
  lemma CommaBranch(expr: string, maxValue: int, minValue: int, step: nat)
    requires ',' in expr
    ensures ExpressionToList(expr, maxValue, minValue, step)
      == match Collect(Items(Split(expr, ','), maxValue, minValue, step, |expr|))
         case Err(e) => Err(e)
         case Ok(values) => Ok(SortedSet(values))
  {
  }

  /** Collecting and then sorting: succeeds when every sub-result does, holds
      the union of their values, and otherwise fails with the first error. */
  lemma CollectSorted(results: seq<Result<seq<int>>>)
    ensures var r := match Collect(results) case Err(e) => Err(e) case Ok(values) => Ok(SortedSet(values));
      && (r.Ok? <==> forall i :: 0 <= i < |results| ==> results[i].Ok?)
      && (r.Ok? ==> forall x :: x in r.value <==> exists i :: 0 <= i < |results| && x in results[i].value)
      && (r.Err? ==> exists i :: 0 <= i < |results| && results[i] == Err(r.error)
                             && forall j :: 0 <= j < i ==> results[j].Ok?)
  {
  }
}
