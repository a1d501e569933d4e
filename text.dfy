/** Text primitives used by the cron parser: Python's `str.split` with a
    one-character separator, its inverse `sep.join`, and the decimal-digit
    view of `str.isnumeric` / `int` restricted to ASCII digits. */
module Text {

  /** Position of the first `c` in `s`, or `|s|` when `s` has none. */
  function IndexOf(s: string, c: char): (i: nat)
    ensures i <= |s|
    ensures i < |s| <==> c in s
    ensures i < |s| ==> s[i] == c
    ensures c !in s[..i]
  {
    if |s| == 0 then 0
    else if s[0] == c then 0
    else
      assert s[1..][..IndexOf(s[1..], c)] == s[1..1 + IndexOf(s[1..], c)];
      1 + IndexOf(s[1..], c)
  }

  /** `s.split(sep)`: the maximal pieces of `s` between occurrences of `sep`. */
  function Split(s: string, sep: char): (parts: seq<string>)
    ensures |parts| >= 1
    ensures forall i :: 0 <= i < |parts| ==> sep !in parts[i]
    ensures sep in s ==> forall i :: 0 <= i < |parts| ==> |parts[i]| < |s|
    ensures sep !in s ==> parts == [s]
    decreases |s|
  {
    var i := IndexOf(s, sep);
    if i == |s| then [s] else [s[..i]] + Split(s[i + 1..], sep)
  }

  /** `sep.join(parts)`. */
  function Join(parts: seq<string>, sep: char): string
  {
    if |parts| == 0 then ""
    else if |parts| == 1 then parts[0]
    else parts[0] + [sep] + Join(parts[1..], sep)
  }

  /** `IndexOf` finds the first occurrence: a `c` at `k` with none before it. */
  lemma IndexOfAt(s: string, c: char, k: nat)
    requires k < |s| && s[k] == c && c !in s[..k]
    ensures IndexOf(s, c) == k
  {
  }

  /** Splitting at the first separator. */
  lemma SplitCons(p: string, t: string, sep: char)
    requires sep !in p
    ensures Split(p + [sep] + t, sep) == [p] + Split(t, sep)
  {
    var s := p + [sep] + t;
    assert s[..|p|] == p && s[|p|] == sep && s[|p| + 1..] == t;
    IndexOfAt(s, sep, |p|);
  }

  /** Joining a first piece onto a non-empty list of pieces. */
  lemma JoinCons(p: string, t: seq<string>, sep: char)
    requires |t| >= 1
    ensures Join([p] + t, sep) == p + [sep] + Join(t, sep)
  {
    assert ([p] + t)[1..] == t;
  }

  /** Splitting three separator-free pieces joined by the separator. */
  lemma SplitThree(a: string, b: string, c: string, sep: char)
    requires sep !in a && sep !in b && sep !in c
    ensures Split(a + [sep] + b + [sep] + c, sep) == [a, b, c]
  {
    assert [a, b, c][1..] == [b, c];
    assert [b, c][1..] == [c];
    assert Join([b, c], sep) == b + [sep] + c;
    assert Join([a, b, c], sep) == a + [sep] + (b + [sep] + c);
    assert a + [sep] + (b + [sep] + c) == a + [sep] + b + [sep] + c;
    SplitJoin([a, b, c], sep);
  }

  /** Joining the pieces of a split gives back the original text. */
  lemma {:induction false} JoinSplit(s: string, sep: char)
    ensures Join(Split(s, sep), sep) == s
    decreases |s|
  {
    var i := IndexOf(s, sep);
    if i < |s| {
      var rest := s[i + 1..];
      JoinSplit(rest, sep);
      JoinCons(s[..i], Split(rest, sep), sep);
      assert s == s[..i] + [sep] + rest;
    }
  }

  /** Splitting a join of separator-free pieces gives back the pieces. */
  lemma {:induction false} SplitJoin(parts: seq<string>, sep: char)
    requires |parts| >= 1
    requires forall i :: 0 <= i < |parts| ==> sep !in parts[i]
    ensures Split(Join(parts, sep), sep) == parts
  {
    if |parts| > 1 {
      SplitJoin(parts[1..], sep);
      SplitCons(parts[0], Join(parts[1..], sep), sep);
      assert parts == [parts[0]] + parts[1..];
    }
  }

  predicate IsDigit(c: char)
  {
    '0' <= c <= '9'
  }

  /** `s.isnumeric()` for ASCII text: non-empty and all decimal digits. */
  predicate IsNumeric(s: string)
    ensures IsNumeric(s) ==> '*' !in s && ',' !in s && '/' !in s && '-' !in s && ' ' !in s
  {
    |s| > 0 && forall i :: 0 <= i < |s| ==> IsDigit(s[i])
  }

  /** Decimal value of a string of digits, as `int` computes it. */
  function DigitsValue(s: string): nat
    requires forall i :: 0 <= i < |s| ==> IsDigit(s[i])
  {
    if |s| == 0 then 0
    else
      assert IsDigit(s[|s| - 1]);
      DigitsValue(s[..|s| - 1]) * 10 + (s[|s| - 1] as int - '0' as int)
  }

  /** What `int` accepts in this model: an optional `+` or `-` sign
      followed by decimal digits. */
  predicate IsIntLiteral(s: string)
  {
    IsNumeric(s) || (|s| > 1 && (s[0] == '+' || s[0] == '-') && IsNumeric(s[1..]))
  }

  /** `int(s)` for a literal `IsIntLiteral` accepts. */
  function IntValue(s: string): (r: int)
    requires IsIntLiteral(s)
    ensures s[0] != '-' ==> r >= 0
    ensures r < 0 <==> s[0] == '-' && IsNumeric(s[1..]) && DigitsValue(s[1..]) > 0
  {
    if s[0] == '-' then 0 - DigitsValue(s[1..])
    else if s[0] == '+' then DigitsValue(s[1..])
    else DigitsValue(s)
  }

  /** An unsigned digit string is read as its plain decimal value. */
  lemma NumericIntValue(s: string)
    requires IsNumeric(s)
    ensures IsIntLiteral(s) && IntValue(s) == DigitsValue(s)
  {
    assert IsDigit(s[0]);
  }

  /** `str(n)`: the shortest decimal spelling of `n`. */
  function Decimal(n: nat): (s: string)
    ensures IsNumeric(s)
    ensures |s| > 1 ==> s[0] != '0'
    decreases n
  {
    if n < 10 then [('0' as int + n) as char]
    else Decimal(n / 10) + [('0' as int + n % 10) as char]
  }

  /** `int(str(n)) == n`. */
  lemma {:induction false} DecimalValue(n: nat)
    ensures DigitsValue(Decimal(n)) == n
    decreases n
  {
    if n >= 10 {
      DecimalValue(n / 10);
      var s := Decimal(n);
      assert s[..|s| - 1] == Decimal(n / 10);
    }
  }

  /** `str(int(s)) == s` for every digit string without a leading zero. */
  lemma {:induction false} ValueDecimal(s: string)
    requires IsNumeric(s)
    requires |s| > 1 ==> s[0] != '0'
    ensures Decimal(DigitsValue(s)) == s
    decreases |s|
  {
    if |s| == 1 {
      assert Decimal(DigitsValue(s)) == [s[0]];
    } else {
      var init := s[..|s| - 1];
      assert init[0] == s[0];
      ValueDecimal(init);
      var n := DigitsValue(s);
      var d := s[|s| - 1] as int - '0' as int;
      assert n == DigitsValue(init) * 10 + d;
      assert n / 10 == DigitsValue(init) && n % 10 == d;
      DigitsPositive(init);
      assert n >= 10;
      assert s == init + [s[|s| - 1]];
    }
  }

  /** A digit string that does not start with `0` has a positive value. */
  lemma {:induction false} DigitsPositive(s: string)
    requires IsNumeric(s) && s[0] != '0'
    ensures DigitsValue(s) >= 1
    decreases |s|
  {
    if |s| > 1 {
      var init := s[..|s| - 1];
      assert init[0] == s[0];
      DigitsPositive(init);
    }
  }
}
