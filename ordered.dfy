/** Ascending integer lists: Python's `range(lo, hi, step)` and
    `sorted(set(...))`, the two ways the cron parser builds its value lists. */
module Ordered {

  /** Sorted with no duplicates. */
  predicate StrictlyAscending(s: seq<int>)
  {
    forall i, j :: 0 <= i < j < |s| ==> s[i] < s[j]
  }

  /** Every element lies in `[lo, hi]`. */
  predicate Within(s: seq<int>, lo: int, hi: int)
  {
    forall k :: 0 <= k < |s| ==> lo <= s[k] <= hi
  }

  /** `len(range(lo, hi, step))` for a positive step. */
  function RangeLength(lo: int, hi: int, step: int): nat
    requires step > 0
  {
    if lo >= hi then 0 else (hi - lo - 1) / step + 1
  }

  /** `list(range(lo, hi, step))` for a positive step: the values `lo`,
      `lo + step`, `lo + 2 * step`, ... that lie below `hi`. */
  function Range(lo: int, hi: int, step: int): (r: seq<int>)
    requires step > 0
    ensures |r| == RangeLength(lo, hi, step)
    ensures forall k :: 0 <= k < |r| ==> r[k] == lo + k * step
  {
    seq(RangeLength(lo, hi, step), k => lo + k * step)
  }

  lemma {:induction false} MulAtLeast(d: int, k: int)
    requires d > 0 && k >= 1
    ensures d * k >= d
    decreases k
  {
    if k > 1 {
      MulAtLeast(d, k - 1);
      assert d * k == d * (k - 1) + d;
    }
  }

  /** Multiplying by a positive number keeps the order. */
  lemma MulMono(d: int, a: int, b: int)
    requires d > 0 && a <= b
    ensures d * a <= d * b
  {
    if a < b {
      MulAtLeast(d, b - a);
      assert d * b - d * a == d * (b - a);
    }
  }

  /** The `k`-th value of a range is below `hi` exactly when `k` is below the
      range's length. */
  lemma RangeIndexBound(lo: int, hi: int, step: int, k: int)
    requires step > 0 && 0 <= k
    ensures k < RangeLength(lo, hi, step) <==> lo + k * step < hi
  {
    if lo < hi {
      var a := hi - lo - 1;
      var q := a / step;
      assert a == step * q + a % step;
      if k <= q {
        assert k * step <= step * q by {
          MulMono(step, k, q);
        }
      } else {
        assert k * step >= step * q + step by {
          MulMono(step, q + 1, k);
        }
      }
    } else {
      assert k * step >= 0 by {
        if k > 0 { MulAtLeast(step, k); }
      }
    }
  }

  /** A range is strictly ascending, lies in `[lo, hi)`, and starts at `lo`
      when it is not empty. */
  lemma RangeShape(lo: int, hi: int, step: int)
    requires step > 0
    ensures StrictlyAscending(Range(lo, hi, step))
    ensures Within(Range(lo, hi, step), lo, hi - 1)
    ensures lo < hi ==> |Range(lo, hi, step)| > 0 && Range(lo, hi, step)[0] == lo
  {
    var r := Range(lo, hi, step);
    forall i, j | 0 <= i < j < |r|
      ensures r[i] < r[j]
    {
      MulAtLeast(step, j - i);
      assert j * step - i * step == step * (j - i);
    }
    forall k | 0 <= k < |r|
      ensures lo <= r[k] <= hi - 1
    {
      RangeIndexBound(lo, hi, step, k);
      if k > 0 { MulAtLeast(step, k); }
    }
  }

  /** The members of a range are exactly the values `lo + k * step` below `hi`:
      those in `[lo, hi)` whose distance from `lo` is a multiple of the step. */
  lemma RangeMembers(lo: int, hi: int, step: int, x: int)
    requires step > 0
    ensures x in Range(lo, hi, step) <==> lo <= x < hi && (x - lo) % step == 0
  {
    var r := Range(lo, hi, step);
    if x in r {
      var k :| 0 <= k < |r| && r[k] == x;
      assert lo <= x < hi by {
        RangeIndexBound(lo, hi, step, k);
        if k > 0 { MulAtLeast(step, k); }
      }
      assert x - lo == step * k + 0;
      ModUnique(x - lo, step, k, 0);
    }
    if lo <= x < hi && (x - lo) % step == 0 {
      var k := (x - lo) / step;
      assert x - lo == step * k;
      assert lo + k * step == x;
      RangeIndexBound(lo, hi, step, k);
      assert r[k] == x;
    }
  }

  /** Euclidean remainder is determined by any quotient-remainder pair. */
  lemma ModUnique(a: int, d: int, q: int, r: int)
    requires d > 0 && 0 <= r < d && a == d * q + r
    ensures a % d == r
  {
    var q', r' := a / d, a % d;
    assert a == d * q' + r';
    assert d * (q - q') == r' - r;
    if q > q' { MulAtLeast(d, q - q'); }
    if q < q' { MulAtLeast(d, q' - q); }
  }

  /** `x` inserted into the strictly ascending list `s`, unless already there. */
  function Insert(x: int, s: seq<int>): (r: seq<int>)
    requires StrictlyAscending(s)
    ensures StrictlyAscending(r)
    ensures forall y :: y in r <==> y == x || y in s
    ensures |r| > 0 && (r[0] == x || (|s| > 0 && r[0] == s[0]))
  {
    if |s| == 0 then [x]
    else if x < s[0] then [x] + s
    else if x == s[0] then s
    else [s[0]] + Insert(x, s[1..])
  }

  /** `sorted(set(s))`: the members of `s` ascending, each once. */
  function SortedSet(s: seq<int>): (r: seq<int>)
    ensures StrictlyAscending(r)
    ensures forall x :: x in r <==> x in s
  {
    if |s| == 0 then []
    else
      assert s == [s[0]] + s[1..];
      Insert(s[0], SortedSet(s[1..]))
  }

  /** A strictly ascending list is determined by its members, so any
      implementation of `sorted(set(...))` yields the same list. */
  lemma {:induction false} AscendingUnique(a: seq<int>, b: seq<int>)
    requires StrictlyAscending(a) && StrictlyAscending(b)
    requires forall x :: x in a <==> x in b
    ensures a == b
    decreases |a|
  {
    if a != [] {
      var a0 := a[0];
      assert a0 in a;
      assert b != [];
    }
    if b != [] {
      var b0 := b[0];
      assert b0 in b;
      assert a != [];
    }
    if a != [] && b != [] {
      var a0, b0 := a[0], b[0];
      assert a0 in a && b0 in b;
      assert a0 == b0 by {
        var i :| 0 <= i < |b| && b[i] == a0;
        var j :| 0 <= j < |a| && a[j] == b0;
        assert a0 <= a[j] && b0 <= b[i];
      }
      forall x
        ensures x in a[1..] <==> x in b[1..]
      {
        if x in a[1..] {
          var i :| 1 <= i < |a| && a[i] == x;
          assert x in a;
          assert x != b0;
          assert x in b;
          var j :| 0 <= j < |b| && b[j] == x;
          assert j != 0;
          assert b[1..][j - 1] == x;
        }
        if x in b[1..] {
          var i :| 1 <= i < |b| && b[i] == x;
          assert x in b;
          assert x != a0;
          assert x in a;
          var j :| 0 <= j < |a| && a[j] == x;
          assert j != 0;
          assert a[1..][j - 1] == x;
        }
      }
      AscendingUnique(a[1..], b[1..]);
      assert a == [a0] + a[1..] && b == [b0] + b[1..];
    }
  }

  /** `sorted(set(s))` leaves an already strictly ascending list as it is. */
  lemma SortedSetAscending(s: seq<int>)
    requires StrictlyAscending(s)
    ensures SortedSet(s) == s
  {
    AscendingUnique(SortedSet(s), s);
  }
}
