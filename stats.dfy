/**
 * Per-channel statistics and the median, over a column with missing values.
 * Standard deviation is represented by its square, the sample variance with
 * the n-1 denominator that pandas' `std()` uses.
 */
module Stats {
  import opened Wrappers
  import opened Frames

  /** `dropna()`: the present values of a column, in order. */
  function Present(xs: seq<Option<real>>): (r: seq<real>)
    ensures |r| <= |xs|
  {
    if xs == [] then []
    else Present(xs[..|xs| - 1]) + (if xs[|xs| - 1].Some? then [xs[|xs| - 1].value] else [])
  }

  lemma {:induction false} PresentMembers(xs: seq<Option<real>>)
    ensures forall i :: 0 <= i < |xs| && xs[i].Some? ==> xs[i].value in Present(xs)
    ensures forall v :: v in Present(xs) ==> Some(v) in xs
    ensures |Present(xs)| == 0 <==> forall i :: 0 <= i < |xs| ==> xs[i].None?
  {
    if xs != [] {
      var init := xs[..|xs| - 1];
      PresentMembers(init);
      assert forall i :: 0 <= i < |init| ==> init[i] == xs[i];
      assert forall v :: Some(v) in init ==> Some(v) in xs;
    }
  }

  function Abs(x: real): real { if x < 0.0 then -x else x }

  function Sum(xs: seq<real>): real
  {
    if xs == [] then 0.0 else Sum(xs[..|xs| - 1]) + xs[|xs| - 1]
  }

  function MinOf(xs: seq<real>): (m: real)
    requires xs != []
    ensures m in xs && forall i :: 0 <= i < |xs| ==> m <= xs[i]
  {
    if |xs| == 1 then xs[0]
    else
      var rest := MinOf(xs[..|xs| - 1]);
      assert forall i :: 0 <= i < |xs| - 1 ==> xs[..|xs| - 1][i] == xs[i];
      if xs[|xs| - 1] < rest then xs[|xs| - 1] else rest
  }

  function MaxOf(xs: seq<real>): (m: real)
    requires xs != []
    ensures m in xs && forall i :: 0 <= i < |xs| ==> xs[i] <= m
  {
    if |xs| == 1 then xs[0]
    else
      var rest := MaxOf(xs[..|xs| - 1]);
      assert forall i :: 0 <= i < |xs| - 1 ==> xs[..|xs| - 1][i] == xs[i];
      if xs[|xs| - 1] > rest then xs[|xs| - 1] else rest
  }

  function Mean(xs: seq<real>): real
    requires xs != []
  {
    Sum(xs) / |xs| as real
  }

  /** The sum of squared deviations from c. */
  function SumSq(xs: seq<real>, c: real): real
  {
    if xs == [] then 0.0 else SumSq(xs[..|xs| - 1], c) + (xs[|xs| - 1] - c) * (xs[|xs| - 1] - c)
  }

  /** The sample variance (n - 1 denominator). */
  function Variance(xs: seq<real>): real
    requires |xs| >= 2
  {
    SumSq(xs, Mean(xs)) / (|xs| - 1) as real
  }

  lemma {:induction false} SumBounds(xs: seq<real>, lo: real, hi: real)
    requires forall i :: 0 <= i < |xs| ==> lo <= xs[i] <= hi
    ensures |xs| as real * lo <= Sum(xs) <= |xs| as real * hi
  {
    if xs != [] {
      var init := xs[..|xs| - 1];
      assert forall i :: 0 <= i < |init| ==> init[i] == xs[i];
      SumBounds(init, lo, hi);
      BoundsStep(|init| as real, Sum(init), xs[|xs| - 1], lo, hi, |xs| as real, Sum(xs));
    }
  }

  lemma BoundsStep(m: real, s: real, x: real, lo: real, hi: real, m': real, s': real)
    requires m * lo <= s <= m * hi && lo <= x <= hi
    requires m' == m + 1.0 && s' == s + x
    ensures m' * lo <= s' <= m' * hi
  {
    assert m' * lo == m * lo + lo;
    assert m' * hi == m * hi + hi;
  }

  lemma SquareNonNegative(d: real)
    ensures d * d >= 0.0
    ensures d != 0.0 ==> d * d > 0.0
  {
    if d > 0.0 {
      PositiveProduct(d, d);
    } else if d < 0.0 {
      PositiveProduct(-d, -d);
      assert d * d == (-d) * (-d);
    }
  }

  lemma PositiveProduct(a: real, b: real)
    requires a > 0.0 && b > 0.0
    ensures a * b > 0.0
  {
  }

  /** Dividing both sides of n * a <= s <= n * b by a positive n. */
  lemma DivideBounds(a: real, s: real, b: real, n: real)
    requires n > 0.0 && n * a <= s <= n * b
    ensures a <= s / n <= b
  {
    var q := s / n;
    assert n * q == s;
    assert n * (q - a) >= 0.0;
    assert n * (b - q) >= 0.0;
  }

  /** The mean lies between the minimum and the maximum. */
  lemma MeanBetween(xs: seq<real>)
    requires xs != []
    ensures MinOf(xs) <= Mean(xs) <= MaxOf(xs)
  {
    var n, s, lo, hi := |xs| as real, Sum(xs), MinOf(xs), MaxOf(xs);
    SumBounds(xs, lo, hi);
    DivideBounds(lo, s, hi, n);
    assert Mean(xs) == s / n;
  }

  /** The sample variance is never negative. */
  lemma VarianceNonNegative(xs: seq<real>)
    ensures |xs| >= 2 ==> Variance(xs) >= 0.0
  {
    if |xs| < 2 { return; }
    var s, d := SumSq(xs, Mean(xs)), (|xs| - 1) as real;
    SumSqNonNegative(xs, Mean(xs));
    QuotientNonNegative(s, d);
    assert Variance(xs) == s / d;
  }

  lemma QuotientNonNegative(a: real, b: real)
    requires a >= 0.0 && b > 0.0
    ensures a / b >= 0.0
  {
  }

  lemma {:induction false} SumSqNonNegative(xs: seq<real>, c: real)
    ensures SumSq(xs, c) >= 0.0
  {
    if xs != [] {
      SumSqNonNegative(xs[..|xs| - 1], c);
      SquareNonNegative(xs[|xs| - 1] - c);
    }
  }

  /** Adding the square of a non-zero difference increases a sum. */
  lemma AddSquareOfDifference(s: real, x: real, c: real, d: real)
    requires d == x - c && d != 0.0
    ensures s + (x - c) * (x - c) > s
  {
    calc {
      s + (x - c) * (x - c);
    ==
      s + d * d;
    >
      s;
    }
  }

  /** One value away from c makes the squared deviations from c positive. */
  lemma {:induction false} SumSqPositive(xs: seq<real>, c: real, i: nat)
    requires i < |xs| && xs[i] != c
    ensures SumSq(xs, c) > 0.0
  {
    var init, x := xs[..|xs| - 1], xs[|xs| - 1];
    if i == |xs| - 1 {
      SumSqNonNegative(init, c);
      calc {
        SumSq(xs, c);
      ==
        SumSq(init, c) + (x - c) * (x - c);
      > { AddSquareOfDifference(SumSq(init, c), x, c, x - c); }
        SumSq(init, c);
      >=
        0.0;
      }
    } else {
      assert init[i] == xs[i];
      SumSqPositive(init, c, i);
      SquareNonNegative(x - c);
    }
  }

  lemma {:induction false} PresentConstant(col: seq<Option<real>>, c: real)
    requires forall i :: 0 <= i < |col| && col[i].Some? ==> col[i].value == c
    ensures forall k :: 0 <= k < |Present(col)| ==> Present(col)[k] == c
  {
    if col != [] {
      var init := col[..|col| - 1];
      assert forall i :: 0 <= i < |init| ==> init[i] == col[i];
      PresentConstant(init, c);
    }
  }

  lemma {:induction false} SumConstant(xs: seq<real>, c: real)
    requires forall i :: 0 <= i < |xs| ==> xs[i] == c
    ensures Sum(xs) == |xs| as real * c
  {
    if xs != [] {
      SumConstant(xs[..|xs| - 1], c);
    }
  }

  /** The squared deviations of a constant sequence from m. */
  lemma {:induction false} SumSqConstant(xs: seq<real>, c: real, m: real)
    requires forall i :: 0 <= i < |xs| ==> xs[i] == c
    ensures SumSq(xs, m) == |xs| as real * ((c - m) * (c - m))
  {
    if xs != [] {
      SumSqConstant(xs[..|xs| - 1], c, m);
    }
  }

  lemma MeanOfConstant(xs: seq<real>, c: real)
    requires xs != [] && forall i :: 0 <= i < |xs| ==> xs[i] == c
    ensures Mean(xs) == c
  {
    SumConstant(xs, c);
    var n := |xs| as real;
    assert Mean(xs) == (n * c) / n;
  }

  /** Every present value of a column lies between the minimum and the maximum of the present values. */
  lemma PresentBetween(col: seq<Option<real>>)
    requires Present(col) != []
    ensures forall i :: 0 <= i < |col| && col[i].Some? ==> MinOf(Present(col)) <= col[i].value <= MaxOf(Present(col))
  {
    var xs := Present(col);
    PresentMembers(col);
    forall i | 0 <= i < |col| && col[i].Some? ensures MinOf(xs) <= col[i].value <= MaxOf(xs) {
      var k :| 0 <= k < |xs| && xs[k] == col[i].value;
    }
  }

  /** One row of a statistics table (`estatisticas_por_fase` and its copies). */
  datatype Summary = Summary(
    channel: string,
    mean: Option<real>,
    variance: Option<real>,
    min: Option<real>,
    max: Option<real>,
    count: nat)

  /**
   * The statistics of one column. All of them are None and the count is 0
   * when the column has no present value; the count is the number of present
   * values; the variance (pandas' NaN, so None) needs two samples; and
   * min <= mean <= max.
   */
  function Summarize(channel: string, col: seq<Option<real>>): (s: Summary)
    ensures s.channel == channel
    ensures s.count == |Present(col)|
    ensures s.count == 0 <==> forall i :: 0 <= i < |col| ==> col[i].None?
    ensures s.mean.None? <==> s.count == 0
    ensures s.min.None? <==> s.count == 0
    ensures s.max.None? <==> s.count == 0
    ensures s.variance.Some? <==> s.count >= 2
    ensures s.count > 0 ==> s.min.value <= s.mean.value <= s.max.value
    ensures s.count > 0 ==> forall i :: 0 <= i < |col| && col[i].Some? ==> s.min.value <= col[i].value <= s.max.value
    ensures s.variance.Some? ==> s.variance.value >= 0.0
    ensures s.count > 0 ==> s.mean == Some(Mean(Present(col))) && s.min == Some(MinOf(Present(col))) && s.max == Some(MaxOf(Present(col)))
    ensures s.variance.Some? ==> s.variance.value == Variance(Present(col))
  {
    var xs := Present(col);
    PresentMembers(col);
    if xs == [] then Summary(channel, None, None, None, None, 0)
    else
      MeanBetween(xs);
      VarianceNonNegative(xs);
      PresentBetween(col);
      Summary(channel, Some(Mean(xs)), if |xs| >= 2 then Some(Variance(xs)) else None,
              Some(MinOf(xs)), Some(MaxOf(xs)), |xs|)
  }

  /**
   * The statistics table: one row per channel, in channel order, each
   * computed from that channel's column alone (an absent column is all
   * missing, so it gets None statistics and count 0).
   */
  method SummaryTable(rows: seq<Row>, channels: seq<string>) returns (table: seq<Summary>)
    ensures |table| == |channels|
    ensures forall k :: 0 <= k < |channels| ==> table[k] == Summarize(channels[k], Column(rows, channels[k]))
  {
    table := [];
    var k := 0;
    while k < |channels|
      invariant 0 <= k <= |channels|
      invariant |table| == k
      invariant forall j :: 0 <= j < k ==> table[j] == Summarize(channels[j], Column(rows, channels[j]))
    {
      table := table + [Summarize(channels[k], Column(rows, channels[k]))];
      k := k + 1;
    }
  }

  // ---------------------------------------------------------------------
  // Median
  // ---------------------------------------------------------------------

  predicate Ascending(s: seq<real>)
  {
    forall i, j :: 0 <= i < j < |s| ==> s[i] <= s[j]
  }

  function InsertAsc(x: real, s: seq<real>): (r: seq<real>)
    ensures |r| == |s| + 1
  {
    if s == [] || x <= s[0] then [x] + s else [s[0]] + InsertAsc(x, s[1..])
  }

  function SortAsc(xs: seq<real>): (r: seq<real>)
    ensures |r| == |xs|
  {
    if xs == [] then [] else InsertAsc(xs[0], SortAsc(xs[1..]))
  }

  lemma {:induction false} InsertAscPermutes(x: real, s: seq<real>)
    ensures multiset(InsertAsc(x, s)) == multiset(s) + multiset{x}
  {
    if s != [] && !(x <= s[0]) {
      assert s == [s[0]] + s[1..];
      InsertAscPermutes(x, s[1..]);
    }
  }

  lemma AscendingCons(x: real, s: seq<real>)
    requires Ascending(s)
    requires forall k :: 0 <= k < |s| ==> x <= s[k]
    ensures Ascending([x] + s)
  {
    var c := [x] + s;
    forall i, j | 0 <= i < j < |c| ensures c[i] <= c[j] {
      if i == 0 {
        assert c[j] == s[j - 1];
      } else {
        assert c[i] == s[i - 1] && c[j] == s[j - 1];
      }
    }
  }

  lemma {:induction false} InsertAscSorted(x: real, s: seq<real>)
    requires Ascending(s)
    ensures Ascending(InsertAsc(x, s))
  {
    if s == [] {
    } else if x <= s[0] {
      AscendingCons(x, s);
    } else {
      var tail := s[1..];
      assert Ascending(tail) by {
        forall i, j | 0 <= i < j < |tail| ensures tail[i] <= tail[j] {
          assert tail[i] == s[i + 1] && tail[j] == s[j + 1];
        }
      }
      InsertAscSorted(x, tail);
      InsertAscPermutes(x, tail);
      var ins := InsertAsc(x, tail);
      forall k | 0 <= k < |ins| ensures s[0] <= ins[k] {
        assert ins[k] in multiset(ins);
        if ins[k] != x {
          assert ins[k] in multiset(tail);
          var m :| 0 <= m < |tail| && tail[m] == ins[k];
          assert tail[m] == s[m + 1];
        }
      }
      AscendingCons(s[0], ins);
    }
  }

  /** Sorting gives an ascending permutation. */
  lemma {:induction false} SortAscCorrect(xs: seq<real>)
    ensures multiset(SortAsc(xs)) == multiset(xs)
    ensures |SortAsc(xs)| == |xs|
    ensures Ascending(SortAsc(xs))
  {
    if xs != [] {
      SortAscCorrect(xs[1..]);
      InsertAscSorted(xs[0], SortAsc(xs[1..]));
      InsertAscPermutes(xs[0], SortAsc(xs[1..]));
      assert xs == [xs[0]] + xs[1..];
    }
  }

  /** pandas' `median()`: the middle value, or the mean of the two middle values. */
  function Median(xs: seq<real>): real
    requires xs != []
  {
    SortAscCorrect(xs);
    var s := SortAsc(xs);
    var n := |s|;
    if n % 2 == 1 then s[n / 2] else (s[n / 2 - 1] + s[n / 2]) / 2.0
  }

  /** The median lies between the smallest and the largest value. */
  lemma MedianBetween(xs: seq<real>)
    requires xs != []
    ensures MinOf(xs) <= Median(xs) <= MaxOf(xs)
  {
    SortAscCorrect(xs);
    var s := SortAsc(xs);
    var n := |s|;
    forall k | 0 <= k < n ensures MinOf(xs) <= s[k] <= MaxOf(xs) {
      assert s[k] in multiset(s);
      assert s[k] in multiset(xs);
      var m :| 0 <= m < |xs| && xs[m] == s[k];
    }
    if n % 2 == 0 {
      assert MinOf(xs) <= s[n / 2 - 1] && s[n / 2] <= MaxOf(xs);
    }
  }

  /**
   * At least half of the values are at most the median and at least half
   * are at least the median (counted on the sorted order).
   */
  lemma MedianSplits(xs: seq<real>)
    requires xs != []
    ensures forall k :: 0 <= k < (|xs| + 1) / 2 ==> SortAsc(xs)[k] <= Median(xs)
    ensures forall k :: |xs| / 2 <= k < |xs| ==> Median(xs) <= SortAsc(xs)[k]
  {
    SortAscCorrect(xs);
    MedianBetweenMiddles(xs);
    var s, m := SortAsc(xs), Median(xs);
    var n := |s|;
    forall k | 0 <= k < (n + 1) / 2 ensures s[k] <= m {
      AscendingAt(s, k, (n - 1) / 2);
    }
    forall k | n / 2 <= k < n ensures m <= s[k] {
      AscendingAt(s, n / 2, k);
    }
  }

  lemma AscendingAt(s: seq<real>, i: nat, j: nat)
    requires Ascending(s) && i <= j < |s|
    ensures s[i] <= s[j]
  {
  }

  /** The median lies between the two middle values of the sorted order (the same one when n is odd). */
  lemma MedianBetweenMiddles(xs: seq<real>)
    requires xs != []
    ensures |SortAsc(xs)| == |xs|
    ensures SortAsc(xs)[(|xs| - 1) / 2] <= Median(xs) <= SortAsc(xs)[|xs| / 2]
  {
    SortAscCorrect(xs);
    var s := SortAsc(xs);
    var n := |s|;
    if n % 2 == 1 {
      assert (n - 1) / 2 == n / 2;
      assert Median(xs) == s[n / 2];
    } else {
      assert (n - 1) / 2 == n / 2 - 1;
      assert Median(xs) == (s[n / 2 - 1] + s[n / 2]) / 2.0;
      assert s[n / 2 - 1] <= s[n / 2];
    }
  }

  /** The present values of several columns, pooled in channel order. */
  function Pooled(rows: seq<Row>, channels: seq<string>): (r: seq<real>)
  {
    if channels == [] then []
    else Pooled(rows, channels[..|channels| - 1]) + Present(Column(rows, channels[|channels| - 1]))
  }

  /** The pool is empty exactly when every channel is entirely missing. */
  lemma {:induction false} PooledEmpty(rows: seq<Row>, channels: seq<string>)
    ensures Pooled(rows, channels) == [] <==>
      forall k, i :: 0 <= k < |channels| && 0 <= i < |rows| ==> Cell(rows[i], channels[k]).None?
  {
    if channels != [] {
      var init := channels[..|channels| - 1];
      var c := channels[|channels| - 1];
      PooledEmpty(rows, init);
      PresentMembers(Column(rows, c));
      assert forall k :: 0 <= k < |init| ==> init[k] == channels[k];
    }
  }
}
