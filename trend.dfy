/**
 * The linear trend of a channel against elapsed time
 * (`tendencia_linear_simples`). `np.polyfit(xs, ys, 1)` is modelled by the
 * closed-form ordinary least-squares line, which the normal equations
 * characterise; what is modelled closely is the guards in front of it.
 */
module Trend {
  import opened Wrappers
  import opened Stats

  /** The pair reported per channel; both None when no line is fitted. */
  datatype TrendLine = TrendLine(slopePerSecond: Option<real>, intercept: Option<real>)

  const NoTrend: TrendLine := TrendLine(None, None)

  /** The rows where both the timestamp and the value are present, in row order. */
  function Points(ts: seq<Option<nat>>, vs: seq<Option<real>>): (ps: seq<(nat, real)>)
    requires |ts| == |vs|
    ensures |ps| <= |ts|
  {
    if ts == [] then []
    else
      var n := |ts| - 1;
      Points(ts[..n], vs[..n]) + (if ts[n].Some? && vs[n].Some? then [(ts[n].value, vs[n].value)] else [])
  }

  /** Points holds exactly the rows with both fields present. */
  lemma {:induction false} PointsMembers(ts: seq<Option<nat>>, vs: seq<Option<real>>)
    requires |ts| == |vs|
    ensures forall i :: 0 <= i < |ts| && ts[i].Some? && vs[i].Some? ==> (ts[i].value, vs[i].value) in Points(ts, vs)
    ensures forall p :: p in Points(ts, vs) ==> exists i :: 0 <= i < |ts| && ts[i] == Some(p.0) && vs[i] == Some(p.1)
  {
    if ts != [] {
      var n := |ts| - 1;
      PointsMembers(ts[..n], vs[..n]);
      assert forall i :: 0 <= i < n ==> ts[..n][i] == ts[i] && vs[..n][i] == vs[i];
    }
  }

  function MinTime(ps: seq<(nat, real)>): (m: nat)
    requires ps != []
    ensures (exists i :: 0 <= i < |ps| && ps[i].0 == m) && forall i :: 0 <= i < |ps| ==> m <= ps[i].0
  {
    if |ps| == 1 then ps[0].0
    else
      var rest := MinTime(ps[..|ps| - 1]);
      assert forall i :: 0 <= i < |ps| - 1 ==> ps[..|ps| - 1][i] == ps[i];
      if ps[|ps| - 1].0 < rest then ps[|ps| - 1].0 else rest
  }

  function MaxTime(ps: seq<(nat, real)>): (m: nat)
    requires ps != []
    ensures (exists i :: 0 <= i < |ps| && ps[i].0 == m) && forall i :: 0 <= i < |ps| ==> ps[i].0 <= m
  {
    if |ps| == 1 then ps[0].0
    else
      var rest := MaxTime(ps[..|ps| - 1]);
      assert forall i :: 0 <= i < |ps| - 1 ==> ps[..|ps| - 1][i] == ps[i];
      if ps[|ps| - 1].0 > rest then ps[|ps| - 1].0 else rest
  }

  /** `np.ptp(xs)`: the spread of the elapsed seconds. */
  function Spread(ps: seq<(nat, real)>): nat
    requires ps != []
  {
    MaxTime(ps) - MinTime(ps)
  }

  /** Seconds since the earliest point (`(t - t.min()).total_seconds()`). */
  function Elapsed(ps: seq<(nat, real)>): (xs: seq<real>)
    requires ps != []
    ensures |xs| == |ps|
    ensures forall i :: 0 <= i < |ps| ==> xs[i] == (ps[i].0 - MinTime(ps)) as real
  {
    seq(|ps|, i requires 0 <= i < |ps| => (ps[i].0 - MinTime(ps)) as real)
  }

  function Values(ps: seq<(nat, real)>): (ys: seq<real>)
    ensures |ys| == |ps|
    ensures forall i :: 0 <= i < |ps| ==> ys[i] == ps[i].1
  {
    seq(|ps|, i requires 0 <= i < |ps| => ps[i].1)
  }

  // ---------------------------------------------------------------------
  // Least squares
  // ---------------------------------------------------------------------

  function SumProd(xs: seq<real>, ys: seq<real>): real
    requires |xs| == |ys|
  {
    if xs == [] then 0.0
    else SumProd(xs[..|xs| - 1], ys[..|ys| - 1]) + xs[|xs| - 1] * ys[|ys| - 1]
  }

  /** n * sum(x^2) - sum(x)^2, the determinant of the normal equations. */
  function Det(xs: seq<real>): real
  {
    |xs| as real * SumProd(xs, xs) - Sum(xs) * Sum(xs)
  }

  /**
   * The normal equations of the least-squares line y = a x + b, stated on
   * the sums n, Σx, Σy, Σx², Σxy: the residuals sum to zero and are
   * orthogonal to the abscissae.
   */
  predicate NormalEquations(n: real, sx: real, sy: real, sxx: real, sxy: real, a: real, b: real)
  {
    a * sx + n * b == sy && a * sxx + b * sx == sxy
  }

  /** The line (a, b) is a least-squares line of ys against xs. */
  predicate LeastSquares(xs: seq<real>, ys: seq<real>, a: real, b: real)
    requires |xs| == |ys|
  {
    NormalEquations(|xs| as real, Sum(xs), Sum(ys), SumProd(xs, xs), SumProd(xs, ys), a, b)
  }

  /** The slope solving the normal equations, from the sums n, Σx, Σy, Σx², Σxy. */
  function SlopeFrom(n: real, sx: real, sy: real, sxx: real, sxy: real): real
    requires n * sxx - sx * sx != 0.0
  {
    (n * sxy - sx * sy) / (n * sxx - sx * sx)
  }

  /** The intercept solving the first normal equation for a given slope. */
  function InterceptFrom(n: real, sx: real, sy: real, a: real): real
    requires n > 0.0
  {
    (sy - a * sx) / n
  }

  /** The least-squares slope of ys against xs. */
  function OlsSlope(xs: seq<real>, ys: seq<real>): real
    requires |xs| == |ys| && Det(xs) != 0.0
  {
    SlopeFrom(|xs| as real, Sum(xs), Sum(ys), SumProd(xs, xs), SumProd(xs, ys))
  }

  /** The least-squares intercept of ys against xs. */
  function OlsIntercept(xs: seq<real>, ys: seq<real>): real
    requires 0 < |xs| == |ys| && Det(xs) != 0.0
  {
    InterceptFrom(|xs| as real, Sum(xs), Sum(ys), OlsSlope(xs, ys))
  }

  lemma TimesQuotient(s: real, n: real)
    requires n != 0.0
    ensures n * (s / n) == s
  {
  }

  /** A number whose product with a non-zero d is p is the quotient p / d. */
  lemma QuotientOf(p: real, d: real, q: real)
    requires d != 0.0 && q * d == p
    ensures q == p / d
  {
  }

  lemma ProductSign(n: real, r: real)
    ensures n > 0.0 && r > 0.0 ==> n * r > 0.0
    ensures n > 0.0 && r < 0.0 ==> n * r < 0.0
  {
    if n > 0.0 && r < 0.0 {
      assert n * (-r) > 0.0;
    }
  }

  lemma NonZeroProduct(n: real, r: real)
    requires n > 0.0 && n * r == 0.0
    ensures r == 0.0
  {
    ProductSign(n, r);
  }

  /** The closed form solves the normal equations. */
  lemma SolvesNormalEquations(n: real, sx: real, sy: real, sxx: real, sxy: real)
    requires n > 0.0 && n * sxx - sx * sx != 0.0
    ensures var a := SlopeFrom(n, sx, sy, sxx, sxy);
            NormalEquations(n, sx, sy, sxx, sxy, a, InterceptFrom(n, sx, sy, a))
  {
    var d := n * sxx - sx * sx;
    var a := SlopeFrom(n, sx, sy, sxx, sxy);
    var b := InterceptFrom(n, sx, sy, a);
    TimesQuotient(n * sxy - sx * sy, d);
    TimesQuotient(sy - a * sx, n);
    assert a * d == n * sxy - sx * sy;
    assert n * b == sy - a * sx;
    var r := sxy - a * sxx - b * sx;
    assert n * r == n * sxy - a * (n * sxx) - (n * b) * sx;
    assert n * r == n * sxy - sx * sy - a * d;
    NonZeroProduct(n, r);
  }

  /** The closed form is the only solution of the normal equations. */
  lemma NormalEquationsUnique(n: real, sx: real, sy: real, sxx: real, sxy: real, a: real, b: real)
    requires n > 0.0 && n * sxx - sx * sx != 0.0
    requires NormalEquations(n, sx, sy, sxx, sxy, a, b)
    ensures a == SlopeFrom(n, sx, sy, sxx, sxy) && b == InterceptFrom(n, sx, sy, a)
  {
    var d := n * sxx - sx * sx;
    assert n * (a * sxx + b * sx) - sx * (a * sx + n * b) == n * sxy - sx * sy;
    assert a * d == n * sxy - sx * sy;
    QuotientOf(n * sxy - sx * sy, d, a);
    assert b * n == sy - a * sx;
    QuotientOf(sy - a * sx, n, b);
  }

  /** The fitted line of ys against xs is a least-squares line. */
  lemma OlsIsLeastSquares(xs: seq<real>, ys: seq<real>)
    requires 0 < |xs| == |ys| && Det(xs) != 0.0
    ensures LeastSquares(xs, ys, OlsSlope(xs, ys), OlsIntercept(xs, ys))
  {
    SolvesNormalEquations(|xs| as real, Sum(xs), Sum(ys), SumProd(xs, xs), SumProd(xs, ys));
  }

  /** ... and the only one. */
  lemma OlsUnique(xs: seq<real>, ys: seq<real>, a: real, b: real)
    requires 0 < |xs| == |ys| && Det(xs) != 0.0
    requires LeastSquares(xs, ys, a, b)
    ensures a == OlsSlope(xs, ys) && b == OlsIntercept(xs, ys)
  {
    NormalEquationsUnique(|xs| as real, Sum(xs), Sum(ys), SumProd(xs, xs), SumProd(xs, ys), a, b);
  }

  // ---------------------------------------------------------------------
  // A positive spread makes the normal equations solvable
  // ---------------------------------------------------------------------

  lemma SumSqStep(s: real, sxx: real, sx: real, n: real, c: real, x: real,
                  s': real, sxx': real, sx': real, n': real)
    requires s == sxx - 2.0 * c * sx + n * c * c
    requires s' == s + (x - c) * (x - c) && sxx' == sxx + x * x && sx' == sx + x && n' == n + 1.0
    ensures s' == sxx' - 2.0 * c * sx' + n' * c * c
  {
  }

  /** Expanding the squared deviations from c. */
  lemma {:induction false} SumSqExpand(xs: seq<real>, c: real)
    ensures SumSq(xs, c) == SumProd(xs, xs) - 2.0 * c * Sum(xs) + |xs| as real * c * c
  {
    if xs == [] {
      SumSqExpandEmpty(xs, c);
    } else {
      var init := xs[..|xs| - 1];
      SumSqExpand(init, c);
      SumSqStep(SumSq(init, c), SumProd(init, init), Sum(init), |init| as real, c, xs[|xs| - 1],
                SumSq(xs, c), SumProd(xs, xs), Sum(xs), |xs| as real);
    }
  }

  lemma SumSqExpandEmpty(xs: seq<real>, c: real)
    requires xs == []
    ensures SumSq(xs, c) == SumProd(xs, xs) - 2.0 * c * Sum(xs) + |xs| as real * c * c
  {
    assert SumSq(xs, c) == 0.0 && SumProd(xs, xs) == 0.0 && Sum(xs) == 0.0;
  }

  lemma DetAlgebra(n: real, sxx: real, sx: real, c: real, s: real)
    requires n > 0.0 && n * c == sx
    requires s == sxx - 2.0 * c * sx + n * c * c
    ensures n * s == n * sxx - sx * sx
    ensures s > 0.0 ==> n * sxx - sx * sx > 0.0
  {
    assert n * s == n * sxx - 2.0 * (n * c) * sx + (n * c) * (n * c);
    if s > 0.0 {
      ScaledPositive(n * sxx - sx * sx, n, s);
    }
  }

  /** With c the mean written as n * c == Σx, the determinant is n times the squared deviations from c. */
  lemma DetScaled(xs: seq<real>, n: real, c: real)
    requires n == |xs| as real && n > 0.0 && n * c == Sum(xs)
    ensures Det(xs) == n * SumSq(xs, c)
    ensures SumSq(xs, c) > 0.0 ==> Det(xs) > 0.0
  {
    SumSqExpand(xs, c);
    DetAlgebra(n, SumProd(xs, xs), Sum(xs), c, SumSq(xs, c));
  }

  /** The mean, as a number c with n * c == Σx. */
  lemma Centre(xs: seq<real>) returns (c: real)
    requires xs != []
    ensures |xs| as real * c == Sum(xs)
  {
    c := Mean(xs);
    TimesQuotient(Sum(xs), |xs| as real);
  }

  /** Two different abscissae make the determinant positive. */
  lemma DetPositive(xs: seq<real>, i: nat, j: nat)
    requires i < |xs| && j < |xs| && xs[i] != xs[j]
    ensures Det(xs) > 0.0
  {
    var n := |xs| as real;
    var c := Centre(xs);
    DetScaled(xs, n, c);
    SumSqPositive(xs, c, if xs[i] != c then i else j);
  }

  lemma ScaledPositive(p: real, n: real, s: real)
    requires p == n * s && n > 0.0 && s > 0.0
    ensures p > 0.0
  {
    calc {
      p;
    ==
      n * s;
    > { PositiveProduct(n, s); }
      0.0;
    }
  }

  /** A positive spread of the timestamps makes the elapsed seconds vary. */
  lemma SpreadDet(ps: seq<(nat, real)>)
    requires ps != [] && Spread(ps) > 0
    ensures Det(Elapsed(ps)) > 0.0
  {
    var xs := Elapsed(ps);
    var lo, hi := MinTime(ps), MaxTime(ps);
    var i :| 0 <= i < |ps| && ps[i].0 == lo;
    var j :| 0 <= j < |ps| && ps[j].0 == hi;
    assert xs[i] == 0.0;
    assert xs[j] == (hi - lo) as real;
    DetPositive(xs, i, j);
  }

  // ---------------------------------------------------------------------
  // The guarded fit
  // ---------------------------------------------------------------------

  /** What the fit of one channel comes to. */
  datatype Fit = TooFewPoints | ZeroSpread | Fitted(slope: real, intercept: real)

  /**
   * The line through the (elapsed seconds, value) pairs: fewer than two
   * points and a zero spread of the timestamps are refused before any
   * fitting; otherwise the least-squares line.
   */
  function FitLine(ts: seq<Option<nat>>, vs: seq<Option<real>>): (f: Fit)
    requires |ts| == |vs|
    ensures f.TooFewPoints? <==> |Points(ts, vs)| < 2
    ensures f.ZeroSpread? <==> |Points(ts, vs)| >= 2 && Spread(Points(ts, vs)) == 0
    ensures f.Fitted? ==>
              var ps := Points(ts, vs);
              |ps| >= 2 && Spread(ps) > 0 && LeastSquares(Elapsed(ps), Values(ps), f.slope, f.intercept)
  {
    var ps := Points(ts, vs);
    if |ps| < 2 then TooFewPoints
    else if Spread(ps) == 0 then ZeroSpread
    else
      var xs, ys := Elapsed(ps), Values(ps);
      SpreadDet(ps);
      OlsIsLeastSquares(xs, ys);
      Fitted(OlsSlope(xs, ys), OlsIntercept(xs, ys))
  }

  /**
   * The trend pair of the current, power and demand analyzers: both None
   * when fewer than two points are usable or their timestamps do not
   * vary, the fitted line otherwise.
   */
  function GuardedTrend(ts: seq<Option<nat>>, vs: seq<Option<real>>): (r: TrendLine)
    requires |ts| == |vs|
    ensures r == NoTrend <==> |Points(ts, vs)| < 2 || Spread(Points(ts, vs)) == 0
    ensures r.slopePerSecond.Some? <==> r.intercept.Some?
    ensures r.slopePerSecond.Some? ==>
              var ps := Points(ts, vs);
              |ps| >= 2 && Spread(ps) > 0 &&
              LeastSquares(Elapsed(ps), Values(ps), r.slopePerSecond.value, r.intercept.value)
  {
    match FitLine(ts, vs)
    case Fitted(a, b) => TrendLine(Some(a), Some(b))
    case _ => NoTrend
  }

  /**
   * The trend pair of the voltage analyzer, which has no guard against a
   * zero spread: the fit then fails (Failure) and the whole analysis with it.
   */
  function PlainTrend(ts: seq<Option<nat>>, vs: seq<Option<real>>): (r: Result<TrendLine, string>)
    requires |ts| == |vs|
    ensures r.Failure? <==> |Points(ts, vs)| >= 2 && Spread(Points(ts, vs)) == 0
    ensures r.Success? && |Points(ts, vs)| < 2 ==> r.value == NoTrend
    ensures r.Success? ==> r.value == GuardedTrend(ts, vs)
  {
    match FitLine(ts, vs)
    case TooFewPoints => Success(NoTrend)
    case ZeroSpread => Failure("polyfit: singular least-squares system")
    case Fitted(a, b) => Success(TrendLine(Some(a), Some(b)))
  }
}
