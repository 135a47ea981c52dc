/**
 * Z-score anomalies (`detectar_anomalias_zscore`, identical in the four
 * analyzers). The positions of a column whose value lies more than `thr`
 * sample standard deviations from the mean of the present values.
 *
 * The standard deviation is a square root, so the test |z| > thr is stated
 * on squares: (v - mu)² > thr² · var, with var the sample variance
 * (n - 1 denominator). ZScoreTest proves the two agree for any sigma whose
 * square is var.
 */
module Anomaly {
  import opened Wrappers
  import opened Stats

  /** |z| > thr for a value v, a mean mu and a positive variance, without the square root. */
  predicate Exceeds(v: real, mu: real, variance: real, thr: real)
  {
    thr < 0.0 || (v - mu) * (v - mu) > thr * thr * variance
  }

  /** Strictly increasing positions. */
  predicate StrictlyAscending(r: seq<nat>)
  {
    forall a, b :: 0 <= a < b < |r| ==> r[a] < r[b]
  }

  /** The positions of the present values of col that exceed the threshold, in order. */
  function Flagged(col: seq<Option<real>>, mu: real, variance: real, thr: real): (r: seq<nat>)
    ensures forall k :: 0 <= k < |r| ==> r[k] < |col|
  {
    if col == [] then []
    else
      var n := |col| - 1;
      Flagged(col[..n], mu, variance, thr)
      + (if col[n].Some? && Exceeds(col[n].value, mu, variance, thr) then [n] else [])
  }

  /** Flagged lists, in increasing order, exactly the positions whose present value exceeds. */
  lemma {:induction false} FlaggedExactly(col: seq<Option<real>>, mu: real, variance: real, thr: real)
    ensures StrictlyAscending(Flagged(col, mu, variance, thr))
    ensures forall i :: i in Flagged(col, mu, variance, thr) <==>
      0 <= i < |col| && col[i].Some? && Exceeds(col[i].value, mu, variance, thr)
  {
    if col != [] {
      var n := |col| - 1;
      var init := col[..n];
      FlaggedExactly(init, mu, variance, thr);
      assert forall i :: 0 <= i < n ==> init[i] == col[i];
    }
  }

  /**
   * `detectar_anomalias_zscore`: nothing when fewer than two values are
   * present (no values, or a single one whose sample deviation is NaN) or
   * when the deviation is zero; otherwise the positions whose present value
   * is more than thr deviations from the mean, in ascending order.
   */
  function ZScoreAnomalies(col: seq<Option<real>>, thr: real): (r: seq<nat>)
    ensures |Present(col)| < 2 ==> r == []
    ensures |Present(col)| >= 2 && Variance(Present(col)) == 0.0 ==> r == []
    ensures StrictlyAscending(r)
    ensures forall i :: i in r <==>
      && 0 <= i < |col| && col[i].Some?
      && |Present(col)| >= 2 && Variance(Present(col)) != 0.0
      && Exceeds(col[i].value, Mean(Present(col)), Variance(Present(col)), thr)
  {
    var xs := Present(col);
    if |xs| < 2 then []
    else if Variance(xs) == 0.0 then []
    else
      FlaggedExactly(col, Mean(xs), Variance(xs), thr);
      Flagged(col, Mean(xs), Variance(xs), thr)
  }

  // ---------------------------------------------------------------------
  // The squared test is the z-score test
  // ---------------------------------------------------------------------

  /** For non-negative numbers the order of the squares is the order of the numbers. */
  lemma SquaresOrdered(d: real, e: real)
    requires d >= 0.0 && e >= 0.0
    ensures d > e <==> d * d > e * e
  {
    if d > e {
      PositiveProduct(d - e, d + e);
      assert (d - e) * (d + e) == d * d - e * e;
    } else {
      var u, w := e - d, e + d;
      assert u * w >= 0.0 by {
        if u > 0.0 && w > 0.0 {
          PositiveProduct(u, w);
        }
      }
      assert u * w == e * e - d * d;
    }
  }

  lemma AbsSquare(x: real)
    ensures Abs(x) * Abs(x) == x * x
  {
  }

  /**
   * With sigma > 0 and sigma² = variance, the squared test says exactly that
   * the z-score (v - mu) / sigma exceeds thr in absolute value.
   */
  lemma ZScoreTest(v: real, mu: real, variance: real, thr: real, sigma: real)
    requires sigma > 0.0 && sigma * sigma == variance
    ensures Exceeds(v, mu, variance, thr) <==> Abs((v - mu) / sigma) > thr
  {
    var z := (v - mu) / sigma;
    var d := Abs(v - mu);
    assert z * sigma == v - mu;
    assert Abs(z) * sigma == d by {
      if z < 0.0 {
        assert (-z) * sigma == -(v - mu);
      }
    }
    if thr >= 0.0 {
      var e := thr * sigma;
      assert e >= 0.0 by {
        if thr > 0.0 {
          PositiveProduct(thr, sigma);
        }
      }
      SquaresOrdered(d, e);
      AbsSquare(v - mu);
      assert e * e == thr * thr * variance;
      ScaleOrder(Abs(z), thr, sigma);
    } else {
      assert Abs(z) >= 0.0;
    }
  }

  /** Multiplying both sides by a positive sigma keeps a strict order. */
  lemma ScaleOrder(a: real, b: real, sigma: real)
    requires sigma > 0.0
    ensures a > b <==> a * sigma > b * sigma
  {
    if a > b {
      PositiveProduct(a - b, sigma);
    } else {
      assert (b - a) * sigma >= 0.0 by {
        if b > a {
          PositiveProduct(b - a, sigma);
        }
      }
    }
  }

  // ---------------------------------------------------------------------
  // A constant series has zero deviation, and so no anomalies
  // ---------------------------------------------------------------------

  lemma QuotientZero(a: real, b: real)
    requires b > 0.0
    ensures a / b == 0.0 <==> a == 0.0
  {
    if a / b == 0.0 {
      assert a == (a / b) * b;
    }
  }

  /** The sample deviation is zero exactly when every value equals the mean. */
  lemma VarianceZeroIffConstant(xs: seq<real>)
    requires |xs| >= 2
    ensures Variance(xs) == 0.0 <==> forall i :: 0 <= i < |xs| ==> xs[i] == Mean(xs)
  {
    var m := Mean(xs);
    var s := SumSq(xs, m);
    QuotientZero(s, (|xs| - 1) as real);
    assert Variance(xs) == s / (|xs| - 1) as real;
    if forall i :: 0 <= i < |xs| ==> xs[i] == m {
      SumSqConstant(xs, m, m);
    } else {
      var i :| 0 <= i < |xs| && xs[i] != m;
      SumSqPositive(xs, m, i);
    }
  }

  /** So a column whose present values are all equal has no anomalies. */
  lemma ConstantColumnNoAnomalies(col: seq<Option<real>>, thr: real, c: real)
    requires forall i :: 0 <= i < |col| && col[i].Some? ==> col[i].value == c
    ensures ZScoreAnomalies(col, thr) == []
  {
    var xs := Present(col);
    if |xs| >= 2 {
      PresentConstant(col, c);
      SumSqConstant(xs, c, c);
      MeanOfConstant(xs, c);
      VarianceZeroIffConstant(xs);
    }
  }
}
