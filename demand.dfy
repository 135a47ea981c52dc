/**
 * The demand-profile analyzer (`analyze_records_demanda`): the demand series
 * and its statistics, the hourly or daily buckets, the hour-of-day and
 * day-of-week profiles, the top peaks, the trend and anomalies of the
 * buckets, and drop/peak events against the buckets' median.
 */
module Demand {
  import opened Wrappers
  import opened Records
  import opened Frames
  import opened Stats
  import opened Limits
  import opened Trend
  import opened Anomaly
  import opened Output
  import opened DemandSeries

  const DateColumn: string := "data_inc"

  /** The parsed-timestamp column the analyzer adds to the frame. */
  const ParsedDateColumn: string := "data_inc_dt"

  const DemandLabels: Labels := Labels("queda_demanda", "pico_demanda")

  /** The label `field_used` gives to the row-wise sum of the phases. */
  const PhaseSumLabel: string := "soma_fases"

  /** The number of peaks reported. */
  const PeakCount: nat := 5

  /** The bucket means, one per bucket, None for an empty bucket. */
  function Means(b: seq<Bucket>): (ms: seq<Option<real>>)
    ensures |ms| == |b|
    ensures forall k :: 0 <= k < |b| ==> ms[k] == b[k].mean
  {
    seq(|b|, k requires 0 <= k < |b| => b[k].mean)
  }

  // ---------------------------------------------------------------------
  // Peaks (`top_n_picos`)
  // ---------------------------------------------------------------------

  /** One peak: the start of a bucket and its mean. */
  datatype Peak = Peak(start: nat, value: real)

  predicate Descending(s: seq<Peak>)
  {
    forall i, j :: 0 <= i < j < |s| ==> s[i].value >= s[j].value
  }

  /** `series.dropna()`: the buckets that have a mean, in bucket order. */
  function PresentBuckets(b: seq<Bucket>): (ps: seq<Peak>)
    ensures |ps| <= |b|
  {
    if b == [] then []
    else
      var n := |b| - 1;
      PresentBuckets(b[..n]) + (if b[n].mean.Some? then [Peak(b[n].start, b[n].mean.value)] else [])
  }

  /** The present buckets are exactly the buckets with a mean. */
  lemma {:induction false} PresentBucketsMembers(b: seq<Bucket>)
    ensures forall k :: 0 <= k < |b| && b[k].mean.Some? ==> Peak(b[k].start, b[k].mean.value) in PresentBuckets(b)
    ensures forall p :: p in PresentBuckets(b) ==> exists k :: 0 <= k < |b| && b[k].start == p.start && b[k].mean == Some(p.value)
  {
    if b != [] {
      var n := |b| - 1;
      PresentBucketsMembers(b[..n]);
      assert forall k :: 0 <= k < n ==> b[..n][k] == b[k];
    }
  }

  /** Inserts a peak into a descending sequence before the first smaller-or-equal value. */
  function InsertDesc(p: Peak, s: seq<Peak>): (r: seq<Peak>)
    ensures multiset(r) == multiset(s) + multiset{p}
    ensures |r| == |s| + 1
  {
    if s == [] || p.value >= s[0].value then [p] + s
    else
      assert s == [s[0]] + s[1..];
      [s[0]] + InsertDesc(p, s[1..])
  }

  /** Inserting into a descending sequence keeps it descending. */
  lemma {:induction false} InsertDescSorted(p: Peak, s: seq<Peak>)
    requires Descending(s)
    ensures Descending(InsertDesc(p, s))
    ensures InsertDesc(p, s)[0] == p || (s != [] && InsertDesc(p, s)[0] == s[0])
  {
    if s != [] && p.value < s[0].value {
      var rest := InsertDesc(p, s[1..]);
      InsertDescSorted(p, s[1..]);
      var r := [s[0]] + rest;
      forall i, j | 0 <= i < j < |r|
        ensures r[i].value >= r[j].value
      {
        if i == 0 && j > 1 {
          assert r[j] == rest[j - 1] && rest[0].value <= s[0].value;
        }
      }
    }
  }

  /** `sort_values(ascending=False)`: the same peaks, largest first. */
  function SortDesc(s: seq<Peak>): (r: seq<Peak>)
    ensures multiset(r) == multiset(s)
    ensures |r| == |s|
    ensures Descending(r)
  {
    if s == [] then []
    else
      assert s == [s[0]] + s[1..];
      var rest := SortDesc(s[1..]);
      InsertDescSorted(s[0], rest);
      InsertDesc(s[0], rest)
  }

  function Min(a: nat, b: nat): nat
  {
    if a < b then a else b
  }

  /** `.head(n)` of the sorted present buckets. */
  function Peaks(b: seq<Bucket>, n: nat): seq<Peak>
  {
    var s := SortDesc(PresentBuckets(b));
    s[..Min(n, |s|)]
  }

  /**
   * The peaks are min(n, number of buckets with a mean) of those buckets,
   * largest first, each taken from the buckets at most as often as it occurs
   * there, and every bucket left out is no larger than any bucket chosen.
   */
  lemma PeaksCorrect(b: seq<Bucket>, n: nat)
    ensures |Peaks(b, n)| == Min(n, |PresentBuckets(b)|)
    ensures Descending(Peaks(b, n))
    ensures multiset(Peaks(b, n)) <= multiset(PresentBuckets(b))
    ensures forall p, q :: p in multiset(PresentBuckets(b)) - multiset(Peaks(b, n)) && q in Peaks(b, n) ==> p.value <= q.value
  {
    var s := SortDesc(PresentBuckets(b));
    var m := Min(n, |s|);
    PrefixSplit(s, m);
    PrefixDominates(s, m);
  }

  /** In a descending sequence, everything after a prefix is at most everything in it. */
  lemma PrefixDominates(s: seq<Peak>, m: nat)
    requires Descending(s) && m <= |s|
    ensures forall p, q :: p in multiset(s[m..]) && q in s[..m] ==> p.value <= q.value
  {
    forall p, q | p in multiset(s[m..]) && q in s[..m]
      ensures p.value <= q.value
    {
      var i :| 0 <= i < |s[m..]| && s[m..][i] == p;
      var j :| 0 <= j < m && s[..m][j] == q;
      assert s[m + i] == p && s[j] == q;
    }
  }

  /** A prefix and its rest split the multiset of a sequence. */
  lemma PrefixSplit(s: seq<Peak>, m: nat)
    requires m <= |s|
    ensures multiset(s[..m]) <= multiset(s)
    ensures multiset(s) - multiset(s[..m]) == multiset(s[m..])
  {
    assert s == s[..m] + s[m..];
  }

  /** Every peak is the start and mean of a bucket. */
  lemma PeaksFromBuckets(b: seq<Bucket>, n: nat)
    ensures forall q :: q in Peaks(b, n) ==> exists k :: 0 <= k < |b| && b[k].start == q.start && b[k].mean == Some(q.value)
  {
    var s := SortDesc(PresentBuckets(b));
    PresentBucketsMembers(b);
    forall q | q in Peaks(b, n)
      ensures q in PresentBuckets(b)
    {
      assert q in multiset(s);
    }
  }

  /**
   * `top_n_picos`: the list of the n largest bucket means, built by walking
   * the sorted buckets; an empty series gives no peak.
   */
  method TopPeaks(b: seq<Bucket>, n: nat) returns (top: seq<Peak>)
    ensures top == Peaks(b, n)
    ensures |top| == Min(n, |PresentBuckets(b)|)
    ensures Descending(top)
    ensures multiset(top) <= multiset(PresentBuckets(b))
    ensures forall p, q :: p in multiset(PresentBuckets(b)) - multiset(top) && q in top ==> p.value <= q.value
  {
    if b == [] {
      top := [];
    } else {
      var sorted := SortDesc(PresentBuckets(b));
      var m := Min(n, |sorted|);
      top := [];
      var i := 0;
      while i < m
        invariant 0 <= i <= m
        invariant top == sorted[..i]
      {
        top := top + [sorted[i]];
        i := i + 1;
      }
    }
    PeaksCorrect(b, n);
  }

  // ---------------------------------------------------------------------
  // Events against the median of the buckets
  // ---------------------------------------------------------------------

  /** `float(series_agg.median())`: the median of the bucket means, None when no bucket has one. */
  function DemandLevel(b: seq<Bucket>): (r: Option<real>)
    ensures r.None? <==> forall k :: 0 <= k < |b| ==> b[k].mean.None?
    ensures r.Some? <==> Present(Means(b)) != []
    ensures r.Some? ==> MinOf(Present(Means(b))) <= r.value <= MaxOf(Present(Means(b)))
  {
    var xs := Present(Means(b));
    PresentNonEmpty(Means(b));
    if xs == [] then None
    else
      MedianBetween(xs);
      Some(Median(xs))
  }

  /** One out-of-limit bucket: its start, its mean and the tag. */
  datatype DemandEvent = DemandEvent(start: nat, value: real, kind: string)

  /** The event of one bucket, if its mean is outside the band. */
  function BucketEvent(bk: Bucket, nominal: real, tol: real): seq<DemandEvent>
  {
    match Classify(bk.mean, nominal, tol)
    case Some(Under) => [DemandEvent(bk.start, bk.mean.value, DemandLabels.under)]
    case Some(Over) => [DemandEvent(bk.start, bk.mean.value, DemandLabels.over)]
    case _ => []
  }

  /** The events of the buckets, in bucket order. */
  function BucketEvents(b: seq<Bucket>, nominal: real, tol: real): (es: seq<DemandEvent>)
    ensures |es| <= |b|
  {
    if b == [] then []
    else BucketEvents(b[..|b| - 1], nominal, tol) + BucketEvent(b[|b| - 1], nominal, tol)
  }

  /** What it means for e to be the event of bucket bk. */
  predicate EventOf(e: DemandEvent, bk: Bucket, nominal: real, tol: real)
  {
    && bk.mean.Some? && e.start == bk.start && e.value == bk.mean.value
    && ((bk.mean.value < Low(nominal, tol) && e.kind == "queda_demanda")
        || (!(bk.mean.value < Low(nominal, tol)) && bk.mean.value > High(nominal, tol) && e.kind == "pico_demanda"))
  }

  /**
   * Every event belongs to a bucket whose mean lies strictly below the low
   * bound (a drop) or, failing that, strictly above the high bound (a
   * peak); empty buckets give none.
   */
  lemma {:induction false} BucketEventsSound(b: seq<Bucket>, nominal: real, tol: real)
    ensures forall e :: e in BucketEvents(b, nominal, tol) ==> exists k :: 0 <= k < |b| && EventOf(e, b[k], nominal, tol)
  {
    if b != [] {
      var n := |b| - 1;
      BucketEventsSound(b[..n], nominal, tol);
      assert forall k :: 0 <= k < n ==> b[..n][k] == b[k];
      assert forall e :: e in BucketEvent(b[n], nominal, tol) ==> EventOf(e, b[n], nominal, tol);
    }
  }

  /** Every bucket whose mean is outside the band gets its event. */
  lemma {:induction false} BucketEventsComplete(b: seq<Bucket>, nominal: real, tol: real)
    ensures forall k :: 0 <= k < |b| && b[k].mean.Some? && Classify(b[k].mean, nominal, tol) != Some(Within) ==>
              exists e :: e in BucketEvents(b, nominal, tol) && EventOf(e, b[k], nominal, tol)
  {
    if b != [] {
      var n := |b| - 1;
      BucketEventsComplete(b[..n], nominal, tol);
      assert forall k :: 0 <= k < n ==> b[..n][k] == b[k];
      var last := BucketEvent(b[n], nominal, tol);
      if b[n].mean.Some? && Classify(b[n].mean, nominal, tol) != Some(Within) {
        assert last != [] && EventOf(last[0], b[n], nominal, tol);
        assert last[0] in BucketEvents(b, nominal, tol);
      }
    }
  }

  /**
   * The event loop: nothing when no bucket has a mean; otherwise each
   * bucket with a mean is compared with the band around the median, in
   * bucket order.
   */
  method DetectDemandEvents(b: seq<Bucket>, tol: real) returns (events: seq<DemandEvent>)
    ensures DemandLevel(b).None? ==> events == []
    ensures DemandLevel(b).Some? ==> events == BucketEvents(b, DemandLevel(b).value, tol)
  {
    events := [];
    var level := DemandLevel(b);
    if level.None? {
      return;
    }
    var nominal := level.value;
    var k := 0;
    while k < |b|
      invariant 0 <= k <= |b|
      invariant events == BucketEvents(b[..k], nominal, tol)
    {
      BucketEventsStep(b, k, nominal, tol);
      events := events + BucketEvent(b[k], nominal, tol);
      k := k + 1;
    }
    assert b[..|b|] == b;
  }

  lemma BucketEventsStep(b: seq<Bucket>, k: nat, nominal: real, tol: real)
    requires k < |b|
    ensures BucketEvents(b[..k + 1], nominal, tol) == BucketEvents(b[..k], nominal, tol) + BucketEvent(b[k], nominal, tol)
  {
    assert b[..k + 1][..k] == b[..k];
  }

  // ---------------------------------------------------------------------
  // Anomalies of the buckets
  // ---------------------------------------------------------------------

  /** Bucket k's mean lies more than thr standard deviations from the mean of the bucket means. */
  predicate Anomalous(b: seq<Bucket>, k: int, thr: real)
  {
    var xs := Present(Means(b));
    && 0 <= k < |b| && b[k].mean.Some? && |xs| >= 2 && Variance(xs) != 0.0
    && Exceeds(b[k].mean.value, Mean(xs), Variance(xs), thr)
  }

  /**
   * `detectar_anomalias_zscore(series_agg)`: the labels of the flagged
   * buckets, that is, their start instants, in bucket order.
   */
  function AnomalyStarts(b: seq<Bucket>, thr: real): (r: seq<nat>)
  {
    var pos := ZScoreAnomalies(Means(b), thr);
    seq(|pos|, j requires 0 <= j < |pos| => b[pos[j]].start)
  }

  /** The anomaly labels are the starts of exactly the anomalous buckets. */
  lemma AnomalyStartsExact(b: seq<Bucket>, thr: real)
    ensures forall k :: Anomalous(b, k, thr) ==> b[k].start in AnomalyStarts(b, thr)
    ensures forall t :: t in AnomalyStarts(b, thr) ==> exists k :: Anomalous(b, k, thr) && b[k].start == t
  {
    var pos := ZScoreAnomalies(Means(b), thr);
    var r := AnomalyStarts(b, thr);
    AnomalousExactly(b, thr);
    forall k | Anomalous(b, k, thr)
      ensures b[k].start in r
    {
      var j :| 0 <= j < |pos| && pos[j] == k;
      assert r[j] == b[k].start;
    }
    forall t | t in r
      ensures exists k :: Anomalous(b, k, thr) && b[k].start == t
    {
      var j :| 0 <= j < |r| && r[j] == t;
      assert pos[j] in pos;
    }
  }

  /** With bucket starts in increasing order, the labels come in increasing order. */
  lemma AnomalyStartsAscending(b: seq<Bucket>, thr: real)
    requires forall i, j :: 0 <= i < j < |b| ==> b[i].start < b[j].start
    ensures StrictlyAscending(AnomalyStarts(b, thr))
  {
  }

  /** The positions the z-score test flags on the bucket means are the anomalous buckets. */
  lemma AnomalousExactly(b: seq<Bucket>, thr: real)
    ensures forall k :: k in ZScoreAnomalies(Means(b), thr) <==> Anomalous(b, k, thr)
  {
  }

  /**
   * The anomalies as `anomalias_indices` promises them: the positions of the
   * anomalous buckets in the aggregated series, ascending, one per label the
   * code collects.
   */
  function AnomalyPositions(b: seq<Bucket>, thr: real): (r: seq<nat>)
    ensures StrictlyAscending(r)
    ensures forall k :: k in r <==> Anomalous(b, k, thr)
    ensures |r| == |AnomalyStarts(b, thr)|
    ensures forall j :: 0 <= j < |r| ==> r[j] < |b| && AnomalyStarts(b, thr)[j] == b[r[j]].start
  {
    AnomalousExactly(b, thr);
    ZScoreAnomalies(Means(b), thr)
  }

  /** Every value present: nothing is dropped. */
  lemma {:induction false} PresentAllSome(col: seq<Option<real>>)
    requires forall i :: 0 <= i < |col| ==> col[i].Some?
    ensures |Present(col)| == |col|
  {
    if col != [] {
      PresentAllSome(col[..|col| - 1]);
    }
  }

  /** Ten zeros and an eleven: mean 1, sample variance 110 / 10 = 11. */
  lemma SpikeMoments()
    ensures var xs := Present(SpikeMeans());
            |xs| == 11 && Mean(xs) == 1.0 && Variance(xs) == 11.0
  {
    var ms := SpikeMeans();
    var init := ms[..10];
    assert forall i :: 0 <= i < 10 ==> init[i] == Some(0.0);
    var zs := Present(init);
    var xs := Present(ms);
    assert xs == zs + [11.0];
    PresentAllSome(init);
    PresentConstant(init, 0.0);
    SumConstant(zs, 0.0);
    assert xs[..10] == zs;
    assert Sum(xs) == 11.0;
    SumSqConstant(zs, 0.0, 1.0);
    assert SumSq(xs, 1.0) == 110.0;
  }

  /** The bucket means of the spike: ten hourly zeros, then 11. */
  function SpikeMeans(): (ms: seq<Option<real>>)
    ensures |ms| == 11 && ms[10] == Some(11.0)
    ensures forall k :: 0 <= k < 10 ==> ms[k] == Some(0.0)
  {
    seq(11, k requires 0 <= k < 11 => Some(if k == 10 then 11.0 else 0.0))
  }

  /** Eleven hourly buckets from the epoch carrying the spike's means. */
  function SpikeBuckets(): (b: seq<Bucket>)
    ensures |b| == 11 && Means(b) == SpikeMeans()
    ensures forall k :: 0 <= k < 11 ==> b[k].start == k * SecondsPerHour
  {
    var b := seq(11, k requires 0 <= k < 11 => Bucket(k * SecondsPerHour, SpikeMeans()[k]));
    assert Means(b) == SpikeMeans();
    b
  }

  /**
   * Eleven hourly buckets, ten with mean 0 and one with mean 11: the last
   * lies more than three deviations from the mean ((11 - 1)² = 100 > 9 · 11)
   * and is the only one flagged. Its label is an instant, so the analysis as
   * written raises (see AnalyzeRows).
   */
  lemma FlaggedBucketRaises()
    ensures forall k :: k in AnomalyPositions(SpikeBuckets(), 3.0) <==> k == 10
    ensures AnomalyStarts(SpikeBuckets(), 3.0) != []
    ensures 10 * SecondsPerHour in AnomalyStarts(SpikeBuckets(), 3.0)
  {
    var b := SpikeBuckets();
    SpikeMoments();
    assert Anomalous(b, 10, 3.0);
    forall k | 0 <= k < 10
      ensures !Anomalous(b, k, 3.0)
    {
      assert b[k].mean == Some(0.0);
    }
    AnomalyStartsExact(b, 3.0);
  }

  // ---------------------------------------------------------------------
  // The trend of the buckets
  // ---------------------------------------------------------------------

  /** The bucket starts as the instants of a trend fit. */
  function Starts(b: seq<Bucket>): (ts: seq<Option<nat>>)
    ensures |ts| == |b|
    ensures forall k :: 0 <= k < |b| ==> ts[k] == Some(b[k].start)
  {
    seq(|b|, k requires 0 <= k < |b| => Some(b[k].start))
  }

  /** An index label: a position (a RangeIndex) or an instant (a DatetimeIndex). */
  datatype Label = Position(i: nat) | Instant(t: nat)

  /** The labels of `pd.Series(index_agg)`: positions 0, 1, ... */
  function TimeLabels(b: seq<Bucket>): (ls: seq<Label>)
    ensures |ls| == |b| && forall k :: 0 <= k < |b| ==> ls[k] == Position(k)
  {
    seq(|b|, k requires 0 <= k < |b| => Position(k))
  }

  /** The labels of `series_agg`: the bucket starts. */
  function ValueLabels(b: seq<Bucket>): (ls: seq<Label>)
    ensures |ls| == |b| && forall k :: 0 <= k < |b| ==> ls[k] == Instant(b[k].start)
  {
    seq(|b|, k requires 0 <= k < |b| => Instant(b[k].start))
  }

  /** The labels of xs that also label ys: where a label-aligned `&` can be true. */
  function Shared(xs: seq<Label>, ys: seq<Label>): (r: seq<Label>)
    ensures forall l :: l in r ==> l in xs && l in ys
  {
    if xs == [] then []
    else Shared(xs[..|xs| - 1], ys) + (if xs[|xs| - 1] in ys then [xs[|xs| - 1]] else [])
  }

  /**
   * The trend as written: the mask combines a series labelled by position
   * with one labelled by instant, so it is true only on labels the two
   * share, and fewer than two true entries give the null pair.
   */
  function AggregateTrendAsWritten(b: seq<Bucket>): TrendLine
  {
    if |Shared(TimeLabels(b), ValueLabels(b))| < 2 then NoTrend
    else AggregateTrend(b)
  }

  /** No position label is an instant label, so the mask is empty for every series. */
  lemma AsWrittenNeverFits(b: seq<Bucket>)
    ensures Shared(TimeLabels(b), ValueLabels(b)) == []
    ensures AggregateTrendAsWritten(b) == NoTrend
  {
    NoCommonLabel(b);
    SharedDisjoint(TimeLabels(b), ValueLabels(b));
  }

  /** Disjoint label sequences share nothing. */
  lemma {:induction false} SharedDisjoint(xs: seq<Label>, ys: seq<Label>)
    requires forall l :: l in xs ==> l !in ys
    ensures Shared(xs, ys) == []
  {
    if xs != [] {
      var n := |xs| - 1;
      assert forall l :: l in xs[..n] ==> l in xs;
      SharedDisjoint(xs[..n], ys);
      assert xs[n] in xs;
    }
  }

  lemma NoCommonLabel(b: seq<Bucket>)
    ensures forall l :: l in TimeLabels(b) ==> l !in ValueLabels(b)
  {
    forall l | l in TimeLabels(b)
      ensures l !in ValueLabels(b)
    {
      assert l.Position?;
    }
  }

  /** Two hourly buckets with different means: a line fits, yet the trend as written is the null pair. */
  lemma AsWrittenMissesTrend()
    ensures var b := [Bucket(0, Some(1.0)), Bucket(3600, Some(2.0))];
            AggregateTrendAsWritten(b) == NoTrend && AggregateTrend(b) != NoTrend
  {
    var b := [Bucket(0, Some(1.0)), Bucket(3600, Some(2.0))];
    AsWrittenNeverFits(b);
    AggregateTrendFits(b, 0, 1);
  }

  /** The trend of the bucket means over the bucket starts. */
  function AggregateTrend(b: seq<Bucket>): (r: TrendLine)
    ensures r == NoTrend <==> |Points(Starts(b), Means(b))| < 2 || Spread(Points(Starts(b), Means(b))) == 0
    ensures r.slopePerSecond.Some? <==> r.intercept.Some?
    ensures r.slopePerSecond.Some? ==>
              var ps := Points(Starts(b), Means(b));
              |ps| >= 2 && LeastSquares(Elapsed(ps), Values(ps), r.slopePerSecond.value, r.intercept.value)
  {
    GuardedTrend(Starts(b), Means(b))
  }

  /** Two buckets with a mean and different starts are enough for a line. */
  lemma AggregateTrendFits(b: seq<Bucket>, i: nat, j: nat)
    requires i < |b| && j < |b| && b[i].start < b[j].start
    requires b[i].mean.Some? && b[j].mean.Some?
    ensures AggregateTrend(b) != NoTrend
  {
    var ts, vs := Starts(b), Means(b);
    var ps := Points(ts, vs);
    PointsMembers(ts, vs);
    var p, q := (b[i].start, b[i].mean.value), (b[j].start, b[j].mean.value);
    assert p in ps && q in ps;
    assert p != q;
    assert |ps| >= 2;
    var a :| 0 <= a < |ps| && ps[a] == p;
    var c :| 0 <= c < |ps| && ps[c] == q;
    assert MinTime(ps) <= b[i].start && b[j].start <= MaxTime(ps);
  }

  // ---------------------------------------------------------------------
  // The `field_used` label
  // ---------------------------------------------------------------------

  /** `field_used` as written: the chosen column, otherwise the phase-sum label. */
  function FieldUsedAsWritten(chosen: Option<string>): Option<string>
  {
    match chosen
    case Some(c) => Some(c)
    case None => Some(PhaseSumLabel)
  }

  /** With only an apparent-power phase column, the series is that column, yet it is labelled the phase sum. */
  lemma FieldUsedMislabels()
    ensures var columns := {"potencia_ap_1"};
            var chosen := ChooseDemandField(columns, None);
            && SourceOf(columns, chosen) == Alternate("potencia_ap_1")
            && FieldUsedAsWritten(chosen) == Some(PhaseSumLabel)
  {
    var columns := {"potencia_ap_1"};
    var chosen := ChooseDemandField(columns, None);
    assert chosen.None?;
    assert forall k :: 0 <= k < |ActivePhases| ==> ActivePhases[k] !in columns;
    assert Alternates[3] == "potencia_ap_3" && Alternates[2] == "potencia_ap_2";
    assert "potencia_ap_tot" !in columns;
  }

  /**
   * The label of the data the series was taken from: the column for a single
   * column, the phase-sum label for the sum, and None when nothing was found.
   */
  function SourceLabel(src: DemandSource): (l: Option<string>)
    ensures l.None? <==> src.NoSource?
    ensures l == Some(PhaseSumLabel) <==> src.PhaseSum? || (!src.NoSource? && !src.PhaseSum? && src.name == PhaseSumLabel)
    ensures src.Field? || src.Alternate? ==> l == Some(src.name)
  {
    match src
    case Field(c) => Some(c)
    case Alternate(c) => Some(c)
    case PhaseSum(_) => Some(PhaseSumLabel)
    case NoSource => None
  }

  /**
   * The label names the data the series holds: the named column when it is
   * one, and it agrees with the label as written whenever the series comes
   * from the chosen column or from the phase sum.
   */
  lemma SourceLabelDescribes(rows: seq<Row>, columns: set<string>, chosen: Option<string>)
    requires chosen.Some? ==> chosen.value in columns
    ensures var src := SourceOf(columns, chosen);
            SourceLabel(src).Some? && SourceLabel(src) != Some(PhaseSumLabel) ==>
              DemandValues(rows, src) == Column(rows, SourceLabel(src).value)
    ensures var src := SourceOf(columns, chosen);
            src.Field? || src.PhaseSum? ==> SourceLabel(src) == FieldUsedAsWritten(chosen)
    ensures var src := SourceOf(columns, chosen);
            SourceLabel(src).None? ==> forall i :: 0 <= i < |rows| ==> DemandValues(rows, src)[i].None?
  {
    var src := SourceOf(columns, chosen);
    if src.PhaseSum? {
      assert !src.Field?;
      assert chosen.None?;
    }
  }

  // ---------------------------------------------------------------------
  // The analysis
  // ---------------------------------------------------------------------

  /** The `meta` block of the demand analyzer. */
  datatype DemandMeta = DemandMeta(
    records: nat,
    periodStart: Option<nat>,
    periodEnd: Option<nat>,
    fieldUsed: Option<string>,
    tol: real,
    parsed: nat,
    invalid: nat)

  function DemandMetaOf(rows: seq<Row>, fieldUsed: Option<string>, tol: real): (m: DemandMeta)
    ensures m.records == |rows| == m.parsed + m.invalid
    ensures m.periodStart.None? <==> m.parsed == 0
    ensures m.periodEnd.None? <==> m.parsed == 0
    ensures m.periodStart.Some? ==> m.periodStart.value <= m.periodEnd.value
    ensures m.fieldUsed == fieldUsed && m.tol == tol
  {
    var base := MetaOf(rows, None, tol);
    DemandMeta(base.records, base.periodStart, base.periodEnd, fieldUsed, tol, base.parsed, base.invalid)
  }

  /** The analysis of one batch. */
  datatype Report = Report(
    meta: DemandMeta,
    stats: Summary,
    hourly: seq<ProfileEntry>,
    daily: seq<ProfileEntry>,
    aggregated: seq<Bucket>,
    peaks: seq<Peak>,
    trend: TrendLine,
    anomalies: seq<nat>,
    events: seq<DemandEvent>)

  /** The frame of a batch: normalised records, timestamps from `data_inc`, sorted. */
  function DemandFrame(input: Json, parsers: Parsers): Frame
  {
    BuildFrame(Flatten(input), parsers.number, parsers.instant, DateColumn)
  }

  /** The column `escolher_campo_demanda` picks in a frame, given the requested field. */
  function FrameChosen(f: Frame, fieldName: Option<string>): Option<string>
  {
    ChooseDemandField(f.columns + {ParsedDateColumn}, fieldName)
  }

  /** Where the demand of a frame comes from, given the requested field. */
  function FrameSource(f: Frame, fieldName: Option<string>): DemandSource
  {
    SourceOf(f.columns + {ParsedDateColumn}, FrameChosen(f, fieldName))
  }

  /**
   * The report of a sorted frame, part by part, as the code writes it:
   * `field_used` is the label as written and the trend is the trend as
   * written (see the findings for both).
   */
  predicate Describes(rep: Report, rows: seq<Row>, chosen: Option<string>, src: DemandSource, agg: string, tol: real, thr: real)
  {
    var series := DemandValues(rows, src);
    var ps := Points(Times(rows), series);
    var b := Aggregate(rows, series, Width(agg));
    && rep.meta == DemandMetaOf(rows, FieldUsedAsWritten(chosen), tol)
    && rep.stats == Summarize("demanda", series)
    && rep.hourly == Profile(ps, HourOfDay)
    && rep.daily == Profile(ps, DayOfWeek)
    && rep.aggregated == b
    && rep.peaks == Peaks(b, PeakCount)
    && rep.trend == AggregateTrendAsWritten(b)
    && rep.anomalies == AnomalyStarts(b, thr)
    && (DemandLevel(b).None? ==> rep.events == [])
    && (DemandLevel(b).Some? ==> rep.events == BucketEvents(b, DemandLevel(b).value, tol))
  }

  /** The aggregated series of a sorted frame once the demand source is known. */
  function Buckets(rows: seq<Row>, src: DemandSource, agg: string): seq<Bucket>
  {
    Aggregate(rows, DemandValues(rows, src), Width(agg))
  }

  /**
   * The analysis of a sorted frame once the chosen column and the demand
   * source are known. It raises as soon as a bucket is flagged: the labels
   * of the aggregated series are instants, which `int` does not accept.
   * Otherwise the report describes the frame, with the null trend and no
   * anomalies.
   */
  method AnalyzeRows(rows: seq<Row>, chosen: Option<string>, src: DemandSource, agg: string, tol: real, thr: real)
    returns (r: Result<Report, string>)
    ensures r.Failure? <==> AnomalyStarts(Buckets(rows, src, agg), thr) != []
    ensures r.Success? ==> Describes(r.value, rows, chosen, src, agg, tol, thr)
    ensures r.Success? ==> r.value.trend == NoTrend && r.value.anomalies == []
    ensures r.Success? ==> r.value.meta.fieldUsed.Some?
  {
    var series := DemandValues(rows, src);
    var stats := Summarize("demanda", series);
    var b := Aggregate(rows, series, Width(agg));
    var ps := Points(Times(rows), series);
    var hourly := Profile(ps, HourOfDay);
    var daily := Profile(ps, DayOfWeek);
    var peaks := TopPeaks(b, PeakCount);
    var trend := AggregateTrendAsWritten(b);
    AsWrittenNeverFits(b);
    var anomalies := AnomalyStarts(b, thr);
    if anomalies != [] {
      r := Failure("int() of a Timestamp label");
      return;
    }
    var events := DetectDemandEvents(b, tol);
    r := Success(Report(DemandMetaOf(rows, FieldUsedAsWritten(chosen), tol), stats, hourly, daily, b, peaks, trend, anomalies, events));
  }

  /** The shape of a report that describes a frame: its label, profiles, buckets and peaks. */
  lemma DescribedShape(rep: Report, rows: seq<Row>, chosen: Option<string>, src: DemandSource, agg: string, tol: real, thr: real)
    requires Describes(rep, rows, chosen, src, agg, tol, thr)
    ensures rep.meta.records == |rows|
    ensures rep.meta.fieldUsed == (if chosen.Some? then chosen else Some(PhaseSumLabel))
    ensures rep.trend == NoTrend
    ensures |rep.hourly| == 0 || |rep.hourly| == 24
    ensures |rep.daily| == 0 || |rep.daily| == 7
    ensures forall k :: 0 <= k < |rep.aggregated| - 1 ==> rep.aggregated[k + 1].start == rep.aggregated[k].start + Width(agg)
    ensures |rep.peaks| <= PeakCount && Descending(rep.peaks)
  {
    var b := Buckets(rows, src, agg);
    assert rep.aggregated == b;
    AggregateContiguous(rows, DemandValues(rows, src), Width(agg));
    AsWrittenNeverFits(b);
    PeaksCorrect(b, PeakCount);
  }

  /** The frame has one row per normalised record. */
  lemma DemandFrameSize(input: Json, parsers: Parsers)
    ensures |DemandFrame(input, parsers).rows| == |Flatten(input)|
  {
    FrameOfRecords(Flatten(input), parsers.number, parsers.instant, DateColumn);
  }

  /**
   * `analyze_records_demanda`. Raises exactly when the z-score test flags a
   * bucket of the aggregated series; otherwise the report describes the
   * sorted frame of the batch, `field_used` is the chosen column or the
   * phase-sum label, and the trend is the null pair.
   */
  method AnalyzeDemand(input: Json, parsers: Parsers, fieldName: Option<string>, agg: string, tol: real, thr: real)
    returns (r: Result<Report, string>)
    ensures var f := DemandFrame(input, parsers);
            r.Failure? <==> AnomalyStarts(Buckets(f.rows, FrameSource(f, fieldName), agg), thr) != []
    ensures var f := DemandFrame(input, parsers);
            r.Success? ==> Describes(r.value, f.rows, FrameChosen(f, fieldName), FrameSource(f, fieldName), agg, tol, thr)
    ensures var chosen := FrameChosen(DemandFrame(input, parsers), fieldName);
            r.Success? ==> r.value.meta.fieldUsed == (if chosen.Some? then chosen else Some(PhaseSumLabel))
    ensures r.Success? ==> r.value.trend == NoTrend && r.value.anomalies == []
    ensures r.Success? ==> r.value.meta.records == |Flatten(input)|
    ensures r.Success? ==> |r.value.hourly| == 0 || |r.value.hourly| == 24
    ensures r.Success? ==> |r.value.daily| == 0 || |r.value.daily| == 7
    ensures r.Success? ==> forall k :: 0 <= k < |r.value.aggregated| - 1 ==>
              r.value.aggregated[k + 1].start == r.value.aggregated[k].start + Width(agg)
    ensures r.Success? ==> |r.value.peaks| <= PeakCount && Descending(r.value.peaks)
  {
    var recs := NormalizeInput(input);
    var frame := BuildFrame(recs, parsers.number, parsers.instant, DateColumn);
    assert frame == DemandFrame(input, parsers);
    DemandFrameSize(input, parsers);
    var chosen := FrameChosen(frame, fieldName);
    var src := FrameSource(frame, fieldName);
    r := AnalyzeRows(frame.rows, chosen, src, agg, tol, thr);
    if r.Success? {
      DescribedShape(r.value, frame.rows, chosen, src, agg, tol, thr);
    }
  }
}
