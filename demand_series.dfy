/**
 * The demand series of the demand analyzer and its groupings: which column
 * (or sum of columns) is the demand, its per-row series, the fixed-width
 * buckets of `resample(...).mean()` and the hour-of-day and day-of-week
 * profiles of `groupby(...).mean()`.
 *
 * Timestamps are seconds since the Unix epoch (UTC), so bucket boundaries,
 * hours and weekdays are computed from them directly.
 */
module DemandSeries {
  import opened Wrappers
  import opened Frames
  import opened Stats
  import opened Trend

  const TotalApparentPower: string := "potencia_ap_tot"

  /** The columns tried, in order, when neither a chosen column nor a phase column exists. */
  const Alternates: seq<string> := ["potencia_ap_tot", "potencia_ap_1", "potencia_ap_2", "potencia_ap_3"]

  // ---------------------------------------------------------------------
  // Which data is the demand
  // ---------------------------------------------------------------------

  /**
   * `_choose_demand_field`: the requested field when it is a non-empty name
   * of a column; otherwise the total active power, then the total apparent
   * power, when they are columns; otherwise None (which also covers the
   * three active phases, whose sum is then used).
   */
  function ChooseDemandField(columns: set<string>, fieldName: Option<string>): (r: Option<string>)
    ensures r.Some? ==> r.value in columns
    ensures fieldName.Some? && fieldName.value != "" && fieldName.value in columns ==> r == fieldName
    ensures r.None? <==>
              !(fieldName.Some? && fieldName.value != "" && fieldName.value in columns)
              && TotalActivePower !in columns && TotalApparentPower !in columns
    ensures r.Some? && r != fieldName ==>
              r.value == (if TotalActivePower in columns then TotalActivePower else TotalApparentPower)
  {
    if fieldName.Some? && fieldName.value != "" && fieldName.value in columns then fieldName
    else if TotalActivePower in columns then Some(TotalActivePower)
    else if TotalApparentPower in columns then Some(TotalApparentPower)
    else None
  }

  /** Where the demand series comes from. */
  datatype DemandSource =
    | Field(name: string)
    | PhaseSum(cols: seq<string>)
    | Alternate(name: string)
    | NoSource

  /** The first of the candidates that is a column, if any. */
  function FirstPresent(candidates: seq<string>, columns: set<string>): (r: Option<string>)
    ensures r.None? <==> forall k :: 0 <= k < |candidates| ==> candidates[k] !in columns
    ensures r.Some? ==> exists k :: 0 <= k < |candidates| && candidates[k] == r.value && r.value in columns &&
                          forall j :: 0 <= j < k ==> candidates[j] !in columns
  {
    if candidates == [] then None
    else if candidates[0] in columns then Some(candidates[0])
    else
      var r := FirstPresent(candidates[1..], columns);
      assert forall k :: 0 < k < |candidates| ==> candidates[1..][k - 1] == candidates[k];
      if r.Some? then
        var k :| 0 <= k < |candidates[1..]| && candidates[1..][k] == r.value && r.value in columns &&
                 forall j :: 0 <= j < k ==> candidates[1..][j] !in columns;
        assert candidates[k + 1] == r.value;
        r
      else r
  }

  /**
   * The branches of `_compute_demand_series`: the chosen column when there
   * is one; else the sum of the active phase columns the frame has, if any;
   * else the first apparent-power column the frame has; else nothing.
   */
  function SourceOf(columns: set<string>, chosen: Option<string>): (src: DemandSource)
    ensures chosen.Some? && chosen.value in columns <==> src.Field?
    ensures src.Field? ==> src.name == chosen.value
    ensures src.PhaseSum? ==> src.cols == Selected(ActivePhases, columns) && src.cols != []
    ensures src.PhaseSum? <==> !src.Field? && exists k :: 0 <= k < |ActivePhases| && ActivePhases[k] in columns
    ensures src.Alternate? ==> src.name in columns && src.name in Alternates
    ensures src.NoSource? <==>
              !src.Field? && (forall k :: 0 <= k < |ActivePhases| ==> ActivePhases[k] !in columns)
              && forall k :: 0 <= k < |Alternates| ==> Alternates[k] !in columns
  {
    SelectedMembers(ActivePhases, columns);
    if chosen.Some? && chosen.value in columns then Field(chosen.value)
    else
      var phases := Selected(ActivePhases, columns);
      if phases != [] then
        assert phases[0] in ActivePhases && phases[0] in columns;
        PhaseSum(phases)
      else
        assert forall k :: 0 <= k < |ActivePhases| ==> ActivePhases[k] !in phases;
        match FirstPresent(Alternates, columns)
        case Some(c) => Alternate(c)
        case None => NoSource
  }

  /** `df[cols].sum(axis=1, min_count=1)` on one row: None when every cell is missing. */
  function RowSum(r: Row, cols: seq<string>): (v: Option<real>)
    ensures v.None? <==> forall k :: 0 <= k < |cols| ==> Cell(r, cols[k]).None?
    ensures v.Some? ==> v.value == Sum(Present(Cells(r, cols)))
  {
    var vs := Cells(r, cols);
    var xs := Present(vs);
    PresentMembers(vs);
    if xs == [] then None
    else
      PresentNonEmpty(vs);
      Some(Sum(xs))
  }

  /** Some cell present makes the present values non-empty. */
  lemma {:induction false} PresentNonEmpty(vs: seq<Option<real>>)
    ensures Present(vs) == [] <==> forall k :: 0 <= k < |vs| ==> vs[k].None?
  {
    if vs != [] {
      PresentNonEmpty(vs[..|vs| - 1]);
      assert forall k :: 0 <= k < |vs| - 1 ==> vs[..|vs| - 1][k] == vs[k];
    }
  }

  /** The demand per row (`_compute_demand_series`), aligned with the rows. */
  function DemandValues(rows: seq<Row>, src: DemandSource): (d: seq<Option<real>>)
    ensures |d| == |rows|
    ensures src.Field? || src.Alternate? ==> d == Column(rows, src.name)
    ensures src.PhaseSum? ==> forall i :: 0 <= i < |rows| ==> d[i] == RowSum(rows[i], src.cols)
    ensures src.NoSource? ==> forall i :: 0 <= i < |rows| ==> d[i].None?
  {
    match src
    case Field(c) => Column(rows, c)
    case Alternate(c) => Column(rows, c)
    case PhaseSum(cols) => seq(|rows|, i requires 0 <= i < |rows| => RowSum(rows[i], cols))
    case NoSource => seq(|rows|, i requires 0 <= i < |rows| => None)
  }

  // ---------------------------------------------------------------------
  // Grouping the (timestamp, value) points
  // ---------------------------------------------------------------------

  /** How points are grouped: by fixed-width time buckets, by hour of day or by day of week. */
  datatype Grouping = Span(width: nat) | HourOfDay | DayOfWeek

  predicate ValidGrouping(g: Grouping)
  {
    g.Span? ==> g.width > 0
  }

  const SecondsPerHour: nat := 3600

  const SecondsPerDay: nat := 86400

  /**
   * The group of an instant: its bucket number, its hour (`dt.hour`), or its
   * weekday (`dt.dayofweek`, Monday 0; 1 January 1970 was a Thursday, 3).
   */
  function KeyOf(g: Grouping, t: nat): (k: nat)
    requires ValidGrouping(g)
    ensures g.HourOfDay? ==> k < 24
    ensures g.DayOfWeek? ==> k < 7
    ensures g.Span? ==> k * g.width <= t < k * g.width + g.width
  {
    match g
    case Span(w) => t / w
    case HourOfDay => t % SecondsPerDay / SecondsPerHour
    case DayOfWeek => (t / SecondsPerDay + 3) % 7
  }

  /** The values of the points in group k, in point order. */
  function InGroup(ps: seq<(nat, real)>, g: Grouping, k: nat): seq<real>
    requires ValidGrouping(g)
  {
    if ps == [] then []
    else
      var n := |ps| - 1;
      InGroup(ps[..n], g, k) + (if KeyOf(g, ps[n].0) == k then [ps[n].1] else [])
  }

  /** A group holds exactly the values of the points whose instant falls in it. */
  lemma {:induction false} InGroupMembers(ps: seq<(nat, real)>, g: Grouping, k: nat)
    requires ValidGrouping(g)
    ensures forall i :: 0 <= i < |ps| && KeyOf(g, ps[i].0) == k ==> ps[i].1 in InGroup(ps, g, k)
    ensures forall x :: x in InGroup(ps, g, k) ==> exists i :: 0 <= i < |ps| && KeyOf(g, ps[i].0) == k && ps[i].1 == x
  {
    if ps != [] {
      var n := |ps| - 1;
      InGroupMembers(ps[..n], g, k);
      assert forall i :: 0 <= i < n ==> ps[..n][i] == ps[i];
    }
  }

  /** The mean of a group, None when it is empty (pandas' NaN). */
  function GroupMean(xs: seq<real>): (m: Option<real>)
    ensures m.None? <==> xs == []
    ensures m.Some? ==> MinOf(xs) <= m.value <= MaxOf(xs)
  {
    if xs == [] then None
    else
      MeanBetween(xs);
      Some(Mean(xs))
  }

  // ---------------------------------------------------------------------
  // Buckets (`aggregate_time_series`)
  // ---------------------------------------------------------------------

  /** One bucket of the aggregated series: its start instant and the mean of its values. */
  datatype Bucket = Bucket(start: nat, mean: Option<real>)

  /** `agg`: 'hour' gives hourly buckets, anything else daily ones. */
  function Width(agg: string): (w: nat)
    ensures w > 0
    ensures agg == "hour" ==> w == SecondsPerHour
    ensures agg != "hour" ==> w == SecondsPerDay
  {
    if agg == "hour" then SecondsPerHour else SecondsPerDay
  }

  /** Bucket number k of a series of width w: it starts at k·w and averages the values keyed k. */
  function BucketAt(ps: seq<(nat, real)>, w: nat, k: nat): (b: Bucket)
    requires w > 0
    ensures b.start == k * w
    ensures b.mean.None? <==> InGroup(ps, Span(w), k) == []
    ensures b.mean.Some? ==> MinOf(InGroup(ps, Span(w), k)) <= b.mean.value <= MaxOf(InGroup(ps, Span(w), k))
  {
    Bucket(k * w, GroupMean(InGroup(ps, Span(w), k)))
  }

  /** Dividing keeps the order. */
  lemma DivMonotone(a: nat, b: nat, w: nat)
    requires w > 0 && a <= b
    ensures a / w <= b / w
  {
    var qa, qb := a / w, b / w;
    assert qa * w <= a && b < qb * w + w;
    if qb < qa {
      MulMonotone(qb + 1, qa, w);
    }
  }

  lemma MulMonotone(a: nat, b: nat, w: nat)
    requires a <= b
    ensures a * w <= b * w
  {
  }

  /** Multiplying distributes over a successor. */
  lemma MulSucc(a: nat, w: nat)
    ensures (a + 1) * w == a * w + w
  {
  }

  /** The first and last bucket numbers of the rows' timestamps. */
  function FirstBucket(rows: seq<Row>, w: nat): nat
    requires w > 0 && ParsedCount(rows) > 0
  {
    PeriodStart(rows).value / w
  }

  function LastBucket(rows: seq<Row>, w: nat): (k: nat)
    requires w > 0 && ParsedCount(rows) > 0
    ensures FirstBucket(rows, w) <= k
  {
    var i :| 0 <= i < |rows| && rows[i].t == PeriodStart(rows);
    DivMonotone(PeriodStart(rows).value, PeriodEnd(rows).value, w);
    PeriodEnd(rows).value / w
  }

  /**
   * `resample(...).mean()` over the rows with a valid timestamp: nothing
   * when none parsed; otherwise one bucket per width, from the one holding
   * the earliest timestamp to the one holding the latest, without gaps,
   * each starting at a multiple of the width and holding the mean of the
   * present values that fall in it (None for a bucket with none).
   */
  function Aggregate(rows: seq<Row>, series: seq<Option<real>>, w: nat): (b: seq<Bucket>)
    requires |series| == |rows| && w > 0
    ensures b == [] <==> ParsedCount(rows) == 0
    ensures b != [] ==> |b| == LastBucket(rows, w) - FirstBucket(rows, w) + 1
    ensures forall k :: 0 <= k < |b| ==> b[k] == BucketAt(Points(Times(rows), series), w, FirstBucket(rows, w) + k)
  {
    if ParsedCount(rows) == 0 then []
    else
      var first, last := FirstBucket(rows, w), LastBucket(rows, w);
      seq(last - first + 1, k requires 0 <= k <= last - first => BucketAt(Points(Times(rows), series), w, first + k))
  }

  /**
   * The buckets are consecutive: each starts one width after the previous
   * one, the first holds the earliest timestamp and the last the latest.
   */
  lemma AggregateContiguous(rows: seq<Row>, series: seq<Option<real>>, w: nat)
    requires |series| == |rows| && w > 0
    ensures var b := Aggregate(rows, series, w);
            forall k :: 0 <= k < |b| - 1 ==> b[k + 1].start == b[k].start + w
  {
    var b := Aggregate(rows, series, w);
    forall k | 0 <= k < |b| - 1
      ensures b[k + 1].start == b[k].start + w
    {
      MulSucc(FirstBucket(rows, w) + k, w);
    }
  }

  /** The buckets come in strictly increasing order of their start. */
  lemma AggregateAscending(rows: seq<Row>, series: seq<Option<real>>, w: nat)
    requires |series| == |rows| && w > 0
    ensures var b := Aggregate(rows, series, w);
            forall i, j :: 0 <= i < j < |b| ==> b[i].start < b[j].start
  {
    var b := Aggregate(rows, series, w);
    forall i, j | 0 <= i < j < |b|
      ensures b[i].start < b[j].start
    {
      MulLess(FirstBucket(rows, w) + i, FirstBucket(rows, w) + j, w);
    }
  }

  lemma MulLess(a: nat, b: nat, w: nat)
    requires a < b && w > 0
    ensures a * w < b * w
  {
    MulSucc(a, w);
    MulMonotone(a + 1, b, w);
  }

  /** The first bucket holds the earliest timestamp and the last bucket the latest. */
  lemma AggregateEnds(rows: seq<Row>, series: seq<Option<real>>, w: nat)
    requires |series| == |rows| && w > 0 && ParsedCount(rows) > 0
    ensures var b := Aggregate(rows, series, w);
            b[0].start <= PeriodStart(rows).value < b[0].start + w
    ensures var b := Aggregate(rows, series, w);
            b[|b| - 1].start <= PeriodEnd(rows).value < b[|b| - 1].start + w
  {
    var _ := KeyOf(Span(w), PeriodStart(rows).value);
    var _ := KeyOf(Span(w), PeriodEnd(rows).value);
  }

  /**
   * Every row with a valid timestamp t falls in a bucket: the one keyed by
   * t's bucket number.
   */
  lemma AggregateCovers(rows: seq<Row>, series: seq<Option<real>>, w: nat, i: nat)
    requires |series| == |rows| && w > 0 && i < |rows| && rows[i].t.Some?
    ensures var b := Aggregate(rows, series, w);
            exists k :: 0 <= k < |b| && b[k] == BucketAt(Points(Times(rows), series), w, KeyOf(Span(w), rows[i].t.value))
                     && b[k].start <= rows[i].t.value < b[k].start + w
  {
    var t := rows[i].t.value;
    assert ParsedCount(rows) > 0 by {
      NoneParsed(rows);
    }
    DivMonotone(PeriodStart(rows).value, t, w);
    DivMonotone(t, PeriodEnd(rows).value, w);
    var q := KeyOf(Span(w), t);
    var k := q - FirstBucket(rows, w);
    var b := Aggregate(rows, series, w);
    assert b[k].start == q * w;
  }

  /**
   * A present demand value on a row with a valid timestamp is among the
   * values its group averages, so that group (bucket, hour or weekday) has
   * a mean.
   */
  lemma GroupHolds(rows: seq<Row>, series: seq<Option<real>>, g: Grouping, i: nat)
    requires |series| == |rows| && ValidGrouping(g) && i < |rows| && rows[i].t.Some? && series[i].Some?
    ensures series[i].value in InGroup(Points(Times(rows), series), g, KeyOf(g, rows[i].t.value))
    ensures GroupMean(InGroup(Points(Times(rows), series), g, KeyOf(g, rows[i].t.value))).Some?
  {
    var ps := Points(Times(rows), series);
    var t := rows[i].t.value;
    PointsMembers(Times(rows), series);
    assert (t, series[i].value) in ps;
    InGroupMembers(ps, g, KeyOf(g, t));
  }

  // ---------------------------------------------------------------------
  // Profiles
  // ---------------------------------------------------------------------

  /** One entry of a profile: the hour (or weekday) and the mean of its values. */
  datatype ProfileEntry = ProfileEntry(key: nat, mean: Option<real>)

  function ProfileSize(g: Grouping): nat
  {
    if g.HourOfDay? then 24 else 7
  }

  /**
   * `groupby(...).mean().reindex(range(n))`: nothing when no row has both a
   * valid timestamp and a present value; otherwise one entry per hour (24)
   * or weekday (7), in order, each the mean of the values that fall in it
   * (None for an empty one).
   */
  function Profile(ps: seq<(nat, real)>, g: Grouping): (p: seq<ProfileEntry>)
    requires g.HourOfDay? || g.DayOfWeek?
    ensures ps == [] ==> p == []
    ensures ps != [] ==> |p| == ProfileSize(g)
    ensures forall h :: 0 <= h < |p| ==> p[h].key == h
    ensures forall h :: 0 <= h < |p| ==> (p[h].mean.None? <==> InGroup(ps, g, h) == [])
    ensures forall h :: 0 <= h < |p| && p[h].mean.Some? ==> MinOf(InGroup(ps, g, h)) <= p[h].mean.value <= MaxOf(InGroup(ps, g, h))
  {
    if ps == [] then []
    else seq(ProfileSize(g), h requires 0 <= h < ProfileSize(g) => ProfileEntry(h, GroupMean(InGroup(ps, g, h))))
  }

  /** Every point is counted in the entry of its own hour (weekday), which therefore has a mean. */
  lemma ProfileCovers(ps: seq<(nat, real)>, g: Grouping, i: nat)
    requires g.HourOfDay? || g.DayOfWeek?
    requires i < |ps|
    ensures KeyOf(g, ps[i].0) < |Profile(ps, g)|
    ensures ps[i].1 in InGroup(ps, g, KeyOf(g, ps[i].0))
    ensures Profile(ps, g)[KeyOf(g, ps[i].0)].mean.Some?
  {
    InGroupMembers(ps, g, KeyOf(g, ps[i].0));
  }
}
