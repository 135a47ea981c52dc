/**
 * The RMS voltage analyzer (`analyze_records`): the three phase voltages
 * with timestamps in `data_coleta` ("dd/mm/YYYY HH:MM:SS"), their
 * statistics, a nominal level snapped to a standard voltage, unguarded
 * linear trends, the chart with the per-row unbalance, the under/over-voltage
 * events and the z-score anomalies.
 *
 * Unlike the other analyzers this one fails outright (an exception in the
 * original, Failure here) when the batch is not a list of enveloped records,
 * when no record has `data_coleta` or a phase, and when a phase's trend has
 * two or more points at a single instant.
 */
module Voltage {
  import opened Wrappers
  import opened Records
  import opened Frames
  import opened Stats
  import opened Nominal
  import opened Limits
  import opened Trend
  import opened Anomaly
  import opened DateFormat

  const DateColumn: string := "data_coleta"

  const Phases: seq<string> := ["tensao_1", "tensao_2", "tensao_3"]

  const VoltageLabels: Labels := Labels("subtensão", "sobretensão")

  // ---------------------------------------------------------------------
  // Records
  // ---------------------------------------------------------------------

  /** An input item the record list can take: an object whose envelope, if any, is an object. */
  predicate Enveloped(item: Json)
  {
    item.Obj? && (Envelope in item.fields ==> item.fields[Envelope].Obj?)
  }

  /** `r.get('dadoEnergia', {})`: the envelope's content, or an empty record when there is none. */
  function Opened(item: Json): Record
    requires Enveloped(item)
  {
    if Envelope in item.fields then item.fields[Envelope].fields else map[]
  }

  /**
   * The records of a batch: one per item, each the content of its envelope
   * (an item without one gives an empty record, a row of missing values);
   * None when the batch is not a list of such items.
   */
  function VoltageRecords(input: Json): (r: Option<seq<Record>>)
    ensures r.Some? <==> input.Arr? && forall i :: 0 <= i < |input.items| ==> Enveloped(input.items[i])
    ensures r.Some? ==> |r.value| == |input.items|
    ensures r.Some? ==> forall i :: 0 <= i < |input.items| ==> r.value[i] == Opened(input.items[i])
    ensures r.Some? ==> forall i :: 0 <= i < |input.items| && Envelope !in input.items[i].fields ==> r.value[i] == map[]
  {
    if input.Arr? && forall i :: 0 <= i < |input.items| ==> Enveloped(input.items[i]) then
      Some(seq(|input.items|, i requires 0 <= i < |input.items| => Opened(input.items[i])))
    else None
  }

  /**
   * The frame, when the batch yields one the analysis can use: the records
   * exist, some record has `data_coleta` and each phase is a key of some
   * record. Timestamps are read with the fixed format.
   */
  function VoltageFrame(input: Json, number: string -> Option<real>): (r: Option<Frame>)
    ensures r.Some? <==>
              && VoltageRecords(input).Some?
              && (exists i :: 0 <= i < |VoltageRecords(input).value| && DateColumn in VoltageRecords(input).value[i])
              && forall k :: 0 <= k < |Phases| ==> Phases[k] in BuildFrame(VoltageRecords(input).value, number, VoltageStamp, DateColumn).columns
    ensures r.Some? ==> r.value == BuildFrame(VoltageRecords(input).value, number, VoltageStamp, DateColumn)
  {
    match VoltageRecords(input)
    case None => None
    case Some(recs) =>
      KeysOfMembers(recs);
      var f := BuildFrame(recs, number, VoltageStamp, DateColumn);
      if DateColumn in KeysOf(recs) && forall k :: 0 <= k < |Phases| ==> Phases[k] in f.columns then Some(f) else None
  }

  // ---------------------------------------------------------------------
  // Unbalance
  // ---------------------------------------------------------------------

  /** The largest distance from c of the values. */
  function MaxDeviation(vals: seq<real>, c: real): (m: real)
    requires vals != []
    ensures forall i :: 0 <= i < |vals| ==> Abs(vals[i] - c) <= m
    ensures exists i :: 0 <= i < |vals| && Abs(vals[i] - c) == m
  {
    if |vals| == 1 then Abs(vals[0] - c)
    else
      var n := |vals| - 1;
      var m := MaxDeviation(vals[..n], c);
      assert forall i :: 0 <= i < n ==> vals[..n][i] == vals[i];
      var d := Abs(vals[n] - c);
      if d > m then d else m
  }

  /** d as a percentage of avg. */
  function Percent(d: real, avg: real): (p: real)
    requires avg != 0.0
    ensures p * avg == d * 100.0
    ensures d >= 0.0 && avg > 0.0 ==> p >= 0.0
    ensures p == 0.0 <==> d == 0.0
  {
    var q := d / avg;
    assert q * avg == d;
    assert q == 0.0 ==> d == 0.0;
    assert q * 100.0 * avg == q * avg * 100.0;
    if d >= 0.0 && avg > 0.0 then
      QuotientNonNegative(d, avg);
      q * 100.0
    else q * 100.0
  }

  /**
   * `row_unb`: None with fewer than two values or a zero average; otherwise
   * the largest deviation from the average as a percentage of it, so never
   * negative when the average is positive.
   */
  function Unbalance(vals: seq<real>): (u: Option<real>)
    ensures u.None? <==> |vals| < 2 || Mean(vals) == 0.0
    ensures u.Some? ==> u.value == Percent(MaxDeviation(vals, Mean(vals)), Mean(vals))
    ensures u.Some? && Mean(vals) > 0.0 ==> u.value >= 0.0
  {
    if |vals| < 2 then None
    else
      var avg := Mean(vals);
      if avg == 0.0 then None
      else
        var d := MaxDeviation(vals, avg);
        assert d >= 0.0 by {
          var k :| 0 <= k < |vals| && Abs(vals[k] - avg) == d;
        }
        Some(Percent(d, avg))
  }

  /** The unbalance of one row: over its present phase values. */
  function RowUnbalance(r: Row): Option<real>
  {
    Unbalance(Present(Cells(r, Phases)))
  }

  /**
   * The unbalance (where the average is not zero) is zero exactly when
   * all values are equal.
   */
  lemma UnbalanceZeroIffBalanced(vals: seq<real>)
    requires |vals| >= 2 && Mean(vals) != 0.0
    ensures Unbalance(vals) == Some(0.0) <==> forall i, j :: 0 <= i < |vals| && 0 <= j < |vals| ==> vals[i] == vals[j]
  {
    var avg := Mean(vals);
    DeviationZero(vals, avg);
    EqualToMean(vals);
  }

  /** The largest deviation from c is zero exactly when every value is c. */
  lemma DeviationZero(vals: seq<real>, c: real)
    requires vals != []
    ensures MaxDeviation(vals, c) == 0.0 <==> forall i :: 0 <= i < |vals| ==> vals[i] == c
  {
    var d := MaxDeviation(vals, c);
    var k :| 0 <= k < |vals| && Abs(vals[k] - c) == d;
  }

  /** Every value equals the mean exactly when all values are equal. */
  lemma EqualToMean(vals: seq<real>)
    requires vals != []
    ensures (forall i :: 0 <= i < |vals| ==> vals[i] == Mean(vals)) <==>
            forall i, j :: 0 <= i < |vals| && 0 <= j < |vals| ==> vals[i] == vals[j]
  {
    if forall i, j :: 0 <= i < |vals| && 0 <= j < |vals| ==> vals[i] == vals[j] {
      assert forall i :: 0 <= i < |vals| ==> vals[i] == vals[0];
      MeanOfConstant(vals, vals[0]);
    }
  }

  // ---------------------------------------------------------------------
  // Trends
  // ---------------------------------------------------------------------

  /**
   * The trend loop: a phase whose fit is refused (several points, one
   * instant) stops the analysis; otherwise each phase gets its line, which
   * is the one the guarded analyzers compute.
   */
  method PhaseTrends(rows: seq<Row>, channels: seq<string>) returns (r: Result<seq<TrendLine>, string>)
    ensures r.Success? <==> forall k :: 0 <= k < |channels| ==> PlainTrend(Times(rows), Column(rows, channels[k])).Success?
    ensures r.Success? ==> |r.value| == |channels|
    ensures r.Success? ==> forall k :: 0 <= k < |channels| ==> r.value[k] == GuardedTrend(Times(rows), Column(rows, channels[k]))
  {
    var ts := Times(rows);
    var trends: seq<TrendLine> := [];
    var k := 0;
    while k < |channels|
      invariant 0 <= k <= |channels|
      invariant |trends| == k
      invariant forall j :: 0 <= j < k ==> PlainTrend(ts, Column(rows, channels[j])).Success?
      invariant forall j :: 0 <= j < k ==> trends[j] == GuardedTrend(ts, Column(rows, channels[j]))
    {
      var col := Column(rows, channels[k]);
      var fit := PlainTrend(ts, col);
      if fit.Failure? {
        assert !PlainTrend(Times(rows), Column(rows, channels[k])).Success?;
        return Failure(fit.error);
      }
      assert fit.value == GuardedTrend(ts, col);
      trends := trends + [fit.value];
      k := k + 1;
    }
    r := Success(trends);
  }

  // ---------------------------------------------------------------------
  // The chart
  // ---------------------------------------------------------------------

  /** One chart point: timestamp, the three phases, the total active power and the unbalance. */
  datatype VoltagePoint = VoltagePoint(t: Option<nat>, phases: seq<Option<real>>, activePower: Option<real>, unbalance: Option<real>)

  /**
   * The chart loop: one point per row in frame order; the unbalance is
   * present exactly when at least two phases are and their average is not
   * zero.
   */
  method BuildVoltageGraph(rows: seq<Row>) returns (g: seq<VoltagePoint>)
    ensures |g| == |rows|
    ensures forall i :: 0 <= i < |rows| ==>
              && g[i].t == rows[i].t
              && g[i].phases == Cells(rows[i], Phases)
              && g[i].activePower == Cell(rows[i], TotalActivePower)
              && g[i].unbalance == RowUnbalance(rows[i])
    ensures forall i :: 0 <= i < |rows| ==>
              var vals := Present(Cells(rows[i], Phases));
              g[i].unbalance.Some? <==> |vals| >= 2 && Mean(vals) != 0.0
    ensures SortedByTime(rows) ==> forall i, j :: 0 <= i < j < |g| ==> NoLater(g[i].t, g[j].t)
  {
    g := [];
    var i := 0;
    while i < |rows|
      invariant 0 <= i <= |rows|
      invariant |g| == i
      invariant forall j :: 0 <= j < i ==>
                  g[j] == VoltagePoint(rows[j].t, Cells(rows[j], Phases), Cell(rows[j], TotalActivePower), RowUnbalance(rows[j]))
    {
      var r := rows[i];
      g := g + [VoltagePoint(r.t, Cells(r, Phases), Cell(r, TotalActivePower), RowUnbalance(r))];
      i := i + 1;
    }
  }

  // ---------------------------------------------------------------------
  // The analysis
  // ---------------------------------------------------------------------

  /** The `meta` block of this analyzer (no timestamp counts). */
  datatype VoltageMeta = VoltageMeta(records: nat, periodStart: Option<nat>, periodEnd: Option<nat>, level: Option<real>, tol: real)

  datatype Report = Report(
    meta: VoltageMeta,
    table: seq<Summary>,
    graph: seq<VoltagePoint>,
    trends: seq<TrendLine>,
    anomalies: seq<seq<nat>>,
    events: seq<Event>)

  /** What a successful analysis of the sorted rows reports. */
  predicate Describes(rep: Report, rows: seq<Row>, tol: real, thr: real)
  {
    && rep.meta == VoltageMeta(|rows|, PeriodStart(rows), PeriodEnd(rows), VoltageLevel(rows, Phases), tol)
    && |rep.table| == |rep.trends| == |rep.anomalies| == |Phases|
    && (forall k :: 0 <= k < |Phases| ==> rep.table[k] == Summarize(Phases[k], Column(rows, Phases[k])))
    && (forall k :: 0 <= k < |Phases| ==> rep.trends[k] == GuardedTrend(Times(rows), Column(rows, Phases[k])))
    && (forall k :: 0 <= k < |Phases| ==> rep.anomalies[k] == ZScoreAnomalies(Column(rows, Phases[k]), thr))
    && |rep.graph| == |rows|
    && (forall i :: 0 <= i < |rows| ==> rep.graph[i].t == rows[i].t && rep.graph[i].phases == Cells(rows[i], Phases))
    && (forall i :: 0 <= i < |rows| ==> rep.graph[i].activePower == Cell(rows[i], TotalActivePower))
    && (forall i :: 0 <= i < |rows| ==> rep.graph[i].unbalance == RowUnbalance(rows[i]))
    && (rep.meta.level.None? ==> rep.events == [])
    && (rep.meta.level.Some? ==> rep.events == FrameEvents(rows, Phases, rep.meta.level.value, tol, VoltageLabels))
  }

  /** The analysis of a frame that has every phase column. */
  method AnalyzeRows(rows: seq<Row>, tol: real, thr: real) returns (r: Result<Report, string>)
    ensures r.Success? <==> forall k :: 0 <= k < |Phases| ==> PlainTrend(Times(rows), Column(rows, Phases[k])).Success?
    ensures r.Success? ==> Describes(r.value, rows, tol, thr)
    ensures r.Success? && SortedByTime(rows) ==> forall i, j :: 0 <= i < j < |r.value.graph| ==> NoLater(r.value.graph[i].t, r.value.graph[j].t)
  {
    var level := VoltageLevel(rows, Phases);
    var table := SummaryTable(rows, Phases);
    var trends := PhaseTrends(rows, Phases);
    if trends.Failure? {
      return Failure(trends.error);
    }
    var graph := BuildVoltageGraph(rows);
    var events := DetectEvents(rows, Phases, level, tol, VoltageLabels);
    var anomalies := seq(|Phases|, k requires 0 <= k < |Phases| => ZScoreAnomalies(Column(rows, Phases[k]), thr));
    r := Success(Report(VoltageMeta(|rows|, PeriodStart(rows), PeriodEnd(rows), level, tol), table, graph, trends.value, anomalies, events));
  }

  /**
   * `analyze_records`. Failure when the batch gives no usable frame or a
   * phase's fit is refused; otherwise the report describes the sorted
   * frame: one record per input item, a standard voltage (or None) as the
   * level, and the chart in time order.
   */
  method AnalyzeVoltage(input: Json, number: string -> Option<real>, tol: real, thr: real) returns (r: Result<Report, string>)
    ensures VoltageFrame(input, number).None? ==> r.Failure?
    ensures VoltageFrame(input, number).Some? ==>
              var rows := VoltageFrame(input, number).value.rows;
              r.Success? <==> forall k :: 0 <= k < |Phases| ==> PlainTrend(Times(rows), Column(rows, Phases[k])).Success?
    ensures r.Success? ==> VoltageFrame(input, number).Some? && Describes(r.value, VoltageFrame(input, number).value.rows, tol, thr)
    ensures r.Success? ==> r.value.meta.records == |input.items|
    ensures r.Success? && r.value.meta.level.Some? ==> r.value.meta.level.value in VoltageLevels
    ensures r.Success? ==> forall i, j :: 0 <= i < j < |r.value.graph| ==> NoLater(r.value.graph[i].t, r.value.graph[j].t)
  {
    var recs := VoltageRecords(input);
    if recs.None? {
      return Failure("records must be a list of objects");
    }
    KeysOfMembers(recs.value);
    if DateColumn !in KeysOf(recs.value) {
      return Failure("KeyError: data_coleta");
    }
    var frame := BuildFrame(recs.value, number, VoltageStamp, DateColumn);
    if exists k :: 0 <= k < |Phases| && Phases[k] !in frame.columns {
      return Failure("KeyError: missing phase column");
    }
    assert VoltageFrame(input, number) == Some(frame);
    FrameOfRecords(recs.value, number, VoltageStamp, DateColumn);
    r := AnalyzeRows(frame.rows, tol, thr);
  }
}
