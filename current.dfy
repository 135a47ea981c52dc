/**
 * The RMS current analyzer (`analyze_records_corrente`): the three phase
 * currents, their statistics, a nominal level taken as the pooled median,
 * guarded linear trends, the chart, the sub/over-current events and the
 * z-score anomalies.
 */
module Current {
  import opened Wrappers
  import opened Records
  import opened Frames
  import opened Stats
  import opened Nominal
  import opened Limits
  import opened Trend
  import opened Anomaly
  import opened Output

  const DateColumn: string := "data_inc"

  const Phases: seq<string> := ["corrente_1", "corrente_2", "corrente_3"]

  const CurrentLabels: Labels := Labels("subcorrente", "sobrecorrente")

  /** The analysis of one batch. */
  datatype Report = Report(
    meta: Meta,
    table: seq<Summary>,
    graph: seq<Point>,
    trends: seq<TrendLine>,
    anomalies: seq<seq<nat>>,
    events: seq<Event>)

  /** The frame of a batch: normalised records, timestamps from `data_inc`, sorted. */
  function CurrentFrame(input: Json, parsers: Parsers): Frame
  {
    BuildFrame(Flatten(input), parsers.number, parsers.instant, DateColumn)
  }

  /**
   * `analyze_records_corrente`. Never fails: an empty or malformed batch
   * gives an empty frame and empty results. Every part of the report is the
   * corresponding function of the sorted frame, per phase in phase order;
   * the events are computed only when a level was found.
   */
  method AnalyzeCurrent(input: Json, parsers: Parsers, tol: real, thr: real) returns (rep: Report)
    ensures var rows := CurrentFrame(input, parsers).rows; rep.meta == MetaOf(rows, MedianLevel(rows, Phases), tol)
    ensures rep.meta.records == |Flatten(input)|
    ensures |rep.table| == |rep.trends| == |rep.anomalies| == |Phases|
    ensures forall k :: 0 <= k < |Phases| ==>
              var rows := CurrentFrame(input, parsers).rows;
              && rep.table[k] == Summarize(Phases[k], Column(rows, Phases[k]))
              && rep.trends[k] == GuardedTrend(Times(rows), Column(rows, Phases[k]))
              && rep.anomalies[k] == ZScoreAnomalies(Column(rows, Phases[k]), thr)
    ensures |rep.graph| == rep.meta.records
    ensures forall i :: 0 <= i < |rep.graph| ==>
              var r := CurrentFrame(input, parsers).rows[i];
              rep.graph[i].t == r.t && rep.graph[i].values == Cells(r, Phases)
    ensures forall i, j :: 0 <= i < j < |rep.graph| ==> NoLater(rep.graph[i].t, rep.graph[j].t)
    ensures rep.meta.level.None? ==> rep.events == []
    ensures rep.meta.level.Some? ==>
              rep.events == FrameEvents(CurrentFrame(input, parsers).rows, Phases, rep.meta.level.value, tol, CurrentLabels)
  {
    var recs := NormalizeInput(input);
    var frame := BuildFrame(recs, parsers.number, parsers.instant, DateColumn);
    FrameOfRecords(recs, parsers.number, parsers.instant, DateColumn);
    var rows := frame.rows;
    var level := MedianLevel(rows, Phases);
    var table := SummaryTable(rows, Phases);
    var trends := seq(|Phases|, k requires 0 <= k < |Phases| => GuardedTrend(Times(rows), Column(rows, Phases[k])));
    var graph := BuildGraph(rows, Phases);
    var events := DetectEvents(rows, Phases, level, tol, CurrentLabels);
    var anomalies := seq(|Phases|, k requires 0 <= k < |Phases| => ZScoreAnomalies(Column(rows, Phases[k]), thr));
    rep := Report(MetaOf(rows, level, tol), table, graph, trends, anomalies, events);
  }
}
