/**
 * The active/reactive power analyzer (`analyze_records_potencia`): the power
 * components the batch carries, their statistics, trends, chart and
 * anomalies, and drop/overload events on the total active power against its
 * median.
 */
module Power {
  import opened Wrappers
  import opened Records
  import opened Frames
  import opened Stats
  import opened Nominal
  import opened Limits
  import opened Trend
  import opened Anomaly
  import opened Output

  const DateColumn: string := "data_inc"

  const ReactivePhases: seq<string> := ["potencia_reat_1", "potencia_reat_2", "potencia_reat_3"]

  const TotalReactivePower: string := "potencia_reat_tot"

  /** Every component the analyzer knows, in report order. */
  const AllComponents: seq<string> := ActivePhases + [TotalActivePower] + ReactivePhases + [TotalReactivePower]

  const PowerLabels: Labels := Labels("queda_potencia", "sobrecarga_potencia")

  // ---------------------------------------------------------------------
  // The components present in the batch
  // ---------------------------------------------------------------------

  /**
   * The component list (the four appends): the active phases present, the
   * total active power if present, then the same for the reactive power.
   * It holds each known component that is a column, once, in report order.
   */
  method SelectComponents(columns: set<string>) returns (cs: seq<string>)
    ensures cs == Selected(AllComponents, columns)
    ensures forall c :: c in cs <==> c in AllComponents && c in columns
    ensures Distinct(cs)
  {
    var upToActive := ActivePhases + [TotalActivePower];
    var upToReactive := upToActive + ReactivePhases;
    cs := [];
    cs := cs + Selected(ActivePhases, columns);
    if TotalActivePower in columns {
      cs := cs + [TotalActivePower];
    }
    assert cs == Selected(upToActive, columns) by {
      SelectedSingle(TotalActivePower, columns);
      SelectedAppend(ActivePhases, [TotalActivePower], columns);
    }
    cs := cs + Selected(ReactivePhases, columns);
    assert cs == Selected(upToReactive, columns) by {
      SelectedAppend(upToActive, ReactivePhases, columns);
    }
    if TotalReactivePower in columns {
      cs := cs + [TotalReactivePower];
    }
    assert cs == Selected(upToReactive + [TotalReactivePower], columns) by {
      SelectedSingle(TotalReactivePower, columns);
      SelectedAppend(upToReactive, [TotalReactivePower], columns);
    }
    assert AllComponents == upToReactive + [TotalReactivePower];
    SelectedMembers(AllComponents, columns);
    KnownDistinct();
    SelectedDistinct(AllComponents, columns);
  }

  /** The known component names are pairwise different. */
  lemma KnownDistinct()
    ensures Distinct(AllComponents)
  {
    var a := AllComponents;
    assert |a| == 8;
    forall i, j | 0 <= i < j < 8 ensures a[i] != a[j] {
      if |a[i]| == |a[j]| {
        assert a[i][|a[i]| - 1] != a[j][|a[j]| - 1];
      }
    }
  }

  // ---------------------------------------------------------------------
  // The analysis
  // ---------------------------------------------------------------------

  /** The analysis of one batch; the table, trends and anomalies follow `components`. */
  datatype Report = Report(
    components: seq<string>,
    meta: Meta,
    table: seq<Summary>,
    graph: seq<Point>,
    trends: seq<TrendLine>,
    anomalies: seq<seq<nat>>,
    events: seq<Event>)

  /** The frame of a batch: normalised records, timestamps from `data_inc`, sorted. */
  function PowerFrame(input: Json, parsers: Parsers): Frame
  {
    BuildFrame(Flatten(input), parsers.number, parsers.instant, DateColumn)
  }

  /**
   * `analyze_records_potencia`. Never fails. The level is the median of the
   * total active power; events are looked for on that column alone and only
   * when the level exists.
   */
  method AnalyzePower(input: Json, parsers: Parsers, tol: real, thr: real) returns (rep: Report)
    ensures rep.components == Selected(AllComponents, PowerFrame(input, parsers).columns)
    ensures var f := PowerFrame(input, parsers); rep.meta == MetaOf(f.rows, TotalPowerLevel(f), tol)
    ensures rep.meta.records == |Flatten(input)|
    ensures |rep.table| == |rep.trends| == |rep.anomalies| == |rep.components|
    ensures forall k :: 0 <= k < |rep.components| ==>
              var rows := PowerFrame(input, parsers).rows;
              && rep.table[k] == Summarize(rep.components[k], Column(rows, rep.components[k]))
              && rep.trends[k] == GuardedTrend(Times(rows), Column(rows, rep.components[k]))
              && rep.anomalies[k] == ZScoreAnomalies(Column(rows, rep.components[k]), thr)
    ensures |rep.graph| == rep.meta.records
    ensures forall i :: 0 <= i < |rep.graph| ==>
              var r := PowerFrame(input, parsers).rows[i];
              rep.graph[i].t == r.t && rep.graph[i].values == Cells(r, rep.components)
    ensures forall i, j :: 0 <= i < j < |rep.graph| ==> NoLater(rep.graph[i].t, rep.graph[j].t)
    ensures rep.meta.level.None? ==> rep.events == []
    ensures rep.meta.level.Some? ==>
              rep.events == FrameEvents(PowerFrame(input, parsers).rows, [TotalActivePower], rep.meta.level.value, tol, PowerLabels)
  {
    var recs := NormalizeInput(input);
    var frame := BuildFrame(recs, parsers.number, parsers.instant, DateColumn);
    FrameOfRecords(recs, parsers.number, parsers.instant, DateColumn);
    var rows := frame.rows;
    var components := SelectComponents(frame.columns);
    var table := SummaryTable(rows, components);
    var level := TotalPowerLevel(frame);
    var trends := seq(|components|, k requires 0 <= k < |components| => GuardedTrend(Times(rows), Column(rows, components[k])));
    var graph := BuildGraph(rows, components);
    var events := DetectEvents(rows, [TotalActivePower], level, tol, PowerLabels);
    var anomalies := seq(|components|, k requires 0 <= k < |components| => ZScoreAnomalies(Column(rows, components[k]), thr));
    rep := Report(components, MetaOf(rows, level, tol), table, graph, trends, anomalies, events);
  }
}
