/**
 * The parts of a report the current, power and demand analyzers share: the
 * time-series chart built row by row and the `meta` block.
 */
module Output {
  import opened Wrappers
  import opened Frames

  /** One chart point: the row's timestamp and its value on each channel. */
  datatype Point = Point(t: Option<nat>, values: seq<Option<real>>)

  /**
   * The chart loop (`for _, r in df.iterrows(): grafico.append(...)`): one
   * point per row, in frame order, so a time-sorted frame gives a
   * time-sorted chart.
   */
  method BuildGraph(rows: seq<Row>, channels: seq<string>) returns (g: seq<Point>)
    ensures |g| == |rows|
    ensures forall i :: 0 <= i < |rows| ==> g[i].t == rows[i].t && g[i].values == Cells(rows[i], channels)
    ensures SortedByTime(rows) ==> forall i, j :: 0 <= i < j < |g| ==> NoLater(g[i].t, g[j].t)
  {
    g := [];
    var i := 0;
    while i < |rows|
      invariant 0 <= i <= |rows|
      invariant |g| == i
      invariant forall j :: 0 <= j < i ==> g[j].t == rows[j].t && g[j].values == Cells(rows[j], channels)
    {
      g := g + [Point(rows[i].t, Cells(rows[i], channels))];
      i := i + 1;
    }
  }

  /** The `meta` block: counts, the period covered, the nominal level and the tolerance. */
  datatype Meta = Meta(
    records: nat,
    periodStart: Option<nat>,
    periodEnd: Option<nat>,
    level: Option<real>,
    tol: real,
    parsed: nat,
    invalid: nat)

  /**
   * The block for a frame: the parsed and invalid counts add up to the
   * record count; the period is None exactly when no timestamp parsed, and
   * otherwise its start is no later than its end.
   */
  function MetaOf(rows: seq<Row>, level: Option<real>, tol: real): (m: Meta)
    ensures m.records == |rows| == m.parsed + m.invalid
    ensures m.periodStart.None? <==> m.parsed == 0
    ensures m.periodEnd.None? <==> m.parsed == 0
    ensures m.periodStart.Some? ==> m.periodStart.value <= m.periodEnd.value
    ensures m.level == level && m.tol == tol
  {
    var m := Meta(|rows|, PeriodStart(rows), PeriodEnd(rows), level, tol, ParsedCount(rows), InvalidCount(rows));
    assert m.periodStart.Some? ==> m.periodStart.value <= m.periodEnd.value by {
      if m.periodStart.Some? {
        var i :| 0 <= i < |rows| && rows[i].t == m.periodStart;
      }
    }
    m
  }
}
