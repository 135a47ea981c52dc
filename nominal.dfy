/**
 * The nominal level an analyzer measures its tolerance band against: the
 * median of the pooled phase samples (current), that median snapped to the
 * nearest standard voltage (voltage), or the median of the total active
 * power column (power).
 */
module Nominal {
  import opened Wrappers
  import opened Frames
  import opened Stats

  /**
   * `escolher_nivel_nominal_por_mediana`: the median of the present values
   * of the channels, pooled; None when no channel has a present value.
   */
  function MedianLevel(rows: seq<Row>, channels: seq<string>): (r: Option<real>)
    ensures r.None? <==> forall k, i :: 0 <= k < |channels| && 0 <= i < |rows| ==> Cell(rows[i], channels[k]).None?
    ensures r.Some? <==> Pooled(rows, channels) != []
    ensures r.Some? ==> MinOf(Pooled(rows, channels)) <= r.value <= MaxOf(Pooled(rows, channels))
    ensures r.Some? ==> r.value == Median(Pooled(rows, channels))
  {
    PooledEmpty(rows, channels);
    var pool := Pooled(rows, channels);
    if pool == [] then None
    else
      MedianBetween(pool);
      Some(Median(pool))
  }

  // ---------------------------------------------------------------------
  // Voltage: snap to a standard level
  // ---------------------------------------------------------------------

  /** `POSSIVEIS_NIVEIS`. */
  const VoltageLevels: seq<real> := [110.0, 220.0, 380.0]

  /**
   * Python's `min(levels, key=lambda x: abs(x - med))`: the position of a
   * level nearest to x, the first one among equally near levels.
   */
  function NearestIndex(levels: seq<real>, x: real): (i: nat)
    requires levels != []
    ensures i < |levels|
    ensures forall j :: 0 <= j < |levels| ==> Abs(levels[i] - x) <= Abs(levels[j] - x)
    ensures forall j :: 0 <= j < i ==> Abs(levels[j] - x) > Abs(levels[i] - x)
  {
    if |levels| == 1 then 0
    else
      var n := |levels| - 1;
      var i := NearestIndex(levels[..n], x);
      assert forall j :: 0 <= j < n ==> levels[..n][j] == levels[j];
      if Abs(levels[n] - x) < Abs(levels[i] - x) then n else i
  }

  /** The standard voltage nearest to x. */
  function Snap(x: real): (r: real)
    ensures r in VoltageLevels
    ensures forall l :: l in VoltageLevels ==> Abs(r - x) <= Abs(l - x)
  {
    VoltageLevels[NearestIndex(VoltageLevels, x)]
  }

  /**
   * The snap in closed form: 110 up to 165 (the tie at 165 goes to the
   * earlier level), 220 up to 300 (the tie at 300 as well), 380 above.
   */
  lemma SnapThresholds(x: real)
    ensures Snap(x) == if x <= 165.0 then 110.0 else if x <= 300.0 then 220.0 else 380.0
  {
    var i := NearestIndex(VoltageLevels, x);
    assert VoltageLevels[0] == 110.0 && VoltageLevels[1] == 220.0 && VoltageLevels[2] == 380.0;
    if x <= 165.0 {
      assert Abs(110.0 - x) <= Abs(220.0 - x) && Abs(110.0 - x) < Abs(380.0 - x);
      assert i == 0;
    } else if x <= 300.0 {
      assert Abs(220.0 - x) < Abs(110.0 - x) && Abs(220.0 - x) <= Abs(380.0 - x);
      assert i == 1;
    } else {
      assert Abs(380.0 - x) < Abs(110.0 - x) && Abs(380.0 - x) < Abs(220.0 - x);
      assert i == 2;
    }
  }

  /**
   * `escolher_nivel_nominal`: None when no phase has a present value,
   * otherwise the standard voltage nearest the pooled median.
   */
  function VoltageLevel(rows: seq<Row>, channels: seq<string>): (r: Option<real>)
    ensures r.None? <==> forall k, i :: 0 <= k < |channels| && 0 <= i < |rows| ==> Cell(rows[i], channels[k]).None?
    ensures r.Some? ==> r.value in VoltageLevels
    ensures r.Some? <==> MedianLevel(rows, channels).Some?
    ensures r.Some? ==>
      var m := MedianLevel(rows, channels).value;
      forall l :: l in VoltageLevels ==> Abs(r.value - m) <= Abs(l - m)
  {
    match MedianLevel(rows, channels)
    case None => None
    case Some(m) => Some(Snap(m))
  }

  // ---------------------------------------------------------------------
  // Power: the total active power column
  // ---------------------------------------------------------------------

  /**
   * `escolher_nivel_nominal_potencia_total`: None when the column is absent
   * or has no present value; otherwise its median, unsnapped.
   */
  function TotalPowerLevel(f: Frame): (r: Option<real>)
    ensures TotalActivePower !in f.columns ==> r.None?
    ensures r.None? <==> TotalActivePower !in f.columns || forall i :: 0 <= i < |f.rows| ==> Cell(f.rows[i], TotalActivePower).None?
    ensures r.Some? ==> Present(Column(f.rows, TotalActivePower)) != []
    ensures r.Some? ==>
      var xs := Present(Column(f.rows, TotalActivePower));
      MinOf(xs) <= r.value <= MaxOf(xs) && r.value == Median(xs)
  {
    if TotalActivePower !in f.columns then None
    else
      var xs := Present(Column(f.rows, TotalActivePower));
      PresentMembers(Column(f.rows, TotalActivePower));
      if xs == [] then None
      else
        MedianBetween(xs);
        Some(Median(xs))
  }
}
