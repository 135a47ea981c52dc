/**
 * The tolerance band around a nominal level and the out-of-limit events
 * (`outside_limits`, `outside_limits_power` and the event loops).
 */
module Limits {
  import opened Wrappers
  import opened Frames

  /** Where a value lies relative to the band. */
  datatype Status = Under | Over | Within

  function Low(nominal: real, tol: real): real { nominal * (1.0 - tol) }

  function High(nominal: real, tol: real): real { nominal * (1.0 + tol) }

  /**
   * `outside_limits`: None for a missing value, Under strictly below the
   * low bound, Over strictly above the high bound (and not below the low
   * one, which is tested first), Within otherwise, so both bounds are Within.
   */
  function Classify(val: Option<real>, nominal: real, tol: real): (s: Option<Status>)
    ensures s.None? <==> val.None?
    ensures s == Some(Under) <==> val.Some? && val.value < Low(nominal, tol)
    ensures s == Some(Over) <==> val.Some? && !(val.value < Low(nominal, tol)) && val.value > High(nominal, tol)
    ensures s == Some(Within) <==> val.Some? && Low(nominal, tol) <= val.value && !(val.value > High(nominal, tol))
  {
    if val.None? then None
    else if val.value < Low(nominal, tol) then Some(Under)
    else if val.value > High(nominal, tol) then Some(Over)
    else Some(Within)
  }

  /** With a non-negative level and tolerance the band is [low, high] and both edges are inside it. */
  lemma BandInclusive(v: real, nominal: real, tol: real)
    requires nominal >= 0.0 && 0.0 <= tol
    ensures Low(nominal, tol) <= nominal <= High(nominal, tol)
    ensures Classify(Some(v), nominal, tol) == Some(Within) <==> Low(nominal, tol) <= v <= High(nominal, tol)
    ensures Classify(Some(Low(nominal, tol)), nominal, tol) == Some(Within)
    ensures Classify(Some(High(nominal, tol)), nominal, tol) == Some(Within)
  {
    assert nominal * tol >= 0.0 by {
      if nominal > 0.0 && tol > 0.0 {
        assert nominal * tol > 0.0;
      }
    }
  }

  /** The tags an analyzer uses for the two directions ('subtensão'/'sobretensão', ...). */
  datatype Labels = Labels(under: string, over: string)

  /** One out-of-limit event: the row's timestamp, the channel, the value and the tag. */
  datatype Event = Event(t: Option<nat>, channel: string, value: real, kind: string)

  /** The event one cell produces, if any. */
  function CellEvents(r: Row, c: string, nominal: real, tol: real, labels: Labels): seq<Event>
  {
    match Classify(Cell(r, c), nominal, tol)
    case Some(Under) => [Event(r.t, c, Cell(r, c).value, labels.under)]
    case Some(Over) => [Event(r.t, c, Cell(r, c).value, labels.over)]
    case _ => []
  }

  /** The events of one row, channel by channel. */
  function RowEvents(r: Row, channels: seq<string>, nominal: real, tol: real, labels: Labels): seq<Event>
  {
    if channels == [] then []
    else RowEvents(r, channels[..|channels| - 1], nominal, tol, labels)
         + CellEvents(r, channels[|channels| - 1], nominal, tol, labels)
  }

  /** The events of the frame, row by row. */
  function FrameEvents(rows: seq<Row>, channels: seq<string>, nominal: real, tol: real, labels: Labels): seq<Event>
  {
    if rows == [] then []
    else FrameEvents(rows[..|rows| - 1], channels, nominal, tol, labels)
         + RowEvents(rows[|rows| - 1], channels, nominal, tol, labels)
  }

  /**
   * The event loop: skipped when there is no nominal level; otherwise every
   * row, in order, contributes the events of its channels.
   */
  method DetectEvents(rows: seq<Row>, channels: seq<string>, nominal: Option<real>, tol: real, labels: Labels)
    returns (events: seq<Event>)
    ensures nominal.None? ==> events == []
    ensures nominal.Some? ==> events == FrameEvents(rows, channels, nominal.value, tol, labels)
  {
    events := [];
    if nominal.Some? {
      var i := 0;
      while i < |rows|
        invariant 0 <= i <= |rows|
        invariant events == FrameEvents(rows[..i], channels, nominal.value, tol, labels)
      {
        assert rows[..i + 1][..i] == rows[..i];
        var found := ScanRow(rows[i], channels, nominal.value, tol, labels);
        events := events + found;
        i := i + 1;
      }
      assert rows[..|rows|] == rows;
    }
  }

  /**
   * The inner loop over the channels of one row, appending an event for
   * each value strictly outside the band.
   */
  method ScanRow(r: Row, channels: seq<string>, nominal: real, tol: real, labels: Labels) returns (found: seq<Event>)
    ensures found == RowEvents(r, channels, nominal, tol, labels)
  {
    found := [];
    var k := 0;
    while k < |channels|
      invariant 0 <= k <= |channels|
      invariant found == RowEvents(r, channels[..k], nominal, tol, labels)
    {
      assert channels[..k + 1][..k] == channels[..k];
      var status := Classify(Cell(r, channels[k]), nominal, tol);
      if status == Some(Under) {
        found := found + [Event(r.t, channels[k], Cell(r, channels[k]).value, labels.under)];
      } else if status == Some(Over) {
        found := found + [Event(r.t, channels[k], Cell(r, channels[k]).value, labels.over)];
      }
      k := k + 1;
    }
    assert channels[..|channels|] == channels;
  }

  /** What it means for an event to have come from row r. */
  predicate FromRow(e: Event, r: Row, channels: seq<string>, nominal: real, tol: real, labels: Labels)
  {
    && e.t == r.t
    && e.channel in channels
    && Cell(r, e.channel) == Some(e.value)
    && ((e.kind == labels.under && e.value < Low(nominal, tol))
        || (e.kind == labels.over && !(e.value < Low(nominal, tol)) && e.value > High(nominal, tol)))
  }

  lemma {:induction false} RowEventsSound(r: Row, channels: seq<string>, nominal: real, tol: real, labels: Labels)
    ensures forall e :: e in RowEvents(r, channels, nominal, tol, labels) ==> FromRow(e, r, channels, nominal, tol, labels)
  {
    if channels != [] {
      var init := channels[..|channels| - 1];
      RowEventsSound(r, init, nominal, tol, labels);
      assert forall c :: c in init ==> c in channels;
    }
  }

  /**
   * Every event names a channel of the group, carries the value that row
   * has there, and is tagged "under" exactly for a value strictly below the
   * low bound and "over" for one strictly above the high bound.
   */
  lemma {:induction false} EventsSound(rows: seq<Row>, channels: seq<string>, nominal: real, tol: real, labels: Labels)
    ensures forall e :: e in FrameEvents(rows, channels, nominal, tol, labels) ==>
      exists i :: 0 <= i < |rows| && FromRow(e, rows[i], channels, nominal, tol, labels)
  {
    if rows != [] {
      var init := rows[..|rows| - 1];
      EventsSound(init, channels, nominal, tol, labels);
      RowEventsSound(rows[|rows| - 1], channels, nominal, tol, labels);
      assert forall i :: 0 <= i < |init| ==> init[i] == rows[i];
    }
  }

  lemma {:induction false} RowEventsComplete(r: Row, channels: seq<string>, k: nat, nominal: real, tol: real, labels: Labels)
    requires k < |channels| && Cell(r, channels[k]).Some?
    ensures var v := Cell(r, channels[k]).value;
      (v < Low(nominal, tol) ==> Event(r.t, channels[k], v, labels.under) in RowEvents(r, channels, nominal, tol, labels))
      && (!(v < Low(nominal, tol)) && v > High(nominal, tol) ==> Event(r.t, channels[k], v, labels.over) in RowEvents(r, channels, nominal, tol, labels))
  {
    var init := channels[..|channels| - 1];
    if k < |channels| - 1 {
      assert init[k] == channels[k];
      RowEventsComplete(r, init, k, nominal, tol, labels);
    }
  }

  /**
   * Every present value strictly outside the band, in any row and any
   * channel of the group, produces its event.
   */
  lemma {:induction false} EventsComplete(rows: seq<Row>, channels: seq<string>, i: nat, k: nat, nominal: real, tol: real, labels: Labels)
    requires i < |rows| && k < |channels| && Cell(rows[i], channels[k]).Some?
    ensures var v := Cell(rows[i], channels[k]).value;
      (v < Low(nominal, tol) ==> Event(rows[i].t, channels[k], v, labels.under) in FrameEvents(rows, channels, nominal, tol, labels))
      && (!(v < Low(nominal, tol)) && v > High(nominal, tol) ==> Event(rows[i].t, channels[k], v, labels.over) in FrameEvents(rows, channels, nominal, tol, labels))
  {
    var init := rows[..|rows| - 1];
    if i < |rows| - 1 {
      assert init[i] == rows[i];
      EventsComplete(init, channels, i, k, nominal, tol, labels);
    } else {
      RowEventsComplete(rows[i], channels, k, nominal, tol, labels);
    }
  }
}
