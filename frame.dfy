/**
 * The frame an analyzer builds from its normalised records: one row per
 * record with its parsed timestamp (None for an invalid one, pandas' NaT) and
 * its fields read through numeric coercion, sorted by timestamp with invalid
 * timestamps last.
 */
module Frames {
  import opened Wrappers
  import opened Records

  /** The total active power column, read by the voltage, power and demand analyzers. */
  const TotalActivePower: string := "potencia_ativa_tot"

  /** The per-phase active power columns, in phase order. */
  const ActivePhases: seq<string> := ["potencia_ativa_1", "potencia_ativa_2", "potencia_ativa_3"]

  /** A row: the parsed timestamp and the coerced numeric cells. */
  datatype Row = Row(t: Option<nat>, cells: map<string, Option<real>>)

  /** A frame: the set of column names (the union of the records' keys) and the rows. */
  datatype Frame = Frame(columns: set<string>, rows: seq<Row>)

  /** Columns every analyzer leaves out of `pd.to_numeric` (identifiers and the date columns). */
  function Untouched(dateCol: string): set<string>
  {
    {dateCol, dateCol + "_dt", "id_consumidor", "id_equipamento"}
  }

  /**
   * `pd.to_numeric(errors='coerce')` on one cell: numbers stay, booleans
   * become 1 and 0, strings go through the library's number parser,
   * everything else becomes missing.
   */
  function ToNumeric(number: string -> Option<real>, v: Json): (r: Option<real>)
    ensures v.Num? ==> r == Some(v.n)
    ensures v.Bool? ==> r.Some? && (r.value == 1.0 <==> v.b) && (r.value == 0.0 <==> !v.b)
    ensures v.Null? || v.Arr? || v.Obj? ==> r.None?
  {
    match v
    case Num(n) => Some(n)
    case Bool(b) => Some(if b then 1.0 else 0.0)
    case Str(s) => number(s)
    case _ => None
  }

  /** A record's cells after coercion of every column but the untouched ones. */
  function Coerce(number: string -> Option<real>, rec: Record, untouched: set<string>): map<string, Option<real>>
  {
    map k | k in rec && k !in untouched :: ToNumeric(number, rec[k])
  }

  /** The frame's columns: every key any record has. */
  function KeysOf(recs: seq<Record>): set<string>
  {
    if recs == [] then {} else KeysOf(recs[..|recs| - 1]) + recs[|recs| - 1].Keys
  }

  /** The cell of a row; a column the row lacks reads as missing (NaN). */
  function Cell(r: Row, c: string): Option<real>
  {
    if c in r.cells then r.cells[c] else None
  }

  /** One column of the frame; an absent column reads as all missing. */
  function Column(rows: seq<Row>, c: string): (col: seq<Option<real>>)
    ensures |col| == |rows|
    ensures forall i :: 0 <= i < |rows| ==> col[i] == Cell(rows[i], c)
  {
    seq(|rows|, i requires 0 <= i < |rows| => Cell(rows[i], c))
  }

  /** The cells of one row for a list of channels, in channel order. */
  function Cells(r: Row, channels: seq<string>): (vs: seq<Option<real>>)
    ensures |vs| == |channels|
    ensures forall k :: 0 <= k < |channels| ==> vs[k] == Cell(r, channels[k])
  {
    seq(|channels|, k requires 0 <= k < |channels| => Cell(r, channels[k]))
  }

  // ---------------------------------------------------------------------
  // Selecting the known columns a frame has (`[c for c in ... if c in df.columns]`)
  // ---------------------------------------------------------------------

  /** The candidates that are columns of the frame, in candidate order. */
  function Selected(candidates: seq<string>, columns: set<string>): seq<string>
  {
    if candidates == [] then []
    else
      var n := |candidates| - 1;
      Selected(candidates[..n], columns) + (if candidates[n] in columns then [candidates[n]] else [])
  }

  predicate Distinct(s: seq<string>)
  {
    forall i, j :: 0 <= i < j < |s| ==> s[i] != s[j]
  }

  /** The selection holds exactly the candidates that are columns. */
  lemma {:induction false} SelectedMembers(candidates: seq<string>, columns: set<string>)
    ensures forall c :: c in Selected(candidates, columns) <==> c in candidates && c in columns
    ensures |Selected(candidates, columns)| <= |candidates|
  {
    if candidates != [] {
      var n := |candidates| - 1;
      SelectedMembers(candidates[..n], columns);
      assert candidates == candidates[..n] + [candidates[n]];
    }
  }

  /** a occurs in the candidates strictly before b. */
  predicate OccursBefore(candidates: seq<string>, a: string, b: string)
  {
    exists p, q :: 0 <= p < q < |candidates| && candidates[p] == a && candidates[q] == b
  }

  /** The selection keeps the candidates' relative order. */
  lemma SelectedOrder(candidates: seq<string>, columns: set<string>)
    ensures forall i, j :: 0 <= i < j < |Selected(candidates, columns)| ==>
              OccursBefore(candidates, Selected(candidates, columns)[i], Selected(candidates, columns)[j])
  {
    forall i: nat, j: nat | i < j < |Selected(candidates, columns)|
      ensures OccursBefore(candidates, Selected(candidates, columns)[i], Selected(candidates, columns)[j])
    {
      var p, q := SelectedPair(candidates, columns, i, j);
    }
  }

  /** Where two selected names come from among the candidates. */
  lemma {:induction false} SelectedPair(candidates: seq<string>, columns: set<string>, i: nat, j: nat) returns (p: nat, q: nat)
    requires i < j < |Selected(candidates, columns)|
    ensures p < q < |candidates|
    ensures candidates[p] == Selected(candidates, columns)[i] && candidates[q] == Selected(candidates, columns)[j]
    decreases |candidates|
  {
    var n := |candidates| - 1;
    var init := candidates[..n];
    var s := Selected(init, columns);
    assert Selected(candidates, columns) == s + (if candidates[n] in columns then [candidates[n]] else []);
    if j < |s| {
      p, q := SelectedPair(init, columns, i, j);
    } else {
      SelectedMembers(init, columns);
      assert s[i] in init;
      p :| p < n && init[p] == s[i];
      q := n;
    }
  }

  /** From distinct candidates the selection repeats none. */
  lemma {:induction false} SelectedDistinct(candidates: seq<string>, columns: set<string>)
    requires Distinct(candidates)
    ensures Distinct(Selected(candidates, columns))
  {
    if candidates != [] {
      var n := |candidates| - 1;
      var init := candidates[..n];
      assert Distinct(init) by {
        forall i, j | 0 <= i < j < |init| ensures init[i] != init[j] {
          assert init[i] == candidates[i] && init[j] == candidates[j];
        }
      }
      SelectedDistinct(init, columns);
      SelectedMembers(init, columns);
      var r := Selected(candidates, columns);
      var s := Selected(init, columns);
      forall i, j | 0 <= i < j < |r| ensures r[i] != r[j] {
        if j >= |s| {
          assert r[i] == s[i] && s[i] in init;
          var p :| 0 <= p < n && init[p] == s[i];
          assert candidates[p] != candidates[n];
        }
      }
    }
  }

  lemma {:induction false} SelectedAppend(a: seq<string>, b: seq<string>, columns: set<string>)
    ensures Selected(a + b, columns) == Selected(a, columns) + Selected(b, columns)
    decreases |b|
  {
    if b == [] {
      assert a + b == a;
    } else {
      var n := |b| - 1;
      assert (a + b)[..|a + b| - 1] == a + b[..n];
      SelectedAppend(a, b[..n], columns);
    }
  }

  lemma SelectedSingle(c: string, columns: set<string>)
    ensures Selected([c], columns) == if c in columns then [c] else []
  {
    assert [c][..0] == [];
  }

  // ---------------------------------------------------------------------
  // Timestamps
  // ---------------------------------------------------------------------

  /** The timestamp column. */
  function Times(rows: seq<Row>): (ts: seq<Option<nat>>)
    ensures |ts| == |rows|
    ensures forall i :: 0 <= i < |rows| ==> ts[i] == rows[i].t
  {
    seq(|rows|, i requires 0 <= i < |rows| => rows[i].t)
  }

  // ---------------------------------------------------------------------
  // Sorting by timestamp (`sort_values`, NaT last)
  // ---------------------------------------------------------------------

  /** `a` may come before `b`: valid timestamps in order, invalid ones after every valid one. */
  predicate NoLater(a: Option<nat>, b: Option<nat>)
  {
    b.None? || (a.Some? && a.value <= b.value)
  }

  /** Valid timestamps non-decreasing, every invalid one after every valid one. */
  predicate SortedByTime(rows: seq<Row>)
  {
    forall i, j :: 0 <= i < j < |rows| ==> NoLater(rows[i].t, rows[j].t)
  }

  function Insert(r: Row, rows: seq<Row>): seq<Row>
  {
    if rows == [] then [r]
    else if NoLater(r.t, rows[0].t) then [r] + rows
    else [rows[0]] + Insert(r, rows[1..])
  }

  /** The rows in timestamp order. */
  function SortByTime(rows: seq<Row>): seq<Row>
  {
    if rows == [] then [] else Insert(rows[0], SortByTime(rows[1..]))
  }

  lemma {:induction false} InsertPermutes(r: Row, rows: seq<Row>)
    ensures multiset(Insert(r, rows)) == multiset(rows) + multiset{r}
  {
    if rows != [] {
      assert rows == [rows[0]] + rows[1..];
      if !NoLater(r.t, rows[0].t) {
        InsertPermutes(r, rows[1..]);
      }
    }
  }

  lemma SortedTail(rows: seq<Row>)
    requires SortedByTime(rows) && rows != []
    ensures SortedByTime(rows[1..])
  {
    var tail := rows[1..];
    forall i, j | 0 <= i < j < |tail| ensures NoLater(tail[i].t, tail[j].t) {
      assert tail[i] == rows[i + 1] && tail[j] == rows[j + 1];
    }
  }

  /** A sorted sequence stays sorted when an element that may precede all of it is put in front. */
  lemma SortedCons(x: Row, s: seq<Row>)
    requires SortedByTime(s)
    requires forall k :: 0 <= k < |s| ==> NoLater(x.t, s[k].t)
    ensures SortedByTime([x] + s)
  {
    var c := [x] + s;
    forall i, j | 0 <= i < j < |c| ensures NoLater(c[i].t, c[j].t) {
      if i == 0 {
        assert c[j] == s[j - 1];
      } else {
        assert c[i] == s[i - 1] && c[j] == s[j - 1];
      }
    }
  }

  lemma {:induction false} InsertSorted(r: Row, rows: seq<Row>)
    requires SortedByTime(rows)
    ensures SortedByTime(Insert(r, rows))
  {
    if rows == [] {
    } else if NoLater(r.t, rows[0].t) {
      forall k | 0 <= k < |rows| ensures NoLater(r.t, rows[k].t) {
        if k > 0 {
          assert NoLater(rows[0].t, rows[k].t);
        }
      }
      SortedCons(r, rows);
    } else {
      var tail := rows[1..];
      SortedTail(rows);
      InsertSorted(r, tail);
      InsertPermutes(r, tail);
      var ins := Insert(r, tail);
      forall k | 0 <= k < |ins| ensures NoLater(rows[0].t, ins[k].t) {
        assert ins[k] in multiset(ins);
        if ins[k] != r {
          assert ins[k] in multiset(tail);
          var m :| 0 <= m < |tail| && tail[m] == ins[k];
          assert tail[m] == rows[m + 1];
        }
      }
      SortedCons(rows[0], ins);
    }
  }

  /**
   * Sorting keeps every row (a permutation, so row and timestamp counts are
   * unchanged) and puts the valid timestamps in non-decreasing order ahead
   * of the invalid ones.
   */
  lemma {:induction false} SortByTimeCorrect(rows: seq<Row>)
    ensures multiset(SortByTime(rows)) == multiset(rows)
    ensures |SortByTime(rows)| == |rows|
    ensures SortedByTime(SortByTime(rows))
  {
    if rows != [] {
      SortByTimeCorrect(rows[1..]);
      InsertSorted(rows[0], SortByTime(rows[1..]));
      InsertPermutes(rows[0], SortByTime(rows[1..]));
      assert rows == [rows[0]] + rows[1..];
    }
    calc {
      |SortByTime(rows)|;
      |multiset(SortByTime(rows))|;
      |multiset(rows)|;
      |rows|;
    }
  }

  /**
   * The frame of a batch: columns from the records' keys plus the date
   * column, each row's timestamp parsed by `stamp`, rows sorted by it.
   */
  function BuildFrame(recs: seq<Record>, number: string -> Option<real>, stamp: Json -> Option<nat>, dateCol: string): Frame
  {
    Frame(KeysOf(recs) + {dateCol}, SortByTime(RawRows(recs, number, stamp, dateCol)))
  }

  /**
   * The row of one record: its parsed timestamp (None without a date field
   * or with a null one, which `to_datetime` turns into NaT) and its coerced
   * cells.
   */
  function RowOf(rec: Record, number: string -> Option<real>, stamp: Json -> Option<nat>, dateCol: string): Row
  {
    Row(if dateCol in rec && !rec[dateCol].Null? then stamp(rec[dateCol]) else None, Coerce(number, rec, Untouched(dateCol)))
  }

  /** The rows of the records, in record order, before sorting. */
  function RawRows(recs: seq<Record>, number: string -> Option<real>, stamp: Json -> Option<nat>, dateCol: string): (raw: seq<Row>)
    ensures |raw| == |recs|
    ensures forall i :: 0 <= i < |recs| ==> raw[i] == RowOf(recs[i], number, stamp, dateCol)
  {
    seq(|recs|, i requires 0 <= i < |recs| => RowOf(recs[i], number, stamp, dateCol))
  }

  /** A column of the frame is a key of some record (or the date column). */
  lemma {:induction false} KeysOfMembers(recs: seq<Record>)
    ensures forall c :: c in KeysOf(recs) <==> exists i :: 0 <= i < |recs| && c in recs[i]
  {
    if recs != [] {
      var n := |recs| - 1;
      KeysOfMembers(recs[..n]);
      assert forall i :: 0 <= i < n ==> recs[..n][i] == recs[i];
    }
  }

  /**
   * The frame has one row per record, sorted by timestamp, and its rows are
   * the records' rows rearranged: each record's row is a row of the frame.
   */
  lemma FrameOfRecords(recs: seq<Record>, number: string -> Option<real>, stamp: Json -> Option<nat>, dateCol: string)
    ensures |BuildFrame(recs, number, stamp, dateCol).rows| == |recs|
    ensures SortedByTime(BuildFrame(recs, number, stamp, dateCol).rows)
    ensures multiset(BuildFrame(recs, number, stamp, dateCol).rows) == multiset(RawRows(recs, number, stamp, dateCol))
    ensures forall i :: 0 <= i < |recs| ==> RowOf(recs[i], number, stamp, dateCol) in BuildFrame(recs, number, stamp, dateCol).rows
  {
    var raw := RawRows(recs, number, stamp, dateCol);
    SortByTimeCorrect(raw);
    forall i | 0 <= i < |recs|
      ensures raw[i] in SortByTime(raw)
    {
      assert raw[i] in multiset(raw);
    }
  }

  /** The frame's columns are the date column and the keys of the records. */
  lemma FrameColumns(recs: seq<Record>, number: string -> Option<real>, stamp: Json -> Option<nat>, dateCol: string)
    ensures forall c :: c in BuildFrame(recs, number, stamp, dateCol).columns <==>
              c == dateCol || exists i :: 0 <= i < |recs| && c in recs[i]
  {
    KeysOfMembers(recs);
  }

  // ---------------------------------------------------------------------
  // Timestamp counts and the period covered
  // ---------------------------------------------------------------------

  /** `timestamps_parsed`: rows whose timestamp is valid. */
  function ParsedCount(rows: seq<Row>): (n: nat)
    ensures n <= |rows|
  {
    if rows == [] then 0 else ParsedCount(rows[..|rows| - 1]) + (if rows[|rows| - 1].t.Some? then 1 else 0)
  }

  /** `timestamps_invalid`: the other rows. */
  function InvalidCount(rows: seq<Row>): (n: nat)
    ensures ParsedCount(rows) + n == |rows|
  {
    |rows| - ParsedCount(rows)
  }

  /** The earliest valid timestamp (`periodo_inicio`), None when none parsed. */
  function PeriodStart(rows: seq<Row>): (r: Option<nat>)
    ensures r.None? <==> ParsedCount(rows) == 0
    ensures r.Some? ==> exists i :: 0 <= i < |rows| && rows[i].t == r
    ensures r.Some? ==> forall i :: 0 <= i < |rows| && rows[i].t.Some? ==> r.value <= rows[i].t.value
  {
    if rows == [] then None
    else
      var rest := PeriodStart(rows[..|rows| - 1]);
      var last := rows[|rows| - 1].t;
      assert forall i :: 0 <= i < |rows| - 1 ==> rows[..|rows| - 1][i] == rows[i];
      NoneParsed(rows[..|rows| - 1]);
      if last.None? then rest
      else if rest.None? || last.value < rest.value then last
      else rest
  }

  /** The latest valid timestamp (`periodo_fim`), None when none parsed. */
  function PeriodEnd(rows: seq<Row>): (r: Option<nat>)
    ensures r.None? <==> ParsedCount(rows) == 0
    ensures r.Some? ==> exists i :: 0 <= i < |rows| && rows[i].t == r
    ensures r.Some? ==> forall i :: 0 <= i < |rows| && rows[i].t.Some? ==> rows[i].t.value <= r.value
  {
    if rows == [] then None
    else
      var rest := PeriodEnd(rows[..|rows| - 1]);
      var last := rows[|rows| - 1].t;
      assert forall i :: 0 <= i < |rows| - 1 ==> rows[..|rows| - 1][i] == rows[i];
      NoneParsed(rows[..|rows| - 1]);
      if last.None? then rest
      else if rest.None? || last.value > rest.value then last
      else rest
  }

  /** In a sorted frame the valid rows come first: exactly the first ParsedCount rows. */
  lemma {:induction false} SortedValidPrefix(rows: seq<Row>, i: nat)
    requires SortedByTime(rows) && i < |rows|
    ensures rows[i].t.Some? <==> i < ParsedCount(rows)
    decreases |rows|
  {
    var n := |rows| - 1;
    var init := rows[..n];
    assert SortedByTime(init) by {
      forall a, b | 0 <= a < b < |init| ensures NoLater(init[a].t, init[b].t) {
        assert init[a] == rows[a] && init[b] == rows[b];
      }
    }
    if rows[n].t.Some? {
      // every row is valid
      assert forall k :: 0 <= k < n ==> rows[k].t.Some? by {
        forall k | 0 <= k < n ensures rows[k].t.Some? {
          assert NoLater(rows[k].t, rows[n].t);
        }
      }
      AllValidCount(rows);
    } else if i < n {
      SortedValidPrefix(init, i);
      assert init[i] == rows[i];
    }
  }

  lemma {:induction false} AllValidCount(rows: seq<Row>)
    requires forall k :: 0 <= k < |rows| ==> rows[k].t.Some?
    ensures ParsedCount(rows) == |rows|
  {
    if rows != [] {
      AllValidCount(rows[..|rows| - 1]);
    }
  }

  lemma {:induction false} NoneParsed(rows: seq<Row>)
    ensures ParsedCount(rows) == 0 ==> forall i :: 0 <= i < |rows| ==> rows[i].t.None?
  {
    if rows != [] {
      NoneParsed(rows[..|rows| - 1]);
      assert forall i :: 0 <= i < |rows| - 1 ==> rows[..|rows| - 1][i] == rows[i];
    }
  }
}
