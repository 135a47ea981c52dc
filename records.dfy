/**
 * Input records and the in-memory frame the analyzers work on.
 *
 * The batch arrives as decoded JSON. `_normalizar_input` flattens it into a
 * list of flat records; the analyzers then build a frame whose cells are the
 * records' fields read through pandas' numeric coercion, one parsed
 * timestamp per row.
 */
module Records {
  import opened Wrappers

  /** A decoded JSON value. */
  datatype Json =
    | Null
    | Bool(b: bool)
    | Num(n: real)
    | Str(s: string)
    | Arr(items: seq<Json>)
    | Obj(fields: map<string, Json>)

  /** A flat record: field name to raw value. */
  type Record = map<string, Json>

  /** The key under which the telemetry API wraps one record. */
  const Envelope: string := "dadoEnergia"

  /**
   * Conversions done by library code outside the model: `pd.to_numeric` on a
   * string cell, and `pd.to_datetime` on a timestamp cell (seconds since the
   * Unix epoch, UTC, or None when it does not parse).
   */
  datatype Parsers = Parsers(number: string -> Option<real>, instant: Json -> Option<nat>)

  /** One object of the input, with its envelope removed when it has one. */
  function Unwrap(m: Record): (r: Record)
    ensures Envelope in m && m[Envelope].Obj? ==> r == m[Envelope].fields
    ensures !(Envelope in m && m[Envelope].Obj?) ==> r == m
  {
    if Envelope in m && m[Envelope].Obj? then m[Envelope].fields else m
  }

  /** What one element of an input list contributes: nothing unless it is an object. */
  function Kept(item: Json): seq<Record>
  {
    if item.Obj? then [Unwrap(item.fields)] else []
  }

  /** The records an input list yields, in input order. */
  function Normalized(items: seq<Json>): seq<Record>
  {
    if items == [] then [] else Normalized(items[..|items| - 1]) + Kept(items[|items| - 1])
  }

  /** The number of objects in a list. */
  function ObjectCount(items: seq<Json>): nat
  {
    if items == [] then 0 else ObjectCount(items[..|items| - 1]) + (if items[|items| - 1].Obj? then 1 else 0)
  }

  /** The records `_normalizar_input` yields, as a function of its input. */
  function Flatten(records: Json): seq<Record>
  {
    match records
    case Obj(m) => [Unwrap(m)]
    case Arr(items) => Normalized(items)
    case _ => []
  }

  /**
   * `_normalizar_input`: None gives no records, an object gives itself (or its
   * envelope's content), a list gives its objects in order, anything else
   * gives no records.
   */
  method NormalizeInput(records: Json) returns (rows: seq<Record>)
    ensures records.Null? ==> rows == []
    ensures records.Obj? ==> rows == [Unwrap(records.fields)]
    ensures records.Arr? ==> rows == Normalized(records.items) && |rows| == ObjectCount(records.items) <= |records.items|
    ensures !records.Null? && !records.Obj? && !records.Arr? ==> rows == []
    ensures rows == Flatten(records)
  {
    match records {
      case Null =>
        rows := [];
      case Obj(m) =>
        rows := [Unwrap(m)];
      case Arr(items) =>
        rows := [];
        var i := 0;
        while i < |items|
          invariant 0 <= i <= |items|
          invariant rows == Normalized(items[..i])
        {
          assert items[..i + 1][..i] == items[..i];
          if items[i].Obj? {
            var m := items[i].fields;
            if Envelope in m && m[Envelope].Obj? {
              rows := rows + [m[Envelope].fields];
            } else {
              rows := rows + [m];
            }
          }
          i := i + 1;
        }
        assert items[..|items|] == items;
        NormalizedLength(items);
      case _ =>
        rows := [];
    }
  }

  /** The output has one record per object of the input, so it is never longer than the input. */
  lemma {:induction false} NormalizedLength(items: seq<Json>)
    ensures |Normalized(items)| == ObjectCount(items) <= |items|
  {
    if items != [] {
      NormalizedLength(items[..|items| - 1]);
    }
  }

  /** Normalising a concatenation normalises each part. */
  lemma {:induction false} NormalizedAppend(a: seq<Json>, b: seq<Json>)
    ensures Normalized(a + b) == Normalized(a) + Normalized(b)
    ensures ObjectCount(a + b) == ObjectCount(a) + ObjectCount(b)
    decreases |b|
  {
    if b == [] {
      assert a + b == a;
    } else {
      var b' := b[..|b| - 1];
      assert (a + b)[..|a + b| - 1] == a + b';
      assert (a + b)[|a + b| - 1] == b[|b| - 1];
      NormalizedAppend(a, b');
    }
  }

  /** The object at position i of the list lands at position ObjectCount(items[..i]) of the output. */
  lemma NormalizedAt(items: seq<Json>, i: nat)
    requires i < |items| && items[i].Obj?
    ensures ObjectCount(items[..i]) < |Normalized(items)|
    ensures Normalized(items)[ObjectCount(items[..i])] == Unwrap(items[i].fields)
  {
    var head, pre, post := items[..i], items[..i + 1], items[i + 1..];
    assert pre[..|pre| - 1] == head;
    var obj := Normalized(pre);
    assert obj == Normalized(head) + [Unwrap(items[i].fields)];
    NormalizedLength(head);
    assert obj[ObjectCount(head)] == Unwrap(items[i].fields);
    NormalizedAppend(pre, post);
    assert pre + post == items;
    assert Normalized(items) == obj + Normalized(post);
  }

  /** Later objects get later output positions. */
  lemma CountGrows(items: seq<Json>, i: nat, j: nat)
    requires i < j <= |items| && items[i].Obj?
    ensures ObjectCount(items[..i]) < ObjectCount(items[..j])
  {
    var pre := items[..i + 1];
    assert pre[..|pre| - 1] == items[..i];
    NormalizedAppend(pre, items[i + 1..j]);
    assert pre + items[i + 1..j] == items[..j];
  }

  /**
   * Input order is kept: objects at positions i < j of the list appear in
   * the output, unwrapped, at positions p < q.
   */
  lemma NormalizedKeepsOrder(items: seq<Json>, i: nat, j: nat)
    requires i < j < |items| && items[i].Obj? && items[j].Obj?
    ensures ObjectCount(items[..i]) < ObjectCount(items[..j]) < |Normalized(items)|
    ensures Normalized(items)[ObjectCount(items[..i])] == Unwrap(items[i].fields)
    ensures Normalized(items)[ObjectCount(items[..j])] == Unwrap(items[j].fields)
  {
    NormalizedAt(items, i);
    NormalizedAt(items, j);
    CountGrows(items, i, j);
  }
}
