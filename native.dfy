/**
 * `_to_native`: the last step of the current, power and demand analyzers,
 * which turns the result into plain JSON-ready values. NumPy scalars become
 * Python numbers, a NaN float and every missing marker become None, lists,
 * tuples and arrays become lists element by element, dict keys become
 * strings, timestamps are rendered as text, and anything else is
 * stringified.
 */
module Native {
  import opened DateFormat

  /** A float as Python holds it: a finite number or NaN. */
  datatype Float = Finite(x: real) | NaN

  /** The values the analyzers' results are made of. */
  datatype PyValue =
    | PyNone
    | PyBool(b: bool)
    | PyInt(i: int)
    | PyFloat(f: Float)
    | PyStr(s: string)
    | PyList(items: seq<PyValue>)
    | PyTuple(items: seq<PyValue>)
    | PyDict(entries: seq<(PyValue, PyValue)>)
    | NpInt(i: int)
    | NpFloat(f: Float)
    | NpArray(items: seq<PyValue>)
    | Stamp(d: DateTime)
    | NaT
    | Opaque(id: nat)

  /** The JSON-ready values: no NaN can be written down, dict keys are text. */
  datatype NativeValue =
    | NNone
    | NBool(b: bool)
    | NInt(i: int)
    | NFloat(x: real)
    | NStr(s: string)
    | NList(items: seq<NativeValue>)
    | NDict(entries: seq<(string, NativeValue)>)

  /**
   * Library text conversions the model does not spell out: `str()` of a
   * value that is not a string, and `strftime("%d/%m/%Y %H:%M")` of a timestamp.
   */
  datatype Render = Render(repr: PyValue -> string, stamp: DateTime -> string)

  /** `str(k)` of a dict key. */
  function KeyText(render: Render, k: PyValue): (s: string)
    ensures k.PyStr? ==> s == k.s
  {
    if k.PyStr? then k.s else render.repr(k)
  }

  function Keys(entries: seq<(string, NativeValue)>): (ks: seq<string>)
    ensures |ks| == |entries| && forall i :: 0 <= i < |entries| ==> ks[i] == entries[i].0
  {
    seq(|entries|, i requires 0 <= i < |entries| => entries[i].0)
  }

  predicate DistinctKeys(entries: seq<(string, NativeValue)>)
  {
    forall i, j :: 0 <= i < j < |entries| ==> entries[i].0 != entries[j].0
  }

  /** The first position of k in ks. */
  function IndexOf(ks: seq<string>, k: string): (i: nat)
    requires k in ks
    ensures i < |ks| && ks[i] == k
    ensures forall j :: 0 <= j < i ==> ks[j] != k
  {
    if ks[0] == k then 0 else 1 + IndexOf(ks[1..], k)
  }

  /**
   * One assignment `d[k] = v` in a dict comprehension: an existing key keeps
   * its place and takes the new value, a new key goes at the end.
   */
  function Assign(d: seq<(string, NativeValue)>, k: string, v: NativeValue): (r: seq<(string, NativeValue)>)
    ensures k in Keys(d) ==> |r| == |d|
    ensures k !in Keys(d) ==> r == d + [(k, v)]
    ensures forall i :: 0 <= i < |d| && d[i].0 != k ==> r[i] == d[i]
    ensures forall i :: 0 <= i < |r| ==> r[i] == (k, v) || (i < |d| && r[i] == d[i])
    ensures forall i :: 0 <= i < |r| ==> r[i].0 == k || (i < |d| && r[i] == d[i])
  {
    if k in Keys(d) then d[IndexOf(Keys(d), k) := (k, v)] else d + [(k, v)]
  }

  /** The assignment keeps keys distinct and leaves k in the dict. */
  lemma AssignKeys(d: seq<(string, NativeValue)>, k: string, v: NativeValue)
    ensures DistinctKeys(d) ==> DistinctKeys(Assign(d, k, v))
    ensures k in Keys(Assign(d, k, v))
  {
    var r := Assign(d, k, v);
    if k in Keys(d) {
      var i := IndexOf(Keys(d), k);
      assert Keys(r) == Keys(d);
    } else {
      assert Keys(r)[|d|] == k;
    }
  }

  /** A dict built from (key, value) pairs in order, later pairs overriding earlier ones with the same key. */
  function Build(pairs: seq<(string, NativeValue)>): (r: seq<(string, NativeValue)>)
    ensures DistinctKeys(r)
    ensures |r| <= |pairs|
  {
    if pairs == [] then []
    else
      var n := |pairs| - 1;
      AssignKeys(Build(pairs[..n]), pairs[n].0, pairs[n].1);
      Assign(Build(pairs[..n]), pairs[n].0, pairs[n].1)
  }

  /** With distinct keys nothing is overridden: the dict has the pairs, in order. */
  lemma {:induction false} BuildDistinct(pairs: seq<(string, NativeValue)>)
    requires DistinctKeys(pairs)
    ensures Build(pairs) == pairs
  {
    if pairs != [] {
      var n := |pairs| - 1;
      var init := pairs[..n];
      assert DistinctKeys(init) by {
        forall i, j | 0 <= i < j < |init| ensures init[i].0 != init[j].0 {
          assert init[i] == pairs[i] && init[j] == pairs[j];
        }
      }
      BuildDistinct(init);
      assert pairs[n].0 !in Keys(init) by {
        forall i | 0 <= i < |init| ensures Keys(init)[i] != pairs[n].0 {
          assert init[i] == pairs[i];
        }
      }
      assert init + [pairs[n]] == pairs;
    }
  }

  /** Every key the dict has came from some pair, and every pair's key is in the dict. */
  lemma {:induction false} BuildKeys(pairs: seq<(string, NativeValue)>)
    ensures forall k :: k in Keys(Build(pairs)) <==> k in Keys(pairs)
  {
    if pairs != [] {
      var n := |pairs| - 1;
      var init := pairs[..n];
      BuildKeys(init);
      assert Keys(pairs) == Keys(init) + [pairs[n].0];
      var d := Build(init);
      var r := Assign(d, pairs[n].0, pairs[n].1);
      AssignKeys(d, pairs[n].0, pairs[n].1);
      forall k | k in Keys(r) ensures k in Keys(pairs) {
        var i :| 0 <= i < |r| && Keys(r)[i] == k;
        if r[i].0 != pairs[n].0 {
          assert Keys(d)[i] == k;
        }
      }
      forall k | k in Keys(d) ensures k in Keys(r) {
        var i :| 0 <= i < |d| && Keys(d)[i] == k;
        if k != pairs[n].0 {
          assert Keys(r)[i] == k;
        }
      }
    }
  }

  /** `_to_native`, branch by branch in the order the source tests them. */
  function ToNative(render: Render, o: PyValue): (r: NativeValue)
    ensures o.PyList? || o.PyTuple? || o.NpArray? ==> r.NList? && |r.items| == |o.items|
    ensures o.PyDict? ==> r.NDict? && DistinctKeys(r.entries) && |r.entries| <= |o.entries|
    ensures (o.PyFloat? || o.NpFloat?) && o.f.NaN? ==> r == NNone
    ensures (o.PyFloat? || o.NpFloat?) && o.f.Finite? ==> r == NFloat(o.f.x)
    ensures o.PyNone? || o.NaT? ==> r == NNone
    ensures o.PyInt? || o.NpInt? ==> r == NInt(o.i)
    ensures o.PyStr? ==> r == NStr(o.s)
    ensures o.PyBool? ==> r == NBool(o.b)
    decreases o
  {
    match o
    case PyDict(entries) =>
      NDict(Build(seq(|entries|, i requires 0 <= i < |entries| =>
        (KeyText(render, entries[i].0), ToNative(render, entries[i].1)))))
    case PyList(items) => NList(seq(|items|, i requires 0 <= i < |items| => ToNative(render, items[i])))
    case PyTuple(items) => NList(seq(|items|, i requires 0 <= i < |items| => ToNative(render, items[i])))
    case NpInt(i) => NInt(i)
    case NpFloat(f) => if f.NaN? then NNone else NFloat(f.x)
    case NpArray(items) => NList(seq(|items|, i requires 0 <= i < |items| => ToNative(render, items[i])))
    case PyNone => NNone
    case NaT => NNone
    case PyFloat(f) => if f.NaN? then NNone else NFloat(f.x)
    case Stamp(d) => NStr(render.stamp(d))
    case PyInt(i) => NInt(i)
    case PyStr(s) => NStr(s)
    case PyBool(b) => NBool(b)
    case Opaque(_) => NStr(render.repr(o))
  }

  /** Lists, tuples and arrays keep their length and order, element by element. */
  lemma ListsKeepOrder(render: Render, o: PyValue)
    requires o.PyList? || o.PyTuple? || o.NpArray?
    ensures forall i :: 0 <= i < |o.items| ==> ToNative(render, o).items[i] == ToNative(render, o.items[i])
  {
  }

  /** A dict whose keys are distinct strings keeps its entries and their order, values converted. */
  lemma StringKeyedDict(render: Render, entries: seq<(PyValue, PyValue)>)
    requires forall i :: 0 <= i < |entries| ==> entries[i].0.PyStr?
    requires forall i, j :: 0 <= i < j < |entries| ==> entries[i].0 != entries[j].0
    ensures |ToNative(render, PyDict(entries)).entries| == |entries|
    ensures forall i :: 0 <= i < |entries| ==>
      ToNative(render, PyDict(entries)).entries[i] == (entries[i].0.s, ToNative(render, entries[i].1))
  {
    var pairs := seq(|entries|, i requires 0 <= i < |entries| =>
      (KeyText(render, entries[i].0), ToNative(render, entries[i].1)));
    assert DistinctKeys(pairs) by {
      forall i, j | 0 <= i < j < |pairs| ensures pairs[i].0 != pairs[j].0 {
        assert entries[i].0 == PyStr(pairs[i].0) && entries[j].0 == PyStr(pairs[j].0);
      }
    }
    BuildDistinct(pairs);
  }

  // ---------------------------------------------------------------------
  // Converting twice changes nothing
  // ---------------------------------------------------------------------

  /** A native value seen again as a Python value. */
  function Embed(n: NativeValue): (o: PyValue)
    decreases n
  {
    match n
    case NNone => PyNone
    case NBool(b) => PyBool(b)
    case NInt(i) => PyInt(i)
    case NFloat(x) => PyFloat(Finite(x))
    case NStr(s) => PyStr(s)
    case NList(items) => PyList(seq(|items|, i requires 0 <= i < |items| => Embed(items[i])))
    case NDict(entries) => PyDict(seq(|entries|, i requires 0 <= i < |entries| => (PyStr(entries[i].0), Embed(entries[i].1))))
  }

  /** Every dict inside the value has distinct keys, as every output of ToNative does. */
  predicate WellFormed(n: NativeValue)
    decreases n
  {
    match n
    case NList(items) => forall i :: 0 <= i < |items| ==> WellFormed(items[i])
    case NDict(entries) => DistinctKeys(entries) && forall i :: 0 <= i < |entries| ==> WellFormed(entries[i].1)
    case _ => true
  }

  /** `_to_native` is idempotent: a converted value converts to itself. */
  lemma {:induction false} ToNativeFixes(render: Render, n: NativeValue)
    requires WellFormed(n)
    ensures ToNative(render, Embed(n)) == n
    decreases n
  {
    match n
    case NList(items) =>
      var out := ToNative(render, Embed(n));
      forall i | 0 <= i < |items| ensures out.items[i] == items[i] {
        ToNativeFixes(render, items[i]);
      }
    case NDict(entries) =>
      var embedded := seq(|entries|, i requires 0 <= i < |entries| => (PyStr(entries[i].0), Embed(entries[i].1)));
      assert forall i, j :: 0 <= i < j < |embedded| ==> embedded[i].0 != embedded[j].0;
      StringKeyedDict(render, embedded);
      var out := ToNative(render, Embed(n));
      forall i | 0 <= i < |entries| ensures out.entries[i] == entries[i] {
        ToNativeFixes(render, entries[i].1);
      }
    case _ =>
  }

  /** Every converted value is well formed, so the lemma above applies to it. */
  lemma {:induction false} ToNativeWellFormed(render: Render, o: PyValue)
    ensures WellFormed(ToNative(render, o))
    decreases o
  {
    match o
    case PyList(items) =>
      forall i | 0 <= i < |items| ensures WellFormed(ToNative(render, items[i])) {
        ToNativeWellFormed(render, items[i]);
      }
    case PyTuple(items) =>
      forall i | 0 <= i < |items| ensures WellFormed(ToNative(render, items[i])) {
        ToNativeWellFormed(render, items[i]);
      }
    case NpArray(items) =>
      forall i | 0 <= i < |items| ensures WellFormed(ToNative(render, items[i])) {
        ToNativeWellFormed(render, items[i]);
      }
    case PyDict(entries) =>
      var pairs := seq(|entries|, i requires 0 <= i < |entries| =>
        (KeyText(render, entries[i].0), ToNative(render, entries[i].1)));
      forall i | 0 <= i < |entries| ensures WellFormed(pairs[i].1) {
        ToNativeWellFormed(render, entries[i].1);
      }
      BuildValues(pairs);
    case _ =>
  }

  /** The values of a built dict are values of the pairs. */
  lemma {:induction false} BuildValues(pairs: seq<(string, NativeValue)>)
    ensures forall i :: 0 <= i < |Build(pairs)| ==> exists j :: 0 <= j < |pairs| && Build(pairs)[i] == pairs[j]
  {
    if pairs != [] {
      var n := |pairs| - 1;
      var init := pairs[..n];
      BuildValues(init);
      var d := Build(init);
      var r := Build(pairs);
      assert r == Assign(d, pairs[n].0, pairs[n].1);
      forall i | 0 <= i < |r| ensures exists j :: 0 <= j < |pairs| && r[i] == pairs[j] {
        if r[i] == (pairs[n].0, pairs[n].1) {
          assert r[i] == pairs[n];
        } else {
          assert i < |d| && r[i] == d[i];
          var j :| 0 <= j < |init| && d[i] == init[j];
          assert r[i] == pairs[j];
        }
      }
      assert forall i :: 0 <= i < |Build(pairs)| ==> exists j :: 0 <= j < |pairs| && Build(pairs)[i] == pairs[j];
    } else {
      assert |Build(pairs)| == 0;
    }
  }
}
