/** The two serialisers of the outbox views, _row_to_camel and
    _payload_to_snake, as tables of columns: each entry says which key it
    reads, which key it writes and how it defaults a missing or empty value. */
module Columns {
  import opened Wrappers
  import opened PyValue

  /** How _row_to_camel reads a column v = row.get(snake). */
  datatype Read =
    | Raw        // v
    | OrText     // v or ''
    | OrZero     // v or 0
    | TimeText   // str(v or '') if v is not None else ''

  /** How _payload_to_snake reads a key of the request. */
  datatype Write =
    | Plain                  // data.get(camel)
    | Default(value: Value)  // data.get(camel, default)
    | OrNone                 // data.get(camel) or None

  datatype ReadCol = ReadCol(camel: string, snake: string, read: Read)
  datatype WriteCol = WriteCol(snake: string, camel: string, write: Write)

  function ReadValue(r: Read, v: Value): (out: Value)
    ensures r.Raw? ==> out == v
    ensures r.OrText? || r.OrZero? ==> Truthy(v) ==> out == v
    ensures r.OrText? || r.TimeText? ==> !Truthy(v) ==> out == Str("")
    ensures r.OrZero? ==> !Truthy(v) ==> out == Int(0)
    ensures r.TimeText? && v != Null ==> out == Str(PyStr(Or(v, Str(""))))
  {
    match r
    case Raw => v
    case OrText => Or(v, Str(""))
    case OrZero => Or(v, Int(0))
    case TimeText => if v != Null then Str(PyStr(Or(v, Str("")))) else Str("")
  }

  function WriteValue(w: Write, data: Dict, camel: string): (out: Value)
    ensures camel !in data ==> out == (if w.Default? then w.value else Null)
    ensures camel in data && (w.Plain? || w.Default?) ==> out == data[camel]
    ensures camel in data && w.OrNone? ==> out == if Truthy(data[camel]) then data[camel] else Null
  {
    match w
    case Plain => Get(data, camel)
    case Default(d) => GetOr(data, camel, d)
    case OrNone => Or(Get(data, camel), Null)
  }

  function CamelNames(cols: seq<ReadCol>): (names: seq<string>)
    ensures |names| == |cols| && forall i :: 0 <= i < |cols| ==> names[i] == cols[i].camel
  {
    seq(|cols|, i requires 0 <= i < |cols| => cols[i].camel)
  }

  function SnakeNames(cols: seq<WriteCol>): (names: seq<string>)
    ensures |names| == |cols| && forall i :: 0 <= i < |cols| ==> names[i] == cols[i].snake
  {
    seq(|cols|, i requires 0 <= i < |cols| => cols[i].snake)
  }

  predicate Distinct(names: seq<string>) {
    forall i, j :: 0 <= i < j < |names| ==> names[i] != names[j]
  }

  predicate DistinctCamel(cols: seq<ReadCol>) {
    forall i, j :: 0 <= i < j < |cols| ==> cols[i].camel != cols[j].camel
  }

  predicate DistinctColumns(cols: seq<WriteCol>) {
    forall i, j :: 0 <= i < j < |cols| ==> cols[i].snake != cols[j].snake
  }

  /** The record _row_to_camel builds from a non-empty row: one key per
      column, each read with its default. */
  function ToCamel(cols: seq<ReadCol>, row: Dict): (r: Dict)
    requires DistinctCamel(cols)
    ensures r.Keys == set i | 0 <= i < |cols| :: cols[i].camel
    ensures forall i :: 0 <= i < |cols| ==> r[cols[i].camel] == ReadValue(cols[i].read, Get(row, cols[i].snake))
    decreases |cols|
  {
    if cols == [] then map[]
    else
      var n := |cols| - 1;
      var init := cols[..n];
      var p := ToCamel(init, row);
      CamelKeysSnoc(cols);
      p[cols[n].camel := ReadValue(cols[n].read, Get(row, cols[n].snake))]
  }

  /** The last column's name joins the names of the ones before it; those
      columns are the same, and, the names being distinct, named otherwise. */
  lemma CamelKeysSnoc(cols: seq<ReadCol>)
    requires |cols| > 0 && DistinctCamel(cols)
    ensures var n := |cols| - 1;
      DistinctCamel(cols[..n]) &&
      (forall i :: 0 <= i < n ==> cols[..n][i] == cols[i] && cols[i].camel != cols[n].camel) &&
      (set i | 0 <= i < |cols| :: cols[i].camel) == (set i | 0 <= i < n :: cols[..n][i].camel) + {cols[n].camel}
  {
  }

  /** _row_to_camel: None for a missing or empty row. */
  function RowToCamel(cols: seq<ReadCol>, row: Dict): (r: Option<Dict>)
    requires DistinctCamel(cols)
    ensures row == map[] <==> r.None?
    ensures r.Some? ==> r.value == ToCamel(cols, row)
  {
    if row == map[] then None else Some(ToCamel(cols, row))
  }

  /** _payload_to_snake: one key per column, each read from the request with
      its default. */
  function ToSnake(cols: seq<WriteCol>, data: Dict): (r: Dict)
    requires DistinctColumns(cols)
    ensures r.Keys == set i | 0 <= i < |cols| :: cols[i].snake
    ensures forall i :: 0 <= i < |cols| ==> r[cols[i].snake] == WriteValue(cols[i].write, data, cols[i].camel)
    decreases |cols|
  {
    if cols == [] then map[]
    else
      var n := |cols| - 1;
      var init := cols[..n];
      var p := ToSnake(init, data);
      SnakeKeysSnoc(cols);
      p[cols[n].snake := WriteValue(cols[n].write, data, cols[n].camel)]
  }

  lemma SnakeKeysSnoc(cols: seq<WriteCol>)
    requires |cols| > 0 && DistinctColumns(cols)
    ensures var n := |cols| - 1;
      DistinctColumns(cols[..n]) &&
      (forall i :: 0 <= i < n ==> cols[..n][i] == cols[i] && cols[i].snake != cols[n].snake) &&
      (set i | 0 <= i < |cols| :: cols[i].snake) == (set i | 0 <= i < n :: cols[..n][i].snake) + {cols[n].snake}
  {
  }

  /** A list of distinct names holds as many names as it is long. */
  lemma {:induction false} CardOfDistinct(names: seq<string>)
    requires Distinct(names)
    ensures |set x | x in names| == |names|
  {
    if names != [] {
      CardOfDistinct(names[1..]);
      assert (set x | x in names) == {names[0]} + (set x | x in names[1..]);
    }
  }

  lemma ToCamelSize(cols: seq<ReadCol>, row: Dict)
    requires DistinctCamel(cols)
    ensures |ToCamel(cols, row).Keys| == |cols|
  {
    var names := CamelNames(cols);
    CardOfDistinct(names);
    assert (set i | 0 <= i < |cols| :: cols[i].camel) == (set x | x in names) by {
      forall x | x in names ensures x in (set i | 0 <= i < |cols| :: cols[i].camel) {
        var i :| 0 <= i < |names| && names[i] == x;
      }
    }
  }

  lemma ToSnakeSize(cols: seq<WriteCol>, data: Dict)
    requires DistinctColumns(cols)
    ensures |ToSnake(cols, data).Keys| == |cols|
  {
    var names := SnakeNames(cols);
    CardOfDistinct(names);
    assert (set i | 0 <= i < |cols| :: cols[i].snake) == (set x | x in names) by {
      forall x | x in names ensures x in (set i | 0 <= i < |cols| :: cols[i].snake) {
        var i :| 0 <= i < |names| && names[i] == x;
      }
    }
  }

  /** Reading back what was written recovers the request's value v. */
  predicate Recovers(r: Read, w: Write, v: Value) {
    ReadValue(r, match w case OrNone => Or(v, Null) case _ => v) == v
  }

  /** The pairs of read and write rules the outbox serialisers pair up, with
      the values each pair carries through unchanged. */
  predicate Carries(r: Read, w: Write, v: Value) {
    match (r, w)
    case (Raw, Plain) => true
    case (OrText, Default(d)) => d == Str("") && v.Str?
    case (OrZero, Default(d)) => d == Int(0) && v.Int?
    case (OrText, OrNone) => v.Str?
    case (TimeText, OrNone) => v.Str?
    case _ => false
  }

  lemma CarriesRecovers(r: Read, w: Write, v: Value)
    requires Carries(r, w, v)
    ensures Recovers(r, w, v)
  {
  }

  /** One field of the round trip: column j of the read side and column i of
      the write side are the same pair of keys. */
  lemma RoundTripAt(rcols: seq<ReadCol>, wcols: seq<WriteCol>, data: Dict, j: nat, i: nat)
    requires DistinctCamel(rcols) && DistinctColumns(wcols)
    requires j < |rcols| && i < |wcols|
    requires rcols[j].camel == wcols[i].camel && rcols[j].snake == wcols[i].snake
    requires wcols[i].camel in data && Carries(rcols[j].read, wcols[i].write, data[wcols[i].camel])
    ensures ToCamel(rcols, ToSnake(wcols, data))[wcols[i].camel] == data[wcols[i].camel]
  {
    var row := ToSnake(wcols, data);
    assert Get(row, rcols[j].snake) == WriteValue(wcols[i].write, data, wcols[i].camel);
    CarriesRecovers(rcols[j].read, wcols[i].write, data[wcols[i].camel]);
  }

  /** Column offset + i of the read side and column i of the write side name
      the same pair of keys, and data holds a value the pair carries. */
  predicate Aligned(rcols: seq<ReadCol>, wcols: seq<WriteCol>, offset: nat, data: Dict) {
    offset + |wcols| <= |rcols| &&
    forall i :: 0 <= i < |wcols| ==>
      rcols[offset + i].camel == wcols[i].camel && rcols[offset + i].snake == wcols[i].snake &&
      wcols[i].camel in data && Carries(rcols[offset + i].read, wcols[i].write, data[wcols[i].camel])
  }

  /** Reading back the row written from data gives data back on every key
      the write side carries. */
  lemma RoundTrip(rcols: seq<ReadCol>, wcols: seq<WriteCol>, offset: nat, data: Dict)
    requires DistinctCamel(rcols) && DistinctColumns(wcols)
    requires Aligned(rcols, wcols, offset, data)
    ensures forall i :: 0 <= i < |wcols| ==>
      wcols[i].camel in ToCamel(rcols, ToSnake(wcols, data)) &&
      ToCamel(rcols, ToSnake(wcols, data))[wcols[i].camel] == data[wcols[i].camel]
  {
    forall i | 0 <= i < |wcols|
      ensures wcols[i].camel in ToCamel(rcols, ToSnake(wcols, data))
      ensures ToCamel(rcols, ToSnake(wcols, data))[wcols[i].camel] == data[wcols[i].camel]
    {
      RoundTripAt(rcols, wcols, data, offset + i, i);
    }
  }
}
