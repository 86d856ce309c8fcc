/** What every view in backend/api/views shares: the JSON response, the
    create guard chain ("if not field: 400"), the update patch that copies only
    the recognised keys present, and the store round trips of create, update,
    delete, bulk delete and list. */
module Views {
  import opened Wrappers
  import opened Text
  import opened PyValue
  import opened Store

  const OK := 200
  const CREATED := 201
  const BAD_REQUEST := 400
  const NOT_FOUND := 404
  const SERVER_ERROR := 500

  const ITEM_NOT_FOUND := "Item not found or update failed"
  const NO_UPDATE_DATA := "No data provided for update"
  const IDS_REQUIRED := "IDs list is required"

  /** The JSON body: `data` holding one record (or null), `data` holding a
      list, `message` on success, or `error` on failure. */
  datatype Body = Record(data: Option<Dict>) | Records(list: seq<Option<Dict>>) | Message(text: string) | Error(text: string)

  datatype Response = Response(status: int, body: Body)

  function BadRequest(message: string): Response {
    Response(BAD_REQUEST, Error(message))
  }

  // ---------------------------------------------------------------- guards

  /** How a guard tests a request field: `if not v` or `if v is None`. */
  datatype Need = NotFalsy | NotNone

  /** One step of a create guard chain: the field, the test, the 400 message. */
  datatype Rule = Rule(key: string, need: Need, message: string)

  predicate Passes(r: Rule, body: Dict) {
    match r.need
    case NotFalsy => Truthy(Get(body, r.key))
    case NotNone => Get(body, r.key) != Null
  }

  /** The position of the first rule the body fails, checking in order. */
  function FirstFailure(rules: seq<Rule>, body: Dict): (r: Option<nat>)
    ensures r.None? <==> forall i :: 0 <= i < |rules| ==> Passes(rules[i], body)
    ensures r.Some? ==> r.value < |rules| && !Passes(rules[r.value], body)
    ensures r.Some? ==> forall j :: 0 <= j < r.value ==> Passes(rules[j], body)
  {
    if rules == [] then None
    else if !Passes(rules[0], body) then Some(0)
    else match FirstFailure(rules[1..], body)
      case None =>
        assert forall i :: 1 <= i < |rules| ==> rules[i] == rules[1..][i - 1];
        None
      case Some(i) =>
        assert forall j :: 1 <= j <= i ==> rules[j] == rules[1..][j - 1];
        Some(i + 1)
  }

  /** The guard chain: the 400 message of the first failing rule, if any. */
  function Guard(rules: seq<Rule>, body: Dict): (r: Option<string>)
    ensures r.None? <==> forall i :: 0 <= i < |rules| ==> Passes(rules[i], body)
  {
    match FirstFailure(rules, body)
    case None => None
    case Some(i) => Some(rules[i].message)
  }

  /** A create body: the record to insert once every rule passes, else the
      first failing rule's message. */
  function Guarded(rules: seq<Rule>, body: Dict, record: Dict): (r: Result<Dict>)
    ensures r.Ok? <==> forall i :: 0 <= i < |rules| ==> Passes(rules[i], body)
    ensures r.Ok? ==> r.value == record
    ensures r.Err? ==> Guard(rules, body) == Some(r.message)
  {
    match Guard(rules, body)
    case Some(m) => Err(m)
    case None => Ok(record)
  }

  /** Guard reports the message of rule k exactly when rules before k pass and
      rule k fails (messages being distinct). */
  lemma GuardReports(rules: seq<Rule>, body: Dict, k: nat)
    requires k < |rules|
    requires forall j :: 0 <= j < k ==> Passes(rules[j], body)
    requires !Passes(rules[k], body)
    ensures Guard(rules, body) == Some(rules[k].message)
  {
    var i := FirstFailure(rules, body).value;
    if i < k {
    } else if i > k {
    }
  }

  // --------------------------------------------------------- update patches

  /** How an update copies a present key: as given, as None when falsy
      (`v if v else None`), or through int() with a 400 message on failure. */
  datatype Conv = AsGiven | NoneIfFalsy | AsInt(message: string)

  /** `if 'camel' in request.data: update_data['snake'] = conv(request.data.get('camel'))` */
  datatype FieldMap = FieldMap(camel: string, snake: string, conv: Conv)

  function Convert(c: Conv, v: Value): (r: Option<Value>)
    ensures c.AsGiven? ==> r == Some(v)
    ensures c.NoneIfFalsy? ==> r == Some(if Truthy(v) then v else Null)
    ensures c.AsInt? ==> (r.Some? <==> PyInt(v).Some?) && (r.Some? ==> r.value == Int(PyInt(v).value))
  {
    match c
    case AsGiven => Some(v)
    case NoneIfFalsy => Some(if Truthy(v) then v else Null)
    case AsInt(_) => match PyInt(v) case None => None case Some(n) => Some(Int(n))
  }

  predicate DistinctSnake(fields: seq<FieldMap>) {
    forall i, j :: 0 <= i < j < |fields| ==> fields[i].snake != fields[j].snake
  }

  /** The columns a patch built from fields sets for this body. */
  function Present(fields: seq<FieldMap>, body: Dict): set<string> {
    set i | 0 <= i < |fields| && fields[i].camel in body :: fields[i].snake
  }

  /** update_data filled field by field in source order; the first failing
      int() aborts with its message. The patch holds exactly the recognised
      keys present, each converted. */
  function PatchFrom(fields: seq<FieldMap>, body: Dict): (r: Result<Dict>)
    requires DistinctSnake(fields)
    ensures r.Ok? ==> r.value.Keys == Present(fields, body)
    ensures r.Ok? ==> forall i :: 0 <= i < |fields| && fields[i].camel in body ==>
      Convert(fields[i].conv, body[fields[i].camel]) == Some(r.value[fields[i].snake])
    ensures r.Ok? <==> forall i :: 0 <= i < |fields| && fields[i].camel in body ==>
      Convert(fields[i].conv, body[fields[i].camel]).Some?
    decreases |fields|
  {
    if fields == [] then Ok(map[])
    else
      var n := |fields| - 1;
      var f := fields[n];
      var init := fields[..n];
      assert forall i :: 0 <= i < n ==> init[i] == fields[i];
      assert Present(fields, body) == Present(init, body) + (if f.camel in body then {f.snake} else {});
      match PatchFrom(init, body)
      case Err(m) => Err(m)
      case Ok(p) =>
        if f.camel !in body then Ok(p)
        else match Convert(f.conv, body[f.camel])
          case None => Err(f.conv.message)
          case Some(v) => Ok(p[f.snake := v])
  }

  /** Field i's column is in the patch exactly when its key is in the body. */
  lemma PresentAt(fields: seq<FieldMap>, body: Dict, i: nat)
    requires DistinctSnake(fields) && i < |fields|
    ensures fields[i].snake in Present(fields, body) <==> fields[i].camel in body
  {
    if fields[i].snake in Present(fields, body) {
      var j :| 0 <= j < |fields| && fields[j].camel in body && fields[j].snake == fields[i].snake;
      assert j == i;
    }
  }

  /** A patch that abandons the update names the int() failure of a present
      field. */
  lemma PatchErrorMessage(fields: seq<FieldMap>, body: Dict)
    requires DistinctSnake(fields)
    requires PatchFrom(fields, body).Err?
    ensures exists i :: (0 <= i < |fields| && fields[i].camel in body && fields[i].conv.AsInt? &&
      PyInt(body[fields[i].camel]).None? && PatchFrom(fields, body).message == fields[i].conv.message)
    decreases |fields|
  {
    var n := |fields| - 1;
    var init := fields[..n];
    assert forall i :: 0 <= i < n ==> init[i] == fields[i];
    if PatchFrom(init, body).Err? {
      PatchErrorMessage(init, body);
      var i :| 0 <= i < |init| && init[i].camel in body && init[i].conv.AsInt? &&
        PyInt(body[init[i].camel]).None? && PatchFrom(init, body).message == init[i].conv.message;
      assert fields[i] == init[i];
    } else {
      assert fields[n].camel in body && Convert(fields[n].conv, body[fields[n].camel]).None?;
    }
  }

  /** The update body of the reference-table views: the patch, or 400 when it
      is abandoned or comes out empty. */
  function PatchOrEmpty(fields: seq<FieldMap>, body: Dict): (r: Result<Dict>)
    requires DistinctSnake(fields)
    ensures r.Ok? ==> r == PatchFrom(fields, body) && r.value != map[]
    ensures PatchFrom(fields, body).Err? ==> r == PatchFrom(fields, body)
    ensures PatchFrom(fields, body) == Ok(map[]) ==> r == Err(NO_UPDATE_DATA)
  {
    match PatchFrom(fields, body)
    case Err(m) => Err(m)
    case Ok(p) => if p == map[] then Err(NO_UPDATE_DATA) else Ok(p)
  }

  /** With every recognised key absent the patch is empty, so the update is
      refused with "No data provided for update". */
  lemma NothingRecognisedIsRefused(fields: seq<FieldMap>, body: Dict)
    requires DistinctSnake(fields)
    requires forall i :: 0 <= i < |fields| ==> fields[i].camel !in body
    ensures PatchOrEmpty(fields, body) == Err(NO_UPDATE_DATA)
  {
    assert Present(fields, body) == {};
  }

  /** A patch builder with no int() conversion never abandons the update. */
  predicate NoIntFields(fields: seq<FieldMap>) {
    forall i :: 0 <= i < |fields| ==> !fields[i].conv.AsInt?
  }

  /** Without int() fields the update is refused exactly when no recognised
      key is present, and then with "No data provided for update"; otherwise
      the patch sets field i's column exactly when its key is present. */
  lemma PlainPatch(fields: seq<FieldMap>, body: Dict)
    requires DistinctSnake(fields) && NoIntFields(fields)
    ensures PatchOrEmpty(fields, body).Err? <==> forall i :: 0 <= i < |fields| ==> fields[i].camel !in body
    ensures PatchOrEmpty(fields, body).Err? ==> PatchOrEmpty(fields, body) == Err(NO_UPDATE_DATA)
    ensures PatchOrEmpty(fields, body).Ok? ==> PatchOrEmpty(fields, body).value.Keys == Present(fields, body)
  {
    var p := PatchFrom(fields, body);
    assert p.Ok?;
    if exists i :: 0 <= i < |fields| && fields[i].camel in body {
      var i :| 0 <= i < |fields| && fields[i].camel in body;
      assert fields[i].snake in Present(fields, body);
    } else {
      NothingRecognisedIsRefused(fields, body);
    }
  }

  /** A present key of an accepted patch sets its column to its converted
      value. */
  lemma PatchValueAt(fields: seq<FieldMap>, body: Dict, i: nat)
    requires DistinctSnake(fields) && i < |fields| && fields[i].camel in body
    requires PatchOrEmpty(fields, body).Ok?
    ensures fields[i].snake in PatchOrEmpty(fields, body).value
    ensures Convert(fields[i].conv, body[fields[i].camel]) == Some(PatchOrEmpty(fields, body).value[fields[i].snake])
  {
    PresentAt(fields, body, i);
  }

  // ------------------------------------------------------- store round trips

  /** Every row shaped for the response, in order. */
  function Shaped(shape: Dict -> Option<Dict>, rows: seq<Dict>): (r: seq<Option<Dict>>)
    ensures |r| == |rows| && forall i :: 0 <= i < |rows| ==> r[i] == shape(rows[i])
  {
    seq(|rows|, i requires 0 <= i < |rows| => shape(rows[i]))
  }

  /** Reference-table views return the stored row itself. */
  function AsStored(row: Dict): Option<Dict> {
    Some(row)
  }

  /** Insert the prepared record, or answer 400 with the guard's message;
      201 with the new row, or 500 when the store returns nothing. */
  method Create(t: Table, prepared: Result<Dict>, noData: string, shape: Dict -> Option<Dict>)
    returns (resp: Response)
    requires t.Valid()
    modifies t
    ensures t.Valid()
    ensures prepared.Err? ==> resp == BadRequest(prepared.message)
    ensures prepared.Err? ==> t.rows == old(t.rows) && t.nextId == old(t.nextId)
    ensures prepared.Ok? ==> t.nextId == old(t.nextId) + 1
    ensures prepared.Ok? ==> t.rows == old(t.rows)[old(t.nextId) := Table.Stamped(prepared.value, old(t.nextId))]
    ensures prepared.Ok? ==> resp == if t.returnsRows
      then Response(CREATED, Record(shape(Table.Stamped(prepared.value, old(t.nextId)))))
      else Response(SERVER_ERROR, Error(noData))
  {
    match prepared
    case Err(m) =>
      resp := BadRequest(m);
    case Ok(record) =>
      var data := t.Insert(record);
      if |data| > 0 {
        resp := Response(CREATED, Record(shape(data[0])));
      } else {
        resp := Response(SERVER_ERROR, Error(noData));
      }
  }

  /** Apply the prepared patch to the row with this id, or answer 400; 200 with
      the updated row, or 404 when no row matched. */
  method Update(t: Table, id: int, prepared: Result<Dict>, shape: Dict -> Option<Dict>)
    returns (resp: Response)
    requires t.Valid()
    requires prepared.Ok? ==> "id" !in prepared.value
    modifies t
    ensures t.Valid() && t.nextId == old(t.nextId)
    ensures prepared.Err? ==> resp == BadRequest(prepared.message) && t.rows == old(t.rows)
    ensures prepared.Ok? && id in old(t.rows) ==> t.rows == old(t.rows)[id := old(t.rows)[id] + prepared.value]
    ensures prepared.Ok? && id !in old(t.rows) ==> t.rows == old(t.rows)
    ensures prepared.Ok? ==> resp == if id in old(t.rows) && t.returnsRows
      then Response(OK, Record(shape(t.rows[id])))
      else Response(NOT_FOUND, Error(ITEM_NOT_FOUND))
  {
    match prepared
    case Err(m) =>
      resp := BadRequest(m);
    case Ok(patch) =>
      var data := t.Update(id, patch);
      if |data| > 0 {
        resp := Response(OK, Record(shape(data[0])));
      } else {
        resp := Response(NOT_FOUND, Error(ITEM_NOT_FOUND));
      }
  }

  /** Delete by id; the answer is 200 whether or not a row matched. */
  method DeleteOne(t: Table, id: int, message: string) returns (resp: Response)
    requires t.Valid()
    modifies t
    ensures t.Valid() && t.nextId == old(t.nextId)
    ensures t.rows == old(t.rows) - {id}
    ensures resp == Response(OK, Message(message))
  {
    t.Delete(id);
    resp := Response(OK, Message(message));
  }

  /** The ids of a bulk delete: request.data.get('ids', []) when it is a
      non-empty list, None when `not ids or not isinstance(ids, list)`. */
  function BulkIds(body: Dict): (r: Option<seq<Value>>)
    ensures r.Some? <==> "ids" in body && body["ids"].List? && body["ids"].items != []
    ensures r.Some? ==> r.value == body["ids"].items
  {
    var ids := GetOr(body, "ids", List([]));
    if !Truthy(ids) || !ids.List? then None else Some(ids.items)
  }

  function BulkMessage(count: nat): string {
    IntToString(count) + " item(s) deleted successfully"
  }

  /** Delete every listed id, reporting how many ids were listed (not how many
      rows existed); 400 and no store call without a non-empty list. */
  method BulkDelete(t: Table, body: Dict) returns (resp: Response)
    requires t.Valid()
    modifies t
    ensures t.Valid() && t.nextId == old(t.nextId)
    ensures BulkIds(body).None? ==> resp == BadRequest(IDS_REQUIRED) && t.rows == old(t.rows)
    ensures BulkIds(body).Some? ==>
      var ids := BulkIds(body).value;
      t.rows == (map k | k in old(t.rows) && !Listed(k, ids) :: old(t.rows)[k]) &&
      resp == Response(OK, Message(BulkMessage(|ids|)))
  {
    match BulkIds(body)
    case None =>
      resp := BadRequest(IDS_REQUIRED);
    case Some(ids) =>
      t.DeleteIn(ids);
      resp := Response(OK, Message(BulkMessage(|ids|)));
  }

  /** select('*') with the filter and order, every row shaped: the response
      lists each selected row once, in order. */
  method ListRows(t: Table, f: Filter, o: Order, shape: Dict -> Option<Dict>)
    returns (resp: Response, ghost rows: seq<Dict>)
    requires t.Valid()
    ensures (set r | r in rows) == t.MatchingRows(f) && |rows| == |t.MatchingIds(f)|
    ensures Sorted(o, rows)
    ensures resp == Response(OK, Records(Shaped(shape, rows)))
  {
    var rs := t.Select(f, o);
    rows := rs;
    resp := Response(OK, Records(Shaped(shape, rs)));
  }

  // ------------------------------------------------------ reference tables

  /** No field of a patch builder writes the id column. */
  predicate NoIdField(fields: seq<FieldMap>) {
    forall i :: 0 <= i < |fields| ==> fields[i].snake != "id"
  }

  lemma PresentHasNoId(fields: seq<FieldMap>, body: Dict)
    requires NoIdField(fields)
    ensures "id" !in Present(fields, body)
  {
  }

  /** The update view of a reference table: build the patch from the
      recognised keys present, refuse an abandoned or empty patch with 400,
      then apply it to the row with this id (404 when there is none). */
  method PatchRow(t: Table, id: int, fields: seq<FieldMap>, body: Dict) returns (resp: Response)
    requires t.Valid() && DistinctSnake(fields) && NoIdField(fields)
    modifies t
    ensures t.Valid() && t.nextId == old(t.nextId)
    ensures PatchOrEmpty(fields, body).Err? ==>
      resp == BadRequest(PatchOrEmpty(fields, body).message) && t.rows == old(t.rows)
    ensures PatchOrEmpty(fields, body).Ok? ==>
      var patch := PatchOrEmpty(fields, body).value;
      (id in old(t.rows) ==> t.rows == old(t.rows)[id := old(t.rows)[id] + patch]) &&
      (id !in old(t.rows) ==> t.rows == old(t.rows)) &&
      resp == if id in old(t.rows) && t.returnsRows
        then Response(OK, Record(Some(t.rows[id])))
        else Response(NOT_FOUND, Error(ITEM_NOT_FOUND))
  {
    PresentHasNoId(fields, body);
    resp := Update(t, id, PatchOrEmpty(fields, body), AsStored);
  }

  const BY_ID := Order("id", false)

  /** The list view of a reference table: every row once, by ascending id. */
  method ListById(t: Table) returns (resp: Response, ghost rows: seq<Dict>)
    requires t.Valid()
    ensures (set r | r in rows) == set k | k in t.rows :: t.rows[k]
    ensures |rows| == |t.rows|
    ensures forall i, j :: 0 <= i < j < |rows| ==> ValueLe(Get(rows[i], "id"), Get(rows[j], "id"))
    ensures resp == Response(OK, Records(Shaped(AsStored, rows)))
  {
    resp, rows := ListRows(t, NoFilter, BY_ID, AsStored);
    assert forall k :: k in t.rows ==> k in t.MatchingIds(NoFilter);
    assert t.MatchingIds(NoFilter) == t.rows.Keys;
  }
}
