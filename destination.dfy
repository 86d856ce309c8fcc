/** backend/api/views/document_destination.py: the routing-slip rows of a
    document, one per destination office, ordered by sequence number. */
module Destination {
  import opened Wrappers
  import opened Text
  import opened PyValue
  import opened Store
  import opened Columns
  import opened Views

  /** The 19 keys of _row_to_camel. */
  const ROW: seq<ReadCol> := [
    ReadCol("id", "id", Raw),
    ReadCol("documentSourceId", "document_source_id", Raw),
    ReadCol("documentControlNo", "document_control_no", OrText),
    ReadCol("routeNo", "route_no", OrText),
    ReadCol("sequenceNo", "sequence_no", OrZero),
    ReadCol("destinationOffice", "destination_office", OrText),
    ReadCol("employeeActionOfficer", "employee_action_officer", OrText),
    ReadCol("actionRequired", "action_required", OrText),
    ReadCol("dateReleased", "date_released", OrText),
    ReadCol("timeReleased", "time_released", TimeText),
    ReadCol("dateRequired", "date_required", OrText),
    ReadCol("timeRequired", "time_required", TimeText),
    ReadCol("dateReceived", "date_received", OrText),
    ReadCol("timeReceived", "time_received", TimeText),
    ReadCol("remarks", "remarks", OrText),
    ReadCol("actionTaken", "action_taken", OrText),
    ReadCol("remarksOnActionTaken", "remarks_on_action_taken", OrText),
    ReadCol("dateActedUpon", "date_acted_upon", OrText),
    ReadCol("timeActedUpon", "time_acted_upon", TimeText)
  ]

  /** The 18 keys of _payload_to_snake, in the same order as ROW after id. */
  const PAYLOAD: seq<WriteCol> := [
    WriteCol("document_source_id", "documentSourceId", Plain),
    WriteCol("document_control_no", "documentControlNo", Default(Str(""))),
    WriteCol("route_no", "routeNo", Default(Str(""))),
    WriteCol("sequence_no", "sequenceNo", Default(Int(0))),
    WriteCol("destination_office", "destinationOffice", Default(Str(""))),
    WriteCol("employee_action_officer", "employeeActionOfficer", Default(Str(""))),
    WriteCol("action_required", "actionRequired", Default(Str(""))),
    WriteCol("date_released", "dateReleased", OrNone),
    WriteCol("time_released", "timeReleased", OrNone),
    WriteCol("date_required", "dateRequired", OrNone),
    WriteCol("time_required", "timeRequired", OrNone),
    WriteCol("date_received", "dateReceived", OrNone),
    WriteCol("time_received", "timeReceived", OrNone),
    WriteCol("remarks", "remarks", Default(Str(""))),
    WriteCol("action_taken", "actionTaken", Default(Str(""))),
    WriteCol("remarks_on_action_taken", "remarksOnActionTaken", Default(Str(""))),
    WriteCol("date_acted_upon", "dateActedUpon", OrNone),
    WriteCol("time_acted_upon", "timeActedUpon", OrNone)
  ]

  const OWNER := "document_source_id"
  const SOURCE_ID_REQUIRED := "document_source_id is required"
  const NUMBERS_REQUIRED := "document_control_no and route_no are required"
  const NO_DATA := "Failed to create destination - no data returned"
  const DELETED := "Destination deleted successfully"

  lemma RowKeysDistinct()
    ensures DistinctCamel(ROW)
  {
  }

  lemma PayloadKeysDistinct()
    ensures DistinctColumns(PAYLOAD)
  {
  }

  lemma PayloadHasNoId()
    ensures forall i :: 0 <= i < |PAYLOAD| ==> PAYLOAD[i].snake != "id"
  {
  }

  /** _row_to_camel: None for an empty row, else a record of exactly 19 keys. */
  function RowToCamel(row: Dict): (r: Option<Dict>)
    ensures row == map[] <==> r.None?
    ensures r.Some? ==> (RowKeysDistinct(); r.value == ToCamel(ROW, row)) && |r.value.Keys| == 19
  {
    RowKeysDistinct();
    ToCamelSize(ROW, row);
    Columns.RowToCamel(ROW, row)
  }

  /** _payload_to_snake: exactly 18 keys, never id. */
  function PayloadToSnake(data: Dict): (r: Dict)
    ensures |r.Keys| == 18 && "id" !in r
  {
    PayloadKeysDistinct();
    PayloadHasNoId();
    ToSnakeSize(PAYLOAD, data);
    ToSnake(PAYLOAD, data)
  }

  /** In the row _row_to_camel builds, an empty or null text column reads as
      '', an empty sequence number as 0, and a null time column as ''; a
      present time column reads as its str(). */
  lemma RowDefaults(row: Dict)
    requires row != map[]
    ensures var r := RowToCamel(row).value;
      forall i :: 0 <= i < |ROW| ==>
        var v := Get(row, ROW[i].snake);
        (ROW[i].read.OrText? && !Truthy(v) ==> r[ROW[i].camel] == Str("")) &&
        (ROW[i].read.OrZero? && !Truthy(v) ==> r[ROW[i].camel] == Int(0)) &&
        (ROW[i].read.TimeText? && v == Null ==> r[ROW[i].camel] == Str("")) &&
        (ROW[i].read.TimeText? && v != Null ==> r[ROW[i].camel] == Str(PyStr(Or(v, Str("")))))
  {
    RowKeysDistinct();
  }

  /** _payload_to_snake leaves out no key: an absent text field is '', an absent
      sequenceNo is 0, an absent owner is None, and an absent or empty date or
      time field is None. */
  lemma PayloadDefaults(data: Dict)
    ensures var r := PayloadToSnake(data);
      forall i :: 0 <= i < |PAYLOAD| ==>
        PAYLOAD[i].snake in r &&
        (PAYLOAD[i].camel !in data ==> r[PAYLOAD[i].snake] == if PAYLOAD[i].write.Default? then PAYLOAD[i].write.value else Null) &&
        (PAYLOAD[i].write.OrNone? && !Truthy(Get(data, PAYLOAD[i].camel)) ==> r[PAYLOAD[i].snake] == Null)
  {
    PayloadKeysDistinct();
  }

  /** The request shape the front end sends: every mapped field present, text
      as strings and sequenceNo as a number. */
  predicate FullPayload(p: Dict) {
    (forall i :: 0 <= i < |PAYLOAD| ==> PAYLOAD[i].camel in p) &&
    (forall i :: 0 <= i < |PAYLOAD| && PAYLOAD[i].camel != "sequenceNo" && PAYLOAD[i].camel != "documentSourceId" ==>
      p[PAYLOAD[i].camel].Str?) &&
    "sequenceNo" in p && p["sequenceNo"].Int?
  }

  /** _row_to_camel(_payload_to_snake(p)) gives back p on all 18 mapped keys. */
  lemma RoundTrip(p: Dict)
    requires FullPayload(p)
    ensures RowToCamel(PayloadToSnake(p)).Some?
    ensures var r := RowToCamel(PayloadToSnake(p)).value;
      forall i :: 0 <= i < |PAYLOAD| ==> PAYLOAD[i].camel in r && r[PAYLOAD[i].camel] == p[PAYLOAD[i].camel]
  {
    RowKeysDistinct();
    PayloadKeysDistinct();
    PayloadAligned(p);
    Columns.RoundTrip(ROW, PAYLOAD, 1, p);
  }

  lemma PayloadAligned(p: Dict)
    requires FullPayload(p)
    ensures Aligned(ROW, PAYLOAD, 1, p)
  {
    TablesAligned();
    PairsCarry();
    forall i | 0 <= i < |PAYLOAD|
      ensures Carries(ROW[i + 1].read, PAYLOAD[i].write, p[PAYLOAD[i].camel])
    {
      var v := p[PAYLOAD[i].camel];
      if PAYLOAD[i].camel == "sequenceNo" {
        assert v == p["sequenceNo"];
      }
    }
  }

  /** Each payload key is read back by the row key after id with the same names. */
  lemma TablesAligned()
    ensures |ROW| == |PAYLOAD| + 1
    ensures forall i :: 0 <= i < |PAYLOAD| ==>
      ROW[i + 1].camel == PAYLOAD[i].camel && ROW[i + 1].snake == PAYLOAD[i].snake
  {
  }

  /** Strings, a number for sequenceNo, and anything for documentSourceId come
      back unchanged through the pair of rules of their key. */
  lemma PairsCarry()
    ensures forall i, v: Value ::
      (0 <= i < |PAYLOAD| &&
       (PAYLOAD[i].camel == "sequenceNo" ==> v.Int?) &&
       (PAYLOAD[i].camel != "sequenceNo" && PAYLOAD[i].camel != "documentSourceId" ==> v.Str?)) ==>
      Carries(ROW[i + 1].read, PAYLOAD[i].write, v)
  {
    forall i, v: Value |
      0 <= i < |PAYLOAD| &&
      (PAYLOAD[i].camel == "sequenceNo" ==> v.Int?) &&
      (PAYLOAD[i].camel != "sequenceNo" && PAYLOAD[i].camel != "documentSourceId" ==> v.Str?)
      ensures Carries(ROW[i + 1].read, PAYLOAD[i].write, v)
    {
      PairKind(i);
    }
  }

  /** The rules of the key pair at payload column i: the owner is passed
      through raw, the sequence number defaults to 0 both ways, and every other
      column reads back as text. */
  lemma PairKind(i: nat)
    requires i < |PAYLOAD|
    ensures i == 0 <==> PAYLOAD[i].camel == "documentSourceId"
    ensures i == 3 <==> PAYLOAD[i].camel == "sequenceNo"
    ensures i == 0 ==> ROW[i + 1].read == Raw && PAYLOAD[i].write == Plain
    ensures i == 3 ==> ROW[i + 1].read == OrZero && PAYLOAD[i].write == Default(Int(0))
    ensures i != 0 && i != 3 ==>
      (ROW[i + 1].read == OrText && PAYLOAD[i].write == Default(Str(""))) ||
      ((ROW[i + 1].read == OrText || ROW[i + 1].read == TimeText) && PAYLOAD[i].write == OrNone)
  {
  }

  // ------------------------------------------------------------------ views

  /** The create guards on the mapped payload: the owner must not be None,
      and neither number may be ''. A number given as None passes, since only
      the empty string is refused; sequenceNo is not looked at. */
  function CreatePayload(data: Dict): (r: Result<Dict>)
    ensures r.Err? <==>
      Get(data, "documentSourceId") == Null ||
      GetOr(data, "documentControlNo", Str("")) == Str("") || GetOr(data, "routeNo", Str("")) == Str("")
    ensures Get(data, "documentSourceId") == Null ==> r == Err(SOURCE_ID_REQUIRED)
    ensures Get(data, "documentSourceId") != Null && r.Err? ==> r == Err(NUMBERS_REQUIRED)
    ensures r.Ok? ==> r.value == PayloadToSnake(data)
    ensures r.Ok? ==> OWNER in r.value && r.value[OWNER] != Null
  {
    PayloadHead(data);
    var payload := PayloadToSnake(data);
    if Get(payload, OWNER) == Null then Err(SOURCE_ID_REQUIRED)
    else if Get(payload, "document_control_no") == Str("") || Get(payload, "route_no") == Str("") then Err(NUMBERS_REQUIRED)
    else Ok(payload)
  }

  /** The three columns the create guards read. */
  lemma PayloadHead(data: Dict)
    ensures var r := PayloadToSnake(data);
      OWNER in r && r[OWNER] == Get(data, "documentSourceId") &&
      "document_control_no" in r && r["document_control_no"] == GetOr(data, "documentControlNo", Str("")) &&
      "route_no" in r && r["route_no"] == GetOr(data, "routeNo", Str(""))
  {
    PayloadKeysDistinct();
    assert PAYLOAD[0] == WriteCol(OWNER, "documentSourceId", Plain);
    assert PAYLOAD[1] == WriteCol("document_control_no", "documentControlNo", Default(Str("")));
    assert PAYLOAD[2] == WriteCol("route_no", "routeNo", Default(Str("")));
  }

  /** Create never looks at the sequence number: any value, or none, is let
      through alike, so neither uniqueness nor positivity is enforced. */
  lemma CreateIgnoresSequence(data: Dict, v: Value)
    ensures CreatePayload(data["sequenceNo" := v]).Ok? == CreatePayload(data).Ok?
    ensures CreatePayload(data - {"sequenceNo"}).Ok? == CreatePayload(data).Ok?
  {
    SameGuardedKeys(data, data["sequenceNo" := v]);
    SameGuardedKeys(data, data - {"sequenceNo"});
  }

  lemma SameGuardedKeys(a: Dict, b: Dict)
    requires forall k :: k != "sequenceNo" ==> (k in a <==> k in b) && (k in a ==> a[k] == b[k])
    ensures CreatePayload(a).Ok? == CreatePayload(b).Ok?
  {
    assert Get(a, "documentSourceId") == Get(b, "documentSourceId");
    assert GetOr(a, "documentControlNo", Str("")) == GetOr(b, "documentControlNo", Str(""));
    assert GetOr(a, "routeNo", Str("")) == GetOr(b, "routeNo", Str(""));
  }

  method Create(t: Table, data: Dict) returns (resp: Response)
    requires t.Valid()
    modifies t
    ensures t.Valid()
    ensures CreatePayload(data).Err? ==> resp == BadRequest(CreatePayload(data).message)
    ensures CreatePayload(data).Err? ==> t.rows == old(t.rows) && t.nextId == old(t.nextId)
    ensures CreatePayload(data).Ok? ==>
      var row := Table.Stamped(PayloadToSnake(data), old(t.nextId));
      t.rows == old(t.rows)[old(t.nextId) := row] && t.nextId == old(t.nextId) + 1 &&
      Get(row, OWNER) != Null &&
      resp == if t.returnsRows then Response(CREATED, Record(RowToCamel(row))) else Response(SERVER_ERROR, Error(NO_DATA))
  {
    resp := Views.Create(t, CreatePayload(data), NO_DATA, RowToCamel);
  }

  /** The update payload: the mapped payload with the owner popped. */
  function UpdatePayload(data: Dict): (r: Dict)
    ensures OWNER !in r && "id" !in r && |r.Keys| == 17
    ensures forall k :: k in PayloadToSnake(data) && k != OWNER ==> k in r && r[k] == PayloadToSnake(data)[k]
  {
    var payload := PayloadToSnake(data);
    assert OWNER in payload by {
      PayloadKeysDistinct();
      assert PAYLOAD[0].snake == OWNER;
    }
    payload - {OWNER}
  }

  /** Update overwrites every mapped column but the owner, so the document a
      destination belongs to never changes; no row with the id gives 404. */
  method Update(t: Table, id: int, data: Dict) returns (resp: Response)
    requires t.Valid()
    modifies t
    ensures t.Valid() && t.nextId == old(t.nextId)
    ensures id in old(t.rows) ==> t.rows == old(t.rows)[id := old(t.rows)[id] + UpdatePayload(data)]
    ensures id !in old(t.rows) ==> t.rows == old(t.rows)
    ensures forall k :: k in t.rows ==> Get(t.rows[k], OWNER) == Get(old(t.rows)[k], OWNER)
    ensures resp == if id in old(t.rows) && t.returnsRows
      then Response(OK, Record(RowToCamel(t.rows[id])))
      else Response(NOT_FOUND, Error(ITEM_NOT_FOUND))
  {
    ghost var before := t.rows;
    var patch := UpdatePayload(data);
    resp := Views.Update(t, id, Ok(patch), RowToCamel);
    if id in before {
      PatchKeepsOwner(before, id, patch);
    }
  }

  lemma PatchKeepsOwner(rows: map<int, Dict>, id: int, patch: Dict)
    requires id in rows && OWNER !in patch
    ensures var after := rows[id := rows[id] + patch];
      forall k :: k in after ==> Get(after[k], OWNER) == Get(rows[k], OWNER)
  {
  }

  /** The list filter: the owner must equal int(param) when the parameter is
      given, is not '' and int() accepts it; otherwise every row is listed. */
  function SourceFilter(param: Option<string>): (f: Filter)
    ensures f.Eq? <==> param.Some? && PyInt(Str(param.value)).Some?
    ensures f.Eq? ==> f == Eq(OWNER, Int(PyInt(Str(param.value)).value))
  {
    match param
    case None => NoFilter
    case Some(s) =>
      if s == "" then NoFilter
      else match PyInt(Str(s))
        case None => NoFilter
        case Some(n) => Eq(OWNER, Int(n))
  }

  const BY_SEQUENCE := Order("sequence_no", false)

  /** The destinations of one document (or, with no usable parameter, all of
      them), each listed once, in ascending sequence number. */
  method List(t: Table, param: Option<string>) returns (resp: Response, ghost rows: seq<Dict>)
    requires t.Valid()
    ensures (set r | r in rows) == t.MatchingRows(SourceFilter(param)) && |rows| == |t.MatchingIds(SourceFilter(param))|
    ensures forall i, j :: 0 <= i < j < |rows| ==> ValueLe(Get(rows[i], "sequence_no"), Get(rows[j], "sequence_no"))
    ensures resp == Response(OK, Records(Shaped(RowToCamel, rows)))
  {
    resp, rows := ListRows(t, SourceFilter(param), BY_SEQUENCE, RowToCamel);
  }

  /** With a usable parameter, every listed row belongs to that document. */
  lemma ListedRowsBelong(t: Table, n: int, r: Dict)
    requires r in t.MatchingRows(SourceFilter(Some(IntToString(n))))
    ensures Get(r, OWNER) == Int(n)
  {
    PyIntOfDecimal(n);
  }

  method Delete(t: Table, id: int) returns (resp: Response)
    requires t.Valid()
    modifies t
    ensures t.Valid() && t.nextId == old(t.nextId)
    ensures t.rows == old(t.rows) - {id}
    ensures resp == Response(OK, Message(DELETED))
  {
    resp := DeleteOne(t, id, DELETED);
  }

  method BulkDelete(t: Table, body: Dict) returns (resp: Response)
    requires t.Valid()
    modifies t
    ensures t.Valid() && t.nextId == old(t.nextId)
    ensures BulkIds(body).None? ==> resp == BadRequest(IDS_REQUIRED) && t.rows == old(t.rows)
    ensures BulkIds(body).Some? ==>
      var ids := BulkIds(body).value;
      t.rows == (map k | k in old(t.rows) && !Listed(k, ids) :: old(t.rows)[k]) &&
      resp == Response(OK, Message(BulkMessage(|ids|)))
  {
    resp := Views.BulkDelete(t, body);
  }
}
