/** backend/api/views/document_source.py: the outbox documents. */
module Source {
  import opened Wrappers
  import opened Text
  import opened PyValue
  import opened Store
  import opened Columns
  import opened Views

  /** The 21 keys of _row_to_camel. */
  const ROW: seq<ReadCol> := [
    ReadCol("id", "id", Raw),
    ReadCol("documentControlNo", "document_control_no", OrText),
    ReadCol("routeNo", "route_no", OrText),
    ReadCol("subject", "subject", OrText),
    ReadCol("documentType", "document_type", OrText),
    ReadCol("sourceType", "source_type", OrText),
    ReadCol("internalOriginatingOffice", "internal_originating_office", OrText),
    ReadCol("internalOriginatingEmployee", "internal_originating_employee", OrText),
    ReadCol("externalOriginatingOffice", "external_originating_office", OrText),
    ReadCol("externalOriginatingEmployee", "external_originating_employee", OrText),
    ReadCol("noOfPages", "no_of_pages", OrText),
    ReadCol("attachedDocumentFilename", "attached_document_filename", OrText),
    ReadCol("attachmentList", "attachment_list", OrText),
    ReadCol("userid", "userid", OrText),
    ReadCol("inSequence", "in_sequence", OrText),
    ReadCol("remarks", "remarks", OrText),
    ReadCol("referenceDocumentControlNo1", "reference_document_control_no_1", OrText),
    ReadCol("referenceDocumentControlNo2", "reference_document_control_no_2", OrText),
    ReadCol("referenceDocumentControlNo3", "reference_document_control_no_3", OrText),
    ReadCol("referenceDocumentControlNo4", "reference_document_control_no_4", OrText),
    ReadCol("referenceDocumentControlNo5", "reference_document_control_no_5", OrText)
  ]

  /** The 18 keys of _payload_to_snake, in the same order as ROW after id and
      the two numbers. */
  const PAYLOAD: seq<WriteCol> := [
    WriteCol("subject", "subject", Default(Str(""))),
    WriteCol("document_type", "documentType", Default(Str(""))),
    WriteCol("source_type", "sourceType", OrNone),
    WriteCol("internal_originating_office", "internalOriginatingOffice", Default(Str(""))),
    WriteCol("internal_originating_employee", "internalOriginatingEmployee", Default(Str(""))),
    WriteCol("external_originating_office", "externalOriginatingOffice", Default(Str(""))),
    WriteCol("external_originating_employee", "externalOriginatingEmployee", Default(Str(""))),
    WriteCol("no_of_pages", "noOfPages", Default(Str(""))),
    WriteCol("attached_document_filename", "attachedDocumentFilename", Default(Str(""))),
    WriteCol("attachment_list", "attachmentList", Default(Str(""))),
    WriteCol("userid", "userid", Default(Str(""))),
    WriteCol("in_sequence", "inSequence", Default(Str(""))),
    WriteCol("remarks", "remarks", Default(Str(""))),
    WriteCol("reference_document_control_no_1", "referenceDocumentControlNo1", Default(Str(""))),
    WriteCol("reference_document_control_no_2", "referenceDocumentControlNo2", Default(Str(""))),
    WriteCol("reference_document_control_no_3", "referenceDocumentControlNo3", Default(Str(""))),
    WriteCol("reference_document_control_no_4", "referenceDocumentControlNo4", Default(Str(""))),
    WriteCol("reference_document_control_no_5", "referenceDocumentControlNo5", Default(Str("")))
  ]

  const SUBJECT_AND_REMARKS := "Subject and Remarks are required"
  const NO_DATA := "Failed to create document - no data returned"
  const DELETED := "Document deleted successfully"

  lemma RowKeysDistinct()
    ensures DistinctCamel(ROW)
  {
  }

  lemma PayloadKeysDistinct()
    ensures DistinctColumns(PAYLOAD)
  {
  }

  /** The payload has no column for the id or for either number. */
  lemma PayloadLeavesOutNumbers()
    ensures forall i :: 0 <= i < |PAYLOAD| ==>
      PAYLOAD[i].snake != "id" && PAYLOAD[i].snake != "document_control_no" && PAYLOAD[i].snake != "route_no"
  {
  }

  /** _row_to_camel: None for an empty row, else a record of exactly 21 keys. */
  function RowToCamel(row: Dict): (r: Option<Dict>)
    ensures row == map[] <==> r.None?
    ensures r.Some? ==> (RowKeysDistinct(); r.value == ToCamel(ROW, row)) && |r.value.Keys| == 21
  {
    RowKeysDistinct();
    ToCamelSize(ROW, row);
    Columns.RowToCamel(ROW, row)
  }

  /** _payload_to_snake: exactly 18 keys, and never the id, the control number
      or the route number, so neither create nor update can set those. */
  function PayloadToSnake(data: Dict): (r: Dict)
    ensures |r.Keys| == 18
    ensures "id" !in r && "document_control_no" !in r && "route_no" !in r
  {
    PayloadKeysDistinct();
    PayloadLeavesOutNumbers();
    ToSnakeSize(PAYLOAD, data);
    ToSnake(PAYLOAD, data)
  }

  /** Every text column of a non-empty row reads as '' when it is empty or
      null; the id is passed through. */
  lemma RowDefaults(row: Dict)
    requires row != map[]
    ensures var r := RowToCamel(row).value;
      forall i :: 1 <= i < |ROW| ==>
        ROW[i].camel in r && (!Truthy(Get(row, ROW[i].snake)) ==> r[ROW[i].camel] == Str(""))
  {
    RowKeysDistinct();
    assert forall i :: 1 <= i < |ROW| ==> ROW[i].read == OrText;
  }

  /** An absent field maps to '', and sourceType, absent or empty, to None. */
  lemma PayloadDefaults(data: Dict)
    ensures var r := PayloadToSnake(data);
      forall i :: 0 <= i < |PAYLOAD| ==>
        PAYLOAD[i].snake in r &&
        (PAYLOAD[i].camel != "sourceType" && PAYLOAD[i].camel !in data ==> r[PAYLOAD[i].snake] == Str("")) &&
        (PAYLOAD[i].camel == "sourceType" && !Truthy(Get(data, "sourceType")) ==> r[PAYLOAD[i].snake] == Null)
  {
    PayloadKeysDistinct();
    assert forall i :: 0 <= i < |PAYLOAD| && PAYLOAD[i].camel != "sourceType" ==> PAYLOAD[i].write == Default(Str(""));
    assert forall i :: 0 <= i < |PAYLOAD| && PAYLOAD[i].camel == "sourceType" ==> PAYLOAD[i].write == OrNone;
  }

  /** Each payload key is read back by the row key three places later. */
  lemma TablesAligned()
    ensures |ROW| == |PAYLOAD| + 3
    ensures forall i :: 0 <= i < |PAYLOAD| ==>
      ROW[i + 3].camel == PAYLOAD[i].camel && ROW[i + 3].snake == PAYLOAD[i].snake
  {
  }

  lemma PairsCarry()
    ensures forall i, v: Value :: 0 <= i < |PAYLOAD| && v.Str? ==> Carries(ROW[i + 3].read, PAYLOAD[i].write, v)
  {
  }

  /** The request shape the front end sends: every mapped field a string. */
  predicate FullPayload(p: Dict) {
    forall i :: 0 <= i < |PAYLOAD| ==> PAYLOAD[i].camel in p && p[PAYLOAD[i].camel].Str?
  }

  lemma PayloadAligned(p: Dict)
    requires FullPayload(p)
    ensures Aligned(ROW, PAYLOAD, 3, p)
  {
    TablesAligned();
    PairsCarry();
  }

  /** _row_to_camel(_payload_to_snake(p)) agrees with p on all 18 mapped keys. */
  lemma RoundTrip(p: Dict)
    requires FullPayload(p)
    ensures RowToCamel(PayloadToSnake(p)).Some?
    ensures var r := RowToCamel(PayloadToSnake(p)).value;
      forall i :: 0 <= i < |PAYLOAD| ==> PAYLOAD[i].camel in r && r[PAYLOAD[i].camel] == p[PAYLOAD[i].camel]
  {
    RowKeysDistinct();
    PayloadKeysDistinct();
    PayloadAligned(p);
    Columns.RoundTrip(ROW, PAYLOAD, 3, p);
  }

  // ------------------------------------------------------------------ views

  /** The two columns the create guard reads. */
  lemma PayloadGuarded(data: Dict)
    ensures var r := PayloadToSnake(data);
      "subject" in r && r["subject"] == GetOr(data, "subject", Str("")) &&
      "remarks" in r && r["remarks"] == GetOr(data, "remarks", Str(""))
  {
    PayloadKeysDistinct();
    assert PAYLOAD[0] == WriteCol("subject", "subject", Default(Str("")));
    assert PAYLOAD[12] == WriteCol("remarks", "remarks", Default(Str("")));
  }

  /** The create guard: subject and remarks must both be truthy; nothing is
      trimmed. */
  function CreatePayload(data: Dict): (r: Result<Dict>)
    ensures r.Err? <==> !Truthy(Get(data, "subject")) || !Truthy(Get(data, "remarks"))
    ensures r.Err? ==> r == Err(SUBJECT_AND_REMARKS)
    ensures r.Ok? ==> r.value == PayloadToSnake(data)
  {
    PayloadGuarded(data);
    var payload := PayloadToSnake(data);
    if !Truthy(Get(payload, "subject")) || !Truthy(Get(payload, "remarks")) then Err(SUBJECT_AND_REMARKS)
    else Ok(payload)
  }

  /** A subject and remarks of white space alone are accepted. */
  lemma BlankTextIsAccepted(data: Dict)
    requires Get(data, "subject") == Str(" ") && Get(data, "remarks") == Str(" ")
    ensures CreatePayload(data).Ok?
  {
  }

  method Create(t: Table, data: Dict) returns (resp: Response)
    requires t.Valid()
    modifies t
    ensures t.Valid()
    ensures CreatePayload(data).Err? ==> resp == BadRequest(SUBJECT_AND_REMARKS)
    ensures CreatePayload(data).Err? ==> t.rows == old(t.rows) && t.nextId == old(t.nextId)
    ensures CreatePayload(data).Ok? ==>
      var row := Table.Stamped(PayloadToSnake(data), old(t.nextId));
      t.rows == old(t.rows)[old(t.nextId) := row] && t.nextId == old(t.nextId) + 1 &&
      resp == if t.returnsRows then Response(CREATED, Record(RowToCamel(row))) else Response(SERVER_ERROR, Error(NO_DATA))
  {
    resp := Views.Create(t, CreatePayload(data), NO_DATA, RowToCamel);
  }

  /** Update writes the whole mapped payload: a field absent from the request
      overwrites the stored value with '' (sourceType with None). The control
      and route numbers are never touched. */
  method Update(t: Table, id: int, data: Dict) returns (resp: Response)
    requires t.Valid()
    modifies t
    ensures t.Valid() && t.nextId == old(t.nextId)
    ensures id in old(t.rows) ==> t.rows == old(t.rows)[id := old(t.rows)[id] + PayloadToSnake(data)]
    ensures id !in old(t.rows) ==> t.rows == old(t.rows)
    ensures forall k :: k in t.rows ==>
      Get(t.rows[k], "document_control_no") == Get(old(t.rows)[k], "document_control_no") &&
      Get(t.rows[k], "route_no") == Get(old(t.rows)[k], "route_no")
    ensures resp == if id in old(t.rows) && t.returnsRows
      then Response(OK, Record(RowToCamel(t.rows[id])))
      else Response(NOT_FOUND, Error(ITEM_NOT_FOUND))
  {
    var payload := PayloadToSnake(data);
    resp := Views.Update(t, id, Ok(payload), RowToCamel);
    forall k | k in t.rows
      ensures Get(t.rows[k], "document_control_no") == Get(old(t.rows)[k], "document_control_no")
      ensures Get(t.rows[k], "route_no") == Get(old(t.rows)[k], "route_no")
    {
      if k == id {
        MergeKeeps(old(t.rows)[id], payload, "document_control_no");
        MergeKeeps(old(t.rows)[id], payload, "route_no");
      }
    }
  }

  lemma MergeKeeps(row: Dict, patch: Dict, k: string)
    requires k !in patch
    ensures Get(row + patch, k) == Get(row, k)
  {
  }

  /** An update whose body leaves out subject, remarks and sourceType blanks
      those columns of the row: it is a replacement, not a patch. */
  lemma UpdateBlanksAbsent(row: Dict, data: Dict)
    requires "subject" !in data && "remarks" !in data && "sourceType" !in data
    ensures var r := row + PayloadToSnake(data);
      "subject" in r && r["subject"] == Str("") && "remarks" in r && r["remarks"] == Str("") &&
      "source_type" in r && r["source_type"] == Null
  {
    PayloadGuarded(data);
    PayloadSourceType(data);
  }

  lemma PayloadSourceType(data: Dict)
    ensures var r := PayloadToSnake(data);
      "source_type" in r && r["source_type"] == Or(Get(data, "sourceType"), Null)
  {
    PayloadKeysDistinct();
    assert PAYLOAD[2] == WriteCol("source_type", "sourceType", OrNone);
  }

  const NEWEST_FIRST := Order("created_at", true)

  /** Every document once, the most recently created first. */
  method List(t: Table) returns (resp: Response, ghost rows: seq<Dict>)
    requires t.Valid()
    ensures (set r | r in rows) == t.MatchingRows(NoFilter) && |rows| == |t.rows|
    ensures forall i, j :: 0 <= i < j < |rows| ==> ValueLe(Get(rows[j], "created_at"), Get(rows[i], "created_at"))
    ensures resp == Response(OK, Records(Shaped(RowToCamel, rows)))
  {
    resp, rows := ListRows(t, NoFilter, NEWEST_FIRST, RowToCamel);
    assert forall k :: k in t.rows ==> k in t.MatchingIds(NoFilter);
    assert t.MatchingIds(NoFilter) == t.rows.Keys;
  }

  method Delete(t: Table, id: int) returns (resp: Response)
    requires t.Valid()
    modifies t
    ensures t.Valid() && t.nextId == old(t.nextId)
    ensures t.rows == old(t.rows) - {id}
    ensures resp == Response(OK, Message(DELETED))
  {
    resp := DeleteOne(t, id, DELETED);
  }

  method BulkDelete(t: Table, body: Dict) returns (resp: Response)
    requires t.Valid()
    modifies t
    ensures t.Valid() && t.nextId == old(t.nextId)
    ensures BulkIds(body).None? ==> resp == BadRequest(IDS_REQUIRED) && t.rows == old(t.rows)
    ensures BulkIds(body).Some? ==>
      var ids := BulkIds(body).value;
      t.rows == (map k | k in old(t.rows) && !Listed(k, ids) :: old(t.rows)[k]) &&
      resp == Response(OK, Message(BulkMessage(|ids|)))
  {
    resp := Views.BulkDelete(t, body);
  }
}
