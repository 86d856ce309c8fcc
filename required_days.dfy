/** backend/api/views/document_action_required_days.py: how many days each
    action on each document type is given. */
module RequiredDays {
  import opened Wrappers
  import opened Text
  import opened PyValue
  import opened Store
  import opened Views

  const TYPE_REQUIRED := "Document Type is required"
  const ACTION_REQUIRED := "Action Required is required"
  const DAYS_REQUIRED := "Required Days is required"
  const DAYS_NOT_NUMBER := "Required Days must be a valid number"
  const NO_DATA := "Failed to create document action required days item"
  const DELETED := "Document action required days item deleted successfully"

  /** The create guards, in the order the view checks them. */
  const RULES: seq<Rule> := [
    Rule("documentType", NotFalsy, TYPE_REQUIRED),
    Rule("actionRequired", NotFalsy, ACTION_REQUIRED),
    Rule("requiredDays", NotNone, DAYS_REQUIRED)
  ]

  /** The keys the update copies when present. */
  const FIELDS: seq<FieldMap> := [
    FieldMap("documentType", "document_type", AsGiven),
    FieldMap("actionRequired", "action_required", AsGiven),
    FieldMap("requiredDays", "required_days", AsInt(DAYS_NOT_NUMBER))
  ]

  /** The create view's request check: the three guards in order, then int()
      of requiredDays; on success the triple to insert. */
  function CreateRecord(body: Dict): (r: Result<Dict>)
    ensures !Truthy(Get(body, "documentType")) ==> r == Err(TYPE_REQUIRED)
    ensures Truthy(Get(body, "documentType")) && !Truthy(Get(body, "actionRequired")) ==> r == Err(ACTION_REQUIRED)
    ensures Truthy(Get(body, "documentType")) && Truthy(Get(body, "actionRequired")) && Get(body, "requiredDays") == Null ==>
      r == Err(DAYS_REQUIRED)
    ensures (Truthy(Get(body, "documentType")) && Truthy(Get(body, "actionRequired")) && Get(body, "requiredDays") != Null &&
      PyInt(Get(body, "requiredDays")).None?) ==> r == Err(DAYS_NOT_NUMBER)
    ensures r.Ok? <==> Truthy(Get(body, "documentType")) && Truthy(Get(body, "actionRequired")) && PyInt(Get(body, "requiredDays")).Some?
    ensures r.Ok? ==> r.value == map[
      "document_type" := body["documentType"],
      "action_required" := body["actionRequired"],
      "required_days" := Int(PyInt(body["requiredDays"]).value)]
  {
    GuardOrder(body);
    match Guard(RULES, body)
    case Some(m) => Err(m)
    case None =>
      match PyInt(Get(body, "requiredDays"))
      case None => Err(DAYS_NOT_NUMBER)
      case Some(n) => Ok(map[
        "document_type" := Get(body, "documentType"),
        "action_required" := Get(body, "actionRequired"),
        "required_days" := Int(n)])
  }

  /** Which message the guard chain reports, rule by rule. */
  lemma GuardOrder(body: Dict)
    ensures !Truthy(Get(body, "documentType")) ==> Guard(RULES, body) == Some(TYPE_REQUIRED)
    ensures Truthy(Get(body, "documentType")) && !Truthy(Get(body, "actionRequired")) ==>
      Guard(RULES, body) == Some(ACTION_REQUIRED)
    ensures Truthy(Get(body, "documentType")) && Truthy(Get(body, "actionRequired")) && Get(body, "requiredDays") == Null ==>
      Guard(RULES, body) == Some(DAYS_REQUIRED)
    ensures Guard(RULES, body).None? <==>
      Truthy(Get(body, "documentType")) && Truthy(Get(body, "actionRequired")) && Get(body, "requiredDays") != Null
  {
    if !Truthy(Get(body, "documentType")) {
      GuardReports(RULES, body, 0);
    } else if !Truthy(Get(body, "actionRequired")) {
      GuardReports(RULES, body, 1);
    } else if Get(body, "requiredDays") == Null {
      GuardReports(RULES, body, 2);
    }
  }

  /** A requiredDays of 0 passes the presence guard; so does a negative number
      (nothing checks the sign). */
  lemma ZeroAndNegativeDaysAccepted(body: Dict, n: int)
    requires Truthy(Get(body, "documentType")) && Truthy(Get(body, "actionRequired"))
    requires Get(body, "requiredDays") == Int(n) || Get(body, "requiredDays") == Str(IntToString(n))
    ensures CreateRecord(body).Ok? && CreateRecord(body).value["required_days"] == Int(n)
  {
    PyIntOfDecimal(n);
  }

  /** The update patch: exactly the recognised keys present, requiredDays
      through int(); a present requiredDays that int() refuses abandons the
      update, and a body with none of the three keys is refused. */
  lemma UpdatePatchExact(body: Dict)
    ensures var r := PatchOrEmpty(FIELDS, body);
      r.Ok? ==>
        ("document_type" in r.value <==> "documentType" in body) &&
        ("action_required" in r.value <==> "actionRequired" in body) &&
        ("required_days" in r.value <==> "requiredDays" in body) &&
        r.value.Keys <= {"document_type", "action_required", "required_days"}
    ensures var r := PatchOrEmpty(FIELDS, body);
      r.Ok? ==>
        ("documentType" in body ==> r.value["document_type"] == body["documentType"]) &&
        ("actionRequired" in body ==> r.value["action_required"] == body["actionRequired"]) &&
        ("requiredDays" in body ==> r.value["required_days"] == Int(PyInt(body["requiredDays"]).value))
    ensures "requiredDays" in body && PyInt(body["requiredDays"]).None? ==> PatchOrEmpty(FIELDS, body) == Err(DAYS_NOT_NUMBER)
    ensures "documentType" !in body && "actionRequired" !in body && "requiredDays" !in body ==>
      PatchOrEmpty(FIELDS, body) == Err(NO_UPDATE_DATA)
    ensures PatchOrEmpty(FIELDS, body).Err? ==>
      PatchOrEmpty(FIELDS, body) == Err(DAYS_NOT_NUMBER) || PatchOrEmpty(FIELDS, body) == Err(NO_UPDATE_DATA)
  {
    var p := PatchFrom(FIELDS, body);
    PresentAt(FIELDS, body, 0);
    PresentAt(FIELDS, body, 1);
    PresentAt(FIELDS, body, 2);
    assert Present(FIELDS, body) <= {"document_type", "action_required", "required_days"};
    if p.Err? {
      PatchErrorMessage(FIELDS, body);
    }
    if "requiredDays" in body && PyInt(body["requiredDays"]).None? {
      assert FIELDS[2].camel in body && Convert(FIELDS[2].conv, body[FIELDS[2].camel]).None?;
    }
    if "documentType" !in body && "actionRequired" !in body && "requiredDays" !in body {
      NothingRecognisedIsRefused(FIELDS, body);
    }
  }

  method Create(t: Table, body: Dict) returns (resp: Response)
    requires t.Valid()
    modifies t
    ensures t.Valid()
    ensures CreateRecord(body).Err? ==> resp == BadRequest(CreateRecord(body).message)
    ensures CreateRecord(body).Err? ==> t.rows == old(t.rows) && t.nextId == old(t.nextId)
    ensures CreateRecord(body).Ok? ==>
      var row := Table.Stamped(CreateRecord(body).value, old(t.nextId));
      t.rows == old(t.rows)[old(t.nextId) := row] && t.nextId == old(t.nextId) + 1 &&
      resp == if t.returnsRows then Response(CREATED, Record(Some(row))) else Response(SERVER_ERROR, Error(NO_DATA))
  {
    resp := Views.Create(t, CreateRecord(body), NO_DATA, AsStored);
  }

  method Update(t: Table, id: int, body: Dict) returns (resp: Response)
    requires t.Valid()
    modifies t
    ensures t.Valid() && t.nextId == old(t.nextId)
    ensures PatchOrEmpty(FIELDS, body).Err? ==>
      resp == BadRequest(PatchOrEmpty(FIELDS, body).message) && t.rows == old(t.rows)
    ensures PatchOrEmpty(FIELDS, body).Ok? ==>
      var patch := PatchOrEmpty(FIELDS, body).value;
      (id in old(t.rows) ==> t.rows == old(t.rows)[id := old(t.rows)[id] + patch]) &&
      (id !in old(t.rows) ==> t.rows == old(t.rows)) &&
      resp == if id in old(t.rows) && t.returnsRows
        then Response(OK, Record(Some(t.rows[id])))
        else Response(NOT_FOUND, Error(ITEM_NOT_FOUND))
  {
    resp := PatchRow(t, id, FIELDS, body);
  }

  method Delete(t: Table, id: int) returns (resp: Response)
    requires t.Valid()
    modifies t
    ensures t.Valid() && t.nextId == old(t.nextId)
    ensures t.rows == old(t.rows) - {id}
    ensures resp == Response(OK, Message(DELETED))
  {
    resp := DeleteOne(t, id, DELETED);
  }
}
