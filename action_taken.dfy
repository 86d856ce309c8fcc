/** backend/api/views/action_taken.py: the actions an officer can record as taken on a document. */
module ActionTaken {
  import opened Wrappers
  import opened PyValue
  import opened Store
  import opened Views

  const CODE_REQUIRED := "Action Taken Code is required"
  const NAME_REQUIRED := "Action Taken is required"
  const NO_DATA := "Failed to create action taken item"
  const DELETED := "Action taken item deleted successfully"

  /** The create guards, in the order the view checks them. */
  const RULES: seq<Rule> := [
    Rule("actionTakenCode", NotFalsy, CODE_REQUIRED),
    Rule("actionTaken", NotFalsy, NAME_REQUIRED)
  ]

  /** The keys the update copies, as given, when present. */
  const FIELDS: seq<FieldMap> := [
    FieldMap("actionTakenCode", "action_taken_code", AsGiven),
    FieldMap("actionTaken", "action_taken", AsGiven)
  ]

  predicate Filled(body: Dict, key: string) {
    Truthy(Get(body, key))
  }

  /** The create view's request check: the code, then the name; on success
      the pair to insert. */
  function CreateRecord(body: Dict): (r: Result<Dict>)
    ensures !Filled(body, "actionTakenCode") ==> r == Err(CODE_REQUIRED)
    ensures Filled(body, "actionTakenCode") && !Filled(body, "actionTaken") ==> r == Err(NAME_REQUIRED)
    ensures r.Ok? <==> Filled(body, "actionTakenCode") && Filled(body, "actionTaken")
    ensures r.Ok? ==> r.value.Keys == {"action_taken_code", "action_taken"}
    ensures r.Ok? ==> r.value["action_taken_code"] == body["actionTakenCode"] && r.value["action_taken"] == body["actionTaken"]
  {
    GuardOrder(body);
    Guarded(RULES, body, map["action_taken_code" := Get(body, "actionTakenCode"), "action_taken" := Get(body, "actionTaken")])
  }

  /** The guard chain reports the code before the name. */
  lemma GuardOrder(body: Dict)
    ensures !Filled(body, "actionTakenCode") ==> Guard(RULES, body) == Some(CODE_REQUIRED)
    ensures Filled(body, "actionTakenCode") && !Filled(body, "actionTaken") ==> Guard(RULES, body) == Some(NAME_REQUIRED)
    ensures (forall i :: 0 <= i < |RULES| ==> Passes(RULES[i], body)) <==> Filled(body, "actionTakenCode") && Filled(body, "actionTaken")
  {
    if !Filled(body, "actionTakenCode") {
      GuardReports(RULES, body, 0);
    } else if !Filled(body, "actionTaken") {
      GuardReports(RULES, body, 1);
    }
    assert Passes(RULES[0], body) == Filled(body, "actionTakenCode");
    assert Passes(RULES[1], body) == Filled(body, "actionTaken");
  }

  /** Without a code no item can be created, whatever else the request
      holds. */
  lemma NoCodeNoItem(body: Dict)
    requires "actionTakenCode" !in body
    ensures CreateRecord(body) == Err(CODE_REQUIRED)
  {
  }

  /** The update is refused, with "No data provided for update", exactly when
      no recognised key is present. */
  lemma UpdateRefused(body: Dict)
    ensures PatchOrEmpty(FIELDS, body).Err? <==> forall i :: 0 <= i < |FIELDS| ==> FIELDS[i].camel !in body
    ensures PatchOrEmpty(FIELDS, body).Err? ==> PatchOrEmpty(FIELDS, body) == Err(NO_UPDATE_DATA)
  {
    PlainPatch(FIELDS, body);
  }

  /** An accepted update patch sets exactly the recognised keys present, each
      copied as given. */
  lemma UpdatePatchExact(body: Dict)
    ensures var r := PatchOrEmpty(FIELDS, body);
      r.Ok? ==>
        ("action_taken_code" in r.value <==> "actionTakenCode" in body) &&
        ("action_taken" in r.value <==> "actionTaken" in body)
    ensures var r := PatchOrEmpty(FIELDS, body);
      r.Ok? ==> r.value.Keys <= {"action_taken_code", "action_taken"}
    ensures var r := PatchOrEmpty(FIELDS, body);
      r.Ok? ==>
        ("actionTakenCode" in body ==> r.value["action_taken_code"] == body["actionTakenCode"]) &&
        ("actionTaken" in body ==> r.value["action_taken"] == body["actionTaken"])
  {
    PlainPatch(FIELDS, body);
    if PatchOrEmpty(FIELDS, body).Ok? {
      PresentAt(FIELDS, body, 0);
      PresentAt(FIELDS, body, 1);
      if "actionTakenCode" in body {
        PatchValueAt(FIELDS, body, 0);
      }
      if "actionTaken" in body {
        PatchValueAt(FIELDS, body, 1);
      }
    }
  }

  method Create(t: Table, body: Dict) returns (resp: Response)
    requires t.Valid()
    modifies t
    ensures t.Valid()
    ensures CreateRecord(body).Err? ==> resp == BadRequest(CreateRecord(body).message)
    ensures CreateRecord(body).Err? ==> t.rows == old(t.rows) && t.nextId == old(t.nextId)
    ensures CreateRecord(body).Ok? ==>
      var row := Table.Stamped(CreateRecord(body).value, old(t.nextId));
      t.rows == old(t.rows)[old(t.nextId) := row] && t.nextId == old(t.nextId) + 1 &&
      resp == if t.returnsRows then Response(CREATED, Record(Some(row))) else Response(SERVER_ERROR, Error(NO_DATA))
  {
    resp := Views.Create(t, CreateRecord(body), NO_DATA, AsStored);
  }

  method Update(t: Table, id: int, body: Dict) returns (resp: Response)
    requires t.Valid()
    modifies t
    ensures t.Valid() && t.nextId == old(t.nextId)
    ensures PatchOrEmpty(FIELDS, body).Err? ==>
      resp == BadRequest(PatchOrEmpty(FIELDS, body).message) && t.rows == old(t.rows)
    ensures PatchOrEmpty(FIELDS, body).Ok? ==>
      var patch := PatchOrEmpty(FIELDS, body).value;
      (id in old(t.rows) ==> t.rows == old(t.rows)[id := old(t.rows)[id] + patch]) &&
      (id !in old(t.rows) ==> t.rows == old(t.rows)) &&
      resp == if id in old(t.rows) && t.returnsRows
        then Response(OK, Record(Some(t.rows[id])))
        else Response(NOT_FOUND, Error(ITEM_NOT_FOUND))
  {
    resp := PatchRow(t, id, FIELDS, body);
  }

  method Delete(t: Table, id: int) returns (resp: Response)
    requires t.Valid()
    modifies t
    ensures t.Valid() && t.nextId == old(t.nextId)
    ensures t.rows == old(t.rows) - {id}
    ensures resp == Response(OK, Message(DELETED))
  {
    resp := DeleteOne(t, id, DELETED);
  }
}
