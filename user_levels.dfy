/** backend/api/views/user_levels.py: the named user levels permissions are
    granted to. */
module UserLevels {
  import opened Wrappers
  import opened PyValue
  import opened Store
  import opened Views

  const NAME_REQUIRED := "User Level Name is required"
  const NO_DATA := "Failed to create user level item"
  const DELETED := "User level item deleted successfully"

  /** The one create guard. */
  const RULES: seq<Rule> := [Rule("userLevelName", NotFalsy, NAME_REQUIRED)]

  /** The keys the update copies, as given, when present. */
  const FIELDS: seq<FieldMap> := [
    FieldMap("userLevelName", "user_level_name", AsGiven)
  ]

  /** The create view's request check: a non-empty name, inserted as given. */
  function CreateRecord(body: Dict): (r: Result<Dict>)
    ensures r.Ok? <==> Truthy(Get(body, "userLevelName"))
    ensures r.Err? ==> r.message == NAME_REQUIRED
    ensures r.Ok? ==> r.value.Keys == {"user_level_name"} && r.value["user_level_name"] == body["userLevelName"]
  {
    assert Passes(RULES[0], body) == Truthy(Get(body, "userLevelName"));
    Guarded(RULES, body, map["user_level_name" := Get(body, "userLevelName")])
  }

  /** The update is refused, with "No data provided for update", exactly when
      no recognised key is present. */
  lemma UpdateRefused(body: Dict)
    ensures PatchOrEmpty(FIELDS, body).Err? <==> forall i :: 0 <= i < |FIELDS| ==> FIELDS[i].camel !in body
    ensures PatchOrEmpty(FIELDS, body).Err? ==> PatchOrEmpty(FIELDS, body) == Err(NO_UPDATE_DATA)
  {
    PlainPatch(FIELDS, body);
  }

  /** An accepted update patch sets exactly the recognised keys present, each
      copied as given. */
  lemma UpdatePatchExact(body: Dict)
    ensures var r := PatchOrEmpty(FIELDS, body);
      r.Ok? ==>
        ("user_level_name" in r.value <==> "userLevelName" in body)
    ensures var r := PatchOrEmpty(FIELDS, body);
      r.Ok? ==> r.value.Keys <= {"user_level_name"}
    ensures var r := PatchOrEmpty(FIELDS, body);
      r.Ok? ==>
        ("userLevelName" in body ==> r.value["user_level_name"] == body["userLevelName"])
  {
    PlainPatch(FIELDS, body);
    if PatchOrEmpty(FIELDS, body).Ok? {
      PresentAt(FIELDS, body, 0);
      if "userLevelName" in body {
        PatchValueAt(FIELDS, body, 0);
      }
    }
  }

  method Create(t: Table, body: Dict) returns (resp: Response)
    requires t.Valid()
    modifies t
    ensures t.Valid()
    ensures CreateRecord(body).Err? ==> resp == BadRequest(CreateRecord(body).message)
    ensures CreateRecord(body).Err? ==> t.rows == old(t.rows) && t.nextId == old(t.nextId)
    ensures CreateRecord(body).Ok? ==>
      var row := Table.Stamped(CreateRecord(body).value, old(t.nextId));
      t.rows == old(t.rows)[old(t.nextId) := row] && t.nextId == old(t.nextId) + 1 &&
      resp == if t.returnsRows then Response(CREATED, Record(Some(row))) else Response(SERVER_ERROR, Error(NO_DATA))
  {
    resp := Views.Create(t, CreateRecord(body), NO_DATA, AsStored);
  }

  method Update(t: Table, id: int, body: Dict) returns (resp: Response)
    requires t.Valid()
    modifies t
    ensures t.Valid() && t.nextId == old(t.nextId)
    ensures PatchOrEmpty(FIELDS, body).Err? ==>
      resp == BadRequest(PatchOrEmpty(FIELDS, body).message) && t.rows == old(t.rows)
    ensures PatchOrEmpty(FIELDS, body).Ok? ==>
      var patch := PatchOrEmpty(FIELDS, body).value;
      (id in old(t.rows) ==> t.rows == old(t.rows)[id := old(t.rows)[id] + patch]) &&
      (id !in old(t.rows) ==> t.rows == old(t.rows)) &&
      resp == if id in old(t.rows) && t.returnsRows
        then Response(OK, Record(Some(t.rows[id])))
        else Response(NOT_FOUND, Error(ITEM_NOT_FOUND))
  {
    resp := PatchRow(t, id, FIELDS, body);
  }

  method Delete(t: Table, id: int) returns (resp: Response)
    requires t.Valid()
    modifies t
    ensures t.Valid() && t.nextId == old(t.nextId)
    ensures t.rows == old(t.rows) - {id}
    ensures resp == Response(OK, Message(DELETED))
  {
    resp := DeleteOne(t, id, DELETED);
  }
}
