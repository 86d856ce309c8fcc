/** backend/api/views/action_required.py: the actions a document may call
    for. Create and update check the same single field. */
module ActionRequired {
  import opened Wrappers
  import opened PyValue
  import opened Store
  import opened Views

  const REQUIRED := "Action Required field is required"
  const NO_DATA := "Failed to create action required item - no data returned"
  const DELETED := "Action required item deleted successfully"

  /** The one guard, shared by create and update. */
  const RULES: seq<Rule> := [Rule("actionRequired", NotFalsy, REQUIRED)]

  /** The request check of both create and update: a truthy actionRequired,
      written to the one column. */
  function Checked(body: Dict): (r: Result<Dict>)
    ensures r.Ok? <==> Truthy(Get(body, "actionRequired"))
    ensures r.Err? ==> r.message == REQUIRED
    ensures r.Ok? ==> r.value.Keys == {"action_required"} && r.value["action_required"] == body["actionRequired"]
  {
    assert Passes(RULES[0], body) == Truthy(Get(body, "actionRequired"));
    Guarded(RULES, body, map["action_required" := Get(body, "actionRequired")])
  }

  method Create(t: Table, body: Dict) returns (resp: Response)
    requires t.Valid()
    modifies t
    ensures t.Valid()
    ensures Checked(body).Err? ==> resp == BadRequest(REQUIRED)
    ensures Checked(body).Err? ==> t.rows == old(t.rows) && t.nextId == old(t.nextId)
    ensures Checked(body).Ok? ==>
      var row := Table.Stamped(Checked(body).value, old(t.nextId));
      t.rows == old(t.rows)[old(t.nextId) := row] && t.nextId == old(t.nextId) + 1 &&
      resp == if t.returnsRows then Response(CREATED, Record(Some(row))) else Response(SERVER_ERROR, Error(NO_DATA))
  {
    resp := Views.Create(t, Checked(body), NO_DATA, AsStored);
  }

  /** The update replaces the one column of the row with this id and keeps
      every other column; a falsy actionRequired is refused like in create. */
  method Update(t: Table, id: int, body: Dict) returns (resp: Response)
    requires t.Valid()
    modifies t
    ensures t.Valid() && t.nextId == old(t.nextId)
    ensures Checked(body).Err? ==> resp == BadRequest(REQUIRED) && t.rows == old(t.rows)
    ensures Checked(body).Ok? && id in old(t.rows) ==>
      t.rows == old(t.rows)[id := old(t.rows)[id]["action_required" := body["actionRequired"]]]
    ensures Checked(body).Ok? && id !in old(t.rows) ==> t.rows == old(t.rows)
    ensures Checked(body).Ok? ==> resp == if id in old(t.rows) && t.returnsRows
      then Response(OK, Record(Some(t.rows[id])))
      else Response(NOT_FOUND, Error(ITEM_NOT_FOUND))
  {
    resp := Views.Update(t, id, Checked(body), AsStored);
    if Checked(body).Ok? && id in old(t.rows) {
      assert old(t.rows)[id] + Checked(body).value == old(t.rows)[id]["action_required" := body["actionRequired"]];
    }
  }

  method Delete(t: Table, id: int) returns (resp: Response)
    requires t.Valid()
    modifies t
    ensures t.Valid() && t.nextId == old(t.nextId)
    ensures t.rows == old(t.rows) - {id}
    ensures resp == Response(OK, Message(DELETED))
  {
    resp := DeleteOne(t, id, DELETED);
  }
}
