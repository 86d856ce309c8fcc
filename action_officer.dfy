/** backend/api/views/action_officer.py: the officers documents are routed
    to, with their office and login. */
module ActionOfficer {
  import opened Wrappers
  import opened PyValue
  import opened Store
  import opened Views

  const CODE_REQUIRED := "Employee Code is required"
  const LAST_REQUIRED := "Last Name is required"
  const FIRST_REQUIRED := "First Name is required"
  const MIDDLE_REQUIRED := "Middle Name is required"
  const PASSWORD_REQUIRED := "User Password is required"
  const LEVEL_REQUIRED := "User Level is required"
  const NO_DATA := "Failed to create action officer item"
  const DELETED := "Action officer item deleted successfully"

  /** The create guards, in the order the view checks them. */
  const RULES: seq<Rule> := [
    Rule("employeeCode", NotFalsy, CODE_REQUIRED),
    Rule("lastName", NotFalsy, LAST_REQUIRED),
    Rule("firstName", NotFalsy, FIRST_REQUIRED),
    Rule("middleName", NotFalsy, MIDDLE_REQUIRED),
    Rule("userPassword", NotFalsy, PASSWORD_REQUIRED),
    Rule("userLevel", NotFalsy, LEVEL_REQUIRED)
  ]

  /** The keys the update copies when present; an empty office or office
      representative is stored as None. */
  const FIELDS: seq<FieldMap> := [
    FieldMap("employeeCode", "employee_code", AsGiven),
    FieldMap("lastName", "last_name", AsGiven),
    FieldMap("firstName", "first_name", AsGiven),
    FieldMap("middleName", "middle_name", AsGiven),
    FieldMap("office", "office", NoneIfFalsy),
    FieldMap("userPassword", "user_password", AsGiven),
    FieldMap("userLevel", "user_level", AsGiven),
    FieldMap("officeRepresentative", "office_representative", NoneIfFalsy)
  ]

  predicate Filled(body: Dict, key: string) {
    Truthy(Get(body, key))
  }

  /** `v if v else None` on request.data.get(key, ''). */
  function OrNull(body: Dict, key: string): Value {
    Or(GetOr(body, key, Str("")), Null)
  }

  /** The create view's request check: six required fields, then the row to
      insert. */
  function CreateRecord(body: Dict): (r: Result<Dict>)
    ensures r.Ok? <==> (Filled(body, "employeeCode") && Filled(body, "lastName") && Filled(body, "firstName") &&
      Filled(body, "middleName") && Filled(body, "userPassword") && Filled(body, "userLevel"))
    ensures r.Err? ==> r.message in {CODE_REQUIRED, LAST_REQUIRED, FIRST_REQUIRED, MIDDLE_REQUIRED, PASSWORD_REQUIRED, LEVEL_REQUIRED}
    ensures r.Ok? ==> r.value.Keys == {"employee_code", "last_name", "first_name", "middle_name", "office",
      "user_password", "user_level", "office_representative"}
    ensures r.Ok? ==> (r.value["employee_code"] == body["employeeCode"] && r.value["last_name"] == body["lastName"] &&
      r.value["first_name"] == body["firstName"] && r.value["middle_name"] == body["middleName"] &&
      r.value["user_password"] == body["userPassword"] && r.value["user_level"] == body["userLevel"])
    ensures r.Ok? ==> (Truthy(r.value["office"]) <==> Filled(body, "office"))
    ensures r.Ok? && Filled(body, "office") ==> r.value["office"] == body["office"]
    ensures r.Ok? && !Filled(body, "office") ==> r.value["office"] == Null
    ensures r.Ok? ==> (Truthy(r.value["office_representative"]) <==> Filled(body, "officeRepresentative"))
    ensures r.Ok? && Filled(body, "officeRepresentative") ==> r.value["office_representative"] == body["officeRepresentative"]
    ensures r.Ok? && !Filled(body, "officeRepresentative") ==> r.value["office_representative"] == Null
  {
    RulesPass(body);
    MessageListed(body);
    OrNullKeeps(body, "office");
    OrNullKeeps(body, "officeRepresentative");
    Guarded(RULES, body, map[
      "employee_code" := Get(body, "employeeCode"),
      "last_name" := Get(body, "lastName"),
      "first_name" := Get(body, "firstName"),
      "middle_name" := Get(body, "middleName"),
      "office" := OrNull(body, "office"),
      "user_password" := Get(body, "userPassword"),
      "user_level" := Get(body, "userLevel"),
      "office_representative" := OrNull(body, "officeRepresentative")])
  }

  /** The 400 message is one of the six rules' messages. */
  lemma MessageListed(body: Dict)
    ensures Guard(RULES, body).Some? ==>
      Guard(RULES, body).value in {CODE_REQUIRED, LAST_REQUIRED, FIRST_REQUIRED, MIDDLE_REQUIRED, PASSWORD_REQUIRED, LEVEL_REQUIRED}
  {
    match FirstFailure(RULES, body)
    case None =>
    case Some(i) =>
      assert RULES[i].message in {CODE_REQUIRED, LAST_REQUIRED, FIRST_REQUIRED, MIDDLE_REQUIRED, PASSWORD_REQUIRED, LEVEL_REQUIRED};
  }

  /** An optional field is stored as given when truthy, and as None
      otherwise. */
  lemma OrNullKeeps(body: Dict, key: string)
    ensures Truthy(OrNull(body, key)) <==> Filled(body, key)
    ensures Filled(body, key) ==> key in body && OrNull(body, key) == body[key]
    ensures !Filled(body, key) ==> OrNull(body, key) == Null
  {
  }

  lemma RulesPass(body: Dict)
    ensures (forall i :: 0 <= i < |RULES| ==> Passes(RULES[i], body)) <==>
      (Filled(body, "employeeCode") && Filled(body, "lastName") && Filled(body, "firstName") &&
      Filled(body, "middleName") && Filled(body, "userPassword") && Filled(body, "userLevel"))
  {
    assert Passes(RULES[0], body) == Filled(body, "employeeCode");
    assert Passes(RULES[1], body) == Filled(body, "lastName");
    assert Passes(RULES[2], body) == Filled(body, "firstName");
    assert Passes(RULES[3], body) == Filled(body, "middleName");
    assert Passes(RULES[4], body) == Filled(body, "userPassword");
    assert Passes(RULES[5], body) == Filled(body, "userLevel");
  }

  /** Which message the create view reports: the first required field that
      is missing or falsy, in the order employee code, last, first and middle
      name, password, level. */
  lemma GuardOrder(body: Dict)
    ensures !Filled(body, "employeeCode") ==> CreateRecord(body) == Err(CODE_REQUIRED)
    ensures Filled(body, "employeeCode") && !Filled(body, "lastName") ==> CreateRecord(body) == Err(LAST_REQUIRED)
    ensures (Filled(body, "employeeCode") && Filled(body, "lastName") && !Filled(body, "firstName")) ==>
      CreateRecord(body) == Err(FIRST_REQUIRED)
    ensures (Filled(body, "employeeCode") && Filled(body, "lastName") && Filled(body, "firstName") &&
      !Filled(body, "middleName")) ==> CreateRecord(body) == Err(MIDDLE_REQUIRED)
    ensures (Filled(body, "employeeCode") && Filled(body, "lastName") && Filled(body, "firstName") &&
      Filled(body, "middleName") && !Filled(body, "userPassword")) ==> CreateRecord(body) == Err(PASSWORD_REQUIRED)
    ensures (Filled(body, "employeeCode") && Filled(body, "lastName") && Filled(body, "firstName") &&
      Filled(body, "middleName") && Filled(body, "userPassword") && !Filled(body, "userLevel")) ==>
      CreateRecord(body) == Err(LEVEL_REQUIRED)
  {
    if !Filled(body, "employeeCode") {
      GuardReports(RULES, body, 0);
    } else if !Filled(body, "lastName") {
      GuardReports(RULES, body, 1);
    } else if !Filled(body, "firstName") {
      GuardReports(RULES, body, 2);
    } else if !Filled(body, "middleName") {
      GuardReports(RULES, body, 3);
    } else if !Filled(body, "userPassword") {
      GuardReports(RULES, body, 4);
    } else if !Filled(body, "userLevel") {
      GuardReports(RULES, body, 5);
    }
  }

  /** The update patch: exactly the recognised keys present, an empty office or
      representative as None; refused only when none of the eight keys is
      present. */
  lemma UpdateRefused(body: Dict)
    ensures PatchOrEmpty(FIELDS, body).Err? <==> forall i :: 0 <= i < |FIELDS| ==> FIELDS[i].camel !in body
    ensures PatchOrEmpty(FIELDS, body).Err? ==> PatchOrEmpty(FIELDS, body) == Err(NO_UPDATE_DATA)
  {
    PlainPatch(FIELDS, body);
  }

  /** An accepted patch sets a column exactly when its key is present: the
      six plain fields as given, an office or representative as given when
      truthy and as None otherwise. */
  lemma UpdatePatchExact(body: Dict)
    ensures var r := PatchOrEmpty(FIELDS, body);
      r.Ok? ==>
        ("employee_code" in r.value <==> "employeeCode" in body) &&
        ("last_name" in r.value <==> "lastName" in body) &&
        ("first_name" in r.value <==> "firstName" in body) &&
        ("middle_name" in r.value <==> "middleName" in body) &&
        ("office" in r.value <==> "office" in body) &&
        ("user_password" in r.value <==> "userPassword" in body) &&
        ("user_level" in r.value <==> "userLevel" in body) &&
        ("office_representative" in r.value <==> "officeRepresentative" in body)
    ensures var r := PatchOrEmpty(FIELDS, body);
      r.Ok? ==>
        ("employeeCode" in body ==> r.value["employee_code"] == body["employeeCode"]) &&
        ("lastName" in body ==> r.value["last_name"] == body["lastName"]) &&
        ("firstName" in body ==> r.value["first_name"] == body["firstName"]) &&
        ("middleName" in body ==> r.value["middle_name"] == body["middleName"]) &&
        ("office" in body ==> r.value["office"] == if Truthy(body["office"]) then body["office"] else Null) &&
        ("userPassword" in body ==> r.value["user_password"] == body["userPassword"]) &&
        ("userLevel" in body ==> r.value["user_level"] == body["userLevel"]) &&
        ("officeRepresentative" in body ==>
          r.value["office_representative"] == if Truthy(body["officeRepresentative"]) then body["officeRepresentative"] else Null)
  {
    FieldsDistinct();
    if PatchOrEmpty(FIELDS, body).Ok? {
      PatchAt(body, 0);
      PatchAt(body, 1);
      PatchAt(body, 2);
      PatchAt(body, 3);
      PatchAt(body, 4);
      PatchAt(body, 5);
      PatchAt(body, 6);
      PatchAt(body, 7);
    }
  }

  /** Field i of an accepted patch: its column is set exactly when its key is
      present, to the key's value converted. */
  lemma PatchAt(body: Dict, i: nat)
    requires i < |FIELDS| && PatchOrEmpty(FIELDS, body).Ok?
    ensures var p := PatchOrEmpty(FIELDS, body).value;
      (FIELDS[i].snake in p <==> FIELDS[i].camel in body) &&
      (FIELDS[i].camel in body ==> Convert(FIELDS[i].conv, body[FIELDS[i].camel]) == Some(p[FIELDS[i].snake]))
  {
    FieldsDistinct();
    PresentAt(FIELDS, body, i);
    if FIELDS[i].camel in body {
      PatchValueAt(FIELDS, body, i);
    }
  }

  /** The update mapping writes eight distinct columns. */
  lemma FieldsDistinct()
    ensures DistinctSnake(FIELDS)
  {
  }

  method Create(t: Table, body: Dict) returns (resp: Response)
    requires t.Valid()
    modifies t
    ensures t.Valid()
    ensures CreateRecord(body).Err? ==> resp == BadRequest(CreateRecord(body).message)
    ensures CreateRecord(body).Err? ==> t.rows == old(t.rows) && t.nextId == old(t.nextId)
    ensures CreateRecord(body).Ok? ==>
      var row := Table.Stamped(CreateRecord(body).value, old(t.nextId));
      t.rows == old(t.rows)[old(t.nextId) := row] && t.nextId == old(t.nextId) + 1 &&
      resp == if t.returnsRows then Response(CREATED, Record(Some(row))) else Response(SERVER_ERROR, Error(NO_DATA))
  {
    resp := Views.Create(t, CreateRecord(body), NO_DATA, AsStored);
  }

  method Update(t: Table, id: int, body: Dict) returns (resp: Response)
    requires t.Valid()
    modifies t
    ensures t.Valid() && t.nextId == old(t.nextId)
    ensures PatchOrEmpty(FIELDS, body).Err? ==>
      resp == BadRequest(PatchOrEmpty(FIELDS, body).message) && t.rows == old(t.rows)
    ensures PatchOrEmpty(FIELDS, body).Ok? ==>
      var patch := PatchOrEmpty(FIELDS, body).value;
      (id in old(t.rows) ==> t.rows == old(t.rows)[id := old(t.rows)[id] + patch]) &&
      (id !in old(t.rows) ==> t.rows == old(t.rows)) &&
      resp == if id in old(t.rows) && t.returnsRows
        then Response(OK, Record(Some(t.rows[id])))
        else Response(NOT_FOUND, Error(ITEM_NOT_FOUND))
  {
    resp := PatchRow(t, id, FIELDS, body);
  }

  method Delete(t: Table, id: int) returns (resp: Response)
    requires t.Valid()
    modifies t
    ensures t.Valid() && t.nextId == old(t.nextId)
    ensures t.rows == old(t.rows) - {id}
    ensures resp == Response(OK, Message(DELETED))
  {
    resp := DeleteOne(t, id, DELETED);
  }
}
