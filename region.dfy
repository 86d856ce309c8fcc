/** backend/api/views/region.py: the regions offices belong to. */
module Region {
  import opened Wrappers
  import opened PyValue
  import opened Store
  import opened Views

  const NAME_REQUIRED := "Region Name is required"
  const ABBREVIATION_REQUIRED := "Abbreviation is required"
  const CODE_REQUIRED := "NSCB Code is required"
  const NSCB_NAME_REQUIRED := "NSCB Name is required"
  const ADDED_BY_REQUIRED := "Added By is required"
  const STATUS_REQUIRED := "Status is required"
  const NO_DATA := "Failed to create region item"
  const DELETED := "Region item deleted successfully"

  /** The create guards, in the order the view checks them. */
  const RULES: seq<Rule> := [
    Rule("regionName", NotFalsy, NAME_REQUIRED),
    Rule("abbreviation", NotFalsy, ABBREVIATION_REQUIRED),
    Rule("nscbCode", NotFalsy, CODE_REQUIRED),
    Rule("nscbName", NotFalsy, NSCB_NAME_REQUIRED),
    Rule("addedBy", NotFalsy, ADDED_BY_REQUIRED),
    Rule("status", NotFalsy, STATUS_REQUIRED)
  ]

  /** The keys the update copies when present (a None user level is kept as
      None, which is copying it as given). */
  const FIELDS: seq<FieldMap> := [
    FieldMap("regionName", "region_name", AsGiven),
    FieldMap("abbreviation", "abbreviation", AsGiven),
    FieldMap("nscbCode", "nscb_code", AsGiven),
    FieldMap("nscbName", "nscb_name", AsGiven),
    FieldMap("userLevelId", "user_level_id", AsGiven),
    FieldMap("addedBy", "added_by", AsGiven),
    FieldMap("status", "status", AsGiven)
  ]

  predicate Filled(body: Dict, key: string) {
    Truthy(Get(body, key))
  }

  /** insert_data: the six required columns, and user_level_id only when the
      request gives one that is not None. */
  function InsertData(body: Dict): Dict {
    var base := map[
      "region_name" := Get(body, "regionName"),
      "abbreviation" := Get(body, "abbreviation"),
      "nscb_code" := Get(body, "nscbCode"),
      "nscb_name" := Get(body, "nscbName"),
      "added_by" := Get(body, "addedBy"),
      "status" := Get(body, "status")];
    if Get(body, "userLevelId") != Null then base["user_level_id" := body["userLevelId"]] else base
  }

  lemma RulesPass(body: Dict)
    ensures (forall i :: 0 <= i < |RULES| ==> Passes(RULES[i], body)) <==>
      (Filled(body, "regionName") && Filled(body, "abbreviation") && Filled(body, "nscbCode") &&
      Filled(body, "nscbName") && Filled(body, "addedBy") && Filled(body, "status"))
  {
    assert Passes(RULES[0], body) == Filled(body, "regionName");
    assert Passes(RULES[1], body) == Filled(body, "abbreviation");
    assert Passes(RULES[2], body) == Filled(body, "nscbCode");
    assert Passes(RULES[3], body) == Filled(body, "nscbName");
    assert Passes(RULES[4], body) == Filled(body, "addedBy");
    assert Passes(RULES[5], body) == Filled(body, "status");
  }

  /** The create view's request check: six required fields, then insert_data. */
  function CreateRecord(body: Dict): (r: Result<Dict>)
    ensures r.Ok? <==> (Filled(body, "regionName") && Filled(body, "abbreviation") && Filled(body, "nscbCode") &&
      Filled(body, "nscbName") && Filled(body, "addedBy") && Filled(body, "status"))
    ensures r.Err? ==> r.message in {NAME_REQUIRED, ABBREVIATION_REQUIRED, CODE_REQUIRED, NSCB_NAME_REQUIRED,
      ADDED_BY_REQUIRED, STATUS_REQUIRED}
    ensures r.Ok? ==> ("user_level_id" in r.value <==> Get(body, "userLevelId") != Null)
    ensures r.Ok? ==> (r.value.Keys - {"user_level_id"} ==
      {"region_name", "abbreviation", "nscb_code", "nscb_name", "added_by", "status"})
    ensures r.Ok? && Get(body, "userLevelId") != Null ==> r.value["user_level_id"] == body["userLevelId"]
    ensures r.Ok? ==> (r.value["region_name"] == body["regionName"] && r.value["abbreviation"] == body["abbreviation"] &&
      r.value["nscb_code"] == body["nscbCode"] && r.value["nscb_name"] == body["nscbName"] &&
      r.value["added_by"] == body["addedBy"] && r.value["status"] == body["status"])
  {
    RulesPass(body);
    Guarded(RULES, body, InsertData(body))
  }

  /** Which message the create view reports: the first required field that
      is missing or falsy, in the order name, abbreviation, NSCB code, NSCB
      name, added by, status. */
  lemma GuardOrder(body: Dict)
    ensures !Filled(body, "regionName") ==> CreateRecord(body) == Err(NAME_REQUIRED)
    ensures Filled(body, "regionName") && !Filled(body, "abbreviation") ==> CreateRecord(body) == Err(ABBREVIATION_REQUIRED)
    ensures (Filled(body, "regionName") && Filled(body, "abbreviation") && !Filled(body, "nscbCode")) ==>
      CreateRecord(body) == Err(CODE_REQUIRED)
    ensures (Filled(body, "regionName") && Filled(body, "abbreviation") && Filled(body, "nscbCode") &&
      !Filled(body, "nscbName")) ==> CreateRecord(body) == Err(NSCB_NAME_REQUIRED)
    ensures (Filled(body, "regionName") && Filled(body, "abbreviation") && Filled(body, "nscbCode") &&
      Filled(body, "nscbName") && !Filled(body, "addedBy")) ==> CreateRecord(body) == Err(ADDED_BY_REQUIRED)
    ensures (Filled(body, "regionName") && Filled(body, "abbreviation") && Filled(body, "nscbCode") &&
      Filled(body, "nscbName") && Filled(body, "addedBy") && !Filled(body, "status")) ==>
      CreateRecord(body) == Err(STATUS_REQUIRED)
  {
    if !Filled(body, "regionName") {
      GuardReports(RULES, body, 0);
    } else if !Filled(body, "abbreviation") {
      GuardReports(RULES, body, 1);
    } else if !Filled(body, "nscbCode") {
      GuardReports(RULES, body, 2);
    } else if !Filled(body, "nscbName") {
      GuardReports(RULES, body, 3);
    } else if !Filled(body, "addedBy") {
      GuardReports(RULES, body, 4);
    } else if !Filled(body, "status") {
      GuardReports(RULES, body, 5);
    }
  }

  /** A region cannot be created without an abbreviation, whatever else the
      request holds. */
  lemma NoAbbreviationNoRegion(body: Dict)
    requires "abbreviation" !in body
    ensures CreateRecord(body).Err?
    ensures Filled(body, "regionName") ==> CreateRecord(body) == Err(ABBREVIATION_REQUIRED)
  {
    GuardOrder(body);
  }

  lemma UpdateRefused(body: Dict)
    ensures PatchOrEmpty(FIELDS, body).Err? <==> forall i :: 0 <= i < |FIELDS| ==> FIELDS[i].camel !in body
    ensures PatchOrEmpty(FIELDS, body).Err? ==> PatchOrEmpty(FIELDS, body) == Err(NO_UPDATE_DATA)
  {
    PlainPatch(FIELDS, body);
  }

  /** The update patch copies a present userLevelId as given, None included,
      and sets no user level when the key is absent. */
  lemma UpdateUserLevel(body: Dict)
    ensures var r := PatchOrEmpty(FIELDS, body);
      r.Ok? ==> ("user_level_id" in r.value <==> "userLevelId" in body) && ("region_name" in r.value <==> "regionName" in body)
    ensures var r := PatchOrEmpty(FIELDS, body);
      r.Ok? && "userLevelId" in body ==> r.value["user_level_id"] == body["userLevelId"]
    ensures var r := PatchOrEmpty(FIELDS, body);
      r.Ok? && "regionName" in body ==> r.value["region_name"] == body["regionName"]
  {
    PlainPatch(FIELDS, body);
    if PatchOrEmpty(FIELDS, body).Ok? {
      PresentAt(FIELDS, body, 4);
      PresentAt(FIELDS, body, 0);
      if "userLevelId" in body {
        PatchValueAt(FIELDS, body, 4);
      }
      if "regionName" in body {
        PatchValueAt(FIELDS, body, 0);
      }
    }
  }

  method Create(t: Table, body: Dict) returns (resp: Response)
    requires t.Valid()
    modifies t
    ensures t.Valid()
    ensures CreateRecord(body).Err? ==> resp == BadRequest(CreateRecord(body).message)
    ensures CreateRecord(body).Err? ==> t.rows == old(t.rows) && t.nextId == old(t.nextId)
    ensures CreateRecord(body).Ok? ==>
      var row := Table.Stamped(CreateRecord(body).value, old(t.nextId));
      t.rows == old(t.rows)[old(t.nextId) := row] && t.nextId == old(t.nextId) + 1 &&
      resp == if t.returnsRows then Response(CREATED, Record(Some(row))) else Response(SERVER_ERROR, Error(NO_DATA))
  {
    resp := Views.Create(t, CreateRecord(body), NO_DATA, AsStored);
  }

  method Update(t: Table, id: int, body: Dict) returns (resp: Response)
    requires t.Valid()
    modifies t
    ensures t.Valid() && t.nextId == old(t.nextId)
    ensures PatchOrEmpty(FIELDS, body).Err? ==>
      resp == BadRequest(PatchOrEmpty(FIELDS, body).message) && t.rows == old(t.rows)
    ensures PatchOrEmpty(FIELDS, body).Ok? ==>
      var patch := PatchOrEmpty(FIELDS, body).value;
      (id in old(t.rows) ==> t.rows == old(t.rows)[id := old(t.rows)[id] + patch]) &&
      (id !in old(t.rows) ==> t.rows == old(t.rows)) &&
      resp == if id in old(t.rows) && t.returnsRows
        then Response(OK, Record(Some(t.rows[id])))
        else Response(NOT_FOUND, Error(ITEM_NOT_FOUND))
  {
    resp := PatchRow(t, id, FIELDS, body);
  }

  method Delete(t: Table, id: int) returns (resp: Response)
    requires t.Valid()
    modifies t
    ensures t.Valid() && t.nextId == old(t.nextId)
    ensures t.rows == old(t.rows) - {id}
    ensures resp == Response(OK, Message(DELETED))
  {
    resp := DeleteOne(t, id, DELETED);
  }
}
