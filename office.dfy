/** backend/api/views/office.py: the offices, each in a region, with a short
    name and a head office. */
module Office {
  import opened Wrappers
  import opened PyValue
  import opened Store
  import opened Views

  const OFFICE_REQUIRED := "Office is required"
  const NO_DATA := "Failed to create office item"
  const DELETED := "Office item deleted successfully"

  /** The one create guard. */
  const RULES: seq<Rule> := [Rule("office", NotFalsy, OFFICE_REQUIRED)]

  /** The keys the update copies, as given, when present. */
  const FIELDS: seq<FieldMap> := [
    FieldMap("office", "office", AsGiven),
    FieldMap("region", "region", AsGiven),
    FieldMap("shortName", "short_name", AsGiven),
    FieldMap("headOffice", "head_office", AsGiven)
  ]

  /** The create view's request check: only the office name is required; the
      region, short name and head office are inserted as given, None when
      absent. */
  function CreateRecord(body: Dict): (r: Result<Dict>)
    ensures r.Ok? <==> Truthy(Get(body, "office"))
    ensures r.Err? ==> r.message == OFFICE_REQUIRED
    ensures r.Ok? ==> r.value.Keys == {"office", "region", "short_name", "head_office"}
    ensures r.Ok? ==> (r.value["office"] == body["office"] && r.value["region"] == Get(body, "region") &&
      r.value["short_name"] == Get(body, "shortName") && r.value["head_office"] == Get(body, "headOffice"))
  {
    assert Passes(RULES[0], body) == Truthy(Get(body, "office"));
    Guarded(RULES, body, map[
      "office" := Get(body, "office"),
      "region" := Get(body, "region"),
      "short_name" := Get(body, "shortName"),
      "head_office" := Get(body, "headOffice")])
  }

  /** The update is refused, with "No data provided for update", exactly when
      no recognised key is present. */
  lemma UpdateRefused(body: Dict)
    ensures PatchOrEmpty(FIELDS, body).Err? <==> forall i :: 0 <= i < |FIELDS| ==> FIELDS[i].camel !in body
    ensures PatchOrEmpty(FIELDS, body).Err? ==> PatchOrEmpty(FIELDS, body) == Err(NO_UPDATE_DATA)
  {
    PlainPatch(FIELDS, body);
  }

  /** An accepted update patch sets exactly the recognised keys present, each
      copied as given. */
  lemma UpdatePatchExact(body: Dict)
    ensures var r := PatchOrEmpty(FIELDS, body);
      r.Ok? ==>
        ("office" in r.value <==> "office" in body) &&
        ("region" in r.value <==> "region" in body) &&
        ("short_name" in r.value <==> "shortName" in body) &&
        ("head_office" in r.value <==> "headOffice" in body)
    ensures var r := PatchOrEmpty(FIELDS, body);
      r.Ok? ==> r.value.Keys <= {"office", "region", "short_name", "head_office"}
    ensures var r := PatchOrEmpty(FIELDS, body);
      r.Ok? ==>
        ("office" in body ==> r.value["office"] == body["office"]) &&
        ("region" in body ==> r.value["region"] == body["region"]) &&
        ("shortName" in body ==> r.value["short_name"] == body["shortName"]) &&
        ("headOffice" in body ==> r.value["head_office"] == body["headOffice"])
  {
    if PatchOrEmpty(FIELDS, body).Ok? {
      PatchKeys(body);
      PatchAt(body, 0);
      PatchAt(body, 1);
      PatchAt(body, 2);
      PatchAt(body, 3);
    }
  }

  lemma PatchKeys(body: Dict)
    requires PatchOrEmpty(FIELDS, body).Ok?
    ensures PatchOrEmpty(FIELDS, body).value.Keys <= {"office", "region", "short_name", "head_office"}
  {
    FieldsShape();
    SnakesListed();
  }

  lemma SnakesListed()
    ensures forall i :: 0 <= i < |FIELDS| ==> FIELDS[i].snake in {"office", "region", "short_name", "head_office"}
  {
  }

  /** The update mapping copies four distinct columns, none through int(). */
  lemma FieldsShape()
    ensures DistinctSnake(FIELDS) && NoIntFields(FIELDS)
  {
  }

  /** The column of FIELDS[i] is set exactly when its key is present, to the
      value given. */
  lemma PatchAt(body: Dict, i: nat)
    requires i < |FIELDS| && PatchOrEmpty(FIELDS, body).Ok?
    ensures var p := PatchOrEmpty(FIELDS, body).value;
      (FIELDS[i].snake in p <==> FIELDS[i].camel in body) &&
      (FIELDS[i].camel in body ==> p[FIELDS[i].snake] == body[FIELDS[i].camel])
  {
    FieldsShape();
    PresentAt(FIELDS, body, i);
    if FIELDS[i].camel in body {
      PatchValueAt(FIELDS, body, i);
    }
  }

  method Create(t: Table, body: Dict) returns (resp: Response)
    requires t.Valid()
    modifies t
    ensures t.Valid()
    ensures CreateRecord(body).Err? ==> resp == BadRequest(CreateRecord(body).message)
    ensures CreateRecord(body).Err? ==> t.rows == old(t.rows) && t.nextId == old(t.nextId)
    ensures CreateRecord(body).Ok? ==>
      var row := Table.Stamped(CreateRecord(body).value, old(t.nextId));
      t.rows == old(t.rows)[old(t.nextId) := row] && t.nextId == old(t.nextId) + 1 &&
      resp == if t.returnsRows then Response(CREATED, Record(Some(row))) else Response(SERVER_ERROR, Error(NO_DATA))
  {
    resp := Views.Create(t, CreateRecord(body), NO_DATA, AsStored);
  }

  method Update(t: Table, id: int, body: Dict) returns (resp: Response)
    requires t.Valid()
    modifies t
    ensures t.Valid() && t.nextId == old(t.nextId)
    ensures PatchOrEmpty(FIELDS, body).Err? ==>
      resp == BadRequest(PatchOrEmpty(FIELDS, body).message) && t.rows == old(t.rows)
    ensures PatchOrEmpty(FIELDS, body).Ok? ==>
      var patch := PatchOrEmpty(FIELDS, body).value;
      (id in old(t.rows) ==> t.rows == old(t.rows)[id := old(t.rows)[id] + patch]) &&
      (id !in old(t.rows) ==> t.rows == old(t.rows)) &&
      resp == if id in old(t.rows) && t.returnsRows
        then Response(OK, Record(Some(t.rows[id])))
        else Response(NOT_FOUND, Error(ITEM_NOT_FOUND))
  {
    resp := PatchRow(t, id, FIELDS, body);
  }

  method Delete(t: Table, id: int) returns (resp: Response)
    requires t.Valid()
    modifies t
    ensures t.Valid() && t.nextId == old(t.nextId)
    ensures t.rows == old(t.rows) - {id}
    ensures resp == Response(OK, Message(DELETED))
  {
    resp := DeleteOne(t, id, DELETED);
  }
}
