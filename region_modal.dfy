/** frontend/src/components/reference-tables/RegionModal.tsx: the add and edit
    form of a region, and how what it saves meets the views of
    backend/api/views/region.py. The form has no abbreviation input, which the
    create view requires. */
module RegionModal {
  import opened Wrappers
  import opened Text
  import opened PyValue
  import opened Forms
  import Views
  import Region

  /** The five inputs, which are also the fields onSave receives. */
  const KEYS: set<string> := {"regionName", "nscbCode", "nscbName", "addedBy", "status"}

  const NAME_REQUIRED := "Region Name is required"
  const CODE_REQUIRED := "NSCB Code is required"
  const NSCB_NAME_REQUIRED := "NSCB Name is required"
  const ADDED_BY_REQUIRED := "Added By is required"
  const STATUS_REQUIRED := "Status is required"

  /** The errors validate records: the five fields checked in turn. */
  function Errors(form: Form): map<string, string> {
    var e := Require(map[], Field(form, "regionName"), "regionName", NAME_REQUIRED);
    var e := Require(e, Field(form, "nscbCode"), "nscbCode", CODE_REQUIRED);
    var e := Require(e, Field(form, "nscbName"), "nscbName", NSCB_NAME_REQUIRED);
    var e := Require(e, Field(form, "addedBy"), "addedBy", ADDED_BY_REQUIRED);
    Require(e, Field(form, "status"), "status", STATUS_REQUIRED)
  }

  /** The form validate accepts: every field holds more than white space. */
  lemma AcceptedIff(form: Form)
    ensures Errors(form) == map[] <==>
      !IsBlank(Field(form, "regionName")) && !IsBlank(Field(form, "nscbCode")) &&
      !IsBlank(Field(form, "nscbName")) && !IsBlank(Field(form, "addedBy")) && !IsBlank(Field(form, "status"))
  {
  }

  /** The form an edit opens on: the row's snake_case columns under the
      form's names, '' for a missing one. */
  function Opened(row: Form): (r: Form)
    ensures r.Keys == KEYS
    ensures r["regionName"] == Field(row, "region_name") && r["nscbCode"] == Field(row, "nscb_code") &&
      r["nscbName"] == Field(row, "nscb_name") && r["addedBy"] == Field(row, "added_by") &&
      r["status"] == Field(row, "status")
  {
    map[
      "regionName" := Field(row, "region_name"),
      "nscbCode" := Field(row, "nscb_code"),
      "nscbName" := Field(row, "nscb_name"),
      "addedBy" := Field(row, "added_by"),
      "status" := Field(row, "status")]
  }

  /** The row the create view stores for a saved form, read back as text:
      the snake_case columns the edit opens on. */
  function StoredRow(form: Form): Form {
    map[
      "region_name" := Field(form, "regionName"),
      "nscb_code" := Field(form, "nscbCode"),
      "nscb_name" := Field(form, "nscbName"),
      "added_by" := Field(form, "addedBy"),
      "status" := Field(form, "status")]
  }

  /** Opening a stored row shows the payload that made it. */
  lemma OpenedStoredRow(form: Form)
    ensures Opened(StoredRow(form)) == Pick(form, KEYS)
  {
  }

  /** Whatever the form accepts, the create view refuses: the payload has no
      abbreviation, and the view checks it right after the region name. */
  lemma AcceptedIsRefused(form: Form)
    requires Errors(form) == map[]
    ensures Region.CreateRecord(Body(Pick(form, KEYS))) == Err(Region.ABBREVIATION_REQUIRED)
  {
    var p := Pick(form, KEYS);
    FilledIsTruthy(p, "regionName");
    Region.NoAbbreviationNoRegion(Body(p));
  }

  /** An edit always sends recognised keys, so the update view never answers
      "No data provided for update". */
  lemma EditIsPatched(form: Form)
    ensures Views.PatchOrEmpty(Region.FIELDS, Body(Pick(form, KEYS))).Ok?
  {
    var body := Body(Pick(form, KEYS));
    Region.UpdateRefused(body);
    assert Region.FIELDS[0].camel in body;
  }

  class Modal {
    var formData: Form
    var errors: map<string, string>

    constructor()
      ensures formData == Blank(KEYS) && errors == map[]
    {
      formData := Blank(KEYS);
      errors := map[];
    }

    /** The effect on initialData and isOpen. */
    method Open(initialData: Option<Form>)
      modifies this
      ensures formData == if initialData.Some? then Opened(initialData.value) else Blank(KEYS)
      ensures errors == map[]
    {
      if initialData.Some? {
        formData := Opened(initialData.value);
      } else {
        formData := Blank(KEYS);
      }
      errors := map[];
    }

    /** handleChange */
    method Change(name: string, value: string)
      modifies this
      ensures formData == old(formData)[name := value]
      ensures errors == Cleared(old(errors), name)
    {
      formData := formData[name := value];
      if name in errors && errors[name] != "" {
        errors := errors[name := ""];
      }
    }

    /** validate */
    method Validate() returns (ok: bool)
      modifies this
      ensures formData == old(formData)
      ensures errors == Errors(formData)
      ensures ok <==> errors == map[]
    {
      errors := Errors(formData);
      ok := |errors| == 0;
    }

    /** handleSubmit: the five fields are saved and the form reset when
        validate accepts; otherwise nothing is saved and the errors show. */
    method Submit() returns (saved: Option<Form>)
      modifies this
      ensures Errors(old(formData)) == map[] ==>
        saved == Some(Pick(old(formData), KEYS)) && formData == Blank(KEYS) && errors == map[]
      ensures Errors(old(formData)) != map[] ==>
        saved == None && formData == old(formData) && errors == Errors(old(formData))
    {
      var ok := Validate();
      if ok {
        saved := Some(Pick(formData, KEYS));
        formData := Blank(KEYS);
        errors := map[];
      } else {
        saved := None;
      }
    }

    /** handleClose */
    method Close()
      modifies this
      ensures formData == Blank(KEYS) && errors == map[]
    {
      formData := Blank(KEYS);
      errors := map[];
    }
  }
}
