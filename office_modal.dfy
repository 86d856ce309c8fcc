/** frontend/src/components/reference-tables/OfficeModal.tsx: the add and edit
    form of an office, and how what it saves meets the views of
    backend/api/views/office.py. The region options the modal fetches for its
    select are left out. */
module OfficeModal {
  import opened Wrappers
  import opened Text
  import opened PyValue
  import opened Forms
  import Views
  import Office

  /** The four inputs, which are also the fields onSave receives. */
  const KEYS: set<string> := {"office", "region", "shortName", "headOffice"}

  const OFFICE_REQUIRED := "Office is required"

  /** The errors validate records: only the office name is required. */
  function Errors(form: Form): (r: map<string, string>)
    ensures r == map[] <==> !IsBlank(Field(form, "office"))
    ensures r != map[] ==> r == map["office" := OFFICE_REQUIRED]
  {
    Require(map[], Field(form, "office"), "office", OFFICE_REQUIRED)
  }

  /** The form an edit opens on: the row's columns under the form's names,
      '' for a missing one. */
  function Opened(row: Form): (r: Form)
    ensures r.Keys == KEYS
    ensures r["office"] == Field(row, "office") && r["region"] == Field(row, "region") &&
      r["shortName"] == Field(row, "short_name") && r["headOffice"] == Field(row, "head_office")
  {
    map[
      "office" := Field(row, "office"),
      "region" := Field(row, "region"),
      "shortName" := Field(row, "short_name"),
      "headOffice" := Field(row, "head_office")]
  }

  /** The row the create view stores for a saved form, read back as text. */
  function StoredRow(form: Form): Form {
    map[
      "office" := Field(form, "office"),
      "region" := Field(form, "region"),
      "short_name" := Field(form, "shortName"),
      "head_office" := Field(form, "headOffice")]
  }

  /** Opening a stored row shows the payload that made it. */
  lemma OpenedStoredRow(form: Form)
    ensures Opened(StoredRow(form)) == Pick(form, KEYS)
  {
  }

  /** What the form accepts the create view accepts, and it stores the four
      fields as typed, the optional ones included: the stored row, read as
      text, is StoredRow. */
  lemma AcceptedIsCreated(form: Form)
    requires Errors(form) == map[]
    ensures var r := Office.CreateRecord(Body(Pick(form, KEYS)));
      r.Ok? &&
      r.value["office"] == Str(Field(form, "office")) && r.value["region"] == Str(Field(form, "region")) &&
      r.value["short_name"] == Str(Field(form, "shortName")) &&
      r.value["head_office"] == Str(Field(form, "headOffice"))
  {
    FilledIsTruthy(Pick(form, KEYS), "office");
  }

  /** An edit always sends recognised keys, so the update view never answers
      "No data provided for update". */
  lemma EditIsPatched(form: Form)
    ensures Views.PatchOrEmpty(Office.FIELDS, Body(Pick(form, KEYS))).Ok?
  {
    var body := Body(Pick(form, KEYS));
    Office.UpdateRefused(body);
    assert Office.FIELDS[0].camel in body;
  }

  class Modal {
    var formData: Form
    var errors: map<string, string>

    constructor()
      ensures formData == Blank(KEYS) && errors == map[]
    {
      formData := Blank(KEYS);
      errors := map[];
    }

    /** The effect on initialData and isOpen. */
    method Open(initialData: Option<Form>)
      modifies this
      ensures formData == if initialData.Some? then Opened(initialData.value) else Blank(KEYS)
      ensures errors == map[]
    {
      if initialData.Some? {
        formData := Opened(initialData.value);
      } else {
        formData := Blank(KEYS);
      }
      errors := map[];
    }

    /** handleChange */
    method Change(name: string, value: string)
      modifies this
      ensures formData == old(formData)[name := value]
      ensures errors == Cleared(old(errors), name)
    {
      formData := formData[name := value];
      if name in errors && errors[name] != "" {
        errors := errors[name := ""];
      }
    }

    /** validate */
    method Validate() returns (ok: bool)
      modifies this
      ensures formData == old(formData)
      ensures errors == Errors(formData)
      ensures ok <==> errors == map[]
    {
      errors := Errors(formData);
      ok := |errors| == 0;
    }

    /** handleSubmit: the four fields are saved and the form reset when
        validate accepts; otherwise nothing is saved and the errors show. */
    method Submit() returns (saved: Option<Form>)
      modifies this
      ensures Errors(old(formData)) == map[] ==>
        saved == Some(Pick(old(formData), KEYS)) && formData == Blank(KEYS) && errors == map[]
      ensures Errors(old(formData)) != map[] ==>
        saved == None && formData == old(formData) && errors == Errors(old(formData))
    {
      var ok := Validate();
      if ok {
        saved := Some(Pick(formData, KEYS));
        formData := Blank(KEYS);
        errors := map[];
      } else {
        saved := None;
      }
    }

    /** handleClose */
    method Close()
      modifies this
      ensures formData == Blank(KEYS) && errors == map[]
    {
      formData := Blank(KEYS);
      errors := map[];
    }
  }
}
