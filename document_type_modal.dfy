/** frontend/src/components/reference-tables/DocumentTypeModal.tsx: the add
    and edit form of a document type, and how what it saves meets the views of
    backend/api/views/document_type.py. The form holds a code and a name and
    requires both, but renders an input for the name only. */
module DocumentTypeModal {
  import opened Wrappers
  import opened Text
  import opened PyValue
  import opened Forms
  import Views
  import DocumentType

  /** The two fields of the form, which are also the fields onSave receives. */
  const KEYS: set<string> := {"documentTypeCode", "documentType"}

  const CODE_REQUIRED := "Document Type Code is required"
  const NAME_REQUIRED := "Document Type is required"

  /** The errors validate records: the code, then the name. */
  function Errors(form: Form): map<string, string> {
    var e := Require(map[], Field(form, "documentTypeCode"), "documentTypeCode", CODE_REQUIRED);
    Require(e, Field(form, "documentType"), "documentType", NAME_REQUIRED)
  }

  /** The form validate accepts, and the message a blank code gets. */
  lemma AcceptedIff(form: Form)
    ensures Errors(form) == map[] <==>
      !IsBlank(Field(form, "documentTypeCode")) && !IsBlank(Field(form, "documentType"))
    ensures IsBlank(Field(form, "documentTypeCode")) ==>
      "documentTypeCode" in Errors(form) && Errors(form)["documentTypeCode"] == CODE_REQUIRED
  {
  }

  /** The form an edit opens on: the row's columns under the form's names,
      '' for a missing one. */
  function Opened(row: Form): (r: Form)
    ensures r.Keys == KEYS
    ensures r["documentTypeCode"] == Field(row, "document_type_code") && r["documentType"] == Field(row, "document_type")
  {
    map["documentTypeCode" := Field(row, "document_type_code"), "documentType" := Field(row, "document_type")]
  }

  /** Typing in the rendered input never changes the code. */
  lemma TypingKeepsCode(form: Form, value: string)
    ensures Field(form["documentType" := value], "documentTypeCode") == Field(form, "documentTypeCode")
  {
  }

  /** A document type cannot be added through the modal: opened blank, its
      code stays '' whatever is typed, and validate refuses it. */
  lemma AddNeverAccepted(value: string)
    ensures var form := Blank(KEYS)["documentType" := value];
      Errors(form) != map[] && "documentTypeCode" in Errors(form)
  {
    var form := Blank(KEYS)["documentType" := value];
    TypingKeepsCode(Blank(KEYS), value);
    assert IsBlank(Field(form, "documentTypeCode"));
    AcceptedIff(form);
  }

  /** What the form accepts the create view accepts, and it stores both
      fields as typed. */
  lemma AcceptedIsCreated(form: Form)
    requires Errors(form) == map[]
    ensures var r := DocumentType.CreateRecord(Body(Pick(form, KEYS)));
      r.Ok? && r.value["document_type_code"] == Str(Field(form, "documentTypeCode")) &&
      r.value["document_type"] == Str(Field(form, "documentType"))
  {
    AcceptedIff(form);
    FilledIsTruthy(Pick(form, KEYS), "documentTypeCode");
    FilledIsTruthy(Pick(form, KEYS), "documentType");
  }

  /** An edit always sends recognised keys, so the update view never answers
      "No data provided for update". */
  lemma EditIsPatched(form: Form)
    ensures Views.PatchOrEmpty(DocumentType.FIELDS, Body(Pick(form, KEYS))).Ok?
  {
    var body := Body(Pick(form, KEYS));
    DocumentType.UpdateRefused(body);
    assert DocumentType.FIELDS[0].camel in body;
  }

  class Modal {
    var formData: Form
    var errors: map<string, string>

    constructor()
      ensures formData == Blank(KEYS) && errors == map[]
    {
      formData := Blank(KEYS);
      errors := map[];
    }

    /** The effect on initialData and isOpen. */
    method Open(initialData: Option<Form>)
      modifies this
      ensures formData == if initialData.Some? then Opened(initialData.value) else Blank(KEYS)
      ensures errors == map[]
    {
      if initialData.Some? {
        formData := Opened(initialData.value);
      } else {
        formData := Blank(KEYS);
      }
      errors := map[];
    }

    /** handleChange, fired by the one input the modal renders, the one
        named documentType. */
    method ChangeDocumentType(value: string)
      modifies this
      ensures formData == old(formData)["documentType" := value]
      ensures errors == Cleared(old(errors), "documentType")
    {
      formData := formData["documentType" := value];
      if "documentType" in errors && errors["documentType"] != "" {
        errors := errors["documentType" := ""];
      }
    }

    /** validate */
    method Validate() returns (ok: bool)
      modifies this
      ensures formData == old(formData)
      ensures errors == Errors(formData)
      ensures ok <==> errors == map[]
    {
      errors := Errors(formData);
      ok := |errors| == 0;
    }

    /** handleSubmit: the two fields are saved and the form reset when
        validate accepts; otherwise nothing is saved and the errors show. */
    method Submit() returns (saved: Option<Form>)
      modifies this
      ensures Errors(old(formData)) == map[] ==>
        saved == Some(Pick(old(formData), KEYS)) && formData == Blank(KEYS) && errors == map[]
      ensures Errors(old(formData)) != map[] ==>
        saved == None && formData == old(formData) && errors == Errors(old(formData))
    {
      var ok := Validate();
      if ok {
        saved := Some(Pick(formData, KEYS));
        formData := Blank(KEYS);
        errors := map[];
      } else {
        saved := None;
      }
    }

    /** handleClose */
    method Close()
      modifies this
      ensures formData == Blank(KEYS) && errors == map[]
    {
      formData := Blank(KEYS);
      errors := map[];
    }
  }
}
