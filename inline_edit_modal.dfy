/** frontend/src/components/outbox/InlineEditModal.tsx: the quick edit of a
    document's essential fields. Its form holds no document until the page
    passes one. */
module InlineEditModal {
  import opened Wrappers
  import opened Text
  import opened Forms
  import Documents
  import AddDocumentModal

  const CONTROL_REQUIRED := "Document Control No. is required"
  const ROUTE_REQUIRED := "Route No. is required"
  const OFFICE_CONTROL_REQUIRED := "Office Control No. is required"
  const SUBJECT_REQUIRED := "Subject is required"

  /** The errors validate records for a form: the four essential fields. */
  function Errors(form: Form): map<string, string> {
    var e := Require(map[], Field(form, "documentControlNo"), "documentControlNo", CONTROL_REQUIRED);
    var e := Require(e, Field(form, "routeNo"), "routeNo", ROUTE_REQUIRED);
    var e := Require(e, Field(form, "officeControlNo"), "officeControlNo", OFFICE_CONTROL_REQUIRED);
    Require(e, Field(form, "subject"), "subject", SUBJECT_REQUIRED)
  }

  /** The form validate accepts: the four essential fields hold more than
      white space. */
  lemma AcceptedIff(form: Form)
    ensures Errors(form) == map[] <==>
      !IsBlank(Field(form, "documentControlNo")) && !IsBlank(Field(form, "routeNo")) &&
      !IsBlank(Field(form, "officeControlNo")) && !IsBlank(Field(form, "subject"))
  {
  }

  /** The two modals report the four essential fields under the same
      messages. */
  lemma SameMessages()
    ensures CONTROL_REQUIRED == AddDocumentModal.CONTROL_REQUIRED && ROUTE_REQUIRED == AddDocumentModal.ROUTE_REQUIRED
    ensures OFFICE_CONTROL_REQUIRED == AddDocumentModal.OFFICE_CONTROL_REQUIRED
    ensures SUBJECT_REQUIRED == AddDocumentModal.SUBJECT_REQUIRED
  {
  }

  /** A document the add modal accepted passes the inline edit's checks. */
  lemma AddedPassesInline(form: Form)
    requires AddDocumentModal.Errors(form) == map[]
    ensures Errors(form) == map[]
  {
    AddDocumentModal.AcceptedIff(form);
    AcceptedIff(form);
  }

  /** The converse fails: the inline edit lets blank remarks through, which
      the add modal refuses. */
  lemma InlineAllowsBlankRemarks(form: Form)
    requires Errors(form) == map[]
    ensures var blanked := form["remarks" := ""];
      Errors(blanked) == map[] && "remarks" in AddDocumentModal.Errors(blanked)
  {
    var blanked := form["remarks" := ""];
    assert Field(blanked, "remarks") == "";
    assert IsBlank("");
    AcceptedIff(form);
    assert Field(blanked, "subject") == Field(form, "subject");
    assert Field(blanked, "documentControlNo") == Field(form, "documentControlNo");
    assert Field(blanked, "routeNo") == Field(form, "routeNo");
    assert Field(blanked, "officeControlNo") == Field(form, "officeControlNo");
    AcceptedIff(blanked);
  }

  class Modal {
    var formData: Option<Documents.Document>
    var errors: map<string, string>

    constructor()
      ensures formData == None && errors == map[]
    {
      formData := None;
      errors := map[];
    }

    /** The effect on document: a document passed in becomes the form; none
        leaves the form as it was. */
    method DocumentChanged(document: Option<Documents.Document>)
      modifies this
      ensures formData == if document.Some? then document else old(formData)
      ensures errors == old(errors)
    {
      if document.Some? {
        formData := document;
      }
    }

    /** handleChange: without a form nothing happens; otherwise the field
        takes the value and its message, if any, is emptied. */
    method Change(name: string, value: string)
      modifies this
      ensures old(formData).None? ==> formData == None && errors == old(errors)
      ensures old(formData).Some? ==>
        formData == Some(Documents.Document(old(formData).value.id, old(formData).value.fields[name := value])) &&
        errors == Cleared(old(errors), name)
    {
      if formData.None? {
        return;
      }
      formData := Some(Documents.Document(formData.value.id, formData.value.fields[name := value]));
      if name in errors && errors[name] != "" {
        errors := errors[name := ""];
      }
    }

    /** validate: false without a form, the errors untouched; otherwise one
        message per blank essential field, true when there is none. */
    method Validate() returns (ok: bool)
      modifies this
      ensures formData == old(formData)
      ensures formData.None? ==> !ok && errors == old(errors)
      ensures formData.Some? ==> errors == Errors(formData.value.fields) && (ok <==> errors == map[])
    {
      if formData.None? {
        return false;
      }
      errors := Errors(formData.value.fields);
      ok := |errors| == 0;
    }

    /** handleSubmit: without a form nothing happens; with one that validate
        accepts, onSave gets the whole edited document, id included. */
    method Submit() returns (saved: Option<Documents.Document>)
      modifies this
      ensures formData == old(formData)
      ensures old(formData).None? ==> saved == None && errors == old(errors)
      ensures old(formData).Some? ==> errors == Errors(old(formData).value.fields)
      ensures old(formData).Some? ==> (saved.Some? <==> Errors(old(formData).value.fields) == map[])
      ensures saved.Some? ==> saved == old(formData)
    {
      if formData.None? {
        return None;
      }
      var ok := Validate();
      saved := if ok then formData else None;
    }

    /** handleClose: the form goes back to the document passed in, if any,
        and the errors are cleared. */
    method Close(document: Option<Documents.Document>)
      modifies this
      ensures formData == if document.Some? then document else old(formData)
      ensures errors == map[]
    {
      if document.Some? {
        formData := document;
      }
      errors := map[];
    }
  }
}
