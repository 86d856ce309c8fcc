/** frontend/src/components/outbox/AddDocumentModal.tsx: the tabbed form that
    adds an outbox document. */
module AddDocumentModal {
  import opened Wrappers
  import opened Text
  import opened Forms
  import Documents

  /** The five tabs, "basic" first. */
  const TABS: seq<string> := ["basic", "originating", "attachments", "references", "additional"]

  const CONTROL_REQUIRED := "Document Control No. is required"
  const ROUTE_REQUIRED := "Route No. is required"
  const OFFICE_CONTROL_REQUIRED := "Office Control No. is required"
  const SUBJECT_REQUIRED := "Subject is required"
  const OFFICE_REQUIRED := "Internal Originating Office is required"
  const EMPLOYEE_REQUIRED := "Internal Originating Employee is required"
  const EXTERNAL_REQUIRED := "External Originating Employee is required"
  const REMARKS_REQUIRED := "Remarks is required"

  /** The external employee check: only for an External source. */
  function RequireExternal(errors: map<string, string>, form: Form): map<string, string> {
    if Field(form, "sourceType") == "External" then
      Require(errors, Field(form, "externalOriginatingEmployee"), "externalOriginatingEmployee", EXTERNAL_REQUIRED)
    else errors
  }

  /** The errors of the six required fields checked before the source type. */
  function LeadingErrors(form: Form): map<string, string> {
    var e := Require(map[], Field(form, "documentControlNo"), "documentControlNo", CONTROL_REQUIRED);
    var e := Require(e, Field(form, "routeNo"), "routeNo", ROUTE_REQUIRED);
    var e := Require(e, Field(form, "officeControlNo"), "officeControlNo", OFFICE_CONTROL_REQUIRED);
    var e := Require(e, Field(form, "subject"), "subject", SUBJECT_REQUIRED);
    var e := Require(e, Field(form, "internalOriginatingOffice"), "internalOriginatingOffice", OFFICE_REQUIRED);
    Require(e, Field(form, "internalOriginatingEmployee"), "internalOriginatingEmployee", EMPLOYEE_REQUIRED)
  }

  /** The errors validate records, checked in the order the code checks them:
      the six leading fields, the external employee, the remarks. */
  function Errors(form: Form): map<string, string> {
    Require(RequireExternal(LeadingErrors(form), form), Field(form, "remarks"), "remarks", REMARKS_REQUIRED)
  }

  /** The seven fields required whatever the source type. */
  predicate AlwaysFilled(form: Form) {
    !IsBlank(Field(form, "documentControlNo")) && !IsBlank(Field(form, "routeNo")) &&
    !IsBlank(Field(form, "officeControlNo")) && !IsBlank(Field(form, "subject")) &&
    !IsBlank(Field(form, "internalOriginatingOffice")) && !IsBlank(Field(form, "internalOriginatingEmployee")) &&
    !IsBlank(Field(form, "remarks"))
  }

  /** The form validate accepts: the seven fields hold more than white space,
      and so does the external employee when the source is External. */
  lemma AcceptedIff(form: Form)
    ensures Errors(form) == map[] <==>
      AlwaysFilled(form) &&
      (Field(form, "sourceType") == "External" ==> !IsBlank(Field(form, "externalOriginatingEmployee")))
  {
  }

  /** The external employee is reported exactly for an External source whose
      external employee is blank. */
  lemma ExternalReported(form: Form)
    ensures "externalOriginatingEmployee" in Errors(form) <==>
      Field(form, "sourceType") == "External" && IsBlank(Field(form, "externalOriginatingEmployee"))
    ensures "externalOriginatingEmployee" in Errors(form) ==>
      Errors(form)["externalOriginatingEmployee"] == EXTERNAL_REQUIRED
  {
    LeadingSkipsExternal(form);
  }

  lemma LeadingSkipsExternal(form: Form)
    ensures "externalOriginatingEmployee" !in LeadingErrors(form)
  {
  }

  /** The internal originating fields are required even for an External
      source. */
  lemma InternalAlwaysRequired(form: Form)
    requires Field(form, "sourceType") == "External" && IsBlank(Field(form, "internalOriginatingOffice"))
    ensures "internalOriginatingOffice" in Errors(form) && Errors(form)["internalOriginatingOffice"] == OFFICE_REQUIRED
  {
  }

  class Modal {
    var activeTab: string
    var formData: Form
    var errors: map<string, string>

    constructor()
      ensures activeTab == "basic" && formData == Blank(Documents.KEYS) && errors == map[]
    {
      activeTab := "basic";
      formData := Blank(Documents.KEYS);
      errors := map[];
    }

    /** A tab button: the tab shown changes, the form does not. */
    method SelectTab(id: string)
      requires id in TABS
      modifies this
      ensures activeTab == id && formData == old(formData) && errors == old(errors)
    {
      activeTab := id;
    }

    /** handleChange */
    method Change(name: string, value: string)
      modifies this
      ensures formData == old(formData)[name := value]
      ensures errors == Cleared(old(errors), name)
      ensures activeTab == old(activeTab)
    {
      formData := formData[name := value];
      if name in errors && errors[name] != "" {
        errors := errors[name := ""];
      }
    }

    /** validate */
    method Validate() returns (ok: bool)
      modifies this
      ensures formData == old(formData) && activeTab == old(activeTab)
      ensures errors == Errors(formData)
      ensures ok <==> errors == map[]
    {
      errors := Errors(formData);
      ok := |errors| == 0;
    }

    /** handleSubmit at clock reading now: when validate accepts, onAdd gets
        the form under the id now, and the form, its errors and the tab are
        reset; otherwise nothing is added and the errors show. */
    method Submit(now: int) returns (added: Option<Documents.Document>)
      modifies this
      ensures Errors(old(formData)) == map[] ==>
        added == Some(Documents.Document(now, old(formData))) &&
        formData == Blank(Documents.KEYS) && errors == map[] && activeTab == "basic"
      ensures Errors(old(formData)) != map[] ==>
        added == None && formData == old(formData) && errors == Errors(old(formData)) &&
        activeTab == old(activeTab)
    {
      var ok := Validate();
      if ok {
        added := Some(Documents.Document(now, formData));
        formData := Blank(Documents.KEYS);
        errors := map[];
        activeTab := "basic";
      } else {
        added := None;
      }
    }

    /** handleClose */
    method Close()
      modifies this
      ensures formData == Blank(Documents.KEYS) && errors == map[] && activeTab == "basic"
    {
      formData := Blank(Documents.KEYS);
      errors := map[];
      activeTab := "basic";
    }
  }
}
