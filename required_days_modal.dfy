/** frontend/src/components/reference-tables/DocumentActionRequiredDaysModal.tsx:
    the add and edit form of the days an action on a document type is given,
    and how what it saves meets the create view of
    backend/api/views/document_action_required_days.py. The document type and
    action required options the modal fetches for its selects are left out. */
module RequiredDaysModal {
  import opened Wrappers
  import opened Text
  import opened PyValue
  import opened JsNum
  import opened Forms
  import RequiredDays

  /** The three fields of the form, which are also the fields onSave
      receives; requiredDays is sent as the text typed. */
  const KEYS: set<string> := {"documentType", "actionRequired", "requiredDays"}

  const TYPE_REQUIRED := "Document Type is required"
  const ACTION_REQUIRED := "Action Required is required"
  const DAYS_REQUIRED := "Required Days is required"
  const DAYS_INVALID := "Required Days must be a valid positive number"

  /** The days check on the text and on the number Number reads from it:
      blank is missing; NaN or less than 0 is invalid. */
  function DaysCheck(errors: map<string, string>, text: string, days: Num): (r: map<string, string>)
    ensures r == map[] <==> errors == map[] && !IsBlank(text) && !IsNaN(days) && !IsNegative(days)
    ensures IsBlank(text) ==> r == errors["requiredDays" := DAYS_REQUIRED]
    ensures !IsBlank(text) && (IsNaN(days) || IsNegative(days)) ==> r == errors["requiredDays" := DAYS_INVALID]
    ensures !IsBlank(text) && !IsNaN(days) && !IsNegative(days) ==> r == errors
  {
    if IsBlank(text) then
      var r := errors["requiredDays" := DAYS_REQUIRED];
      assert "requiredDays" in r;
      r
    else if IsNaN(days) || IsNegative(days) then
      var r := errors["requiredDays" := DAYS_INVALID];
      assert "requiredDays" in r;
      r
    else errors
  }

  /** The errors validate records: the document type, the action, then the
      days. */
  function Errors(form: Form): map<string, string> {
    var e := Require(map[], Field(form, "documentType"), "documentType", TYPE_REQUIRED);
    var e := Require(e, Field(form, "actionRequired"), "actionRequired", ACTION_REQUIRED);
    var days := Field(form, "requiredDays");
    DaysCheck(e, days, Number(days))
  }

  /** The form validate accepts. */
  lemma AcceptedIff(form: Form)
    ensures Errors(form) == map[] <==>
      !IsBlank(Field(form, "documentType")) && !IsBlank(Field(form, "actionRequired")) &&
      !IsBlank(Field(form, "requiredDays")) &&
      !IsNaN(Number(Field(form, "requiredDays"))) && !IsNegative(Number(Field(form, "requiredDays")))
  {
  }

  /** initialData: the row's text columns, '' for a missing one, and its
      required_days, a number or absent. */
  datatype Initial = Initial(row: Form, requiredDays: Option<int>)

  /** required_days?.toString() || '' */
  function DaysText(days: Option<int>): string {
    if days.Some? then IntToString(days.value) else ""
  }

  /** The form an edit opens on. */
  function Opened(d: Initial): (r: Form)
    ensures r.Keys == KEYS
    ensures r["documentType"] == Field(d.row, "document_type") && r["actionRequired"] == Field(d.row, "action_required")
    ensures r["requiredDays"] == DaysText(d.requiredDays)
  {
    map[
      "documentType" := Field(d.row, "document_type"),
      "actionRequired" := Field(d.row, "action_required"),
      "requiredDays" := DaysText(d.requiredDays)]
  }

  /** A stored number of days opens as text the days check passes when it is
      0 or more, and refuses as invalid when it is negative. */
  lemma OpenedDaysChecked(errors: map<string, string>, n: int)
    ensures var t := DaysText(Some(n));
      n >= 0 ==> DaysCheck(errors, t, Number(t)) == errors
    ensures var t := DaysText(Some(n));
      n < 0 ==> DaysCheck(errors, t, Number(t)) == errors["requiredDays" := DAYS_INVALID]
  {
    NumberOfDecimal(n);
    DecimalNotBlank(n);
  }

  lemma DecimalNotBlank(n: int)
    ensures !IsBlank(IntToString(n))
  {
    DecimalIsLiteral(n);
    var s := IntToString(n);
    assert !IsJsSpace(s[0]) by {
      if s[0] == '+' || s[0] == '-' {
      } else {
        assert IsDigit(s[0]);
      }
    }
  }

  /** An accepted form whose days are typed as a whole number n in decimal is
      created by the view with n days. */
  lemma AcceptedIsCreated(form: Form, n: int)
    requires Errors(form) == map[]
    requires Field(form, "requiredDays") == IntToString(n)
    ensures var r := RequiredDays.CreateRecord(Body(Pick(form, KEYS)));
      r.Ok? && r.value["required_days"] == Int(n) &&
      r.value["document_type"] == Str(Field(form, "documentType")) &&
      r.value["action_required"] == Str(Field(form, "actionRequired"))
  {
    AcceptedIff(form);
    CreatedWithDays(form, n);
  }

  lemma CreatedWithDays(form: Form, n: int)
    requires !IsBlank(Field(form, "documentType")) && !IsBlank(Field(form, "actionRequired"))
    requires Field(form, "requiredDays") == IntToString(n)
    ensures var r := RequiredDays.CreateRecord(Body(Pick(form, KEYS)));
      r.Ok? && r.value["required_days"] == Int(n) &&
      r.value["document_type"] == Str(Field(form, "documentType")) &&
      r.value["action_required"] == Str(Field(form, "actionRequired"))
  {
    var p := Pick(form, KEYS);
    FilledIsTruthy(p, "documentType");
    FilledIsTruthy(p, "actionRequired");
    assert Get(Body(p), "requiredDays") == Str(IntToString(n));
    PyIntOfDecimal(n);
  }

  /** The form takes a fraction of a day: Number reads it, and it is not
      negative. */
  lemma FractionAccepted(form: Form)
    requires !IsBlank(Field(form, "documentType")) && !IsBlank(Field(form, "actionRequired"))
    requires Field(form, "requiredDays") == "1.5"
    ensures Errors(form) == map[]
  {
    OneAndAHalf();
    assert !IsBlank("1.5") by {
      assert !IsJsSpace("1.5"[0]);
    }
    AcceptedIff(form);
  }

  /** The create view refuses that fraction: int() does not read it. */
  lemma FractionRefusedByView(form: Form)
    requires !IsBlank(Field(form, "documentType")) && !IsBlank(Field(form, "actionRequired"))
    requires Field(form, "requiredDays") == "1.5"
    ensures RequiredDays.CreateRecord(Body(Pick(form, KEYS))) == Err(RequiredDays.DAYS_NOT_NUMBER)
  {
    var p := Pick(form, KEYS);
    FilledIsTruthy(p, "documentType");
    FilledIsTruthy(p, "actionRequired");
    var body := Body(p);
    assert Get(body, "requiredDays") == Str("1.5");
    IntOfOneAndAHalf();
  }

  /** Number reads "1.5" as one and a half; int() refuses it. */
  lemma OneAndAHalf()
    ensures Number("1.5") == Finite(1.5)
    ensures PyInt(Str("1.5")).None?
  {
    NumberOfOneAndAHalf();
    IntOfOneAndAHalf();
  }

  lemma NumberOfOneAndAHalf()
    ensures Number("1.5") == Finite(1.5)
  {
    assert Trim("1.5") == "1.5";
    assert "1.5" != "Infinity";
    UnsignedOneAndAHalf();
  }

  lemma UnsignedOneAndAHalf()
    ensures UnsignedDecimal("1.5") == Some(1.5)
  {
    var s := "1.5";
    assert DigitRun(s) == 1 by {
      assert IsDigit(s[0]) && !IsDigit(s[1]);
      assert DigitRun(s[1..]) == 0;
    }
    assert s[..1] == "1" && s[1..] == ".5";
    assert DigitsValue("1") == 1;
    assert DigitRun("5") == 1 by {
      assert DigitRun("5"[1..]) == 0;
    }
    assert DigitsValue("5") == 5;
    assert "5"[..1] == "5" && "5"[1..] == "";
  }

  lemma IntOfOneAndAHalf()
    ensures PyInt(Str("1.5")).None?
  {
    assert Strip(IsPySpace, "1.5") == "1.5";
    assert !AllDigits("1.5") by {
      assert !IsDigit("1.5"[1]);
    }
  }

  class Modal {
    var formData: Form
    var errors: map<string, string>

    constructor()
      ensures formData == Blank(KEYS) && errors == map[]
    {
      formData := Blank(KEYS);
      errors := map[];
    }

    /** The effect on initialData and isOpen. */
    method Open(initialData: Option<Initial>)
      modifies this
      ensures formData == if initialData.Some? then Opened(initialData.value) else Blank(KEYS)
      ensures errors == map[]
    {
      if initialData.Some? {
        formData := Opened(initialData.value);
      } else {
        formData := Blank(KEYS);
      }
      errors := map[];
    }

    /** handleChange */
    method Change(name: string, value: string)
      modifies this
      ensures formData == old(formData)[name := value]
      ensures errors == Cleared(old(errors), name)
    {
      formData := formData[name := value];
      if name in errors && errors[name] != "" {
        errors := errors[name := ""];
      }
    }

    /** validate */
    method Validate() returns (ok: bool)
      modifies this
      ensures formData == old(formData)
      ensures errors == Errors(formData)
      ensures ok <==> errors == map[]
    {
      errors := Errors(formData);
      ok := |errors| == 0;
    }

    /** handleSubmit: the three fields, as text, are saved and the form reset when
        validate accepts; otherwise nothing is saved and the errors show. */
    method Submit() returns (saved: Option<Form>)
      modifies this
      ensures Errors(old(formData)) == map[] ==>
        saved == Some(Pick(old(formData), KEYS)) && formData == Blank(KEYS) && errors == map[]
      ensures Errors(old(formData)) != map[] ==>
        saved == None && formData == old(formData) && errors == Errors(old(formData))
    {
      var ok := Validate();
      if ok {
        saved := Some(Pick(formData, KEYS));
        formData := Blank(KEYS);
        errors := map[];
      } else {
        saved := None;
      }
    }

    /** handleClose */
    method Close()
      modifies this
      ensures formData == Blank(KEYS) && errors == map[]
    {
      formData := Blank(KEYS);
      errors := map[];
    }
  }
}
