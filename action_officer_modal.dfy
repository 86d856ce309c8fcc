/** frontend/src/components/reference-tables/ActionOfficerModal.tsx: the add
    and edit form of an action officer, and how what it saves meets the create
    view of backend/api/views/action_officer.py. */
module ActionOfficerModal {
  import opened Wrappers
  import opened Text
  import opened PyValue
  import opened Forms
  import Views
  import ActionOfficer

  /** The eight inputs, which are also the fields onSave receives. */
  const KEYS: set<string> := {
    "employeeCode", "lastName", "firstName", "middleName", "office", "userPassword", "userLevel",
    "officeRepresentative"}

  const CODE_REQUIRED := "Employee Code is required"
  const LAST_REQUIRED := "Last Name is required"
  const FIRST_REQUIRED := "First Name is required"
  const MIDDLE_REQUIRED := "Middle Name is required"
  const PASSWORD_REQUIRED := "User Password is required"
  const LEVEL_REQUIRED := "User Level is required"

  /** The errors validate records: the six required fields checked in turn. */
  function Errors(form: Form): map<string, string> {
    var e := Require(map[], Field(form, "employeeCode"), "employeeCode", CODE_REQUIRED);
    var e := Require(e, Field(form, "lastName"), "lastName", LAST_REQUIRED);
    var e := Require(e, Field(form, "firstName"), "firstName", FIRST_REQUIRED);
    var e := Require(e, Field(form, "middleName"), "middleName", MIDDLE_REQUIRED);
    var e := Require(e, Field(form, "userPassword"), "userPassword", PASSWORD_REQUIRED);
    Require(e, Field(form, "userLevel"), "userLevel", LEVEL_REQUIRED)
  }

  /** The form validate accepts: each required field holds more than white
      space; office and office representative may be left empty. */
  lemma AcceptedIff(form: Form)
    ensures Errors(form) == map[] <==>
      !IsBlank(Field(form, "employeeCode")) && !IsBlank(Field(form, "lastName")) &&
      !IsBlank(Field(form, "firstName")) && !IsBlank(Field(form, "middleName")) &&
      !IsBlank(Field(form, "userPassword")) && !IsBlank(Field(form, "userLevel"))
  {
  }

  /** A blank employee code is reported under its own name, with its message. */
  lemma CodeReported(form: Form)
    ensures "employeeCode" in Errors(form) <==> IsBlank(Field(form, "employeeCode"))
    ensures "employeeCode" in Errors(form) ==> Errors(form)["employeeCode"] == CODE_REQUIRED
  {
  }

  /** A saved payload, opened again for editing, validates as the form it came
      from. */
  lemma ReopenedValidatesAlike(form: Form)
    ensures Errors(Pick(form, KEYS)) == Errors(form)
  {
    var p := Pick(form, KEYS);
    assert Field(p, "employeeCode") == Field(form, "employeeCode");
    assert Field(p, "lastName") == Field(form, "lastName");
    assert Field(p, "firstName") == Field(form, "firstName");
    assert Field(p, "middleName") == Field(form, "middleName");
    assert Field(p, "userPassword") == Field(form, "userPassword");
    assert Field(p, "userLevel") == Field(form, "userLevel");
  }

  /** The modal reports the same six fields the create view requires, under
      the same messages. */
  lemma SameRequiredFields()
    ensures ActionOfficer.RULES == [
      Views.Rule("employeeCode", Views.NotFalsy, CODE_REQUIRED), Views.Rule("lastName", Views.NotFalsy, LAST_REQUIRED),
      Views.Rule("firstName", Views.NotFalsy, FIRST_REQUIRED), Views.Rule("middleName", Views.NotFalsy, MIDDLE_REQUIRED),
      Views.Rule("userPassword", Views.NotFalsy, PASSWORD_REQUIRED), Views.Rule("userLevel", Views.NotFalsy, LEVEL_REQUIRED)]
  {
  }

  /** What the modal saves, once accepted, the create view accepts too, and
      it stores each required field as the text typed: the view does not
      trim, so it never refuses what the form let through. */
  lemma AcceptedIsCreated(form: Form)
    requires Errors(form) == map[]
    ensures var r := ActionOfficer.CreateRecord(Body(Pick(form, KEYS)));
      r.Ok? &&
      r.value["employee_code"] == Str(Field(form, "employeeCode")) &&
      r.value["last_name"] == Str(Field(form, "lastName")) &&
      r.value["user_password"] == Str(Field(form, "userPassword")) &&
      r.value["user_level"] == Str(Field(form, "userLevel"))
  {
    AcceptedIff(form);
    var p := Pick(form, KEYS);
    FilledIsTruthy(p, "employeeCode");
    FilledIsTruthy(p, "lastName");
    FilledIsTruthy(p, "firstName");
    FilledIsTruthy(p, "middleName");
    FilledIsTruthy(p, "userPassword");
    FilledIsTruthy(p, "userLevel");
  }

  /** The other way fails: a field of spaces the form refuses is one the
      create view accepts. */
  lemma ServerTakesSpaces(form: Form)
    requires OthersFilled(form)
    ensures var spaced := form["employeeCode" := " "];
      Errors(spaced) == map["employeeCode" := CODE_REQUIRED] &&
      ActionOfficer.CreateRecord(Body(Pick(spaced, KEYS))).Ok?
  {
    var spaced := form["employeeCode" := " "];
    assert IsBlank(Field(spaced, "employeeCode"));
    var p := Pick(spaced, KEYS);
    assert p["employeeCode"] == " ";
    assert Truthy(Get(Body(p), "employeeCode"));
    AllButCodeFilled(form, spaced, p);
  }

  /** Every required field but the employee code holds text. */
  predicate OthersFilled(form: Form) {
    !IsBlank(Field(form, "lastName")) && !IsBlank(Field(form, "firstName")) &&
    !IsBlank(Field(form, "middleName")) && !IsBlank(Field(form, "userPassword")) &&
    !IsBlank(Field(form, "userLevel"))
  }

  lemma AllButCodeFilled(form: Form, spaced: Form, p: Form)
    requires OthersFilled(form) && spaced == form["employeeCode" := " "] && p == Pick(spaced, KEYS)
    ensures OthersFilled(p)
    ensures ActionOfficer.Filled(Body(p), "lastName") && ActionOfficer.Filled(Body(p), "firstName") &&
      ActionOfficer.Filled(Body(p), "middleName") && ActionOfficer.Filled(Body(p), "userPassword") &&
      ActionOfficer.Filled(Body(p), "userLevel")
  {
    FilledIsTruthy(p, "lastName");
    FilledIsTruthy(p, "firstName");
    FilledIsTruthy(p, "middleName");
    FilledIsTruthy(p, "userPassword");
    FilledIsTruthy(p, "userLevel");
  }

  class Modal {
    var formData: Form
    var errors: map<string, string>

    constructor()
      ensures formData == Blank(KEYS) && errors == map[]
    {
      formData := Blank(KEYS);
      errors := map[];
    }

    /** The effect on initialData and isOpen: the form shows initialData's
        eight fields ('' for a missing one), or is blank; errors are cleared. */
    method Open(initialData: Option<Form>)
      modifies this
      ensures formData == if initialData.Some? then Pick(initialData.value, KEYS) else Blank(KEYS)
      ensures errors == map[]
    {
      if initialData.Some? {
        formData := Pick(initialData.value, KEYS);
      } else {
        formData := Blank(KEYS);
      }
      errors := map[];
    }

    /** handleChange */
    method Change(name: string, value: string)
      modifies this
      ensures formData == old(formData)[name := value]
      ensures errors == Cleared(old(errors), name)
    {
      formData := formData[name := value];
      if name in errors && errors[name] != "" {
        errors := errors[name := ""];
      }
    }

    /** validate: one message per required field that is blank once trimmed;
        true when there is none. */
    method Validate() returns (ok: bool)
      modifies this
      ensures formData == old(formData)
      ensures errors == Errors(formData)
      ensures ok <==> errors == map[]
    {
      errors := Errors(formData);
      ok := |errors| == 0;
    }

    /** handleSubmit: when validate accepts, the eight fields are saved and
        the form is reset; otherwise nothing is saved and the errors show. */
    method Submit() returns (saved: Option<Form>)
      modifies this
      ensures Errors(old(formData)) == map[] ==>
        saved == Some(Pick(old(formData), KEYS)) && formData == Blank(KEYS) && errors == map[]
      ensures Errors(old(formData)) != map[] ==>
        saved == None && formData == old(formData) && errors == Errors(old(formData))
    {
      var ok := Validate();
      if ok {
        saved := Some(Pick(formData, KEYS));
        formData := Blank(KEYS);
        errors := map[];
      } else {
        saved := None;
      }
    }

    /** handleClose */
    method Close()
      modifies this
      ensures formData == Blank(KEYS) && errors == map[]
    {
      formData := Blank(KEYS);
      errors := map[];
    }
  }
}
