/** What the modal forms share: formData as a map from input name to text,
    the errors record, the handleChange update, and the request body a form's
    payload becomes on the server. */
module Forms {
  import opened Text
  import opened PyValue

  /** formData, or any object of string fields. */
  type Form = map<string, string>

  /** form.key, and also form.key || '': '' for a field that is absent. */
  function Field(form: Form, key: string): string {
    if key in form then form[key] else ""
  }

  /** The object of the named fields, each read with Field: what a modal
      passes to onSave, and what it sets formData to from initialData. */
  function Pick(form: Form, keys: set<string>): (r: Form)
    ensures r.Keys == keys
    ensures forall k :: k in keys ==> r[k] == Field(form, k)
  {
    map k | k in keys :: Field(form, k)
  }

  /** Picking the same fields twice is picking them once: a saved payload,
      opened again, shows the same fields. */
  lemma PickTwice(form: Form, keys: set<string>)
    ensures Pick(Pick(form, keys), keys) == Pick(form, keys)
  {
  }

  /** The form every field of which is '': the reset state. */
  function Blank(keys: set<string>): (r: Form)
    ensures r.Keys == keys
    ensures forall k :: k in keys ==> r[k] == ""
  {
    map k | k in keys :: ""
  }

  /** One required-field check of validate: when the field's text is blank
      once trimmed, newErrors gets the field's message; otherwise it is left
      as it was. */
  function Require(errors: map<string, string>, text: string, key: string, message: string): (r: map<string, string>)
    ensures key in r <==> key in errors || IsBlank(text)
    ensures IsBlank(text) ==> r[key] == message
    ensures forall k :: k != key ==> (k in r <==> k in errors)
    ensures forall k :: k in errors && k != key ==> r[k] == errors[k]
    ensures r == map[] <==> errors == map[] && !IsBlank(text)
  {
    if IsBlank(text) then errors[key := message] else errors
  }

  /** The errors after handleChange: the field's message, if it has a
      non-empty one, is emptied; the key itself stays. */
  function Cleared(errors: map<string, string>, name: string): (r: map<string, string>)
    ensures r.Keys == errors.Keys
    ensures name in r ==> r[name] == ""
    ensures forall k :: k in errors && k != name ==> r[k] == errors[k]
  {
    if name in errors && errors[name] != "" then errors[name := ""] else errors
  }

  /** The JSON body a payload of strings arrives as in request.data. */
  function Body(p: Form): (d: Dict)
    ensures d.Keys == p.Keys
    ensures forall k :: k in p ==> d[k] == Str(p[k])
  {
    map k | k in p :: Str(p[k])
  }

  /** A field the form accepted is one the views find truthy: the views do not
      trim, so the server accepts at least what the form does. */
  lemma FilledIsTruthy(p: Form, key: string)
    requires !IsBlank(Field(p, key))
    ensures key in Body(p) && Truthy(Get(Body(p), key))
  {
    assert Field(p, key) != "";
  }
}
