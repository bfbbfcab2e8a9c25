/** The signup page's form: its four fields, the checks run on submit, and
    the edit handler. Toasts and navigation are left out. */
module SignupForm {
  import opened Wrappers
  import opened FormRules
  import AuthContext
  import ServerRules

  datatype Fields = Fields(name: string, email: string, address: string, password: string)

  /** The form's state: what was typed and the error record. */
  datatype Form = Form(fields: Fields, errors: Errors)

  const Blank := Form(Fields("", "", "", ""), map[])

  /** `validateForm`: every field checked independently. */
  function Validate(f: Fields): (r: Errors)
    ensures r.Keys <= {Name, Email, Address, Password}
    ensures Name in r <==> NameError(f.name).Some?
    ensures Email in r <==> !StrictEmail(f.email)
    ensures Address in r <==> |f.address| > 400
    ensures Password in r <==> !StrictPassword(f.password)
    ensures forall g :: g in r ==> Shown(r, g)
  {
    AccountErrors(f.name, f.email, f.address, f.password)
  }

  /** `handleSubmit`: the check's errors replace the record; the context's
      `signup` is called, with the fields as typed, only when there are
      none. `None` means it was not called. */
  function Submit(form: Form, st: AuthContext.State, newId: string): (r: (Form, Option<AuthContext.Outcome>))
    ensures r.0 == form.(errors := Validate(form.fields))
    ensures r.1.Some? <==> Validate(form.fields) == map[]
    ensures r.1.Some? ==>
              r.1.value == AuthContext.Signup(st, form.fields.name, form.fields.email, form.fields.address,
                                              form.fields.password, newId)
  {
    var errors := Validate(form.fields);
    if errors != map[] then (form.(errors := errors), None)
    else
      var f := form.fields;
      (form.(errors := errors), Some(AuthContext.Signup(st, f.name, f.email, f.address, f.password, newId)))
  }

  /** What reaches `signup` would also pass the server's signup checks. */
  lemma SubmittedPassesServer(form: Form, st: AuthContext.State, newId: string)
    requires Submit(form, st, newId).1.Some?
    ensures var f := form.fields;
            ServerRules.SignupError(Some(f.name), Some(f.email), Some(f.address), Some(f.password)).None?
  {
    var f := form.fields;
    assert ContactErrors(f.name, f.email, f.address) == map[] by {
      assert ContactErrors(f.name, f.email, f.address).Keys == {};
    }
    ClientAcceptedIsServerAccepted(f.name, f.email, f.address, f.password);
  }

  /** `formData[field] = value`; a key this form lacks changes nothing. */
  function SetField(f: Fields, field: Field, value: string): Fields
  {
    match field
    case Name => f.(name := value)
    case Email => f.(email := value)
    case Address => f.(address := value)
    case Password => f.(password := value)
    case _ => f
  }

  /** `handleInputChange`: the field takes the value and its error, if
      shown, is cleared; every other error stays as it was. */
  function Edit(form: Form, field: Field, value: string): (r: Form)
    ensures !Shown(r.errors, field)
    ensures r.errors.Keys == form.errors.Keys
    ensures forall g :: g in form.errors && g != field ==> r.errors[g] == form.errors[g]
    ensures field == Name ==> r.fields == form.fields.(name := value)
    ensures field == Email ==> r.fields == form.fields.(email := value)
    ensures field == Address ==> r.fields == form.fields.(address := value)
    ensures field == Password ==> r.fields == form.fields.(password := value)
  {
    Form(SetField(form.fields, field, value), ClearOnEdit(form.errors, field))
  }
}
