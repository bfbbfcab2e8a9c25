/** The admin's "Add User" dialog: the same account checks as signup plus a
    role choice, `addUser` on success, then a reset. */
module AddUserDialog {
  import opened FormRules
  import AuthContext

  datatype Fields = Fields(name: string, email: string, address: string, password: string, role: AuthContext.Role)

  datatype Dialog = Dialog(fields: Fields, errors: Errors, open: bool)

  /** The reset values: empty fields, role `user`, no errors. */
  const BlankFields := Fields("", "", "", "", AuthContext.NormalUser)

  function Validate(f: Fields): (r: Errors)
    ensures r.Keys <= {Name, Email, Address, Password}
    ensures Name in r <==> NameError(f.name).Some?
    ensures Email in r <==> !StrictEmail(f.email)
    ensures Address in r <==> |f.address| > 400
    ensures Password in r <==> !StrictPassword(f.password)
  {
    AccountErrors(f.name, f.email, f.address, f.password)
  }

  /** `handleSubmit`: with an error the record is replaced and nothing else
      happens; otherwise `addUser` receives the fields and the selected
      role unchanged, and the dialog resets and closes. */
  function Submit(d: Dialog, st: AuthContext.State, newId: string): (r: (Dialog, AuthContext.State))
    ensures Validate(d.fields) != map[] ==> r == (d.(errors := Validate(d.fields)), st)
    ensures Validate(d.fields) == map[] ==>
              var f := d.fields;
              && r.0 == Dialog(BlankFields, map[], false)
              && r.1 == AuthContext.AddUser(st, f.name, f.email, f.address, f.password, f.role, newId)
              && r.1.users[|st.users|].role == f.role
  {
    var errors := Validate(d.fields);
    if errors != map[] then (d.(errors := errors), st)
    else
      var f := d.fields;
      (Dialog(BlankFields, map[], false), AuthContext.AddUser(st, f.name, f.email, f.address, f.password, f.role, newId))
  }

  function SetField(f: Fields, field: Field, value: string): Fields
  {
    match field
    case Name => f.(name := value)
    case Email => f.(email := value)
    case Address => f.(address := value)
    case Password => f.(password := value)
    case _ => f
  }

  /** `handleInputChange` on a text field. */
  function Edit(d: Dialog, field: Field, value: string): (r: Dialog)
    ensures !Shown(r.errors, field) && r.open == d.open
    ensures r.errors.Keys == d.errors.Keys
    ensures forall g :: g in d.errors && g != field ==> r.errors[g] == d.errors[g]
    ensures field == Name ==> r.fields == d.fields.(name := value)
    ensures field == Email ==> r.fields == d.fields.(email := value)
    ensures field == Address ==> r.fields == d.fields.(address := value)
    ensures field == Password ==> r.fields == d.fields.(password := value)
  {
    d.(fields := SetField(d.fields, field, value), errors := ClearOnEdit(d.errors, field))
  }

  /** `handleInputChange("role", value)` from the role selector. */
  function ChooseRole(d: Dialog, role: AuthContext.Role): (r: Dialog)
    ensures r.fields == d.fields.(role := role) && r.open == d.open
    ensures r.errors.Keys == d.errors.Keys && !Shown(r.errors, RoleChoice)
    ensures forall g :: g in d.errors && g != RoleChoice ==> r.errors[g] == d.errors[g]
  {
    d.(fields := d.fields.(role := role), errors := ClearOnEdit(d.errors, RoleChoice))
  }

  /** A submitted dialog adds an account even when its email is in use. */
  lemma SubmitSkipsDuplicateCheck(d: Dialog, st: AuthContext.State, newId: string)
    requires Validate(d.fields) == map[] && AuthContext.EmailInUse(st.users, d.fields.email)
    ensures |Submit(d, st, newId).1.users| == |st.users| + 1
    ensures AuthContext.EmailInUse(st.users, Submit(d, st, newId).1.users[|st.users|].email)
  {
  }
}
