/** The admin's "Add Store" dialog: the shared contact checks plus a
    required owner chosen among the store owners, `addStore` on success,
    then a reset. */
module AddStoreDialog {
  import opened Wrappers
  import opened Seqs
  import opened FormRules
  import AuthContext

  datatype Fields = Fields(name: string, email: string, address: string, ownerId: string)

  datatype Dialog = Dialog(fields: Fields, errors: Errors, open: bool)

  const BlankFields := Fields("", "", "", "")

  /** `storeOwners`: the users offered in the owner selector. */
  function StoreOwners(users: seq<AuthContext.User>): (r: seq<AuthContext.User>)
    ensures forall i :: 0 <= i < |r| ==> r[i].role == AuthContext.StoreOwner && r[i] in users
    ensures forall i :: 0 <= i < |users| && users[i].role == AuthContext.StoreOwner ==> users[i] in r
    ensures IsSubseq(r, users)
  {
    var r := Filter(users, (u: AuthContext.User) => u.role == AuthContext.StoreOwner);
    FilterIsSubseq(users, (u: AuthContext.User) => u.role == AuthContext.StoreOwner);
    r
  }

  /** `validateForm`: the contact checks and a non-empty owner id. */
  function Validate(f: Fields): (r: Errors)
    ensures r.Keys <= {Name, Email, Address, OwnerId}
    ensures Name in r <==> NameError(f.name).Some?
    ensures Email in r <==> !StrictEmail(f.email)
    ensures Address in r <==> |f.address| > 400
    ensures OwnerId in r <==> f.ownerId == ""
    ensures OwnerId in r ==> r[OwnerId] == OwnerMissing
    ensures r == map[] <==> NameError(f.name).None? && StrictEmail(f.email) && |f.address| <= 400 && f.ownerId != ""
  {
    var r := Note(ContactErrors(f.name, f.email, f.address), OwnerId,
                  if f.ownerId == "" then Some(OwnerMissing) else None);
    assert r == map[] <== NameError(f.name).None? && StrictEmail(f.email) && |f.address| <= 400 && f.ownerId != "" by {
      if NameError(f.name).None? && StrictEmail(f.email) && |f.address| <= 400 && f.ownerId != "" {
        assert r.Keys == {};
      }
    }
    r
  }

  /** `handleSubmit`: with an error the record is replaced and nothing else
      happens; otherwise `addStore` receives the fields, and the dialog
      resets to empty fields and closes. */
  function Submit(d: Dialog, st: AuthContext.State, newId: string): (r: (Dialog, AuthContext.State))
    ensures Validate(d.fields) != map[] ==> r == (d.(errors := Validate(d.fields)), st)
    ensures Validate(d.fields) == map[] ==>
              var f := d.fields;
              && r.0 == Dialog(BlankFields, map[], false)
              && r.1 == AuthContext.AddStore(st, f.name, f.email, f.address, f.ownerId, newId)
              && r.1.stores[|st.stores|].ownerId != ""
  {
    var errors := Validate(d.fields);
    if errors != map[] then (d.(errors := errors), st)
    else
      var f := d.fields;
      (Dialog(BlankFields, map[], false), AuthContext.AddStore(st, f.name, f.email, f.address, f.ownerId, newId))
  }

  function SetField(f: Fields, field: Field, value: string): Fields
  {
    match field
    case Name => f.(name := value)
    case Email => f.(email := value)
    case Address => f.(address := value)
    case OwnerId => f.(ownerId := value)
    case _ => f
  }

  /** `handleInputChange`, for the text fields and the owner selector. */
  function Edit(d: Dialog, field: Field, value: string): (r: Dialog)
    ensures !Shown(r.errors, field) && r.open == d.open
    ensures r.errors.Keys == d.errors.Keys
    ensures forall g :: g in d.errors && g != field ==> r.errors[g] == d.errors[g]
    ensures field == OwnerId ==> r.fields == d.fields.(ownerId := value)
    ensures field == Name ==> r.fields == d.fields.(name := value)
    ensures field == Email ==> r.fields == d.fields.(email := value)
    ensures field == Address ==> r.fields == d.fields.(address := value)
    ensures field == Password || field == RoleChoice ==> r.fields == d.fields
  {
    d.(fields := SetField(d.fields, field, value), errors := ClearOnEdit(d.errors, field))
  }
}
