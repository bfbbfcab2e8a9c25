/** The field rules the three client forms (signup, add user, add store)
    each spell out in their `validateForm`, their error records, and how
    they compare with the server's rules for the same fields. */
module FormRules {
  import opened Wrappers
  import opened Text
  import ServerRules

  /** The keys of a form's `errors` record. */
  datatype Field = Name | Email | Address | Password | RoleChoice | OwnerId

  /** `Record<string, string>`: a field's message; `""` once cleared. */
  type Errors = map<Field, string>

  const NameTooShort := "Name must be at least 20 characters long"
  const NameTooLong := "Name must not exceed 60 characters"
  const EmailInvalid := "Please enter a valid email address"
  const AddressTooLong := "Address must not exceed 400 characters"
  const PasswordInvalid :=
    "Password must be 8-16 characters with at least one uppercase letter and one special character"
  const OwnerMissing := "Please select a store owner"

  /** The name check: under 20 first, then over 60; at most one message. */
  function NameError(name: string): (r: Option<string>)
    ensures r.None? <==> 20 <= |name| <= 60
    ensures r == Some(NameTooShort) <==> |name| < 20
    ensures r == Some(NameTooLong) <==> |name| > 60
  {
    if |name| < 20 then Some(NameTooShort)
    else if |name| > 60 then Some(NameTooLong)
    else None
  }

  /** A run matched by `[^\s@]+`, without the length. */
  predicate PlainRun(s: string)
  {
    forall k :: 0 <= k < |s| ==> s[k] != '@' && !IsWs(s[k])
  }

  /** `^[^\s@]+@[^\s@]+\.[^\s@]+$` with the `@` at `i` and the `.` at `j`. */
  predicate StrictEmailSplit(s: string, i: nat, j: nat)
  {
    && 0 < i && i + 1 < j && j + 1 < |s|
    && s[i] == '@' && s[j] == '.'
    && PlainRun(s[..i]) && PlainRun(s[i + 1..j]) && PlainRun(s[j + 1..])
  }

  /** The client's email pattern `^[^\s@]+@[^\s@]+\.[^\s@]+$`. */
  predicate StrictEmail(s: string)
  {
    exists i: nat, j: nat :: i < j < |s| && StrictEmailSplit(s, i, j)
  }

  /** What the pattern means: no whitespace, exactly one `@`, not first, and
      a `.` after it with a character on each side. */
  lemma StrictEmailShape(s: string)
    ensures StrictEmail(s) <==>
              && NoWs(s)
              && exists i: nat, j: nat ::
                   && 0 < i && i + 1 < j && j + 1 < |s| && s[i] == '@' && s[j] == '.'
                   && forall k :: 0 <= k < |s| && k != i ==> s[k] != '@'
  {
    if StrictEmail(s) {
      var i: nat, j: nat :| i < j < |s| && StrictEmailSplit(s, i, j);
      forall k | 0 <= k < |s|
        ensures !IsWs(s[k]) && (k != i ==> s[k] != '@')
      {
        if k < i {
          assert s[..i][k] == s[k];
        } else if i < k < j {
          assert s[i + 1..j][k - i - 1] == s[k];
        } else if k > j {
          assert s[j + 1..][k - j - 1] == s[k];
        }
      }
    }
    if && NoWs(s)
       && exists i: nat, j: nat ::
            && 0 < i && i + 1 < j && j + 1 < |s| && s[i] == '@' && s[j] == '.'
            && forall k :: 0 <= k < |s| && k != i ==> s[k] != '@'
    {
      var i: nat, j: nat :| && 0 < i && i + 1 < j && j + 1 < |s| && s[i] == '@' && s[j] == '.'
                            && forall k :: 0 <= k < |s| && k != i ==> s[k] != '@';
      assert StrictEmailSplit(s, i, j);
    }
  }

  /** `[!@#$%^&*(),.?":{}|<>]` */
  predicate IsSpecial(c: char)
  {
    c in "!@#$%^&*(),.?\":{}|<>"
  }

  /** `^(?=.*[A-Z])(?=.*[!@#$%^&*(),.?":{}|<>]).{8,16}$`: 8 to 16 characters,
      none a line terminator (`.` matches no line terminator), with an `A-Z`
      letter and a listed symbol. */
  predicate StrictPassword(p: string)
  {
    && 8 <= |p| <= 16
    && (forall k :: 0 <= k < |p| ==> !IsLineTerminator(p[k]))
    && HasUpper(p)
    && exists k :: 0 <= k < |p| && IsSpecial(p[k])
  }

  function EmailError(email: string): (r: Option<string>)
    ensures r.None? <==> StrictEmail(email)
    ensures r.Some? ==> r.value == EmailInvalid
  {
    if StrictEmail(email) then None else Some(EmailInvalid)
  }

  /** Only over-long addresses are refused; an empty one is fine. */
  function AddressError(address: string): (r: Option<string>)
    ensures r.None? <==> |address| <= 400
    ensures r.Some? ==> r.value == AddressTooLong
  {
    if |address| > 400 then Some(AddressTooLong) else None
  }

  function PasswordError(password: string): (r: Option<string>)
    ensures r.None? <==> StrictPassword(password)
    ensures r.Some? ==> r.value == PasswordInvalid
  {
    if StrictPassword(password) then None else Some(PasswordInvalid)
  }

  /** `newErrors.f = message` when a check fails. */
  function Note(errors: Errors, f: Field, e: Option<string>): (r: Errors)
    ensures e.None? ==> r == errors
    ensures e.Some? ==> r == errors[f := e.value]
  {
    if e.Some? then errors[f := e.value] else errors
  }

  /** The name, email and address checks every form shares. */
  function ContactErrors(name: string, email: string, address: string): (r: Errors)
    ensures r.Keys <= {Name, Email, Address}
    ensures Name in r <==> NameError(name).Some?
    ensures Name in r ==> r[Name] == NameError(name).value
    ensures Email in r <==> !StrictEmail(email)
    ensures Email in r ==> r[Email] == EmailInvalid
    ensures Address in r <==> |address| > 400
    ensures Address in r ==> r[Address] == AddressTooLong
  {
    Note(Note(Note(map[], Name, NameError(name)), Email, EmailError(email)), Address, AddressError(address))
  }

  /** The checks of the two account forms: the shared ones plus the
      password. The form is valid exactly when every rule holds. */
  function AccountErrors(name: string, email: string, address: string, password: string): (r: Errors)
    ensures r.Keys <= {Name, Email, Address, Password}
    ensures forall g :: g in r ==> r[g] != ""
    ensures Name in r <==> !(20 <= |name| <= 60)
    ensures Email in r <==> !StrictEmail(email)
    ensures Address in r <==> |address| > 400
    ensures Password in r <==> !StrictPassword(password)
    ensures Password in r ==> r[Password] == PasswordInvalid
    ensures r == map[] <==> 20 <= |name| <= 60 && StrictEmail(email) && |address| <= 400 && StrictPassword(password)
  {
    var r := Note(ContactErrors(name, email, address), Password, PasswordError(password));
    assert r == map[] <== 20 <= |name| <= 60 && StrictEmail(email) && |address| <= 400 && StrictPassword(password) by {
      if 20 <= |name| <= 60 && StrictEmail(email) && |address| <= 400 && StrictPassword(password) {
        assert r.Keys == {};
      }
    }
    r
  }

  /** An error is shown while its message is truthy. */
  predicate Shown(errors: Errors, f: Field)
  {
    f in errors && errors[f] != ""
  }

  /** `handleInputChange`'s error half: a shown error of the edited field is
      set to `""`; every other entry is kept. */
  function ClearOnEdit(errors: Errors, f: Field): (r: Errors)
    ensures r.Keys == errors.Keys
    ensures !Shown(r, f)
    ensures forall g :: g in errors && g != f ==> r[g] == errors[g]
  {
    if Shown(errors, f) then errors[f := ""] else errors
  }

  /** Every password the client accepts, the server accepts. */
  lemma StrictPasswordPassesServer(p: string)
    requires StrictPassword(p)
    ensures ServerRules.PasswordOk(Some(p))
  {
    var k :| 0 <= k < |p| && IsSpecial(p[k]);
    assert !IsAlnum(p[k]);
  }

  /** Every email the client accepts, the server accepts. */
  lemma StrictEmailPassesServer(s: string)
    requires StrictEmail(s)
    ensures ServerRules.LooseEmail(s)
  {
    var i: nat, j: nat :| i < j < |s| && StrictEmailSplit(s, i, j);
    assert ServerRules.LooseEmailSplit(s, i, j);
  }

  /** Every name the client accepts, the server accepts. */
  lemma NamePassesServer(name: string)
    requires NameError(name).None?
    ensures ServerRules.NameOk(Some(name))
  {
  }

  /** A form that passes the client's checks passes the server's signup
      checks. */
  lemma ClientAcceptedIsServerAccepted(name: string, email: string, address: string, password: string)
    requires ContactErrors(name, email, address) == map[] && StrictPassword(password)
    ensures ServerRules.SignupError(Some(name), Some(email), Some(address), Some(password)).None?
  {
    assert Email !in ContactErrors(name, email, address);
    StrictEmailPassesServer(email);
    StrictPasswordPassesServer(password);
  }

  /** The converse fails for every field: the server takes a 3-letter name,
      an email with two `@`, and a password whose only symbol is `_`. */
  lemma ServerIsLooser()
    ensures ServerRules.NameOk(Some("abc")) && NameError("abc").Some?
    ensures ServerRules.LooseEmail("a@b@c.d") && !StrictEmail("a@b@c.d")
    ensures ServerRules.PasswordOk(Some("Abcdefg_")) && !StrictPassword("Abcdefg_")
  {
    var e := "a@b@c.d";
    assert ServerRules.LooseEmailSplit(e, 1, 5);
    StrictEmailShape(e);
    assert e[1] == '@' && e[3] == '@';
    var p := "Abcdefg_";
    assert IsUpper(p[0]) && !IsAlnum(p[7]);
    assert forall k :: 0 <= k < |p| ==> !IsSpecial(p[k]);
  }
}
