/** The field rules the server applies to `/auth/signup` and
    `/auth/password` before it writes anything. A body field that is absent
    is `None`; JavaScript's falsy empty string is `Some("")`. */
module ServerRules {
  import opened Wrappers
  import opened Text

  const NameMessage := "Name must be 3\U{2013}60 characters."
  const EmailMessage := "Invalid email."
  const AddressMessage := "Address max 400 characters."
  const PasswordMessage :=
    "Password must be 8\U{2013}16 chars, include at least one uppercase and one special character."

  /** `^\S+@\S+\.\S+$` with `@` at `i` and the `.` at `j`: three non-empty
      runs without whitespace around them. */
  predicate LooseEmailSplit(s: string, i: nat, j: nat)
  {
    && 0 < i && i + 1 < j && j + 1 < |s|
    && s[i] == '@' && s[j] == '.'
    && NoWs(s[..i]) && NoWs(s[i + 1..j]) && NoWs(s[j + 1..])
  }

  /** The server's email pattern `^\S+@\S+\.\S+$`. */
  predicate LooseEmail(s: string)
  {
    exists i: nat, j: nat :: i < j < |s| && LooseEmailSplit(s, i, j)
  }

  /** `/[^A-Za-z0-9]/.test(p)` */
  predicate HasNonAlnum(p: string)
  {
    exists i :: 0 <= i < |p| && !IsAlnum(p[i])
  }

  /** The password rule shared by signup and password update. */
  predicate PasswordOk(password: Option<string>)
  {
    && password.Some?
    && 8 <= |password.value| <= 16
    && HasUpper(password.value)
    && HasNonAlnum(password.value)
  }

  predicate NameOk(name: Option<string>)
  {
    name.Some? && 3 <= |name.value| <= 60
  }

  predicate EmailOk(email: Option<string>)
  {
    email.Some? && LooseEmail(email.value)
  }

  /** Only a present, non-empty address is length-checked. */
  predicate AddressOk(address: Option<string>)
  {
    address.None? || |address.value| <= 400
  }

  /** The first failing signup check, in the order name, email, address,
      password; `None` when all pass. */
  function SignupError(name: Option<string>, email: Option<string>, address: Option<string>,
                       password: Option<string>): (r: Option<string>)
    ensures r.None? <==> NameOk(name) && EmailOk(email) && AddressOk(address) && PasswordOk(password)
    ensures !NameOk(name) ==> r == Some(NameMessage)
    ensures NameOk(name) && !EmailOk(email) ==> r == Some(EmailMessage)
    ensures NameOk(name) && EmailOk(email) && !AddressOk(address) ==> r == Some(AddressMessage)
    ensures NameOk(name) && EmailOk(email) && AddressOk(address) && !PasswordOk(password) ==>
              r == Some(PasswordMessage)
  {
    if !NameOk(name) then Some(NameMessage)
    else if !EmailOk(email) then Some(EmailMessage)
    else if !AddressOk(address) then Some(AddressMessage)
    else if !PasswordOk(password) then Some(PasswordMessage)
    else None
  }

  /** The email pattern holds exactly when the string has no whitespace and
      has an `@` after its first character followed, at least two characters
      later, by a `.` that is not the last character. */
  lemma LooseEmailShape(s: string)
    ensures LooseEmail(s) <==>
            NoWs(s) && exists i: nat, j: nat :: 0 < i && i + 1 < j && j + 1 < |s| && s[i] == '@' && s[j] == '.'
  {
    if LooseEmail(s) {
      var i: nat, j: nat :| i < j < |s| && LooseEmailSplit(s, i, j);
      NoWsJoin(s, i, j);
    }
    if NoWs(s) && exists i: nat, j: nat :: 0 < i && i + 1 < j && j + 1 < |s| && s[i] == '@' && s[j] == '.' {
      var i: nat, j: nat :| 0 < i && i + 1 < j && j + 1 < |s| && s[i] == '@' && s[j] == '.';
      assert LooseEmailSplit(s, i, j);
    }
  }

  /** The three whitespace-free runs and the two separators make a
      whitespace-free string. */
  lemma NoWsJoin(s: string, i: nat, j: nat)
    requires j < |s| && LooseEmailSplit(s, i, j)
    ensures NoWs(s)
  {
    forall k | 0 <= k < |s|
      ensures !IsWs(s[k])
    {
      if k < i {
        assert s[k] == s[..i][k];
      } else if i < k < j {
        assert s[k] == s[i + 1..j][k - i - 1];
      } else if j < k {
        assert s[k] == s[j + 1..][k - j - 1];
      }
    }
  }

  /** Concrete cases of the password rule: too short, no uppercase or
      symbol, too long, and an acceptable one. */
  lemma PasswordExamples()
    ensures !PasswordOk(Some("short"))
    ensures !PasswordOk(Some("nouppercaseorspecial1"))
    ensures !PasswordOk(Some("TOOLONGPASSWORD123!!!!"))
    ensures PasswordOk(Some("Valid1!a"))
    ensures !PasswordOk(None)
  {
    assert IsUpper("Valid1!a"[0]) && !IsAlnum("Valid1!a"[6]);
  }
}
