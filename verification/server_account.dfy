/** The account routes of the server: `POST /auth/signup`,
    `POST /auth/login` and `PATCH /auth/password`. Password hashing
    (`bcrypt.hash`), hash comparison (`bcrypt.compare`) and token signing
    (`jwt.sign`) are oracles passed in as functions. */
module ServerAccount {
  import opened Wrappers
  import opened Text
  import opened Seqs
  import opened ServerAuth
  import opened ServerRules
  import opened ServerDb
  import opened ServerHttp

  /** The JSON body of a signup; a missing field is `None`. */
  datatype SignupBody = SignupBody(name: Option<string>, email: Option<string>, address: Option<string>,
                                   password: Option<string>, role: Option<string>)

  datatype LoginBody = LoginBody(email: Option<string>, password: Option<string>)

  const DuplicateEmail := Response(409, Error("Email already exists"))
  const MissingCredentials := Response(400, Error("Email and password are required"))
  const InvalidCredentials := Response(401, Error("Invalid credentials"))

  predicate Falsy(s: Option<string>)
  {
    s.None? || s.value == ""
  }

  /** The role a signup stores: the caller's role upper-cased, `USER` when
      none (or an empty one) is given. */
  function StoredRole(role: Option<string>): (r: string)
    ensures Falsy(role) ==> r == "USER"
    ensures !Falsy(role) ==> r == Upper(role.value)
  {
    Upper(if Falsy(role) then "USER" else role.value)
  }

  /** `address || null`: an empty address is stored as null. */
  function StoredAddress(address: Option<string>): (r: Option<string>)
    ensures r.None? <==> Falsy(address)
    ensures r.Some? ==> r == address
  {
    if Falsy(address) then None else address
  }

  /** The row a successful signup creates. */
  function NewUser(body: SignupBody, db: Db, hash: string -> string): UserRow
    requires body.name.Some? && body.email.Some? && body.password.Some?
  {
    UserRow(db.nextUserId, body.name.value, body.email.value, StoredAddress(body.address),
            hash(body.password.value), StoredRole(body.role))
  }

  /** `POST /auth/signup`. The first failing field check answers 400 and
      writes nothing; an email already present answers 409 and writes
      nothing; otherwise exactly one user row is appended. */
  function Signup(body: SignupBody, db: Db, hash: string -> string): (r: Reply)
    ensures var err := SignupError(body.name, body.email, body.address, body.password);
            err.Some? ==> r == Reply(Response(400, Error(err.value)), db)
    ensures (SignupError(body.name, body.email, body.address, body.password).None? &&
             EmailTaken(db.users, body.email.value)) ==> r == Reply(DuplicateEmail, db)
    ensures r.response.status == 200 <==>
              SignupError(body.name, body.email, body.address, body.password).None? &&
              !EmailTaken(db.users, body.email.value)
    ensures r.response.status != 200 ==> r.db == db
    ensures r.response.status == 200 ==>
              && r.db.users == db.users + [NewUser(body, db, hash)]
              && r.db.stores == db.stores && r.db.ratings == db.ratings
              && r.response.body == UserCreated("User created", ViewOf(NewUser(body, db, hash)))
  {
    match SignupError(body.name, body.email, body.address, body.password)
    case Some(message) => Reply(Response(400, Error(message)), db)
    case None =>
      if EmailTaken(db.users, body.email.value) then Reply(DuplicateEmail, db)
      else
        var user := NewUser(body, db, hash);
        Reply(Response(200, UserCreated("User created", ViewOf(user))),
              db.(users := db.users + [user], nextUserId := db.nextUserId + 1))
  }

  /** Signup keeps every schema constraint. */
  lemma SignupKeepsValid(body: SignupBody, db: Db, hash: string -> string)
    requires Valid(db)
    ensures Valid(Signup(body, db, hash).db)
  {
    var r := Signup(body, db, hash);
    if r.response.status == 200 {
      var d := r.db;
      assert forall i :: 0 <= i < |db.users| ==> d.users[i] == db.users[i];
      assert forall i :: 0 <= i < |db.users| ==> d.users[i].email != body.email.value;
      forall k | 0 <= k < |d.ratings|
        ensures HasUser(d, d.ratings[k].userId) && HasStore(d, d.ratings[k].storeId)
      {
        assert HasUser(db, db.ratings[k].userId);
      }
    }
  }

  /** The caller's role is honoured: a signup naming `admin` creates an
      `ADMIN` account, and one naming no role a `USER` account. */
  lemma SignupHonoursRole(name: string, email: string, password: string, db: Db, hash: string -> string)
    requires 3 <= |name| <= 60 && LooseEmail(email) && PasswordOk(Some(password))
    requires !EmailTaken(db.users, email)
    ensures Signup(SignupBody(Some(name), Some(email), None, Some(password), Some("admin")), db, hash)
              .db.users[|db.users|].role == "ADMIN"
    ensures Signup(SignupBody(Some(name), Some(email), None, Some(password), None), db, hash)
              .db.users[|db.users|].role == "USER"
  {
    assert Upper("admin") == "ADMIN";
    assert Upper("USER") == "USER";
  }

  /** The user with the given email (`findUnique({ where: { email } })`). */
  function UserByEmail(users: seq<UserRow>, email: string): (r: Option<UserRow>)
    ensures r.None? <==> !EmailTaken(users, email)
    ensures r.Some? ==> r.value in users && r.value.email == email
  {
    Find(users, (u: UserRow) => u.email == email)
  }

  /** `POST /auth/login`. Missing fields answer 400. An unknown email and a
      wrong password answer the same 401. Success signs `{id, role}` and
      returns the token with the role. The database is never written. */
  function Login(body: LoginBody, db: Db, compare: (string, string) -> bool, sign: Identity -> string)
    : (r: Response)
    ensures Falsy(body.email) || Falsy(body.password) ==> r == MissingCredentials
    ensures !Falsy(body.email) && !Falsy(body.password) ==> r == InvalidCredentials || r.status == 200
    ensures !Falsy(body.email) && UserByEmail(db.users, body.email.value).None? ==>
              r == MissingCredentials || r == InvalidCredentials
    ensures r.status == 200 <==>
              && !Falsy(body.email) && !Falsy(body.password)
              && UserByEmail(db.users, body.email.value).Some?
              && compare(body.password.value, UserByEmail(db.users, body.email.value).value.passwordHash)
    ensures r.status == 200 ==>
              var u := UserByEmail(db.users, body.email.value).value;
              r.body == LoggedIn(sign(Identity(u.id, u.role)), u.role)
  {
    if Falsy(body.email) || Falsy(body.password) then MissingCredentials
    else
      match UserByEmail(db.users, body.email.value)
      case None => InvalidCredentials
      case Some(u) =>
        if !compare(body.password.value, u.passwordHash) then InvalidCredentials
        else Response(200, LoggedIn(sign(Identity(u.id, u.role)), u.role))
  }

  /** No account enumeration: with both fields present, an email nobody has
      and a known email with a wrong password get the identical answer. */
  lemma LoginUniformFailure(email: string, password: string, db: Db, compare: (string, string) -> bool,
                            sign: Identity -> string, u: UserRow)
    requires email != "" && password != ""
    requires u in db.users && u.email == email
    requires forall v :: v in db.users && v.email == email ==> !compare(password, v.passwordHash)
    ensures Login(LoginBody(Some(email), Some(password)), db, compare, sign)
         == Login(LoginBody(Some(email), Some(password)), Db([], db.stores, db.ratings, 0, 0), compare, sign)
         == InvalidCredentials
  {
    assert UserByEmail([], email).None?;
  }

  /** A user appended under an email nobody had is the one found by that email. */
  lemma {:induction false} FindAppended(users: seq<UserRow>, u: UserRow)
    requires !EmailTaken(users, u.email)
    ensures UserByEmail(users + [u], u.email) == Some(u)
  {
    var all := users + [u];
    assert all[|users|] == u;
    var found := UserByEmail(all, u.email).value;
    var k :| 0 <= k < |all| && all[k] == found;
    if k < |users| {
      assert users[k] == all[k];
    }
  }

  /** Signing up and then logging in with the same email and password (for a
      hasher whose digests the comparison accepts) yields a token for the new
      user's id and role. */
  lemma SignupThenLogin(body: SignupBody, db: Db, hash: string -> string,
                        compare: (string, string) -> bool, sign: Identity -> string)
    requires Signup(body, db, hash).response.status == 200
    requires compare(body.password.value, hash(body.password.value))
    ensures var user := NewUser(body, db, hash);
            Login(LoginBody(body.email, body.password), Signup(body, db, hash).db, compare, sign)
              == Response(200, LoggedIn(sign(Identity(user.id, user.role)), user.role))
  {
    var user := NewUser(body, db, hash);
    FindAppended(db.users, user);
    assert |body.password.value| >= 8;
    assert |body.email.value| > 0;
  }

  /** A signed-in user's token, presented as `Bearer <token>`, authenticates
      as exactly the id and role the login signed, for a verifier that accepts
      what the signer issues. */
  lemma LoginTokenAuthenticates(body: LoginBody, db: Db, compare: (string, string) -> bool,
                                sign: Identity -> string, verify: string -> Option<Claims>, c: Claims)
    requires Login(body, db, compare, sign).status == 200
    requires var token := Login(body, db, compare, sign).body.token;
             token != [] && ' ' !in token && verify(token) == Some(c)
    requires var u := UserByEmail(db.users, body.email.value).value;
             c.id == u.id && c.role == u.role
    ensures var u := UserByEmail(db.users, body.email.value).value;
            Authenticate(Some("Bearer " + Login(body, db, compare, sign).body.token), verify)
              == Pass(Identity(u.id, u.role))
  {
    var token := Login(body, db, compare, sign).body.token;
    WellFormedHeaderPasses(token, "", verify, c);
    assert "Bearer " + token + "" == "Bearer " + token;
  }

  /** `PATCH /auth/password`. After the gate, the password rule of signup
      applies (400); an unknown caller id makes the update throw (500);
      otherwise only the caller's hash is replaced. */
  function UpdatePassword(header: Option<string>, verify: string -> Option<Claims>, password: Option<string>,
                          db: Db, hash: string -> string): (r: Reply)
    ensures Authenticate(header, verify).Refuse? ==>
              r == Reply(Refusal(Authenticate(header, verify).rejection), db)
    ensures Authenticate(header, verify).Pass? && !PasswordOk(password) ==>
              r == Reply(Response(400, Error(PasswordMessage)), db)
    ensures Authenticate(header, verify).Pass? && PasswordOk(password) ==>
              (r.response == Response(200, Message("Password updated")) <==>
                 HasUser(db, Authenticate(header, verify).who.id))
    ensures (Authenticate(header, verify).Pass? && PasswordOk(password) &&
             !HasUser(db, Authenticate(header, verify).who.id)) ==> r == Reply(ServerError, db)
    ensures r.response.status != 200 ==> r.db == db
    ensures r.response.status == 200 ==>
              && PasswordOk(password)
              && Authenticate(header, verify).Pass?
              && r.db == db.(users := r.db.users)
              && |r.db.users| == |db.users|
              && forall i :: 0 <= i < |db.users| ==>
                   if db.users[i].id == Authenticate(header, verify).who.id
                   then r.db.users[i] == db.users[i].(passwordHash := hash(password.value))
                   else r.db.users[i] == db.users[i]
  {
    match Authenticate(header, verify)
    case Refuse(e) => Reply(Refusal(e), db)
    case Pass(who) =>
      if !PasswordOk(password) then Reply(Response(400, Error(PasswordMessage)), db)
      else if !HasUser(db, who.id) then Reply(ServerError, db)
      else
        var digest := hash(password.value);
        var users := seq(|db.users|, i requires 0 <= i < |db.users| =>
                           if db.users[i].id == who.id then db.users[i].(passwordHash := digest) else db.users[i]);
        Reply(Response(200, Message("Password updated")), db.(users := users))
  }

  /** Changing a password keeps every schema constraint. */
  lemma UpdatePasswordKeepsValid(header: Option<string>, verify: string -> Option<Claims>,
                                 password: Option<string>, db: Db, hash: string -> string)
    requires Valid(db)
    ensures Valid(UpdatePassword(header, verify, password, db, hash).db)
  {
    var d := UpdatePassword(header, verify, password, db, hash).db;
    if d != db {
      assert forall i :: 0 <= i < |db.users| ==> d.users[i].id == db.users[i].id && d.users[i].email == db.users[i].email;
      forall k | 0 <= k < |d.ratings|
        ensures HasUser(d, d.ratings[k].userId) && HasStore(d, d.ratings[k].storeId)
      {
        var i :| 0 <= i < |db.users| && db.users[i].id == db.ratings[k].userId;
        assert d.users[i].id == d.ratings[k].userId;
      }
    }
  }

  /** Signup and password update apply one password rule: with the other
      signup fields acceptable and a caller who passes the gate, a password
      is refused by signup exactly when it is refused by the update. */
  lemma PasswordRuleShared(body: SignupBody, db: Db, hash: string -> string,
                           header: Option<string>, verify: string -> Option<Claims>)
    requires NameOk(body.name) && EmailOk(body.email) && AddressOk(body.address)
    requires Authenticate(header, verify).Pass?
    ensures (Signup(body, db, hash).response == Response(400, Error(PasswordMessage)))
        <==> (UpdatePassword(header, verify, body.password, db, hash).response.status == 400)
  {
  }
}
