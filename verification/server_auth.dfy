/** The authorization gate of the Express server: `authMiddleware` reads a
    `Bearer` header and verifies the token, `roleMiddleware` restricts the
    authenticated role to a list. Token verification (`jwt.verify` with the
    server's secret and clock) is an oracle passed in as `verify`. */
module ServerAuth {
  import opened Wrappers
  import opened Text

  /** What the gate attaches to the request as `req.user`. */
  datatype Identity = Identity(id: int, role: string)

  /** A verified token payload `{ id, role, iat, exp }`. */
  datatype Claims = Claims(id: int, role: string, issuedAt: int, expiresAt: int)

  /** A refusal: the HTTP status and the `error` text of the JSON body. */
  datatype Rejection = Rejection(status: int, error: string)

  datatype Gate = Pass(who: Identity) | Refuse(rejection: Rejection)

  const NoTokenProvided := Rejection(401, "No token provided")
  const InvalidTokenFormat := Rejection(401, "Invalid token format")
  const InvalidOrExpired := Rejection(401, "Invalid or expired token")
  const Unauthorized := Rejection(401, "Unauthorized")
  const AccessDenied := Rejection(403, "Access denied")

  /** The token of an `Authorization` header: the header is split on single
      spaces, the first piece must be `Bearer` and the second non-empty; any
      further pieces are ignored. */
  function BearerToken(header: string): (r: Option<string>)
    ensures r.Some? <==> |header| > 7 && header[..7] == "Bearer " && header[7] != ' '
    ensures r.Some? ==> r.value != [] && ' ' !in r.value && OccursAt(header, r.value, 7)
    ensures r.Some? ==> 7 + |r.value| == |header| || header[7 + |r.value|] == ' '
  {
    BearerShape(header);
    if Split(header, ' ')[0] == "Bearer" && SecondPiece(header) != "" then Some(SecondPiece(header))
    else None
  }

  /** The second piece of `header.split(" ")`, or `""` when there is none
      (`undefined` and `""` are both falsy). */
  function SecondPiece(header: string): string
  {
    var parts := Split(header, ' ');
    if |parts| > 1 then parts[1] else ""
  }

  /** The split-based test of `BearerToken` agrees with a direct description
      of the header's characters. */
  lemma BearerShape(header: string)
    ensures (Split(header, ' ')[0] == "Bearer" && SecondPiece(header) != "") <==>
            (|header| > 7 && header[..7] == "Bearer " && header[7] != ' ')
    ensures Split(header, ' ')[0] == "Bearer" && SecondPiece(header) != "" ==>
              var token := SecondPiece(header);
              && ' ' !in token && OccursAt(header, token, 7)
              && (7 + |token| == |header| || header[7 + |token|] == ' ')
  {
    if |header| > 7 && header[..7] == "Bearer " {
      BearerPrefix(header);
      BearerTail(header);
    } else if Split(header, ' ')[0] == "Bearer" && |Split(header, ' ')| > 1 {
      BearerTail(header);
    }
  }

  /** A header starting with `Bearer ` splits into `Bearer` and more. */
  lemma BearerPrefix(header: string)
    requires |header| >= 7 && header[..7] == "Bearer "
    ensures Split(header, ' ')[0] == "Bearer" && |Split(header, ' ')| > 1
  {
    SplitPieces(header, ' ');
    assert OccursAt(header, "Bearer", 0);
    assert header[6] == ' ';
    RunUnique(header, 0, Split(header, ' ')[0], "Bearer", ' ');
  }

  /** After a first piece `Bearer`, the second piece is the separator-free
      run starting at position 7. */
  lemma BearerTail(header: string)
    requires Split(header, ' ')[0] == "Bearer" && |Split(header, ' ')| > 1
    ensures var token := Split(header, ' ')[1];
            && token == SecondPiece(header)
            && |header| >= 7 && header[..7] == "Bearer "
            && ' ' !in token && OccursAt(header, token, 7)
            && (7 + |token| == |header| || header[7 + |token|] == ' ')
            && (token == "" <==> (|header| == 7 || header[7] == ' '))
  {
    var parts := Split(header, ' ');
    SplitPieces(header, ' ');
    var rest := header[7..];
    assert parts[1..] == Split(rest, ' ');
    SplitPieces(rest, ' ');
    var token := parts[1];
    assert token == Split(rest, ' ')[0];
    assert header[..7] == "Bearer" + " ";
    assert header[7..7 + |token|] == rest[..|token|];
    if 7 + |token| < |header| {
      assert header[7 + |token|] == rest[|token|];
    }
  }

  /** `authMiddleware`: 401 for a missing or empty header, 401 for a header
      not of the form `Bearer <token>`, 401 when verification fails, and
      otherwise exactly the `id` and `role` of the verified payload. */
  function Authenticate(header: Option<string>, verify: string -> Option<Claims>): (r: Gate)
    ensures header.None? || header == Some("") ==> r == Refuse(NoTokenProvided)
    ensures header.Some? && header.value != "" && BearerToken(header.value).None? ==>
              r == Refuse(InvalidTokenFormat)
    ensures header.Some? && BearerToken(header.value).Some? && verify(BearerToken(header.value).value).None? ==>
              r == Refuse(InvalidOrExpired)
    ensures r.Refuse? ==> r.rejection.status == 401
    ensures r.Pass? <==> exists c :: header.Some? && BearerToken(header.value).Some? &&
                                    verify(BearerToken(header.value).value) == Some(c)
    ensures r.Pass? ==> verify(BearerToken(header.value).value).Some?
    ensures r.Pass? ==> var c := verify(BearerToken(header.value).value).value;
                        r.who == Identity(c.id, c.role)
  {
    match header
    case None => Refuse(NoTokenProvided)
    case Some(h) =>
      if h == "" then Refuse(NoTokenProvided)
      else
        match BearerToken(h)
        case None => Refuse(InvalidTokenFormat)
        case Some(token) =>
          match verify(token)
          case None => Refuse(InvalidOrExpired)
          case Some(c) => Pass(Identity(c.id, c.role))
  }

  /** `roleMiddleware(roles)`: 401 without a role, any role passes an empty
      list, 403 for a role outside a non-empty list. */
  function Authorize(who: Identity, roles: seq<string>): (r: Gate)
    ensures who.role == "" ==> r == Refuse(Unauthorized)
    ensures who.role != "" && |roles| == 0 ==> r == Pass(who)
    ensures who.role != "" && |roles| > 0 ==> (r == Pass(who) <==> who.role in roles)
    ensures who.role != "" ==> r == Pass(who) || r == Refuse(AccessDenied)
  {
    if who.role == "" then Refuse(Unauthorized)
    else if |roles| == 0 then Pass(who)
    else if who.role !in roles then Refuse(AccessDenied)
    else Pass(who)
  }

  /** `authMiddleware` followed by `roleMiddleware(roles)`. */
  function Guard(header: Option<string>, verify: string -> Option<Claims>, roles: seq<string>): (r: Gate)
    ensures Authenticate(header, verify).Refuse? ==> r == Authenticate(header, verify)
    ensures Authenticate(header, verify).Pass? ==> r == Authorize(Authenticate(header, verify).who, roles)
  {
    match Authenticate(header, verify)
    case Refuse(e) => Refuse(e)
    case Pass(who) => Authorize(who, roles)
  }

  /** A header `Bearer <token>` carrying a token the verifier accepts
      authenticates as that token's `{id, role}`, whatever follows after a
      further space. */
  lemma WellFormedHeaderPasses(token: string, rest: string, verify: string -> Option<Claims>, c: Claims)
    requires token != [] && ' ' !in token
    requires rest == [] || rest[0] == ' '
    requires verify(token) == Some(c)
    ensures Authenticate(Some("Bearer " + token + rest), verify) == Pass(Identity(c.id, c.role))
  {
    var h := "Bearer " + token + rest;
    assert h[..7] == "Bearer ";
    assert h[7] == token[0];
    var t := BearerToken(h).value;
    assert h[7..7 + |token|] == token;
    if 7 + |token| < |h| {
      assert h[7 + |token|] == rest[0];
    }
    RunUnique(h, 7, t, token, ' ');
  }

  /** A header with two spaces after `Bearer` is malformed (the second piece
      of the split is empty), and so is one whose first word is not exactly
      `Bearer`. */
  lemma MalformedHeadersRefused(token: string, scheme: string, verify: string -> Option<Claims>)
    requires scheme != "Bearer" && ' ' !in scheme
    ensures Authenticate(Some("Bearer  " + token), verify) == Refuse(InvalidTokenFormat)
    ensures Authenticate(Some(scheme + " " + token), verify) == Refuse(InvalidTokenFormat)
  {
    var h := "Bearer  " + token;
    assert h[7] == ' ';
    var g := scheme + " " + token;
    var head := Split(g, ' ')[0];
    SplitPieces(g, ' ');
    assert g[..|scheme|] == scheme;
    assert g[|scheme|] == ' ';
    RunUnique(g, 0, head, scheme, ' ');
    BearerShape(g);
  }

  /** A token the verifier accepts for a role outside the allowed list is
      refused with 403; with no header at all the answer is 401. */
  lemma WrongRoleForbidden(token: string, verify: string -> Option<Claims>, c: Claims, roles: seq<string>)
    requires token != [] && ' ' !in token
    requires verify(token) == Some(c) && c.role != "" && |roles| > 0 && c.role !in roles
    ensures Guard(Some("Bearer " + token), verify, roles) == Refuse(AccessDenied)
    ensures Guard(None, verify, roles) == Refuse(NoTokenProvided)
  {
    WellFormedHeaderPasses(token, "", verify, c);
    assert "Bearer " + token + "" == "Bearer " + token;
  }
}
