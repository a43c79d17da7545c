/**
 * The authentication gates: `requiresAuth` reads the bearer token from the
 * `Authorization` header and hands it to the token library; `checkRole` compares the
 * decoded role with the one a route demands; `handleJwtError` turns a library failure
 * into a status and a code.
 */
module Auth {
  import opened Wrappers
  import opened Records
  import opened Text

  /** What the token library reports: the decoded payload, or the name of the error it threw. */
  datatype Verified = Decoded(user: Principal) | Failed(errorName: string)

  /** The verdict of an authentication gate. */
  datatype AuthGate = Pass(user: Principal) | Deny(status: nat, message: string, code: Option<string>)

  const NoToken := "Token no proporcionado"
  const Forbidden := "Forbidden: insufficient permissions"

  /** `handleJwtError`: one reply per error name the library throws; any other name is a 500. */
  function HandleJwtError(errorName: string): (r: AuthGate)
    ensures r.Deny?
    ensures errorName == "TokenExpiredError" <==> r.status == 401
    ensures r.status == 403 <==> errorName == "JsonWebTokenError" || errorName == "NotBeforeError"
    ensures r.status == 500 <==> errorName !in {"TokenExpiredError", "JsonWebTokenError", "NotBeforeError"}
    ensures errorName == "TokenExpiredError" ==> r.code == Some("TOKEN_EXPIRED")
    ensures errorName == "JsonWebTokenError" ==> r.code == Some("INVALID_TOKEN")
    ensures errorName == "NotBeforeError" ==> r.code == Some("TOKEN_NOT_ACTIVE")
    ensures r.status == 500 <==> r.code == Some("AUTH_ERROR")
  {
    match errorName
    case "TokenExpiredError" => Deny(401, "Expired token", Some("TOKEN_EXPIRED"))
    case "JsonWebTokenError" => Deny(403, "Invalid token", Some("INVALID_TOKEN"))
    case "NotBeforeError" => Deny(403, "Inactiva token", Some("TOKEN_NOT_ACTIVE"))
    case _ => Deny(500, "Server error", Some("AUTH_ERROR"))
  }

  /** The three library errors get three distinct codes, none of them the catch-all one. */
  lemma JwtCodesDistinct(a: string, b: string)
    requires a in {"TokenExpiredError", "JsonWebTokenError", "NotBeforeError"}
    requires a != b
    ensures HandleJwtError(a).code != HandleJwtError(b).code
  {
  }

  /** `authHeader && authHeader.split(' ')[1]`: the second space-separated word, when it is not empty. */
  function BearerToken(header: Option<string>): (r: Option<string>)
    ensures header.None? ==> r.None?
    ensures r.Some? <==> header.Some? && Piece(header.value, ' ', 1).Some? && Piece(header.value, ' ', 1).value != ""
    ensures r.Some? ==> r == Piece(header.value, ' ', 1) && ' ' !in r.value
  {
    if header.None? || header.value == "" then None
    else match Piece(header.value, ' ', 1)
      case None => None
      case Some(token) => if token == "" then None else Some(token)
  }

  /** A header with no space in it carries no token. */
  lemma NoSpaceNoToken(header: string)
    requires ' ' !in header
    ensures BearerToken(Some(header)).None?
  {
  }

  /** The header the client sends, `Bearer <token>`, yields the token back. */
  lemma BearerHeaderYieldsToken(scheme: string, token: string)
    requires ' ' !in scheme && ' ' !in token && token != ""
    ensures BearerToken(Some(scheme + " " + token)) == Some(token)
  {
    SplitAfterPiece(scheme, ' ', token);
    assert scheme + " " + token == scheme + [' '] + token;
  }

  /**
   * `requiresAuth`: 401 without a token; otherwise the library's verdict, the decoded
   * payload passing on and a failure answered by `handleJwtError`.
   */
  function RequiresAuth(header: Option<string>, verify: string -> Verified): (r: AuthGate)
    ensures BearerToken(header).None? ==> r == Deny(401, NoToken, None)
    ensures r.Pass? <==> BearerToken(header).Some? && verify(BearerToken(header).value).Decoded?
    ensures r.Pass? ==> r.user == verify(BearerToken(header).value).user
    ensures BearerToken(header).Some? && verify(BearerToken(header).value).Failed? ==>
      r == HandleJwtError(verify(BearerToken(header).value).errorName)
  {
    match BearerToken(header)
    case None => Deny(401, NoToken, None)
    case Some(token) =>
      match verify(token)
      case Decoded(user) => Pass(user)
      case Failed(name) => HandleJwtError(name)
  }

  /** `checkRole(role)`: passes exactly the callers whose role string is `role`; 403 for anyone else. */
  function CheckRole(role: string, caller: Principal): (r: Gate<Principal>)
    ensures r.Next? <==> caller.role == role
    ensures r.Next? ==> r.value == caller
    ensures r.Stop? ==> r == Stop(403, Forbidden)
  {
    if role != caller.role then Stop(403, Forbidden) else Next(caller)
  }

  /** There is no hierarchy of roles: a caller passes the check of one role at most. */
  lemma OneRoleAtMost(caller: Principal, a: string, b: string)
    requires a != b
    ensures CheckRole(a, caller).Stop? || CheckRole(b, caller).Stop?
  {
  }

  /** In particular an administrator is refused on a customer-only route. */
  lemma AdministratorIsNotCustomer(userId: int)
    ensures CheckRole("CUSTOMER", Principal(userId, "ADMIN")) == Stop(403, Forbidden)
  {
  }
}
