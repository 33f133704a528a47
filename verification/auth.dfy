/**
 The two request gates of the server: `authenticateToken` (401 when no token can
 be read from the `Authorization` header, 403 when the token does not verify) and
 `checkAdminRole` (403 unless the database row of the token's user id has role
 'admin'). Token verification is foreign cryptography and enters as a function
 from token text to the claims it carries, or `None` when it does not verify.
 */
module Auth {
  import opened Wrappers
  import opened Text
  import opened Users

  /** The payload signed into a session token: `{ id, email, role }`. */
  datatype Claims = Claims(id: int, email: string, role: string)

  /** A gate either lets the request through with the caller's claims or answers it. */
  datatype Gate = Admit(claims: Claims) | Deny(status: int, error: string)

  const NoTokenError := "Access denied. No token provided."
  const InvalidTokenError := "Invalid token."
  const NotAdminError := "Access denied. Admin privileges required."

  /** The token the middleware reads: the second space-separated piece of the
      header, provided the header is present and that piece is non-empty. The
      scheme word in front of it is not checked. */
  function BearerToken(header: Option<string>): (token: Option<string>)
    ensures token.Some? ==> header.Some? && token.value != "" && ' ' !in token.value
  {
    if header.None? || header.value == "" then None
    else
      var parts := Split(header.value, ' ');
      if |parts| < 2 || parts[1] == "" then None
      else Some(parts[1])
  }

  /** The client sends `Bearer <token>`; the server reads back exactly that token. */
  lemma BearerTokenRoundTrip(token: string)
    requires token != "" && ' ' !in token
    ensures BearerToken(Some("Bearer " + token)) == Some(token)
  {
    assert "Bearer " + token == Join(["Bearer", token], ' ');
    SplitJoin(["Bearer", token], ' ');
  }

  /** A header without a space (a bare token, with no scheme word) never yields a token. */
  lemma HeaderWithoutSpaceHasNoToken(header: string)
    requires ' ' !in header
    ensures BearerToken(Some(header)).None?
  {
    SplitNoSeparator(header, ' ');
  }

  /** `authenticateToken`. */
  function Authenticate(header: Option<string>, verify: string -> Option<Claims>): (g: Gate)
    ensures g == Deny(401, NoTokenError) <==> BearerToken(header).None?
    ensures g == Deny(403, InvalidTokenError)
            <==> BearerToken(header).Some? && verify(BearerToken(header).value).None?
    ensures g.Admit? <==> BearerToken(header).Some? && verify(BearerToken(header).value).Some?
    ensures g.Admit? ==> g.claims == verify(BearerToken(header).value).value
  {
    match BearerToken(header)
    case None => Deny(401, NoTokenError)
    case Some(token) =>
      match verify(token)
      case None => Deny(403, InvalidTokenError)
      case Some(claims) => Admit(claims)
  }

  /** `authenticateToken` followed by `checkAdminRole`. The role that decides is the
      one stored in the users table for the token's id, not the role inside the
      token: a token minted before a promotion passes, and one minted before a
      demotion does not. */
  function AuthenticateAdmin(header: Option<string>, verify: string -> Option<Claims>, users: seq<User>): (g: Gate)
    ensures Authenticate(header, verify).Deny? ==> g == Authenticate(header, verify)
    ensures g.Admit? <==>
              && Authenticate(header, verify).Admit?
              && FindById(users, Authenticate(header, verify).claims.id).Some?
              && FindById(users, Authenticate(header, verify).claims.id).value.role == AdminRole
    ensures g.Admit? ==> g == Authenticate(header, verify)
    ensures Authenticate(header, verify).Admit? && !g.Admit? ==> g == Deny(403, NotAdminError)
  {
    match Authenticate(header, verify)
    case Deny(status, error) => Deny(status, error)
    case Admit(claims) =>
      match FindById(users, claims.id)
      case Some(user) => if user.role == AdminRole then Admit(claims) else Deny(403, NotAdminError)
      case None => Deny(403, NotAdminError)
  }
}
