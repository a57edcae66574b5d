/**
 * The request gates of the session service
 * (microservices/session-service/src/shared/middleware/authMiddleware.ts) and of the user
 * service (microservices/user-service/src/shared/middleware/authMiddleware.ts). Token
 * verification is a parameter.
 */
module AuthMiddleware {
  import opened Wrappers
  import opened Domain

  const Prefix := "Bearer "
  const NoToken := "No token provided!"
  const BadToken := "Invalid or expired token!"
  const AuthFailed := "Authentication failed!"
  const NotAuthenticated := "Not authenticated!"
  const AdminRequired := "Admin access required!"

  /** What a middleware does: call `next()` with `req.user` set, or answer with a status and an error. */
  datatype Gate = Proceed(user: AuthUser) | Deny(status: int, error: string)

  /** The user service's `verifyToken`: the payload, `null`, or an exception. */
  datatype Decoded = Payload(user: AuthUser) | Null | Throws

  /** The header check and `substring(7)`: the token after "Bearer ", or nothing. */
  function BearerToken(header: Option<string>): (r: Option<string>)
    ensures r.Some? <==> header.Some? && |header.value| >= |Prefix| && header.value[..|Prefix|] == Prefix
    ensures r.Some? ==> header.value == Prefix + r.value
  {
    if header.Some? && |header.value| >= |Prefix| && header.value[..|Prefix|] == Prefix
    then Some(header.value[|Prefix|..])
    else None
  }

  /** Any token sent as "Bearer <token>" is read back unchanged. */
  lemma BearerRoundTrip(token: string)
    ensures BearerToken(Some(Prefix + token)) == Some(token)
  {
    assert (Prefix + token)[..|Prefix|] == Prefix;
    assert (Prefix + token)[|Prefix|..] == token;
  }

  /**
   * The prefix is matched exactly: a header carries a token iff it is "Bearer " followed by some
   * text, and a lower-case "bearer " or a bare "Bearer" never carries one.
   */
  lemma {:induction false} PrefixIsExact(header: string)
    ensures BearerToken(Some(header)).Some? <==> exists token :: header == Prefix + token
    ensures forall token :: BearerToken(Some("bearer " + token)) == None
    ensures BearerToken(None) == None && BearerToken(Some("Bearer")) == None
  {
    if BearerToken(Some(header)).Some? {
      assert header == Prefix + header[|Prefix|..];
    }
    forall token | header == Prefix + token ensures BearerToken(Some(header)).Some? {
      BearerRoundTrip(token);
    }
    forall token ensures BearerToken(Some("bearer " + token)) == None {
      assert ("bearer " + token)[0] != Prefix[0];
    }
  }

  /**
   * The session service's `authMiddleware`: no token is 401 "No token provided!"; a token the
   * verifier rejects (it throws) is 401 "Invalid or expired token!"; otherwise `req.user` is the
   * decoded payload.
   */
  function SessionServiceAuth(header: Option<string>, verify: string -> Option<AuthUser>): (g: Gate)
    ensures BearerToken(header).None? ==> g == Deny(401, NoToken)
    ensures BearerToken(header).Some? && verify(BearerToken(header).value).None? ==> g == Deny(401, BadToken)
    ensures g.Proceed? <==> BearerToken(header).Some? && verify(BearerToken(header).value).Some?
    ensures g.Proceed? ==> g.user == verify(BearerToken(header).value).value
  {
    match BearerToken(header)
    case None => Deny(401, NoToken)
    case Some(token) =>
      match verify(token)
      case None => Deny(401, BadToken)
      case Some(u) => Proceed(AuthUser(u.userId, u.email, u.role))
  }

  /**
   * The user service's `authMiddleware`: no token is 401 "No token provided!"; a `null` decode is
   * 401 "Invalid or expired token!"; an exception is 401 "Authentication failed!"; otherwise
   * `req.user` is the decoded payload.
   */
  function UserServiceAuth(header: Option<string>, decode: string -> Decoded): (g: Gate)
    ensures BearerToken(header).None? ==> g == Deny(401, NoToken)
    ensures BearerToken(header).Some? && decode(BearerToken(header).value).Null? ==> g == Deny(401, BadToken)
    ensures BearerToken(header).Some? && decode(BearerToken(header).value).Throws? ==> g == Deny(401, AuthFailed)
    ensures g.Proceed? <==> BearerToken(header).Some? && decode(BearerToken(header).value).Payload?
    ensures g.Proceed? ==> g.user == decode(BearerToken(header).value).user
  {
    match BearerToken(header)
    case None => Deny(401, NoToken)
    case Some(token) =>
      match decode(token)
      case Null => Deny(401, BadToken)
      case Throws => Deny(401, AuthFailed)
      case Payload(u) => Proceed(u)
  }

  /** Both services let the same requests through with the same user; every refusal is a 401. */
  lemma AuthGatesAgree(header: Option<string>, verify: string -> Option<AuthUser>, decode: string -> Decoded)
    requires forall t :: (verify(t).Some? <==> decode(t).Payload?) && (verify(t).Some? ==> decode(t).user == verify(t).value)
    ensures SessionServiceAuth(header, verify).Proceed? <==> UserServiceAuth(header, decode).Proceed?
    ensures SessionServiceAuth(header, verify).Proceed? ==> SessionServiceAuth(header, verify) == UserServiceAuth(header, decode)
    ensures SessionServiceAuth(header, verify).Deny? ==> SessionServiceAuth(header, verify).status == 401 && UserServiceAuth(header, decode).status == 401
  {
  }

  /**
   * `adminMiddleware` (the same in both services): no requester is 401 "Not authenticated!", a
   * role other than ADMIN is 403 "Admin access required!", otherwise the request goes on unchanged.
   */
  function Admin(user: Option<AuthUser>): (g: Gate)
    ensures user.None? ==> g == Deny(401, NotAuthenticated)
    ensures user.Some? && !IsAdmin(user.value) ==> g == Deny(403, AdminRequired)
    ensures g.Proceed? <==> user.Some? && user.value.role == "ADMIN"
    ensures g.Proceed? ==> g.user == user.value
  {
    if user.None? then Deny(401, NotAuthenticated)
    else if user.value.role != "ADMIN" then Deny(403, AdminRequired)
    else Proceed(user.value)
  }

  /** Behind the authentication gate the admin gate passes exactly the tokens whose role is ADMIN. */
  lemma AdminBehindAuth(header: Option<string>, verify: string -> Option<AuthUser>)
    requires SessionServiceAuth(header, verify).Proceed?
    ensures Admin(Some(SessionServiceAuth(header, verify).user)).Proceed? <==> verify(BearerToken(header).value).value.role == "ADMIN"
  {
  }
}
