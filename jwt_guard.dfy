/**
 * The gateway's JwtAuthGuard. For each protected request it reads the Authorization header,
 * rejects at once when the header is missing, otherwise strips the scheme, asks the auth
 * service to validate the token (one request, no retry) and either attaches the returned
 * payload to the request as its user or rejects. Every failure after the header check looks
 * the same to the caller.
 */
module JwtAuthGuard {
  import opened Wrappers
  import opened BearerToken
  import Auth

  /** The outcome of the remote `authValidateToken` call: a reply (a payload or null), or a
      transport failure or remote exception. */
  datatype RemoteReply = Replied(payload: Option<Auth.Payload>) | CallFailed

  /** The two UnauthorizedExceptions the guard throws. */
  datatype Rejection = HeaderRequired | InvalidOrExpiredToken

  function RejectionMessage(r: Rejection): string {
    match r
    case HeaderRequired => "Authorization header is required"
    case InvalidOrExpiredToken => "Invalid or expired token"
  }

  /** The verdict, and the tokens sent to the auth service on the way to it. */
  datatype Decision = Decision(verdict: Result<Auth.Payload, Rejection>, sent: seq<string>)

  /** The decision `canActivate` reaches for a header value and a remote validator. */
  function Authorize(header: Option<string>, validator: string -> RemoteReply): (d: Decision)
    ensures !HeaderPresent(header) ==> d == Decision(Failure(HeaderRequired), [])
    ensures HeaderPresent(header) ==> d.sent == [ExtractToken(header.value)]
    ensures HeaderPresent(header) ==>
      var reply := validator(ExtractToken(header.value));
      && (d.verdict.Success? <==> reply.Replied? && reply.payload.Some?)
      && (d.verdict.Success? ==> d.verdict.value == reply.payload.value)
      && (d.verdict.Failure? ==> d.verdict.error == InvalidOrExpiredToken)
  {
    if !HeaderPresent(header) then Decision(Failure(HeaderRequired), [])
    else
      var token := ExtractToken(header.value);
      match validator(token)
      case Replied(Some(payload)) => Decision(Success(payload), [token])
      case _ => Decision(Failure(InvalidOrExpiredToken), [token])
  }

  /** The part of the HTTP request the guard reads and writes. */
  class Request {
    var authorization: Option<string>
    var user: Option<Auth.Payload>

    constructor (authorization: Option<string>)
      ensures this.authorization == authorization && user.None?
    {
      this.authorization := authorization;
      user := None;
    }
  }

  /** `canActivate`: allow (true) with `request.user` set, or throw. */
  method CanActivate(request: Request, validator: string -> RemoteReply)
    returns (allowed: Result<bool, Rejection>, sent: seq<string>)
    modifies request`user
    ensures var d := Authorize(request.authorization, validator);
      && sent == d.sent
      && (d.verdict.Success? ==> allowed == Success(true) && request.user == Some(d.verdict.value))
      && (d.verdict.Failure? ==> allowed == Failure(d.verdict.error) && request.user == old(request.user))
  {
    sent := [];
    var authHeader := request.authorization;
    if authHeader.None? || authHeader.value == "" {
      return Failure(HeaderRequired), sent;
    }
    var token := ExtractToken(authHeader.value);
    sent := sent + [token];
    var reply := validator(token);
    if reply.CallFailed? || reply.payload.None? {
      return Failure(InvalidOrExpiredToken), sent;
    }
    request.user := reply.payload;
    allowed := Success(true);
  }

  // ---- The guard in front of the auth service ---------------------------------------------

  /** The auth service at time `now`, as the guard reaches it; `lookupFails` says its session
      lookup throws. */
  function RemoteValidator(db: Auth.Db, c: Auth.Crypto, now: int, lookupFails: bool): string -> RemoteReply {
    (token: string) => Replied(Auth.ValidateToken(db, c, token, now, lookupFails))
  }

  /** A validator that cannot be reached is indistinguishable from one that says "invalid". */
  lemma UnreachableLooksLikeInvalid(header: Option<string>)
    ensures Authorize(header, (t: string) => CallFailed).verdict
         == Authorize(header, (t: string) => Replied(None)).verdict
  {
  }

  /** After logout, the guard turns the logged-out token away. */
  lemma GuardRejectsLoggedOutToken(db: Auth.Db, c: Auth.Crypto, token: string, now: int, lookupFails: bool)
    ensures Authorize(Some(Scheme + token), RemoteValidator(Auth.Logout(db, token, false).db, c, now, lookupFails)).verdict
         == Failure(InvalidOrExpiredToken)
  {
    ExtractFromBearerHeader(token);
    Auth.LogoutRevokes(db, c, token, now, lookupFails);
  }

  /** When the auth service's session lookup throws, the guard refuses every bearer token,
      even one with a live session. */
  lemma LookupFailureRejects(db: Auth.Db, c: Auth.Crypto, token: string, now: int)
    ensures Authorize(Some(Scheme + token), RemoteValidator(db, c, now, true)).verdict
         == Failure(InvalidOrExpiredToken)
  {
    ExtractFromBearerHeader(token);
  }

  /** A token fresh from login gets through the guard, and the request's user is the one who
      logged in. */
  lemma GuardAdmitsFreshLogin(db: Auth.Db, c: Auth.Crypto, req: Auth.LoginRequest, now: int)
    requires Auth.Sound(c)
    requires Auth.Login(db, c, req, now, false).out.Success?
    ensures var r := Auth.Login(db, c, req, now, false);
      var d := Authorize(Some(Scheme + r.out.value.data.accessToken), RemoteValidator(r.db, c, now, false));
      d.verdict.Success? && d.verdict.value.claims.sub == r.out.value.data.user.userId
  {
    var r := Auth.Login(db, c, req, now, false);
    ExtractFromBearerHeader(r.out.value.data.accessToken);
    Auth.LoginTokenValidates(db, c, req, now);
  }
}
