/**
 * The auth service's credential and session logic as functions of the database state.
 * Each operation maps the state before the call (and its inputs) to the state after it and
 * the reply or error; the class in module AuthService performs the same steps in place.
 *
 * bcrypt and the JWT library are foreign code: they enter as a `Crypto` value of four
 * functions, and `Sound` states the only facts the proofs use about them.
 * Time is a number of seconds, `now`.
 */
module Auth {
  import opened Wrappers
  import opened Seqs

  const AccessTokenLifetime: int := 3600          // expiresIn: '1h'
  const RefreshTokenLifetime: int := 7 * 24 * 3600 // expiresIn: '7d'
  const SessionLifetime: int := 3600              // expires_at = now + 1 hour
  const ExpiresIn: int := 3600
  const TokenType: string := "Bearer"
  const ActiveStatus: int := 1
  const DefaultRole: string := "user"

  datatype User = User(id: int, username: string, email: string, password: string, status: int)
  /** `permissions` is a text column: the seed script stores a JSON-encoded array in it. */
  datatype Role = Role(id: int, name: string, description: string, permissions: string)
  datatype UserRole = UserRole(userId: int, roleId: int)
  datatype Session = Session(userId: int, token: string, refreshToken: string, expiresAt: int)

  /** The claims both tokens carry. */
  datatype Claims = Claims(sub: int, username: string, email: string, roles: seq<string>)
  /** A verified token: its claims plus issued-at and expiry. */
  datatype Payload = Payload(claims: Claims, iat: int, exp: int)

  datatype Tokens = Tokens(access: string, refresh: string)
  datatype UserInfo = UserInfo(userId: int, username: string, email: string, roles: seq<string>)
  datatype JwtResponse = JwtResponse(
    accessToken: string, refreshToken: string, expiresIn: int, tokenType: string, user: UserInfo)
  /** The service's reply envelope. */
  datatype Reply<T> = Reply(message: string, data: T, statusCode: int)

  datatype LoginRequest = LoginRequest(username: string, password: string)
  datatype RegisterRequest = RegisterRequest(username: string, email: string, password: string)

  /** The RpcExceptions the operations throw; storage failures carry the operation's prefix. */
  datatype AuthError = UserExists | InvalidCredentials | AccountDeactivated
                     | RegistrationFailed | LoginFailed | LogoutFailed

  function Message(e: AuthError): string {
    match e
    case UserExists => "User with this username or email already exists"
    case InvalidCredentials => "Invalid credentials"
    case AccountDeactivated => "Account is deactivated"
    case RegistrationFailed => "Registration failed: "
    case LoginFailed => "Login failed: "
    case LogoutFailed => "Logout failed: "
  }

  /**
   * bcrypt's `hash`/`compare` and the JWT service's `signAsync`/`verifyAsync`.
   * `sign(claims, iat, lifetime)` signs with the process-wide secret; `verify(token, now)`
   * yields the payload of a token whose signature checks and which has not expired at `now`.
   */
  datatype Crypto = Crypto(
    hash: string -> string,
    compare: (string, string) -> bool,
    sign: (Claims, int, int) -> string,
    verify: (string, int) -> Option<Payload>)

  /** What the model assumes of the foreign crypto: a password matches its own hash, and a
      freshly signed token verifies to its claims until it expires. */
  ghost predicate Sound(c: Crypto) {
    && (forall pw :: c.compare(pw, c.hash(pw)))
    && (forall cl, iat, life, now :: 0 < life && iat <= now < iat + life ==>
          c.verify(c.sign(cl, iat, life), now) == Some(Payload(cl, iat, iat + life)))
  }

  /** The user, role, user-role and session tables, with the next auto-increment keys. */
  datatype Db = Db(
    users: seq<User>, roles: seq<Role>, userRoles: seq<UserRole>, sessions: seq<Session>,
    nextUserId: int, nextRoleId: int)

  /** Step result: the state after the call and what it returned or threw. */
  datatype Step<T> = Step(db: Db, out: Result<T, AuthError>)

  ghost predicate UserExistsWithId(users: seq<User>, id: int) {
    exists i :: 0 <= i < |users| && users[i].id == id
  }

  ghost predicate RoleExistsWithId(roles: seq<Role>, id: int) {
    exists i :: 0 <= i < |roles| && roles[i].id == id
  }

  /** The constraints of the schema the operations keep: increasing auto-increment keys,
      unique usernames and emails, and role links that point at existing rows. */
  ghost predicate ValidDb(db: Db) {
    && (forall i :: 0 <= i < |db.users| ==> db.users[i].id < db.nextUserId)
    && (forall i, j :: 0 <= i < j < |db.users| ==> db.users[i].id < db.users[j].id)
    && (forall i, j :: 0 <= i < j < |db.users| ==>
          db.users[i].username != db.users[j].username && db.users[i].email != db.users[j].email)
    && (forall i :: 0 <= i < |db.roles| ==> db.roles[i].id < db.nextRoleId)
    && (forall i, j :: 0 <= i < j < |db.roles| ==> db.roles[i].id < db.roles[j].id)
    && (forall k :: 0 <= k < |db.userRoles| ==>
          UserExistsWithId(db.users, db.userRoles[k].userId)
          && RoleExistsWithId(db.roles, db.userRoles[k].roleId))
  }

  // ---- Row predicates used by the queries -------------------------------------------

  /** `where: { OR: [{ username }, { email: username }] }` (login). */
  function ByLogin(name: string): User -> bool {
    (u: User) => u.username == name || u.email == name
  }

  /** `where: { OR: [{ username }, { email }] }` (registration conflict). */
  function ByUsernameOrEmail(username: string, email: string): User -> bool {
    (u: User) => u.username == username || u.email == email
  }

  function RoleNamed(name: string): Role -> bool {
    (r: Role) => r.name == name
  }

  function RoleWithId(id: int): Role -> bool {
    (r: Role) => r.id == id
  }

  /** `where: { token, expires_at: { gt: now } }`. */
  function LiveSession(token: string, now: int): Session -> bool {
    (s: Session) => s.token == token && s.expiresAt > now
  }

  /** The sessions `deleteMany({ where: { token } })` leaves behind. */
  function OtherToken(token: string): Session -> bool {
    (s: Session) => s.token != token
  }

  ghost predicate HasLiveSession(sessions: seq<Session>, token: string, now: int) {
    exists i :: 0 <= i < |sessions| && sessions[i].token == token && sessions[i].expiresAt > now
  }

  /** `user.roles.map(ur => ur.role.name)`: the names of the roles linked to `uid`, in link order. */
  function RoleNames(links: seq<UserRole>, roles: seq<Role>, uid: int): (names: seq<string>)
    ensures |names| <= |links|
    decreases |links|
  {
    if links == [] then []
    else
      var rest := RoleNames(links[..|links| - 1], roles, uid);
      var l := links[|links| - 1];
      if l.userId != uid then rest
      else match FirstMatch(roles, RoleWithId(l.roleId))
        case None => rest
        case Some(k) => rest + [roles[k].name]
  }

  /** Every linked role's name is reported. */
  lemma {:induction false} RoleNamesComplete(links: seq<UserRole>, roles: seq<Role>, uid: int, k: nat, j: nat)
    requires k < |links| && links[k].userId == uid
    requires j < |roles| && roles[j].id == links[k].roleId
    requires forall a, b :: 0 <= a < b < |roles| ==> roles[a].id != roles[b].id
    ensures roles[j].name in RoleNames(links, roles, uid)
    decreases |links|
  {
    if k < |links| - 1 {
      RoleNamesComplete(links[..|links| - 1], roles, uid, k, j);
    } else {
      var f := FirstMatch(roles, RoleWithId(links[k].roleId));
      assert RoleWithId(links[k].roleId)(roles[j]);
      assert f.Some? && f.value == j by {
        if f.value < j { } else if f.value > j { }
      }
    }
  }

  /** Every reported name is the name of a role that one of the user's links points at. */
  lemma {:induction false} RoleNamesSound(links: seq<UserRole>, roles: seq<Role>, uid: int, n: string)
    requires n in RoleNames(links, roles, uid)
    ensures exists k, j ::
              && 0 <= k < |links| && links[k].userId == uid
              && 0 <= j < |roles| && roles[j].id == links[k].roleId && roles[j].name == n
    decreases |links|
  {
    var init := links[..|links| - 1];
    var l := links[|links| - 1];
    if n in RoleNames(init, roles, uid) {
      RoleNamesSound(init, roles, uid, n);
      var k, j :| 0 <= k < |init| && init[k].userId == uid
        && 0 <= j < |roles| && roles[j].id == init[k].roleId && roles[j].name == n;
      assert links[k] == init[k];
    } else {
      var j := FirstMatch(roles, RoleWithId(l.roleId)).value;
      assert links[|links| - 1].userId == uid && roles[j].id == links[|links| - 1].roleId && roles[j].name == n;
    }
  }

  /** The links that belong to `uid`. */
  function LinkOf(uid: int): UserRole -> bool {
    (l: UserRole) => l.userId == uid
  }

  /** When every link points at an existing role (as `ValidDb` demands), there is exactly one
      name per link of the user, as `map` over the links gives. */
  lemma {:induction false} RoleNamesOnePerLink(links: seq<UserRole>, roles: seq<Role>, uid: int)
    requires forall k :: 0 <= k < |links| ==> RoleExistsWithId(roles, links[k].roleId)
    ensures |RoleNames(links, roles, uid)| == |Filter(links, LinkOf(uid))|
    decreases |links|
  {
    if links != [] {
      var l := links[|links| - 1];
      RoleNamesOnePerLink(links[..|links| - 1], roles, uid);
      assert RoleExistsWithId(roles, l.roleId);
      var i :| 0 <= i < |roles| && roles[i].id == l.roleId;
      assert RoleWithId(l.roleId)(roles[i]);
    }
  }

  /** A user with no links has no role names. */
  lemma {:induction false} RoleNamesOfUnlinked(links: seq<UserRole>, roles: seq<Role>, uid: int)
    requires forall k :: 0 <= k < |links| ==> links[k].userId != uid
    ensures RoleNames(links, roles, uid) == []
    decreases |links|
  {
    if links != [] {
      RoleNamesOfUnlinked(links[..|links| - 1], roles, uid);
    }
  }

  /** Appending links for other users leaves a user's role names as they were. */
  lemma {:induction false} RoleNamesIgnoreOthers(links: seq<UserRole>, extra: seq<UserRole>, roles: seq<Role>, uid: int)
    requires forall k :: 0 <= k < |extra| ==> extra[k].userId != uid
    ensures RoleNames(links + extra, roles, uid) == RoleNames(links, roles, uid)
    decreases |extra|
  {
    if extra == [] {
      assert links + extra == links;
    } else {
      assert (links + extra)[..|links + extra| - 1] == links + extra[..|extra| - 1];
      RoleNamesIgnoreOthers(links, extra[..|extra| - 1], roles, uid);
    }
  }

  // ---- Operations ---------------------------------------------------------------------

  /** `generateTokens`: one claim set, signed twice with lifetimes 1h and 7d. */
  function GenerateTokens(c: Crypto, claims: Claims, now: int): (t: Tokens)
    ensures Sound(c) ==> c.verify(t.access, now) == Some(Payload(claims, now, now + AccessTokenLifetime))
    ensures Sound(c) ==> c.verify(t.refresh, now) == Some(Payload(claims, now, now + RefreshTokenLifetime))
  {
    Tokens(c.sign(claims, now, AccessTokenLifetime), c.sign(claims, now, RefreshTokenLifetime))
  }

  /** The row `saveUserSession` inserts: the access token, the refresh token, one hour of life. */
  function NewSession(userId: int, tokens: Tokens, now: int): Session {
    Session(userId, tokens.access, tokens.refresh, now + SessionLifetime)
  }

  function TokenResponse(tokens: Tokens, user: UserInfo): JwtResponse {
    JwtResponse(tokens.access, tokens.refresh, ExpiresIn, TokenType, user)
  }

  /** The role links after the best-effort default-role step for the new user `uid`: one more
      link to the first role named 'user' when the step does not fail and such a role exists. */
  function DefaultRoleLinks(links: seq<UserRole>, roles: seq<Role>, uid: int, roleStepFails: bool): (r: seq<UserRole>)
    ensures |links| <= |r| <= |links| + 1 && r[..|links|] == links
    ensures |r| == |links| + 1 <==> !roleStepFails && exists j :: 0 <= j < |roles| && roles[j].name == DefaultRole
    ensures |r| == |links| + 1 ==>
      r[|links|].userId == uid
      && exists j :: 0 <= j < |roles| && roles[j].name == DefaultRole && roles[j].id == r[|links|].roleId
  {
    if roleStepFails then links
    else match FirstMatch(roles, RoleNamed(DefaultRole))
      case None => links
      case Some(k) =>
        var r := links + [UserRole(uid, roles[k].id)];
        assert r[..|links|] == links && roles[k].name == DefaultRole;
        r
  }

  /**
   * `register`. `roleStepFails` says the default-role lookup or link insert threw (the error is
   * logged and swallowed); `sessionWriteFails` says the session insert threw (fatal, but the
   * user row and role link written before it stay).
   */
  function Register(db: Db, c: Crypto, req: RegisterRequest, now: int,
                    roleStepFails: bool, sessionWriteFails: bool): (r: Step<Reply<JwtResponse>>)
    ensures FirstMatch(db.users, ByUsernameOrEmail(req.username, req.email)).Some?
      <==> r.out == Failure(UserExists)
    ensures r.out == Failure(UserExists) ==> r.db == db
    ensures r.out != Failure(UserExists) ==>
      && r.db.users == db.users + [User(db.nextUserId, req.username, req.email, c.hash(req.password), ActiveStatus)]
      && r.db.nextUserId == db.nextUserId + 1
      && r.db.roles == db.roles && r.db.nextRoleId == db.nextRoleId
      && (r.db.userRoles != db.userRoles <==> !roleStepFails && FirstMatch(db.roles, RoleNamed(DefaultRole)).Some?)
      && (r.db.userRoles != db.userRoles ==>
            var k := FirstMatch(db.roles, RoleNamed(DefaultRole)).value;
            r.db.userRoles == db.userRoles + [UserRole(db.nextUserId, db.roles[k].id)])
    ensures r.out != Failure(UserExists) ==>
      (sessionWriteFails <==> r.out == Failure(RegistrationFailed)) && (r.out.Success? <==> !sessionWriteFails)
    ensures r.out.Failure? ==> r.db.sessions == db.sessions
    ensures r.out.Success? ==>
      var tokens := GenerateTokens(c, Claims(db.nextUserId, req.username, req.email, [DefaultRole]), now);
      && r.db.sessions == db.sessions + [NewSession(db.nextUserId, tokens, now)]
      && r.out.value == Reply("User registered successfully",
           TokenResponse(tokens, UserInfo(db.nextUserId, req.username, req.email, [DefaultRole])), 201)
  {
    if FirstMatch(db.users, ByUsernameOrEmail(req.username, req.email)).Some? then
      Step(db, Failure(UserExists))
    else
      var user := User(db.nextUserId, req.username, req.email, c.hash(req.password), ActiveStatus);
      var links := DefaultRoleLinks(db.userRoles, db.roles, user.id, roleStepFails);
      var created := db.(users := db.users + [user], userRoles := links, nextUserId := db.nextUserId + 1);
      var tokens := GenerateTokens(c, Claims(user.id, user.username, user.email, [DefaultRole]), now);
      if sessionWriteFails then Step(created, Failure(RegistrationFailed))
      else
        Step(created.(sessions := db.sessions + [NewSession(user.id, tokens, now)]),
             Success(Reply("User registered successfully",
                           TokenResponse(tokens, UserInfo(user.id, user.username, user.email, [DefaultRole])), 201)))
  }

  /** `login`: look up by username or email, reject deactivated accounts, then check the password. */
  function Login(db: Db, c: Crypto, req: LoginRequest, now: int, sessionWriteFails: bool): (r: Step<Reply<JwtResponse>>)
    ensures r.out.Failure? ==> r.db == db
    ensures FirstMatch(db.users, ByLogin(req.username)).None? ==> r.out == Failure(InvalidCredentials)
    ensures FirstMatch(db.users, ByLogin(req.username)).Some? ==>
      var u := db.users[FirstMatch(db.users, ByLogin(req.username)).value];
      && (u.status != ActiveStatus ==> r.out == Failure(AccountDeactivated))
      && (u.status == ActiveStatus && !c.compare(req.password, u.password) ==> r.out == Failure(InvalidCredentials))
      && (u.status == ActiveStatus && c.compare(req.password, u.password) ==> (r.out.Success? <==> !sessionWriteFails))
      && (u.status == ActiveStatus && c.compare(req.password, u.password) && sessionWriteFails ==> r.out == Failure(LoginFailed))
    ensures r.out.Success? ==>
      var u := db.users[FirstMatch(db.users, ByLogin(req.username)).value];
      var roles := RoleNames(db.userRoles, db.roles, u.id);
      var tokens := GenerateTokens(c, Claims(u.id, u.username, u.email, roles), now);
      && r.db == db.(sessions := db.sessions + [NewSession(u.id, tokens, now)])
      && r.out.value == Reply("Login successful", TokenResponse(tokens, UserInfo(u.id, u.username, u.email, roles)), 200)
  {
    match FirstMatch(db.users, ByLogin(req.username))
    case None => Step(db, Failure(InvalidCredentials))
    case Some(i) =>
      var u := db.users[i];
      if u.status != ActiveStatus then Step(db, Failure(AccountDeactivated))
      else if !c.compare(req.password, u.password) then Step(db, Failure(InvalidCredentials))
      else
        var roles := RoleNames(db.userRoles, db.roles, u.id);
        var tokens := GenerateTokens(c, Claims(u.id, u.username, u.email, roles), now);
        if sessionWriteFails then Step(db, Failure(LoginFailed))
        else
          Step(db.(sessions := db.sessions + [NewSession(u.id, tokens, now)]),
               Success(Reply("Login successful", TokenResponse(tokens, UserInfo(u.id, u.username, u.email, roles)), 200)))
  }

  /** `validateToken`: the signature check, then a live session row with exactly this token.
      `lookupFails` says the session lookup threw; the `catch` turns that into null as well. */
  function ValidateToken(db: Db, c: Crypto, token: string, now: int, lookupFails: bool): (r: Option<Payload>)
    ensures r.Some? <==> c.verify(token, now).Some? && !lookupFails && HasLiveSession(db.sessions, token, now)
    ensures r.Some? ==> r == c.verify(token, now)
  {
    match c.verify(token, now)
    case None => None
    case Some(p) =>
      if lookupFails then None
      else if FirstMatch(db.sessions, LiveSession(token, now)).Some? then Some(p) else None
  }

  /** `logout`: delete every session with this token; no signature check, zero rows is fine. */
  function Logout(db: Db, token: string, deleteFails: bool): (r: Step<Reply<()>>)
    ensures deleteFails ==> r == Step(db, Failure(LogoutFailed))
    ensures !deleteFails ==> r.out == Success(Reply("Logout successful", (), 200))
    ensures !deleteFails ==> r.db == db.(sessions := Filter(db.sessions, OtherToken(token)))
  {
    if deleteFails then Step(db, Failure(LogoutFailed))
    else Step(db.(sessions := Filter(db.sessions, OtherToken(token))), Success(Reply("Logout successful", (), 200)))
  }

  // ---- Properties ---------------------------------------------------------------------

  /** Registration keeps the schema's constraints. */
  lemma RegisterPreservesValid(db: Db, c: Crypto, req: RegisterRequest, now: int, rsf: bool, swf: bool)
    requires ValidDb(db)
    ensures ValidDb(Register(db, c, req, now, rsf, swf).db)
  {
    var r := Register(db, c, req, now, rsf, swf);
    if r.out != Failure(UserExists) {
      var n := |db.users|;
      assert r.db.users[n].id == db.nextUserId;
      forall k | 0 <= k < |r.db.userRoles|
        ensures UserExistsWithId(r.db.users, r.db.userRoles[k].userId)
        ensures RoleExistsWithId(r.db.roles, r.db.userRoles[k].roleId)
      {
        if k < |db.userRoles| {
          assert r.db.userRoles[k] == db.userRoles[k];
          var i :| 0 <= i < |db.users| && db.users[i].id == db.userRoles[k].userId;
          assert r.db.users[i] == db.users[i];
        } else {
          assert r.db.userRoles[k].userId == r.db.users[n].id;
          var j := FirstMatch(db.roles, RoleNamed(DefaultRole)).value;
          assert r.db.roles[j].id == r.db.userRoles[k].roleId;
        }
      }
    }
  }

  lemma LoginPreservesValid(db: Db, c: Crypto, req: LoginRequest, now: int, swf: bool)
    requires ValidDb(db)
    ensures ValidDb(Login(db, c, req, now, swf).db)
  {
  }

  lemma LogoutPreservesValid(db: Db, token: string, deleteFails: bool)
    requires ValidDb(db)
    ensures ValidDb(Logout(db, token, deleteFails).db)
  {
  }

  /** Unknown user and wrong password cannot be told apart: same error, nothing written. */
  lemma NoUserEnumeration(db1: Db, req1: LoginRequest, db2: Db, req2: LoginRequest,
                          c: Crypto, now1: int, now2: int, swf1: bool, swf2: bool)
    requires FirstMatch(db1.users, ByLogin(req1.username)).None?
    requires FirstMatch(db2.users, ByLogin(req2.username)).Some?
    requires var u := db2.users[FirstMatch(db2.users, ByLogin(req2.username)).value];
      u.status == ActiveStatus && !c.compare(req2.password, u.password)
    ensures Login(db1, c, req1, now1, swf1) == Step(db1, Failure(InvalidCredentials))
    ensures Login(db2, c, req2, now2, swf2) == Step(db2, Failure(InvalidCredentials))
  {
  }

  /** An active user who gives the password that was hashed at registration gets in, and the
      reply lists every role linked to them. */
  lemma CorrectPasswordLogsIn(db: Db, c: Crypto, req: LoginRequest, now: int, j: nat, k: nat)
    requires Sound(c) && ValidDb(db)
    requires FirstMatch(db.users, ByLogin(req.username)).Some?
    requires var u := db.users[FirstMatch(db.users, ByLogin(req.username)).value];
      u.status == ActiveStatus && u.password == c.hash(req.password)
    requires k < |db.userRoles| && j < |db.roles|
    requires db.userRoles[k].userId == db.users[FirstMatch(db.users, ByLogin(req.username)).value].id
    requires db.roles[j].id == db.userRoles[k].roleId
    ensures Login(db, c, req, now, false).out.Success?
    ensures db.roles[j].name in Login(db, c, req, now, false).out.value.data.user.roles
  {
    var u := db.users[FirstMatch(db.users, ByLogin(req.username)).value];
    RoleNamesComplete(db.userRoles, db.roles, u.id, k, j);
  }

  /** The roles in the reply are the roles in the access token's claims. */
  lemma LoginRolesMatchTokenClaims(db: Db, c: Crypto, req: LoginRequest, now: int, swf: bool)
    requires Sound(c)
    requires Login(db, c, req, now, swf).out.Success?
    ensures var data := Login(db, c, req, now, swf).out.value.data;
      && c.verify(data.accessToken, now).Some?
      && c.verify(data.accessToken, now).value.claims.roles == data.user.roles
      && c.verify(data.accessToken, now).value.claims.sub == data.user.userId
  {
  }

  /** A token just issued by login validates, and names the user who logged in. */
  lemma LoginTokenValidates(db: Db, c: Crypto, req: LoginRequest, now: int)
    requires Sound(c)
    requires Login(db, c, req, now, false).out.Success?
    ensures var r := Login(db, c, req, now, false);
      && ValidateToken(r.db, c, r.out.value.data.accessToken, now, false).Some?
      && ValidateToken(r.db, c, r.out.value.data.accessToken, now, false).value.claims.sub == r.out.value.data.user.userId
  {
    var r := Login(db, c, req, now, false);
    var last := |r.db.sessions| - 1;
    assert r.db.sessions[last].token == r.out.value.data.accessToken;
  }

  /** A token just issued by registration validates and names the new user. */
  lemma RegisterTokenValidates(db: Db, c: Crypto, req: RegisterRequest, now: int, rsf: bool)
    requires Sound(c)
    requires Register(db, c, req, now, rsf, false).out.Success?
    ensures var r := Register(db, c, req, now, rsf, false);
      && ValidateToken(r.db, c, r.out.value.data.accessToken, now, false).Some?
      && ValidateToken(r.db, c, r.out.value.data.accessToken, now, false).value.claims.sub == db.nextUserId
  {
    var r := Register(db, c, req, now, rsf, false);
    var last := |r.db.sessions| - 1;
    assert r.db.sessions[last].token == r.out.value.data.accessToken;
  }

  /** Whether the default-role step failed changes nothing in the reply. */
  lemma RoleStepIsBestEffort(db: Db, c: Crypto, req: RegisterRequest, now: int, swf: bool)
    ensures Register(db, c, req, now, true, swf).out == Register(db, c, req, now, false, swf).out
  {
  }

  /** When the role step fails the new user has no role row, yet the token claims role 'user'. */
  lemma RoleClaimWithoutRoleRow(db: Db, c: Crypto, req: RegisterRequest, now: int)
    requires Sound(c) && ValidDb(db)
    requires Register(db, c, req, now, true, false).out.Success?
    ensures var r := Register(db, c, req, now, true, false);
      && RoleNames(r.db.userRoles, r.db.roles, db.nextUserId) == []
      && c.verify(r.out.value.data.accessToken, now).value.claims.roles == [DefaultRole]
  {
    RoleNamesOfUnlinked(db.userRoles, db.roles, db.nextUserId);
  }

  /** After logout of a token, validating that token fails, whatever the clock says. */
  lemma LogoutRevokes(db: Db, c: Crypto, token: string, now: int, lookupFails: bool)
    ensures ValidateToken(Logout(db, token, false).db, c, token, now, lookupFails).None?
  {
  }

  /** Logging out a token twice is the same as once: same state, same success reply. */
  lemma LogoutIdempotent(db: Db, token: string)
    ensures var once := Logout(db, token, false);
      Logout(once.db, token, false) == once
  {
    FilterIdempotent(db.sessions, OtherToken(token));
  }

  /** Logout leaves every other token's validity as it was. */
  lemma LogoutKeepsOtherTokens(db: Db, c: Crypto, token: string, other: string, now: int, lookupFails: bool)
    requires other != token
    ensures ValidateToken(Logout(db, token, false).db, c, other, now, lookupFails)
         == ValidateToken(db, c, other, now, lookupFails)
  {
    var kept := Filter(db.sessions, OtherToken(token));
    if HasLiveSession(db.sessions, other, now) {
      var i :| 0 <= i < |db.sessions| && db.sessions[i].token == other && db.sessions[i].expiresAt > now;
      assert OtherToken(token)(db.sessions[i]);
      assert db.sessions[i] in kept;
    }
  }

  /** Sessions only accumulate: a login keeps every token that validated before valid. */
  lemma LoginKeepsEarlierTokens(db: Db, c: Crypto, req: LoginRequest, now: int, swf: bool, token: string)
    requires ValidateToken(db, c, token, now, false).Some?
    ensures ValidateToken(Login(db, c, req, now, swf).db, c, token, now, false).Some?
  {
    var s := Login(db, c, req, now, swf).db.sessions;
    var i :| 0 <= i < |db.sessions| && db.sessions[i].token == token && db.sessions[i].expiresAt > now;
    assert s[i] == db.sessions[i];
  }
}
