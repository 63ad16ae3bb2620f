/**
 * The auth service as an object over its tables. Each method performs the source's sequence
 * of ORM calls on the table fields and is proved to leave the tables exactly as the
 * corresponding function of module Auth says.
 */
module AuthService {
  import opened Wrappers
  import opened Seqs
  import opened Auth

  class AuthService {
    /** The JWT service injected at construction, and bcrypt. */
    const crypto: Crypto

    var users: seq<User>
    var roles: seq<Role>
    var userRoles: seq<UserRole>
    var sessions: seq<Session>
    var nextUserId: int
    var nextRoleId: int

    function State(): Db
      reads this
    {
      Auth.Db(users, roles, userRoles, sessions, nextUserId, nextRoleId)
    }

    ghost predicate Valid()
      reads this
    {
      Sound(crypto) && ValidDb(State())
    }

    constructor (crypto: Crypto, db: Db)
      requires Sound(crypto) && ValidDb(db)
      ensures Valid() && State() == db && this.crypto == crypto
    {
      this.crypto := crypto;
      users, roles, userRoles, sessions := db.users, db.roles, db.userRoles, db.sessions;
      nextUserId, nextRoleId := db.nextUserId, db.nextRoleId;
    }

    /** `saveUserSession`: insert one session row expiring an hour from now. */
    method SaveUserSession(userId: int, tokens: Tokens, now: int)
      modifies this`sessions
      ensures sessions == old(sessions) + [NewSession(userId, tokens, now)]
    {
      var expiresAt := now + SessionLifetime;
      sessions := sessions + [Session(userId, tokens.access, tokens.refresh, expiresAt)];
    }

    /** `user.create`: the new row under the next key, with the hashed password and status 1. */
    method CreateUser(req: RegisterRequest, hashed: string) returns (user: User)
      modifies this`users, this`nextUserId
      ensures user == User(old(nextUserId), req.username, req.email, hashed, ActiveStatus)
      ensures users == old(users) + [user] && nextUserId == old(nextUserId) + 1
    {
      user := User(nextUserId, req.username, req.email, hashed, ActiveStatus);
      users := users + [user];
      nextUserId := nextUserId + 1;
    }

    /** The default-role step: look up the 'user' role and link it; a failure is swallowed. */
    method AttachDefaultRole(userId: int, roleStepFails: bool)
      modifies this`userRoles
      ensures userRoles == DefaultRoleLinks(old(userRoles), roles, userId, roleStepFails)
    {
      if !roleStepFails {
        var defaultRole := FindFirst(roles, RoleNamed(DefaultRole));
        if defaultRole.Some? {
          userRoles := userRoles + [UserRole(userId, roles[defaultRole.value].id)];
        }
      }
    }

    method Register(req: RegisterRequest, now: int, roleStepFails: bool, sessionWriteFails: bool)
      returns (out: Result<Reply<JwtResponse>, AuthError>)
      requires Valid()
      modifies this
      ensures Valid()
      ensures var r := Auth.Register(old(State()), crypto, req, now, roleStepFails, sessionWriteFails);
        State() == r.db && out == r.out
    {
      ghost var before := State();
      ghost var spec := Auth.Register(before, crypto, req, now, roleStepFails, sessionWriteFails);
      RegisterPreservesValid(before, crypto, req, now, roleStepFails, sessionWriteFails);
      var existing := FindFirst(users, ByUsernameOrEmail(req.username, req.email));
      if existing.Some? {
        return Failure(UserExists);
      }
      var user := CreateUser(req, crypto.hash(req.password));
      AttachDefaultRole(user.id, roleStepFails);
      ghost var created := before.(users := users, userRoles := userRoles, nextUserId := nextUserId);
      assert State() == created;
      var tokens := GenerateTokens(crypto, Claims(user.id, user.username, user.email, [DefaultRole]), now);
      if sessionWriteFails {
        assert spec.db == created;
        return Failure(RegistrationFailed);
      }
      SaveUserSession(user.id, tokens, now);
      var info := UserInfo(user.id, user.username, user.email, [DefaultRole]);
      out := Success(Reply("User registered successfully", TokenResponse(tokens, info), 201));
      assert spec.db == created.(sessions := sessions);
    }

    method Login(req: LoginRequest, now: int, sessionWriteFails: bool)
      returns (out: Result<Reply<JwtResponse>, AuthError>)
      requires Valid()
      modifies this`sessions
      ensures Valid()
      ensures var r := Auth.Login(old(State()), crypto, req, now, sessionWriteFails);
        State() == r.db && out == r.out
    {
      LoginPreservesValid(State(), crypto, req, now, sessionWriteFails);
      var found := FindFirst(users, ByLogin(req.username));
      if found.None? {
        return Failure(InvalidCredentials);
      }
      var user := users[found.value];
      if user.status != ActiveStatus {
        return Failure(AccountDeactivated);
      }
      if !crypto.compare(req.password, user.password) {
        return Failure(InvalidCredentials);
      }
      var names := CollectRoleNames(user.id);
      var tokens := GenerateTokens(crypto, Claims(user.id, user.username, user.email, names), now);
      if sessionWriteFails {
        return Failure(LoginFailed);
      }
      SaveUserSession(user.id, tokens, now);
      var info := UserInfo(user.id, user.username, user.email, names);
      out := Success(Reply("Login successful", TokenResponse(tokens, info), 200));
    }

    /** `user.roles.map(ur => ur.role.name)` over the joined role rows. */
    method CollectRoleNames(uid: int) returns (names: seq<string>)
      ensures names == RoleNames(userRoles, roles, uid)
    {
      names := [];
      var i := 0;
      while i < |userRoles|
        invariant 0 <= i <= |userRoles|
        invariant names == RoleNames(userRoles[..i], roles, uid)
      {
        assert userRoles[..i + 1][..i] == userRoles[..i];
        var link := userRoles[i];
        if link.userId == uid {
          var role := FindFirst(roles, RoleWithId(link.roleId));
          if role.Some? {
            names := names + [roles[role.value].name];
          }
        }
        i := i + 1;
      }
      assert userRoles[..|userRoles|] == userRoles;
    }

    /** Read-only: the signature check, then the session lookup, whose failure is caught. */
    method ValidateToken(token: string, now: int, lookupFails: bool) returns (r: Option<Payload>)
      requires Valid()
      ensures r == Auth.ValidateToken(State(), crypto, token, now, lookupFails)
    {
      var payload := crypto.verify(token, now);
      if payload.None? || lookupFails {
        return None;
      }
      var session := FindFirst(sessions, LiveSession(token, now));
      if session.None? {
        return None;
      }
      r := payload;
    }

    method Logout(token: string, deleteFails: bool) returns (out: Result<Reply<()>, AuthError>)
      requires Valid()
      modifies this`sessions
      ensures Valid()
      ensures var r := Auth.Logout(old(State()), token, deleteFails);
        State() == r.db && out == r.out
    {
      LogoutPreservesValid(State(), token, deleteFails);
      if deleteFails {
        return Failure(LogoutFailed);
      }
      sessions := Select(sessions, OtherToken(token));
      out := Success(Reply("Logout successful", (), 200));
    }
  }
}
