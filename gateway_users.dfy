/**
 * The gateway's user controller. The profile is answered from the token's claims alone;
 * updates put the URL id first and spread the body after it, and a user update does not look
 * at who is asking.
 */
module GatewayUsersController {
  import opened Wrappers
  import opened Records
  import Auth

  datatype Request =
    | Profile
    | FindAllUsers(query: Record)
    | UpdateUser(id: int, body: Record)
    | FindAllTeams(query: Record)
    | CreateTeam(body: Record)
    | UpdateTeam(id: int, body: Record)

  datatype Message =
    | FindAllUsersMsg(query: Record)
    | UpdateUserMsg(data: Record)
    | FindAllTeamsMsg(query: Record)
    | CreateTeamMsg(data: Record)
    | UpdateTeamMsg(data: Record)

  datatype ProfileData = ProfileData(userId: int, username: string, email: string, roles: seq<string>)
  datatype ProfileReply = ProfileReply(message: string, data: ProfileData, statusCode: int)

  /** What a request produces: a message to the user service, or (for the profile) a reply
      built on the spot. */
  datatype Outcome = Send(msg: Message) | Answer(reply: ProfileReply)

  /** A request from the caller whose verified token payload is `user`. */
  function Route(req: Request, user: Auth.Payload): Outcome {
    var sub := user.claims.sub;
    match req
    case Profile =>
      Answer(ProfileReply("User profile retrieved successfully",
                          ProfileData(sub, user.claims.username, user.claims.email, user.claims.roles), 200))
    case FindAllUsers(query) => Send(FindAllUsersMsg(query))
    case UpdateUser(id, body) => Send(UpdateUserMsg(map["id" := Num(id)] + body))
    case FindAllTeams(query) => Send(FindAllTeamsMsg(query))
    case CreateTeam(body) => Send(CreateTeamMsg(body["created_by" := Num(sub)]))
    case UpdateTeam(id, body) => Send(UpdateTeamMsg(map["id" := Num(id)] + body["updated_by" := Num(sub)]))
  }

  /** The profile sends nothing and echoes the claims. */
  lemma ProfileFromClaims(user: Auth.Payload)
    ensures var o := Route(Profile, user);
      && o.Answer?
      && o.reply.statusCode == 200
      && o.reply.data.userId == user.claims.sub
      && o.reply.data.roles == user.claims.roles
      && o.reply.data.username == user.claims.username
      && o.reply.data.email == user.claims.email
  {
  }

  /** A user update is the same message whoever sends it, and targets the body's `id` when
      there is one, the URL's otherwise. */
  lemma UpdateUserIgnoresCaller(id: int, body: Record, user: Auth.Payload, other: Auth.Payload)
    ensures Route(UpdateUser(id, body), user) == Route(UpdateUser(id, body), other)
    ensures var m := Route(UpdateUser(id, body), user).msg;
      && ("id" in body ==> NumberAt(m.data, "id") == NumberAt(body, "id"))
      && ("id" !in body ==> NumberAt(m.data, "id") == Some(id))
      && Omit(m.data, "id") == Omit(body, "id")
  {
    var m := Route(UpdateUser(id, body), user).msg;
    assert Omit(m.data, "id") == Omit(body, "id");
  }

  /** A team is created as the caller's, whatever the body says. */
  lemma TeamCreatorIsCaller(body: Record, user: Auth.Payload)
    ensures var m := Route(CreateTeam(body), user).msg;
      NumberAt(m.data, "created_by") == Some(user.claims.sub)
      && forall k :: k in body && k != "created_by" ==> k in m.data && m.data[k] == body[k]
  {
  }

  /** A team update targets the body's `id` first and records the caller as `updated_by`. */
  lemma TeamUpdateTargetsBodyIdFirst(id: int, body: Record, user: Auth.Payload)
    ensures var m := Route(UpdateTeam(id, body), user).msg;
      && ("id" in body ==> NumberAt(m.data, "id") == NumberAt(body, "id"))
      && ("id" !in body ==> NumberAt(m.data, "id") == Some(id))
      && NumberAt(m.data, "updated_by") == Some(user.claims.sub)
      && Omit(m.data, "id") == Overriding(Omit(body, "id"), "updated_by", Num(user.claims.sub))
  {
    var m := Route(UpdateTeam(id, body), user).msg;
    assert Omit(m.data, "id") == Overriding(Omit(body, "id"), "updated_by", Num(user.claims.sub));
  }

  /** The profile served right after a login shows that login's user id and roles. */
  lemma ProfileAfterLogin(db: Auth.Db, c: Auth.Crypto, req: Auth.LoginRequest, now: int)
    requires Auth.Sound(c)
    requires Auth.Login(db, c, req, now, false).out.Success?
    ensures var r := Auth.Login(db, c, req, now, false);
      var token := r.out.value.data.accessToken;
      var p := Auth.ValidateToken(r.db, c, token, now, false);
      && p.Some?
      && Route(Profile, p.value).reply.data.userId == r.out.value.data.user.userId
      && Route(Profile, p.value).reply.data.roles == r.out.value.data.user.roles
  {
    Auth.LoginTokenValidates(db, c, req, now);
    Auth.LoginRolesMatchTokenClaims(db, c, req, now, false);
  }
}
