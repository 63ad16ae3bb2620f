/**
 * The gateway's project controller. Creation and joining take the caller from the token;
 * an update puts the URL id first and spreads the body after it, so an `id` in the body
 * decides which project is updated.
 */
module GatewayProjectsController {
  import opened Wrappers
  import opened Records

  datatype Request =
    | FindAll(query: Record)
    | Create(body: Record)
    | Update(id: int, body: Record)
    | Members(projectId: int)
    | Join(projectId: int, body: Record)
    | FindOne(id: int)
    | MyProjects(query: Record)

  datatype Message =
    | FindAllProjects(query: Record)
    | CreateProject(data: Record)
    | UpdateProject(data: Record)
    | FindAllProjectMembers(projectId: int)
    | JoinProjectMember(projectId: int, joinMemberDto: Record)
    | FindOneProject(id: int)
    | FindUserProjects(query: Record)

  /** The message a request from the user `sub` produces. */
  function Route(req: Request, sub: int): Message {
    match req
    case FindAll(query) => FindAllProjects(query)
    case Create(body) => CreateProject(body["created_by" := Num(sub)])
    case Update(id, body) => UpdateProject(map["id" := Num(id)] + body["updated_by" := Num(sub)])
    case Members(projectId) => FindAllProjectMembers(projectId)
    case Join(projectId, body) => JoinProjectMember(projectId, body["projectId" := Num(projectId)]["userId" := Num(sub)])
    case FindOne(id) => FindOneProject(id)
    case MyProjects(query) => FindUserProjects(query["userId" := Num(sub)])
  }

  /** Whatever the body says, the project is created as the caller's. */
  lemma CreatorIsCaller(body: Record, sub: int)
    ensures var m := Route(Create(body), sub);
      NumberAt(m.data, "created_by") == Some(sub)
      && forall k :: k in body && k != "created_by" ==> k in m.data && m.data[k] == body[k]
  {
  }

  /** The project the service updates is the body's `id` when the body has one, and the URL's
      otherwise; `updated_by` is always the caller. */
  lemma UpdateTargetsBodyIdFirst(id: int, body: Record, sub: int)
    ensures var m := Route(Update(id, body), sub);
      && ("id" in body ==> NumberAt(m.data, "id") == NumberAt(body, "id"))
      && ("id" !in body ==> NumberAt(m.data, "id") == Some(id))
      && NumberAt(m.data, "updated_by") == Some(sub)
      && Omit(m.data, "id") == Overriding(Omit(body, "id"), "updated_by", Num(sub))
  {
    var m := Route(Update(id, body), sub);
    assert Omit(m.data, "id") == Overriding(Omit(body, "id"), "updated_by", Num(sub));
  }

  /** A PATCH on project 1 whose body says `id: 2` updates project 2. */
  lemma BodyIdRedirectsUpdate(sub: int)
    ensures NumberAt(Route(Update(1, map["id" := Num(2)]), sub).data, "id") == Some(2)
  {
    UpdateTargetsBodyIdFirst(1, map["id" := Num(2)], sub);
  }

  /** A join request always enrols the caller in the URL's project; the role is the body's. */
  lemma JoinEnrolsCaller(projectId: int, body: Record, sub: int)
    ensures var m := Route(Join(projectId, body), sub);
      && m.projectId == projectId
      && NumberAt(m.joinMemberDto, "userId") == Some(sub)
      && NumberAt(m.joinMemberDto, "projectId") == Some(projectId)
      && ("role" in body ==> "role" in m.joinMemberDto && m.joinMemberDto["role"] == body["role"])
  {
  }

  /** `my-projects` asks for the caller's projects whatever `userId` the query carried; the
      full listing forwards the query unchanged. */
  lemma OwnListingIsCallers(query: Record, sub: int)
    ensures var m := Route(MyProjects(query), sub);
      && NumberAt(m.query, "userId") == Some(sub)
      && forall k :: k in query && k != "userId" ==> k in m.query && m.query[k] == query[k]
    ensures Route(FindAll(query), sub) == FindAllProjects(query)
  {
  }
}
