/**
 * The project service over its two tables: projects and project memberships. A membership is
 * keyed by the pair (project, user), which the database keeps unique.
 */
module ProjectsService {
  import opened Wrappers
  import opened Records
  import opened Seqs
  import opened Tables
  import opened Pagination

  datatype Member = Member(projectId: int, userId: int, role: string)
  datatype JoinRequest = JoinRequest(userId: int, role: string)

  /** `Project with ID <id> not found`, an update message with no numeric `id` (the ORM
      rejects the lookup), and `User with ID <userId> is already a member of this project`. */
  datatype ProjectError = ProjectNotFound(id: int) | IdMissing | AlreadyMember(userId: int)

  function MemberOf(projectId: int): Member -> bool {
    (m: Member) => m.projectId == projectId
  }

  function IsPair(projectId: int, userId: int): Member -> bool {
    (m: Member) => m.projectId == projectId && m.userId == userId
  }

  /** The composite key `project_id_user_id`. */
  ghost predicate UniquePairs(members: seq<Member>) {
    forall i, j :: 0 <= i < j < |members| ==>
      members[i].projectId != members[j].projectId || members[i].userId != members[j].userId
  }

  /** `findUnique({ where: { project_id_user_id: { project_id, user_id } } })`. */
  function Membership(members: seq<Member>, projectId: int, userId: int): (r: Option<Member>)
    ensures r.Some? ==> r.value in members && r.value.projectId == projectId && r.value.userId == userId
    ensures r.None? <==> forall i :: 0 <= i < |members| ==>
      members[i].projectId != projectId || members[i].userId != userId
  {
    match FirstMatch(members, IsPair(projectId, userId))
    case None => None
    case Some(i) => Some(members[i])
  }

  /** Adding a pair that is not yet a member keeps pairs unique. */
  lemma JoinKeepsPairsUnique(members: seq<Member>, m: Member)
    requires UniquePairs(members)
    requires Membership(members, m.projectId, m.userId).None?
    ensures UniquePairs(members + [m])
  {
    var all := members + [m];
    forall i, j | 0 <= i < j < |all|
      ensures all[i].projectId != all[j].projectId || all[i].userId != all[j].userId
    {
      if j == |members| {
        assert all[i] == members[i];
      }
    }
  }

  /** A new member shows up last in its project's member list and in no other project's. */
  lemma JoinedMemberListed(members: seq<Member>, m: Member, projectId: int)
    ensures Filter(members + [m], MemberOf(projectId)) ==
      if projectId == m.projectId then Filter(members, MemberOf(projectId)) + [m]
      else Filter(members, MemberOf(projectId))
  {
    assert (members + [m])[..|members|] == members;
  }

  class ProjectsService {
    var projects: seq<Row>
    var members: seq<Member>

    ghost predicate Valid()
      reads this
    {
      UniqueIds(projects) && UniquePairs(members)
    }

    constructor (projects: seq<Row>, members: seq<Member>)
      requires UniqueIds(projects) && UniquePairs(members)
      ensures Valid() && this.projects == projects && this.members == members
    {
      this.projects, this.members := projects, members;
    }

    /** `findAllProjectsService`: one page of all projects and the meta block. */
    method FindAllProjects(q: PageQuery) returns (r: Response<seq<Row>>)
      requires WellFormed(q)
      ensures r.data == Window(projects, PageOf(q), LimitOf(q))
      ensures r.meta == Some(Meta(|projects|, q)) && r.statusCode == 200
    {
      var page, limit := PageOf(q), LimitOf(q);
      var total := |projects|;
      r := Response("Projects retrieved successfully", Window(projects, page, limit), 200,
                    Some(PageMeta(total, page, limit, CeilDiv(total, limit))));
    }

    /** `findOneProject`: the bare row, or the not-found error. */
    method FindOneProject(id: int) returns (r: Result<Row, ProjectError>)
      ensures r.Failure? <==> forall i :: 0 <= i < |projects| ==> projects[i].id != id
      ensures r.Failure? ==> r.error == ProjectNotFound(id)
      ensures r.Success? ==> r.value in projects && r.value.id == id
    {
      var project := FindById(projects, id);
      if project.None? {
        return Failure(ProjectNotFound(id));
      }
      r := Success(project.value);
    }

    /** `updateProjectService`: the key comes out of the message, the rest is the update. */
    method UpdateProject(dto: Record) returns (r: Result<Response<Row>, ProjectError>)
      requires Valid()
      modifies this`projects
      ensures Valid()
      ensures NumberAt(dto, "id").None? ==> r == Failure(IdMissing) && projects == old(projects)
      ensures NumberAt(dto, "id").Some? && Lookup(old(projects), NumberAt(dto, "id").value).None? ==>
        r == Failure(ProjectNotFound(NumberAt(dto, "id").value)) && projects == old(projects)
      ensures NumberAt(dto, "id").Some? && Lookup(old(projects), NumberAt(dto, "id").value).Some? ==>
        var id := NumberAt(dto, "id").value;
        && projects == UpdateById(old(projects), id, Omit(dto, "id"))
        && r == Success(Response("Project updated successfully",
                                 Row(id, Lookup(old(projects), id).value.cols + Omit(dto, "id")), 200, None))
    {
      var key := NumberAt(dto, "id");
      if key.None? {
        return Failure(IdMissing);
      }
      var id, updateData := key.value, Omit(dto, "id");
      var found := FindOneProject(id);
      if found.Failure? {
        return Failure(found.error);
      }
      UpdateKeepsUniqueIds(projects, id, updateData);
      LookupAfterUpdate(projects, id, updateData);
      projects := UpdateById(projects, id, updateData);
      var updated := FindById(projects, id);
      r := Success(Response("Project updated successfully", updated.value, 200, None));
    }

    /** `getAllProjectMembers`: the memberships of one project; the project need not exist. */
    method GetAllProjectMembers(projectId: int) returns (r: Response<seq<Member>>)
      ensures r.data == Filter(members, MemberOf(projectId)) && r.statusCode == 200
      ensures forall i :: 0 <= i < |r.data| ==> r.data[i] in members && r.data[i].projectId == projectId
      ensures forall i :: 0 <= i < |members| && members[i].projectId == projectId ==> members[i] in r.data
    {
      var mine := Select(members, MemberOf(projectId));
      r := Response("Project members retrieved successfully", mine, 200, None);
    }

    /** `joinProjectMember`: the project must exist and the pair must be new; then exactly one
        membership with the requested role is created. */
    method JoinProjectMember(projectId: int, dto: JoinRequest) returns (r: Result<Response<Member>, ProjectError>)
      requires Valid()
      modifies this`members
      ensures Valid()
      ensures Lookup(projects, projectId).None? ==>
        r == Failure(ProjectNotFound(projectId)) && members == old(members)
      ensures Lookup(projects, projectId).Some? && Membership(old(members), projectId, dto.userId).Some? ==>
        r == Failure(AlreadyMember(dto.userId)) && members == old(members)
      ensures Lookup(projects, projectId).Some? && Membership(old(members), projectId, dto.userId).None? ==>
        && members == old(members) + [Member(projectId, dto.userId, dto.role)]
        && r == Success(Response("User added to project successfully", Member(projectId, dto.userId, dto.role), 201, None))
    {
      var project := FindOneProject(projectId);
      if project.Failure? {
        return Failure(project.error);
      }
      var existing := FindFirst(members, IsPair(projectId, dto.userId));
      if existing.Some? {
        return Failure(AlreadyMember(dto.userId));
      }
      var m := Member(projectId, dto.userId, dto.role);
      JoinKeepsPairsUnique(members, m);
      members := members + [m];
      r := Success(Response("User added to project successfully", m, 201, None));
    }
  }
}
