/**
 * The user service over the user-profile and team tables. Teams get their key from an
 * autoincrement counter.
 */
module UsersService {
  import opened Wrappers
  import opened Records
  import opened Seqs
  import opened Tables
  import opened Pagination

  /** `User with ID <id> not found`, `Team with ID <id> not found`, and an update message
      without a numeric `id`, whose lookup the ORM rejects. */
  datatype UserError = UserNotFound(id: int) | TeamNotFound(id: int) | IdMissing

  /** Every key is below the next one the counter hands out. */
  ghost predicate KeysBelow(rows: seq<Row>, next: int) {
    forall i :: 0 <= i < |rows| ==> rows[i].id < next
  }

  /** A row inserted under a fresh key keeps keys unique and can be read back. */
  lemma InsertFresh(rows: seq<Row>, next: int, cols: Record)
    requires UniqueIds(rows) && KeysBelow(rows, next)
    ensures UniqueIds(rows + [Row(next, cols)]) && KeysBelow(rows + [Row(next, cols)], next + 1)
    ensures Lookup(rows + [Row(next, cols)], next) == Some(Row(next, cols))
    ensures forall id :: id != next ==> Lookup(rows + [Row(next, cols)], id) == Lookup(rows, id)
  {
    var all := rows + [Row(next, cols)];
    assert HasId(next)(all[|rows|]);
    forall id | id != next ensures Lookup(all, id) == Lookup(rows, id) {
      FirstMatchPrefix(rows, Row(next, cols), HasId(id));
    }
  }

  class UsersService {
    var users: seq<Row>
    var teams: seq<Row>
    var nextTeamId: int

    ghost predicate Valid()
      reads this
    {
      UniqueIds(users) && UniqueIds(teams) && KeysBelow(teams, nextTeamId)
    }

    constructor (users: seq<Row>, teams: seq<Row>, nextTeamId: int)
      requires UniqueIds(users) && UniqueIds(teams) && KeysBelow(teams, nextTeamId)
      ensures Valid() && this.users == users && this.teams == teams && this.nextTeamId == nextTeamId
    {
      this.users, this.teams, this.nextTeamId := users, teams, nextTeamId;
    }

    /** `findAllUsersService`: one page of users and the meta block. */
    method FindAllUsers(q: PageQuery) returns (r: Response<seq<Row>>)
      requires WellFormed(q)
      ensures r.data == Window(users, PageOf(q), LimitOf(q))
      ensures r.meta == Some(Meta(|users|, q)) && r.statusCode == 200
    {
      var page, limit := PageOf(q), LimitOf(q);
      var total := |users|;
      r := Response("Users retrieved successfully", Window(users, page, limit), 200,
                    Some(PageMeta(total, page, limit, CeilDiv(total, limit))));
    }

    /** `findAllTeamsService`: one page of teams and the meta block. */
    method FindAllTeams(q: PageQuery) returns (r: Response<seq<Row>>)
      requires WellFormed(q)
      ensures r.data == Window(teams, PageOf(q), LimitOf(q))
      ensures r.meta == Some(Meta(|teams|, q)) && r.statusCode == 200
    {
      var page, limit := PageOf(q), LimitOf(q);
      var total := |teams|;
      r := Response("Teams retrieved successfully", Window(teams, page, limit), 200,
                    Some(PageMeta(total, page, limit, CeilDiv(total, limit))));
    }

    /** `findOneUser`: the bare row, or the not-found error. */
    method FindOneUser(id: int) returns (r: Result<Row, UserError>)
      ensures r.Failure? <==> forall i :: 0 <= i < |users| ==> users[i].id != id
      ensures r.Failure? ==> r.error == UserNotFound(id)
      ensures r.Success? ==> r.value in users && r.value.id == id
    {
      var user := FindById(users, id);
      if user.None? {
        return Failure(UserNotFound(id));
      }
      r := Success(user.value);
    }

    /** `findOneTeam`: the bare row, or the not-found error. */
    method FindOneTeam(id: int) returns (r: Result<Row, UserError>)
      ensures r.Failure? <==> forall i :: 0 <= i < |teams| ==> teams[i].id != id
      ensures r.Failure? ==> r.error == TeamNotFound(id)
      ensures r.Success? ==> r.value in teams && r.value.id == id
    {
      var team := FindById(teams, id);
      if team.None? {
        return Failure(TeamNotFound(id));
      }
      r := Success(team.value);
    }

    /** `updateUserService`: the key comes out of the message, the rest is the update. */
    method UpdateUser(dto: Record) returns (r: Result<Response<Row>, UserError>)
      requires Valid()
      modifies this`users
      ensures Valid()
      ensures NumberAt(dto, "id").None? ==> r == Failure(IdMissing) && users == old(users)
      ensures NumberAt(dto, "id").Some? && Lookup(old(users), NumberAt(dto, "id").value).None? ==>
        r == Failure(UserNotFound(NumberAt(dto, "id").value)) && users == old(users)
      ensures NumberAt(dto, "id").Some? && Lookup(old(users), NumberAt(dto, "id").value).Some? ==>
        var id := NumberAt(dto, "id").value;
        && users == UpdateById(old(users), id, Omit(dto, "id"))
        && r == Success(Response("User updated successfully",
                                 Row(id, Lookup(old(users), id).value.cols + Omit(dto, "id")), 200, None))
    {
      var key := NumberAt(dto, "id");
      if key.None? {
        return Failure(IdMissing);
      }
      var id, updateData := key.value, Omit(dto, "id");
      var found := FindOneUser(id);
      if found.Failure? {
        return Failure(found.error);
      }
      UpdateKeepsUniqueIds(users, id, updateData);
      LookupAfterUpdate(users, id, updateData);
      users := UpdateById(users, id, updateData);
      var updated := FindById(users, id);
      r := Success(Response("User updated successfully", updated.value, 200, None));
    }

    /** `createTeamService`: exactly one new team, under the next key, holding the given data. */
    method CreateTeam(dto: Record) returns (team: Row)
      requires Valid()
      modifies this`teams, this`nextTeamId
      ensures Valid()
      ensures team == Row(old(nextTeamId), dto)
      ensures teams == old(teams) + [team] && nextTeamId == old(nextTeamId) + 1
      ensures Lookup(teams, team.id) == Some(team)
      ensures forall id :: id != team.id ==> Lookup(teams, id) == Lookup(old(teams), id)
    {
      team := Row(nextTeamId, dto);
      InsertFresh(teams, nextTeamId, dto);
      teams := teams + [team];
      nextTeamId := nextTeamId + 1;
    }

    /** `updateTeamService`: the key comes out of the message, the rest is the update. */
    method UpdateTeam(dto: Record) returns (r: Result<Response<Row>, UserError>)
      requires Valid()
      modifies this`teams
      ensures Valid()
      ensures NumberAt(dto, "id").None? ==> r == Failure(IdMissing) && teams == old(teams)
      ensures NumberAt(dto, "id").Some? && Lookup(old(teams), NumberAt(dto, "id").value).None? ==>
        r == Failure(TeamNotFound(NumberAt(dto, "id").value)) && teams == old(teams)
      ensures NumberAt(dto, "id").Some? && Lookup(old(teams), NumberAt(dto, "id").value).Some? ==>
        var id := NumberAt(dto, "id").value;
        && teams == UpdateById(old(teams), id, Omit(dto, "id"))
        && r == Success(Response("Team updated successfully",
                                 Row(id, Lookup(old(teams), id).value.cols + Omit(dto, "id")), 200, None))
    {
      var key := NumberAt(dto, "id");
      if key.None? {
        return Failure(IdMissing);
      }
      var id, updateData := key.value, Omit(dto, "id");
      var found := FindOneTeam(id);
      if found.Failure? {
        return Failure(found.error);
      }
      UpdateKeepsUniqueIds(teams, id, updateData);
      LookupAfterUpdate(teams, id, updateData);
      teams := UpdateById(teams, id, updateData);
      var updated := FindById(teams, id);
      r := Success(Response("Team updated successfully", updated.value, 200, None));
    }
  }
}
