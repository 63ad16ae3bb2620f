/**
 * The seed script of the auth database: it creates the 'user' and 'admin' roles, each only
 * when no role of that name exists yet, and never touches existing roles.
 */
module Seed {
  import opened Wrappers
  import opened Seqs
  import opened Auth
  import AuthService

  const UserRoleDescription: string := "Default user role"
  /** `JSON.stringify` of the permission list: a compact array of quoted strings. */
  const UserRolePermissions: string := "[\"read:profile\",\"update:profile\",\"create:project\",\"create:task\"]"
  const AdminRoleName: string := "admin"
  const AdminRoleDescription: string := "Administrator role"
  const AdminRolePermissions: string := "[\"read:*\",\"write:*\",\"delete:*\",\"manage:users\"]"

  /** One find-then-create step: `findFirst({ where: { name } })`, and `create` if absent. */
  function EnsureRole(db: Db, name: string, description: string, permissions: string): (r: Db)
    ensures HasRoleNamed(r.roles, name)
    ensures |db.roles| <= |r.roles| && r.roles[..|db.roles|] == db.roles
    ensures r == db.(roles := r.roles, nextRoleId := r.nextRoleId)
    ensures HasRoleNamed(db.roles, name) <==> r == db
    ensures !HasRoleNamed(db.roles, name) ==>
      |r.roles| == |db.roles| + 1 && r.roles[|db.roles|] == Role(db.nextRoleId, name, description, permissions)
  {
    match FirstMatch(db.roles, RoleNamed(name))
    case Some(i) =>
      assert db.roles[i].name == name;
      db
    case None =>
      var roles := db.roles + [Role(db.nextRoleId, name, description, permissions)];
      assert roles[|db.roles|].name == name && roles[..|db.roles|] == db.roles;
      db.(roles := roles, nextRoleId := db.nextRoleId + 1)
  }

  /** The whole script: the 'user' role, then the 'admin' role. */
  function SeedRoles(db: Db): (r: Db)
    ensures HasRoleNamed(r.roles, DefaultRole) && HasRoleNamed(r.roles, AdminRoleName)
  {
    var withUser := EnsureRole(db, DefaultRole, UserRoleDescription, UserRolePermissions);
    EnsureRole(withUser, AdminRoleName, AdminRoleDescription, AdminRolePermissions)
  }

  ghost predicate HasRoleNamed(roles: seq<Role>, name: string) {
    exists i :: 0 <= i < |roles| && roles[i].name == name
  }

  /** After the script both roles exist, existing roles are unchanged, and only the role table
      and its key counter can have changed. */
  lemma SeedResult(db: Db)
    ensures var r := SeedRoles(db);
      && HasRoleNamed(r.roles, DefaultRole) && HasRoleNamed(r.roles, AdminRoleName)
      && |db.roles| <= |r.roles| <= |db.roles| + 2
      && r.roles[..|db.roles|] == db.roles
      && r == db.(roles := r.roles, nextRoleId := r.nextRoleId)
  {
    var u := EnsureRole(db, DefaultRole, UserRoleDescription, UserRolePermissions);
    assert HasRoleNamed(u.roles, DefaultRole) by {
      match FirstMatch(db.roles, RoleNamed(DefaultRole))
      case Some(i) => assert u.roles[i].name == DefaultRole;
      case None => assert u.roles[|db.roles|].name == DefaultRole;
    }
    var r := EnsureRole(u, AdminRoleName, AdminRoleDescription, AdminRolePermissions);
    assert HasRoleNamed(r.roles, AdminRoleName) by {
      match FirstMatch(u.roles, RoleNamed(AdminRoleName))
      case Some(i) => assert r.roles[i].name == AdminRoleName;
      case None => assert r.roles[|u.roles|].name == AdminRoleName;
    }
    var i :| 0 <= i < |u.roles| && u.roles[i].name == DefaultRole;
    assert r.roles[i] == u.roles[i];
  }

  /** On a table with neither role, the script appends both, in order, with exactly their
      listed descriptions and permissions and consecutive keys. */
  lemma SeededPermissions(db: Db)
    requires !HasRoleNamed(db.roles, DefaultRole) && !HasRoleNamed(db.roles, AdminRoleName)
    ensures SeedRoles(db).roles == db.roles + [
      Role(db.nextRoleId, DefaultRole, UserRoleDescription, UserRolePermissions),
      Role(db.nextRoleId + 1, AdminRoleName, AdminRoleDescription, AdminRolePermissions)]
  {
    var u := EnsureRole(db, DefaultRole, UserRoleDescription, UserRolePermissions);
    assert !HasRoleNamed(u.roles, AdminRoleName) by {
      forall i | 0 <= i < |u.roles| ensures u.roles[i].name != AdminRoleName {
        if i < |db.roles| { assert u.roles[i] == db.roles[i]; }
      }
    }
  }

  /** Running the script twice leaves the same tables as running it once. */
  lemma SeedIdempotent(db: Db)
    ensures SeedRoles(SeedRoles(db)) == SeedRoles(db)
  {
    var once := SeedRoles(db);
    SeedResult(db);
    var i :| 0 <= i < |once.roles| && once.roles[i].name == DefaultRole;
    var j :| 0 <= j < |once.roles| && once.roles[j].name == AdminRoleName;
    assert RoleNamed(DefaultRole)(once.roles[i]);
    assert RoleNamed(AdminRoleName)(once.roles[j]);
  }

  lemma EnsureRolePreservesValid(db: Db, name: string, description: string, permissions: string)
    requires ValidDb(db)
    ensures ValidDb(EnsureRole(db, name, description, permissions))
  {
    var r := EnsureRole(db, name, description, permissions);
    if r != db {
      assert r.users == db.users && r.userRoles == db.userRoles;
      forall k | 0 <= k < |r.userRoles| ensures RoleExistsWithId(r.roles, r.userRoles[k].roleId) {
        var j :| 0 <= j < |db.roles| && db.roles[j].id == db.userRoles[k].roleId;
        assert r.roles[j] == db.roles[j];
      }
    }
  }

  lemma SeedPreservesValid(db: Db)
    requires ValidDb(db)
    ensures ValidDb(SeedRoles(db))
  {
    EnsureRolePreservesValid(db, DefaultRole, UserRoleDescription, UserRolePermissions);
    var u := EnsureRole(db, DefaultRole, UserRoleDescription, UserRolePermissions);
    EnsureRolePreservesValid(u, AdminRoleName, AdminRoleDescription, AdminRolePermissions);
  }

  /** The script's `main`, run against the auth service's tables. */
  method RunSeed(svc: AuthService.AuthService)
    requires svc.Valid()
    modifies svc
    ensures svc.Valid()
    ensures svc.State() == SeedRoles(old(svc.State()))
  {
    ghost var before := svc.State();
    SeedPreservesValid(before);
    var existingRole := FindFirst(svc.roles, RoleNamed(DefaultRole));
    if existingRole.None? {
      svc.roles := svc.roles + [Role(svc.nextRoleId, DefaultRole, UserRoleDescription, UserRolePermissions)];
      svc.nextRoleId := svc.nextRoleId + 1;
    }
    ghost var withUser := EnsureRole(before, DefaultRole, UserRoleDescription, UserRolePermissions);
    assert svc.State() == withUser;
    var existingAdminRole := FindFirst(svc.roles, RoleNamed(AdminRoleName));
    if existingAdminRole.None? {
      svc.roles := svc.roles + [Role(svc.nextRoleId, AdminRoleName, AdminRoleDescription, AdminRolePermissions)];
      svc.nextRoleId := svc.nextRoleId + 1;
    }
    assert svc.State() == EnsureRole(withUser, AdminRoleName, AdminRoleDescription, AdminRolePermissions);
  }
}
