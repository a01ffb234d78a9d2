/** The seed collections the store starts from. */
module MockData {
  import opened Records
  import opened Keyed
  import opened JsBuiltins

  const InitialUsers: seq<User> := [
    User(1, "admin", "admin@example.com", Active, 1),
    User(2, "user", "user@example.com", Active, 2)
  ]

  const InitialRoles: seq<Role> := [
    Role(1, "Admin", "Full system access",
         ["users.read", "users.write", "users.delete", "roles.read", "roles.write", "roles.delete"]),
    Role(2, "User", "Basic access", ["users.read", "roles.read"])
  ]

  /** The seed users are numbered 1 and 2, so their ids are distinct. */
  lemma SeedUserIds()
    ensures |InitialUsers| == 2 && InitialUsers[0].id == 1 && InitialUsers[1].id == 2
    ensures DenseIds(InitialUsers, UserId) && UniqueIds(InitialUsers, UserId)
  {
  }

  /** The seed roles are numbered 1 and 2, so their ids are distinct. */
  lemma SeedRoleIds()
    ensures |InitialRoles| == 2 && InitialRoles[0].id == 1 && InitialRoles[1].id == 2
    ensures DenseIds(InitialRoles, RoleId) && UniqueIds(InitialRoles, RoleId)
  {
  }

  /** Every seed user's roleId names a seed role. */
  lemma SeedRoleRefsResolve()
    ensures forall i :: 0 <= i < |InitialUsers| ==> HasId(InitialRoles, RoleId, InitialUsers[i].roleId)
  {
    assert RoleId(InitialRoles[0]) == 1 && RoleId(InitialRoles[1]) == 2;
  }

  /** Both seed users are active. */
  lemma SeedUsersActive()
    ensures forall i :: 0 <= i < |InitialUsers| ==> InitialUsers[i].status == Active
  {
  }

  /** Admin holds the six permissions and User holds users.read and roles.read, neither list repeating an entry. */
  lemma SeedPermissions()
    ensures InitialRoles[0].name == "Admin" && |InitialRoles[0].permissions| == 6
    ensures InitialRoles[1].name == "User" && InitialRoles[1].permissions == ["users.read", "roles.read"]
    ensures NoDuplicates(InitialRoles[0].permissions) && NoDuplicates(InitialRoles[1].permissions)
  {
  }
}
