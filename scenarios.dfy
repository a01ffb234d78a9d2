/**
  Client runs of the store from its seed, in the style of a test harness: each method builds a
  fresh store, calls its operations in sequence and states what the caller observes.
 */
module Scenarios {
  import opened Wrappers
  import opened Keyed
  import opened Records
  import opened Api
  import MockData
  import UserManagement

  /**
    deleteUser(1) then createUser issues id 2 (length + 1), which the surviving seed user still
    holds; getUserById(2) then answers with the survivor, not with the record just created.
   */
  method IdReissuedAfterDelete() returns (created: User, survivor: User, fetched: Result<User, ApiError>)
    ensures created.id == 2 && survivor.id == 2 && created != survivor
    ensures survivor == MockData.InitialUsers[1]
    ensures fetched == Ok(survivor)
  {
    var api := new MockApi();
    assert UserId(api.users[0]) == 1;
    var deleted := api.DeleteUser(1);
    created := api.CreateUser(UserFields(None, "new", "new@example.com", Active, 2));
    survivor := api.users[0];
    fetched := api.GetUserById(2);
  }

  /**
    Once id 2 is held twice, deleteUser(2) removes only the older record, and getUserById(2)
    still succeeds: delete-then-get need not fail when ids repeat.
   */
  method DeleteAfterReissueLeavesId() returns (created: User, fetched: Result<User, ApiError>)
    ensures created.id == 2
    ensures fetched == Ok(created)
  {
    var api := new MockApi();
    assert UserId(api.users[0]) == 1;
    var deleted := api.DeleteUser(1);
    created := api.CreateUser(UserFields(None, "new", "new@example.com", Active, 2));
    assert UserId(api.users[0]) == 2;
    deleted := api.DeleteUser(2);
    assert api.users == [created];
    assert UserId(api.users[0]) == 2;
    fetched := api.GetUserById(2);
  }

  /**
    updateUser(1, { id: 2 }) from the seed renames user 1 to id 2, which user 2 still holds; from
    then on getUserById(2) answers with the renamed record, the first holder, and no user has id 1.
   */
  method UpdateIdCollision() returns (updated: Result<User, ApiError>, fetched: Result<User, ApiError>, gone: Result<User, ApiError>)
    ensures updated.Ok? && updated.value.id == 2 && updated.value.username == "admin"
    ensures fetched == updated
    ensures gone == Err(UserNotFound)
  {
    var api := new MockApi();
    assert UserId(api.users[0]) == 1;
    updated := api.UpdateUser(1, UserPatch(Some(2), None, None, None, None));
    assert UserId(api.users[0]) == 2 && UserId(api.users[1]) == 2;
    assert !HasId(api.users, UserId, 1);
    fetched := api.GetUserById(2);
    gone := api.GetUserById(1);
  }

  /**
    createUser from the seed issues id 3 and getUserById(3) returns that record; after
    deleteUser(3), both getUserById(3) and a second deleteUser(3) reject with NotFound.
   */
  method CreateGetDeleteFromSeed()
    returns (created: User, fetched: Result<User, ApiError>,
             refetched: Result<User, ApiError>, redeleted: Result<bool, ApiError>)
    ensures created.id == 3 && fetched == Ok(created)
    ensures refetched == Err(UserNotFound) && redeleted == Err(UserNotFound)
  {
    var api := new MockApi();
    MockData.SeedUserIds();
    created := api.CreateUser(UserFields(None, "new", "new@example.com", Inactive, 1));
    CreateUserFromDenseIds(MockData.InitialUsers, UserFields(None, "new", "new@example.com", Inactive, 1));
    fetched := api.GetUserById(3);
    var deleted := api.DeleteUser(3);
    DeleteUserThenGetFails(MockData.InitialUsers + [created], 3);
    refetched := api.GetUserById(3);
    redeleted := api.DeleteUser(3);
  }

  /**
    deleteRole(2) leaves only Admin, user 2 still carries roleId 2 and is returned without error,
    and the user page shows 'N/A' as its role.
   */
  method DanglingRoleAfterRoleDelete() returns (roles: seq<Role>, user: Result<User, ApiError>, shown: string)
    ensures roles == [MockData.InitialRoles[0]]
    ensures user.Ok? && user.value.roleId == 2 && !HasId(roles, RoleId, user.value.roleId)
    ensures shown == "N/A"
  {
    var api := new MockApi();
    assert RoleId(api.roles[0]) == 1 && RoleId(api.roles[1]) == 2;
    var deleted := api.DeleteRole(2);
    roles := api.GetRoles();
    assert UserId(api.users[1]) == 2;
    user := api.GetUserById(2);
    shown := UserManagement.RoleName(roles, user.value.roleId);
  }
}
