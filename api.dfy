/**
  The in-memory store behind the console: two ordered collections, users and roles, each with
  list, get-by-id, create, update and delete. Every operation settles atomically: the timer
  in front of it is not modelled.
 */
module Api {
  import opened Wrappers
  import opened JsBuiltins
  import opened Keyed
  import opened Records
  import MockData

  /** The one way a store call is rejected. */
  datatype ApiError = NotFound(message: string)

  const UserNotFound := NotFound("User not found")
  const RoleNotFound := NotFound("Role not found")

  /** What a caller hands to createUser; an `id` among them overrides the generated one. */
  datatype UserFields = UserFields(id: Option<int>, username: string, email: string, status: Status, roleId: int)

  /** What a caller hands to updateUser: only the present fields are written, `id` included. */
  datatype UserPatch = UserPatch(
    id: Option<int>, username: Option<string>, email: Option<string>, status: Option<Status>, roleId: Option<int>)

  /** What a caller hands to createRole; an `id` among them overrides the generated one. */
  datatype RoleFields = RoleFields(id: Option<int>, name: string, description: string, permissions: seq<string>)

  /** What a caller hands to updateRole: only the present fields are written, `id` included. */
  datatype RolePatch = RolePatch(
    id: Option<int>, name: Option<string>, description: Option<string>, permissions: Option<seq<string>>)

  /** `{ id: nextId, ...data }`: the fields spread after the generated id, so a supplied id wins. */
  function CreatedUser(nextId: int, data: UserFields): (u: User)
    ensures u.id == if data.id.Some? then data.id.value else nextId
    ensures u.username == data.username && u.email == data.email
    ensures u.status == data.status && u.roleId == data.roleId
  {
    User(data.id.GetOr(nextId), data.username, data.email, data.status, data.roleId)
  }

  /** `{ ...u, ...patch }`: the fields present in the patch replace those of `u`. */
  function MergeUser(u: User, patch: UserPatch): (r: User)
    ensures r.id == if patch.id.Some? then patch.id.value else u.id
    ensures r.username == if patch.username.Some? then patch.username.value else u.username
    ensures r.email == if patch.email.Some? then patch.email.value else u.email
    ensures r.status == if patch.status.Some? then patch.status.value else u.status
    ensures r.roleId == if patch.roleId.Some? then patch.roleId.value else u.roleId
  {
    User(patch.id.GetOr(u.id), patch.username.GetOr(u.username), patch.email.GetOr(u.email),
         patch.status.GetOr(u.status), patch.roleId.GetOr(u.roleId))
  }

  /** `{ id: nextId, ...data }` for roles. */
  function CreatedRole(nextId: int, data: RoleFields): (r: Role)
    ensures r.id == if data.id.Some? then data.id.value else nextId
    ensures r.name == data.name && r.description == data.description && r.permissions == data.permissions
  {
    Role(data.id.GetOr(nextId), data.name, data.description, data.permissions)
  }

  /** `{ ...r, ...patch }` for roles. */
  function MergeRole(r: Role, patch: RolePatch): (m: Role)
    ensures m.id == if patch.id.Some? then patch.id.value else r.id
    ensures m.name == if patch.name.Some? then patch.name.value else r.name
    ensures m.description == if patch.description.Some? then patch.description.value else r.description
    ensures m.permissions == if patch.permissions.Some? then patch.permissions.value else r.permissions
  {
    Role(patch.id.GetOr(r.id), patch.name.GetOr(r.name), patch.description.GetOr(r.description),
         patch.permissions.GetOr(r.permissions))
  }

  class MockApi {
    var users: seq<User>
    var roles: seq<Role>

    /** A fresh store holds copies of the seed collections. */
    constructor ()
      ensures users == MockData.InitialUsers && roles == MockData.InitialRoles
    {
      users := MockData.InitialUsers;
      roles := MockData.InitialRoles;
    }

    /** getUsers: the whole collection, in order; never rejects. */
    method GetUsers() returns (r: seq<User>)
      ensures r == users
    {
      r := users;
    }

    /** getUserById: the first user with the id, or NotFound. */
    method GetUserById(id: int) returns (r: Result<User, ApiError>)
      ensures r.Err? <==> !HasId(users, UserId, id)
      ensures r.Err? ==> r.error == UserNotFound
      ensures r.Ok? ==> r.value == users[IndexOfId(users, UserId, id)]
    {
      var user := FindById(users, UserId, id);
      if user.Some? {
        r := Ok(user.value);
      } else {
        r := Err(UserNotFound);
      }
    }

    /** createUser: append `{ id: length + 1, ...data }` and return it. */
    method CreateUser(data: UserFields) returns (u: User)
      modifies this`users
      ensures u == CreatedUser(|old(users)| + 1, data)
      ensures users == old(users) + [u]
    {
      u := CreatedUser(|users| + 1, data);
      users := users + [u];
    }

    /** updateUser: merge the patch over the first user with the id; NotFound leaves the collection alone. */
    method UpdateUser(id: int, patch: UserPatch) returns (r: Result<User, ApiError>)
      modifies this`users
      ensures var i := IndexOfId(old(users), UserId, id);
        if i == -1 then r == Err(UserNotFound) && users == old(users)
        else r == Ok(MergeUser(old(users)[i], patch)) && users == old(users)[i := r.value]
    {
      var index := IndexOfId(users, UserId, id);
      if index != -1 {
        users := users[index := MergeUser(users[index], patch)];
        r := Ok(users[index]);
      } else {
        r := Err(UserNotFound);
      }
    }

    /** deleteUser: splice out the first user with the id and resolve true; NotFound leaves the collection alone. */
    method DeleteUser(id: int) returns (r: Result<bool, ApiError>)
      modifies this`users
      ensures var i := IndexOfId(old(users), UserId, id);
        if i == -1 then r == Err(UserNotFound) && users == old(users)
        else r == Ok(true) && users == RemoveAt(old(users), i)
    {
      var index := IndexOfId(users, UserId, id);
      if index != -1 {
        users := RemoveAt(users, index);
        r := Ok(true);
      } else {
        r := Err(UserNotFound);
      }
    }

    /** getRoles: the whole collection, in order; never rejects. */
    method GetRoles() returns (r: seq<Role>)
      ensures r == roles
    {
      r := roles;
    }

    /** getRoleById: the first role with the id, or NotFound. */
    method GetRoleById(id: int) returns (r: Result<Role, ApiError>)
      ensures r.Err? <==> !HasId(roles, RoleId, id)
      ensures r.Err? ==> r.error == RoleNotFound
      ensures r.Ok? ==> r.value == roles[IndexOfId(roles, RoleId, id)]
    {
      var role := FindById(roles, RoleId, id);
      if role.Some? {
        r := Ok(role.value);
      } else {
        r := Err(RoleNotFound);
      }
    }

    /** createRole: append `{ id: length + 1, ...data }` and return it. */
    method CreateRole(data: RoleFields) returns (role: Role)
      modifies this`roles
      ensures role == CreatedRole(|old(roles)| + 1, data)
      ensures roles == old(roles) + [role]
    {
      role := CreatedRole(|roles| + 1, data);
      roles := roles + [role];
    }

    /** updateRole: merge the patch over the first role with the id; NotFound leaves the collection alone. */
    method UpdateRole(id: int, patch: RolePatch) returns (r: Result<Role, ApiError>)
      modifies this`roles
      ensures var i := IndexOfId(old(roles), RoleId, id);
        if i == -1 then r == Err(RoleNotFound) && roles == old(roles)
        else r == Ok(MergeRole(old(roles)[i], patch)) && roles == old(roles)[i := r.value]
    {
      var index := IndexOfId(roles, RoleId, id);
      if index != -1 {
        roles := roles[index := MergeRole(roles[index], patch)];
        r := Ok(roles[index]);
      } else {
        r := Err(RoleNotFound);
      }
    }

    /** deleteRole: splice out the first role with the id and resolve true; users that reference it are left as they are. */
    method DeleteRole(id: int) returns (r: Result<bool, ApiError>)
      modifies this`roles
      ensures var i := IndexOfId(old(roles), RoleId, id);
        if i == -1 then r == Err(RoleNotFound) && roles == old(roles)
        else r == Ok(true) && roles == RemoveAt(old(roles), i)
    {
      var index := IndexOfId(roles, RoleId, id);
      if index != -1 {
        roles := RemoveAt(roles, index);
        r := Ok(true);
      } else {
        r := Err(RoleNotFound);
      }
    }
  }

  /** From ids 1..n, createUser without an id of its own issues the fresh id n + 1, which a lookup then finds, and the ids become 1..n + 1. */
  lemma CreateUserFromDenseIds(users: seq<User>, data: UserFields)
    requires DenseIds(users, UserId) && data.id == None
    ensures var u := CreatedUser(|users| + 1, data);
      && !HasId(users, UserId, u.id)
      && DenseIds(users + [u], UserId) && UniqueIds(users + [u], UserId)
      && IndexOfId(users + [u], UserId, u.id) == |users|
  {
    var u := CreatedUser(|users| + 1, data);
    DenseNextIdIsFresh(users, UserId, u);
    AppendedIsFound(users, UserId, u);
  }

  /** From ids 1..n, createRole without an id of its own issues the fresh id n + 1, which a lookup then finds, and the ids become 1..n + 1. */
  lemma CreateRoleFromDenseIds(roles: seq<Role>, data: RoleFields)
    requires DenseIds(roles, RoleId) && data.id == None
    ensures var r := CreatedRole(|roles| + 1, data);
      && !HasId(roles, RoleId, r.id)
      && DenseIds(roles + [r], RoleId) && UniqueIds(roles + [r], RoleId)
      && IndexOfId(roles + [r], RoleId, r.id) == |roles|
  {
    var r := CreatedRole(|roles| + 1, data);
    DenseNextIdIsFresh(roles, RoleId, r);
    AppendedIsFound(roles, RoleId, r);
  }

  /** createUser keeps unique ids unique exactly when no surviving user already holds the issued id. */
  lemma CreateUserUniqueIff(users: seq<User>, data: UserFields)
    requires UniqueIds(users, UserId)
    ensures var u := CreatedUser(|users| + 1, data);
      UniqueIds(users + [u], UserId) <==> !HasId(users, UserId, u.id)
  {
    AppendUniqueIff(users, UserId, CreatedUser(|users| + 1, data));
  }

  /** createRole keeps unique ids unique exactly when no surviving role already holds the issued id. */
  lemma CreateRoleUniqueIff(roles: seq<Role>, data: RoleFields)
    requires UniqueIds(roles, RoleId)
    ensures var r := CreatedRole(|roles| + 1, data);
      UniqueIds(roles + [r], RoleId) <==> !HasId(roles, RoleId, r.id)
  {
    AppendUniqueIff(roles, RoleId, CreatedRole(|roles| + 1, data));
  }

  /** A patch with no fields leaves a user as it was. */
  lemma EmptyUserPatchIsIdentity(u: User)
    ensures MergeUser(u, UserPatch(None, None, None, None, None)) == u
  {
  }

  /** Applying the same patch twice is applying it once. */
  lemma MergeUserIdempotent(u: User, patch: UserPatch)
    ensures MergeUser(MergeUser(u, patch), patch) == MergeUser(u, patch)
  {
  }

  /** A status-only patch changes the status and nothing else. */
  lemma StatusOnlyPatch(u: User, s: Status)
    ensures MergeUser(u, UserPatch(None, None, None, Some(s), None)) == u.(status := s)
  {
  }

  /** An id in the patch overwrites the stored id. */
  lemma PatchIdOverwritesUserId(u: User, patch: UserPatch)
    requires patch.id.Some?
    ensures MergeUser(u, patch).id == patch.id.value
  {
  }

  /** A patch with no fields leaves a role as it was. */
  lemma EmptyRolePatchIsIdentity(r: Role)
    ensures MergeRole(r, RolePatch(None, None, None, None)) == r
  {
  }

  /** After updateUser with a patch that keeps the id, the first user with that id is the merged record at the same index. */
  lemma UpdateUserThenGet(users: seq<User>, id: int, patch: UserPatch)
    requires IndexOfId(users, UserId, id) != -1
    requires patch.id == None || patch.id == Some(id)
    ensures var i := IndexOfId(users, UserId, id);
      IndexOfId(users[i := MergeUser(users[i], patch)], UserId, id) == i
  {
    var i := IndexOfId(users, UserId, id);
    ReplaceKeepsIndex(users, UserId, id, MergeUser(users[i], patch));
  }

  /** updateUser with a patch that keeps the id keeps unique ids unique. */
  lemma UpdateUserKeepsUnique(users: seq<User>, id: int, patch: UserPatch)
    requires UniqueIds(users, UserId)
    requires IndexOfId(users, UserId, id) != -1
    requires patch.id == None || patch.id == Some(id)
    ensures var i := IndexOfId(users, UserId, id);
      UniqueIds(users[i := MergeUser(users[i], patch)], UserId)
  {
    var i := IndexOfId(users, UserId, id);
    ReplaceKeepsUnique(users, UserId, i, MergeUser(users[i], patch));
  }

  /**
    updateUser keeps unique ids unique exactly when no other user holds the merged record's id: a
    patch whose id is already taken elsewhere leaves that id held twice.
   */
  lemma UpdateUserUniqueIff(users: seq<User>, id: int, patch: UserPatch)
    requires UniqueIds(users, UserId)
    requires IndexOfId(users, UserId, id) != -1
    ensures var i := IndexOfId(users, UserId, id);
      var m := MergeUser(users[i], patch);
      UniqueIds(users[i := m], UserId) <==> forall j :: 0 <= j < |users| && j != i ==> users[j].id != m.id
  {
    var i := IndexOfId(users, UserId, id);
    ReplaceUniqueIff(users, UserId, i, MergeUser(users[i], patch));
  }

  /** From the seed, patching user 1 with id 2 leaves id 2 held twice. */
  lemma SeedPatchDuplicatesId()
    ensures var users := MockData.InitialUsers;
      IndexOfId(users, UserId, 1) == 0 &&
      !UniqueIds(users[0 := MergeUser(users[0], UserPatch(Some(2), None, None, None, None))], UserId)
  {
    var users := MockData.InitialUsers;
    MockData.SeedUserIds();
    assert UserId(users[0]) == 1;
    UpdateUserUniqueIff(users, 1, UserPatch(Some(2), None, None, None, None));
    assert users[1].id == 2;
  }

  /** After updateRole with a patch that keeps the id, the first role with that id is the merged record at the same index. */
  lemma UpdateRoleThenGet(roles: seq<Role>, id: int, patch: RolePatch)
    requires IndexOfId(roles, RoleId, id) != -1
    requires patch.id == None || patch.id == Some(id)
    ensures var i := IndexOfId(roles, RoleId, id);
      IndexOfId(roles[i := MergeRole(roles[i], patch)], RoleId, id) == i
  {
    var i := IndexOfId(roles, RoleId, id);
    ReplaceKeepsIndex(roles, RoleId, id, MergeRole(roles[i], patch));
  }

  /** updateRole keeps unique ids unique exactly when no other role holds the merged record's id. */
  lemma UpdateRoleUniqueIff(roles: seq<Role>, id: int, patch: RolePatch)
    requires UniqueIds(roles, RoleId)
    requires IndexOfId(roles, RoleId, id) != -1
    ensures var i := IndexOfId(roles, RoleId, id);
      var m := MergeRole(roles[i], patch);
      UniqueIds(roles[i := m], RoleId) <==> forall j :: 0 <= j < |roles| && j != i ==> roles[j].id != m.id
  {
    var i := IndexOfId(roles, RoleId, id);
    ReplaceUniqueIff(roles, RoleId, i, MergeRole(roles[i], patch));
  }

  /** With unique ids, after deleteUser succeeds no user holds the id, and the store's splice equals the page's filter. */
  lemma DeleteUserThenGetFails(users: seq<User>, id: int)
    requires UniqueIds(users, UserId)
    requires IndexOfId(users, UserId, id) != -1
    ensures var rest := RemoveAt(users, IndexOfId(users, UserId, id));
      && !HasId(rest, UserId, id)
      && UniqueIds(rest, UserId)
      && rest == WithoutId(users, UserId, id)
  {
    RemovedIdIsGone(users, UserId, id);
    RemoveAtKeepsUnique(users, UserId, IndexOfId(users, UserId, id));
    SpliceAgreesWithFilter(users, UserId, id);
  }

  /** With unique ids, after deleteRole succeeds no role holds the id, and the store's splice equals the page's filter. */
  lemma DeleteRoleThenGetFails(roles: seq<Role>, id: int)
    requires UniqueIds(roles, RoleId)
    requires IndexOfId(roles, RoleId, id) != -1
    ensures var rest := RemoveAt(roles, IndexOfId(roles, RoleId, id));
      && !HasId(rest, RoleId, id)
      && UniqueIds(rest, RoleId)
      && rest == WithoutId(roles, RoleId, id)
  {
    RemovedIdIsGone(roles, RoleId, id);
    RemoveAtKeepsUnique(roles, RoleId, IndexOfId(roles, RoleId, id));
    SpliceAgreesWithFilter(roles, RoleId, id);
  }
}
