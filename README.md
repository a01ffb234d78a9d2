# RoleGuard resource store, in Dafny

This project models the core of the RoleGuard admin console. That core is the in-memory store
`MockApi`, which keeps two ordered collections, users and roles. Each collection has list,
get-by-id, create, update and delete. The store starts from fixed seed data. Around it sit the
pure rules the pages apply to the store's answers:

- the case-insensitive user search;
- the role-name column with its `'N/A'` fallback;
- the permission checkbox toggle and the permission catalogue;
- the dashboard statistics;
- the list and form updates the user and role pages make after each call.

Modules follow the source files:

- `Records` holds the User and Role records.
- `MockData` holds the seed collections.
- `Api` holds the `MockApi` class. Its `users` and `roles` are `seq` fields that create, update and delete reassign.
- `UserManagement`, `RoleManagement` and `Dashboard` hold the pages' pure rules. Each also has a class whose fields are the page state that the handlers update.
- `JsBuiltins` models the JavaScript built-ins the code relies on: `findIndex`, `find`, `some`, `filter`, `String.prototype.includes` and `toLowerCase`.
- `Keyed` holds the id-keyed lookups and removals, generic in the record type.
- `Scenarios` holds client runs of the store from its seed.

Each asynchronous store call becomes one atomic method. The list and create calls never reject,
so `GetUsers`, `GetRoles`, `CreateUser` and `CreateRole` return plain values. The calls that can
reject (get-by-id, update and delete) return `Ok(value)` or `Err(NotFound(message))`, carrying
the source's messages `'User not found'` and `'Role not found'`.

The store's behaviour, as the code has it:

- `createUser` and `createRole` assign `id = length + 1`. The caller's fields are spread after that id, so an `id` supplied by the caller wins. A counter above every id ever issued would avoid reissuing an id; the code keeps none.
- `updateUser` and `updateRole` spread the patch last, so an `id` in the patch overwrites the stored id. Nothing stops a patch from changing the id.
- Lookup, update and delete act on the first match only.
- Deleting a role does not touch the users that reference it.

The length + 1 scheme can reissue an id that a surviving record still holds.
`Scenarios.IdReissuedAfterDelete` shows this from the seed, and `Scenarios.DeleteAfterReissueLeavesId`
shows what follows from it. The uniqueness lemmas state exactly when ids stay unique: create keeps
them unique exactly when the issued id is free, update exactly when no other record holds the merged
record's id, and delete always does. `Scenarios.UpdateIdCollision` shows a patch that takes an id
another user holds.

Permissions are kept as an ordered list (a JavaScript array), not as a set, because that is how
the code stores them. Duplicates and order are therefore modelled. `ToggleKeepsNoDuplicates`
shows that the toggle keeps a list that has no repeats free of repeats.

## Model

| member | source | states |
|---|---|---|
| `JsBuiltins.Find` | src/api/mockApi.js:21 | `find` is undefined exactly when no element satisfies the callback; otherwise it is the element at the first position that does |
| `JsBuiltins.FindIndex` | src/api/mockApi.js:47 | result is -1 exactly when no element satisfies the callback; otherwise it is the first index that does |
| `JsBuiltins.Any` | src/components/Dashboard.js:30 | `some` is true exactly when some element satisfies the callback |
| `JsBuiltins.Filter` | src/components/UserManagement.js:59-62 | `filter` returns an order-preserving subsequence that holds exactly the input's elements that satisfy the callback, each kept value as often as in the input and each dropped value not at all; it keeps the full length iff every element is kept, and is empty iff none is |
| `JsBuiltins.FilterLengthIsKeptCount` | src/components/Dashboard.js:29-31 | the length of a filter is the number of input positions whose element the callback keeps |
| `JsBuiltins.FilterAppend` | src/components/RoleManagement.js:105 | filtering a concatenation is the concatenation of the filtered parts |
| `JsBuiltins.FilterKeepsAll` | src/components/RoleManagement.js:105 | a filter whose callback holds for every element returns its input unchanged |
| `JsBuiltins.FilterAgrees` | src/components/UserManagement.js:59-62 | two callbacks that agree on every element filter to the same list |
| `JsBuiltins.FilterKeepsNoDuplicates` | src/components/RoleManagement.js:105 | filtering a list that has no repeats yields a list that has no repeats |
| `JsBuiltins.Includes` | src/components/UserManagement.js:60-61 | `includes` is true exactly when the needle occurs at some position of the haystack |
| `JsBuiltins.ToLowerCase` | src/components/UserManagement.js:60-61 | `toLowerCase` keeps the length and maps each character through ASCII lower-casing |
| `JsBuiltins.ToLowerCaseIdempotent` | src/components/UserManagement.js:60-61 | lower-casing twice is lower-casing once |
| `Keyed.IndexOfId` | src/api/mockApi.js:47 | `findIndex(x => x.id === id)` is -1 exactly when no record holds the id; otherwise it is the first position holding it |
| `Keyed.FindById` | src/api/mockApi.js:21 | `find(x => x.id === id)` is undefined exactly when no record holds the id; otherwise it is the record at the first matching position |
| `Keyed.RemoveAt` | src/api/mockApi.js:63 | `splice(i, 1)` shortens the list by one, keeps the records before i, and shifts the records after i down by one |
| `Keyed.WithoutId` | src/components/UserManagement.js:86 | `filter(x => x.id !== id)` leaves no record with the id, keeps every other record as often as it occurs, and preserves order |
| `Keyed.FilterKeepsUniqueIds` | src/components/Dashboard.js:29-31 | filtering a collection whose ids are unique leaves them unique |
| `Keyed.AppendedIsFound` | src/api/mockApi.js:35-38 | a record appended under an id no earlier record holds is the one a lookup of that id finds (the create/get round trip) |
| `Keyed.AppendUniqueIff` | src/api/mockApi.js:35-38 | appending keeps ids unique if and only if the new id is not already held |
| `Keyed.DenseNextIdIsFresh` | src/api/mockApi.js:35 | when ids are exactly 1..n, they are unique, n + 1 is free, and appending n + 1 gives ids 1..n + 1 |
| `Keyed.RemoveAtKeepsUnique` | src/api/mockApi.js:63 | removing one record keeps unique ids unique |
| `Keyed.RemovedIdIsGone` | src/api/mockApi.js:61-63 | with unique ids, no record holds the id once its first holder is spliced out |
| `Keyed.SpliceAgreesWithFilter` | src/components/UserManagement.js:86 | with unique ids, the store's splice of the first match equals the page's filter of every match |
| `Keyed.WithoutAbsentId` | src/components/UserManagement.js:86 | filtering out an id that nobody holds changes nothing |
| `Keyed.WithoutIdDropsAtMostOne` | src/components/RoleManagement.js:74 | with unique ids, filtering out one id drops at most one record |
| `Keyed.ReplaceKeepsIndex` | src/api/mockApi.js:47-49 | overwriting the first holder of an id with a record that keeps the id leaves it the first match |
| `Keyed.ReplaceUniqueIff` | src/api/mockApi.js:49 | overwriting one record keeps unique ids unique exactly when no other record holds the new record's id |
| `Keyed.ReplaceKeepsUnique` | src/api/mockApi.js:49 | overwriting a record with one of the same id keeps ids unique |
| `MockData.SeedUserIds` | src/api/mockData.js:1-16 | the seed users have ids 1 and 2, which are dense and distinct |
| `MockData.SeedRoleIds` | src/api/mockData.js:18-30 | the seed roles have ids 1 and 2, which are dense and distinct |
| `MockData.SeedRoleRefsResolve` | src/api/mockData.js:7-30 | every seed user's roleId names a seed role |
| `MockData.SeedUsersActive` | src/api/mockData.js:6-13 | both seed users have status active |
| `MockData.SeedPermissions` | src/api/mockData.js:23-29 | Admin holds six permissions and User holds exactly users.read and roles.read; neither list repeats an entry |
| `Api.CreatedUser` | src/api/mockApi.js:34-37 | the new user carries the caller's id when one is supplied, otherwise the generated one, and every other field as the caller gave it |
| `Api.MergeUser` | src/api/mockApi.js:49 | each field of the merged user is the patch's when the patch has it, otherwise the stored user's, id included |
| `Api.CreatedRole` | src/api/mockApi.js:97-100 | the new role carries the caller's id when one is supplied, otherwise the generated one, and name, description and permissions as given |
| `Api.MergeRole` | src/api/mockApi.js:112 | each field of the merged role is the patch's when the patch has it, otherwise the stored role's, id included |
| `Api.MockApi.constructor` | src/api/mockApi.js:4-7 | a fresh store's users and roles equal the seed collections element for element |
| `Api.MockApi.GetUsers` | src/api/mockApi.js:10-16 | returns the current users in order, never rejects, and changes nothing |
| `Api.MockApi.GetUserById` | src/api/mockApi.js:18-29 | rejects with 'User not found' exactly when no user has the id; otherwise returns the first user that does; changes nothing |
| `Api.MockApi.CreateUser` | src/api/mockApi.js:31-42 | appends and returns `{ id: old length + 1, ...fields }`, so a caller-supplied id wins; roles untouched |
| `Api.MockApi.UpdateUser` | src/api/mockApi.js:44-56 | on a missing id rejects and changes nothing; otherwise replaces only the first match with the merge, whose patch fields (id included) win, and returns it; length and roles unchanged |
| `Api.MockApi.DeleteUser` | src/api/mockApi.js:58-70 | on a missing id rejects and changes nothing; otherwise splices out only the first match, keeps the rest in order, and resolves true; roles untouched |
| `Api.MockApi.GetRoles` | src/api/mockApi.js:73-79 | returns the current roles in order, never rejects, and changes nothing |
| `Api.MockApi.GetRoleById` | src/api/mockApi.js:81-92 | rejects with 'Role not found' exactly when no role has the id; otherwise returns the first role that does |
| `Api.MockApi.CreateRole` | src/api/mockApi.js:94-105 | appends and returns `{ id: old length + 1, ...fields }`; users untouched |
| `Api.MockApi.UpdateRole` | src/api/mockApi.js:107-119 | on a missing id rejects and changes nothing; otherwise replaces only the first match with the merge and returns it; users untouched |
| `Api.MockApi.DeleteRole` | src/api/mockApi.js:121-133 | on a missing id rejects and changes nothing; otherwise splices out only the first match; users untouched, so their roleIds may dangle |
| `Api.CreateUserFromDenseIds` | src/api/mockApi.js:35-38 | when user ids are 1..n and no id is supplied, create issues the fresh id n + 1, the ids become 1..n + 1, and getById of the new id finds the new record |
| `Api.CreateRoleFromDenseIds` | src/api/mockApi.js:98-101 | the same for roles |
| `Api.CreateUserUniqueIff` | src/api/mockApi.js:35-38 | create keeps unique ids unique exactly when no surviving user already holds the issued id |
| `Api.CreateRoleUniqueIff` | src/api/mockApi.js:98-101 | createRole keeps unique ids unique exactly when no surviving role already holds the issued id |
| `Api.EmptyUserPatchIsIdentity` | src/api/mockApi.js:49 | merging an empty patch leaves the user as it was |
| `Api.MergeUserIdempotent` | src/api/mockApi.js:49 | applying the same patch twice equals applying it once |
| `Api.StatusOnlyPatch` | src/api/mockApi.js:49 | a status-only update changes the status and leaves username, email, roleId and id unchanged |
| `Api.PatchIdOverwritesUserId` | src/api/mockApi.js:49 | an id in the patch overwrites the stored id |
| `Api.EmptyRolePatchIsIdentity` | src/api/mockApi.js:112 | merging an empty patch leaves the role as it was |
| `Api.UpdateUserThenGet` | src/api/mockApi.js:47-50 | after an update whose patch keeps the id, the first user with that id is the merged record at the same index |
| `Api.UpdateUserKeepsUnique` | src/api/mockApi.js:49 | an update whose patch keeps the id keeps unique ids unique |
| `Api.UpdateUserUniqueIff` | src/api/mockApi.js:47-49 | with unique ids, updateUser keeps them unique exactly when no other user holds the merged record's id |
| `Api.SeedPatchDuplicatesId` | src/api/mockApi.js:49 | from the seed, patching user 1 with id 2 leaves id 2 held twice |
| `Api.UpdateRoleThenGet` | src/api/mockApi.js:110-113 | after an update whose patch keeps the id, the first role with that id is the merged record at the same index |
| `Api.UpdateRoleUniqueIff` | src/api/mockApi.js:110-112 | with unique ids, updateRole keeps them unique exactly when no other role holds the merged record's id |
| `Api.DeleteUserThenGetFails` | src/api/mockApi.js:61-63 | with unique ids, after a successful delete no user holds the id, ids stay unique, and the store's list equals the page's filtered list |
| `Api.DeleteRoleThenGetFails` | src/api/mockApi.js:124-126 | the same for roles |
| `UserManagement.FilteredUsers` | src/components/UserManagement.js:59-62 | an order-preserving subsequence of the users that holds exactly the users whose lowercased username or email contains the lowercased term, each matching user as often as in the list |
| `UserManagement.EmptySearchKeepsAll` | src/components/UserManagement.js:59-62 | an empty search term keeps every user in order |
| `UserManagement.SearchIgnoresTermCase` | src/components/UserManagement.js:60-61 | a term and its lowercase form select the same users |
| `UserManagement.SearchAdminUpperCase` | src/components/UserManagement.js:60 | the term "ADMIN" keeps the seed user whose username is admin |
| `UserManagement.RoleName` | src/components/UserManagement.js:364 | never empty; 'N/A' when no role has the roleId (a dangling reference); otherwise the first matching role's name, or 'N/A' when that name is empty |
| `UserManagement.EditThenSaveIsIdentity` | src/components/UserManagement.js:93-100 | saving, unchanged, the form that handleEdit filled writes the user back exactly as it was |
| `UserManagement.UserManagementPage.constructor` | src/components/UserManagement.js:17-30 | the page starts with empty lists, no edit target or selection, an empty search, the empty form with status active, loading |
| `UserManagement.UserManagementPage.FetchUsers` | src/components/UserManagement.js:37-48 | the page's users become the store's users, the error is cleared, loading ends |
| `UserManagement.UserManagementPage.FetchRoles` | src/components/UserManagement.js:50-57 | the page's roles become the store's roles |
| `UserManagement.UserManagementPage.HandleDelete` | src/components/UserManagement.js:83-91 | on success, the store splices the first match, the page drops every user with the id in order, and the selection clears; on NotFound, nothing changes but the error message |
| `UserManagement.UserManagementPage.HandleEdit` | src/components/UserManagement.js:93-102 | the user becomes the edit target, the form holds exactly its username, email, roleId and status, and the modal opens |
| `UserManagement.UserManagementPage.ResetForm` | src/components/UserManagement.js:104-113 | no edit target; the form is username '', email '', roleId '', status active; no error |
| `UserManagement.UserManagementPage.HandleSubmit` | src/components/UserManagement.js:64-81 | updates the edit target with the form, or creates a user from it; on success refetches, closes the modal and resets the form; on NotFound only sets the error |
| `RoleManagement.CatalogueShape` | src/components/RoleManagement.js:30-33 | the catalogue has two categories, users and roles, with six distinct permissions, each prefixed by its category name |
| `RoleManagement.SeedRolesUseCatalogue` | src/api/mockData.js:23-29 | the seed Admin role holds exactly the catalogue in order, and every seed permission is in the catalogue |
| `RoleManagement.TogglePermission` | src/components/RoleManagement.js:104-106 | membership of the toggled permission flips and every other permission's membership is unchanged; an absent permission is appended at the end; a present one is removed everywhere, every other permission kept in order and as often as before |
| `RoleManagement.PermissionToggled` | src/components/RoleManagement.js:101-108 | a toggle leaves name and description unchanged and flips only the toggled permission's membership |
| `RoleManagement.ToggleTwiceRestores` | src/components/RoleManagement.js:101-108 | toggling the same absent permission twice restores the original list |
| `RoleManagement.ToggleKeepsNoDuplicates` | src/components/RoleManagement.js:104-106 | a toggle keeps a list that has no repeats free of repeats |
| `RoleManagement.ToggleStaysInCatalogue` | src/components/RoleManagement.js:171-179 | toggling a catalogue checkbox keeps a list drawn from the catalogue drawn from it |
| `RoleManagement.EditThenSaveIsIdentity` | src/components/RoleManagement.js:81-89 | saving, unchanged, the form that handleEdit filled writes the role back exactly as it was |
| `RoleManagement.RoleManagementPage.constructor` | src/components/RoleManagement.js:16-28 | the page starts with no roles, no edit target or selection, the empty form, loading |
| `RoleManagement.RoleManagementPage.FetchRoles` | src/components/RoleManagement.js:39-50 | the page's roles become the store's roles, the error is cleared, loading ends |
| `RoleManagement.RoleManagementPage.HandleDelete` | src/components/RoleManagement.js:71-79 | on success, the store splices the first match, the page drops every role with the id in order, and the selection clears; on NotFound only the error is set |
| `RoleManagement.RoleManagementPage.HandleEdit` | src/components/RoleManagement.js:81-89 | the role becomes the edit target, the form holds its name, description and permissions, and the modal opens |
| `RoleManagement.RoleManagementPage.ResetForm` | src/components/RoleManagement.js:91-99 | no edit target; the form is name '', description '', no permissions; no error |
| `RoleManagement.RoleManagementPage.HandlePermissionToggle` | src/components/RoleManagement.js:101-108 | only the form changes, to the toggled form |
| `RoleManagement.RoleManagementPage.HandleSubmit` | src/components/RoleManagement.js:52-69 | updates the edit target with the form, or creates a role from it; on success refetches, closes the modal and resets the form; on NotFound only sets the error |
| `Dashboard.ActiveRoleCount` | src/components/Dashboard.js:29-31 | the number of positions in the role list whose role's id is some user's roleId (each role counted once however many users reference it); hence at most the number of roles, equal to it iff every role is referenced, and zero iff none is |
| `Dashboard.ActiveUsersEstimate` | src/components/Dashboard.js:28 | the floor of 0.8 n: 5r <= 4n < 5r + 5, hence r <= n |
| `Dashboard.ComputeStats` | src/components/Dashboard.js:25-35 | totals equal the collection lengths; activeUsers is floor(0.8 x users) and at most totalUsers; activeRoles is the active-role count and at most totalRoles; the change figures carry over; lastUpdated is the given clock |
| `Dashboard.ActiveUsersIgnoresStatus` | src/components/Dashboard.js:28 | activeUsers depends only on the number of users, never on their status |
| `Dashboard.SharedRoleCountsOnce` | src/components/Dashboard.js:29-31 | roles 1 and 2 with two users both on role 1 give one active role, not two |
| `Dashboard.UnreferencedRoleNotCounted` | src/components/Dashboard.js:29-31 | roles 1, 2 and 3 with users on roles 1 and 2 give two active roles: a role no user references is not counted |
| `Dashboard.SeedStats` | src/components/Dashboard.js:25-35 | from the seed, the stats are 2 users, 2 roles, 1 estimated active user, 2 active roles, changes 5 and 2 |
| `Dashboard.InUseRolesAtMostUsers` | src/components/Dashboard.js:29-31 | roles with distinct ids that are all referenced are no more numerous than the users |
| `Dashboard.ActiveRolesAtMostUsers` | src/components/Dashboard.js:29-31 | with distinct role ids, activeRoles never exceeds the number of users |
| `Dashboard.DashboardPage.constructor` | src/components/Dashboard.js:7-18 | the page starts with the initial stats (active roles 1, changes 5 and 2) and is loading |
| `Dashboard.DashboardPage.FetchStats` | src/components/Dashboard.js:20-43 | the stats become those computed from both store snapshots and the previous stats; loading ends, the error clears, and the refresh indicator is on |
| `Dashboard.DashboardPage.RefreshTimerFired` | src/components/Dashboard.js:41 | the timer only switches the refresh indicator off |
| `Scenarios.IdReissuedAfterDelete` | src/api/mockApi.js:35 | from the seed, deleting user 1 and then creating a user issues id 2, which the surviving seed user still holds; getUserById(2) returns the survivor, not the new record |
| `Scenarios.DeleteAfterReissueLeavesId` | src/api/mockApi.js:61-63 | once id 2 is held twice, deleteUser(2) removes only the older record and getUserById(2) still succeeds |
| `Scenarios.UpdateIdCollision` | src/api/mockApi.js:44-56 | from the seed, updateUser(1, { id: 2 }) resolves with the admin record renamed to id 2; getUserById(2) then returns that record (the first holder), and getUserById(1) rejects with 'User not found' |
| `Scenarios.CreateGetDeleteFromSeed` | src/api/mockApi.js:18-70 | from the seed, create issues id 3 and getById(3) returns it; after deleting it, getById(3) and a second delete both reject with NotFound |
| `Scenarios.DanglingRoleAfterRoleDelete` | src/api/mockApi.js:121-133 | from the seed, deleting role 2 leaves only Admin; user 2 still has roleId 2, is returned without error, and its role shows as 'N/A' |

## Left out

- The 500 ms `setTimeout` and the Promise wrapping of every store call are not modelled, nor are interleavings of calls still in flight. Each call is one atomic method, taken at the moment it resolves.
- Object aliasing is not modelled. `getUsers` copies the array but shares its records, and `createUser`/`updateUser` resolve the stored object itself. Records are values here, so sharing cannot be observed.
- Records with missing or mistyped fields are not modelled. A caller hands create a complete, typed field set; only `id` is optional. Status is the two-value enum the form offers.
- React rendering, effects, routing (`src/App.js`), the layout wrapper (`src/components/Layout.js`) and styling are not modelled. Neither are the handlers that only open or close the modal or set the selection or the search term.
- The `catch` branches of `fetchUsers`, `fetchRoles` and `fetchStats` are not modelled, because the list calls they guard never reject.
- The role page's `isRefreshing` flag is never set, so it is not modelled.
- `UserManagement.UserManagementPage.HandleSubmit` requires a selected role, because the role select is `required` and the browser blocks a submit with `''`. The model does not write `''` into a stored user.
- `Dashboard.ActiveUsersEstimate` computes `Math.floor(n * 0.8)` on integers as `(4 * n) / 5`. Floating point is not modelled.
- `Dashboard.ComputeStats` takes `lastUpdated` as an integer clock reading passed in by the caller, in place of `new Date()`.
- `JsBuiltins.ToLowerCase` lower-cases ASCII letters only. Unicode case mapping is not modelled.
- `UserManagement.SearchAdminUpperCase` states that "ADMIN" keeps the admin user. It does not state that the other seed user is dropped, because that would need the lower-cased seed email to be evaluated character by character.
