/**
  The user page: the case-insensitive search over the user list, the role-name column, and the
  page state that handleDelete, handleEdit, resetForm, handleSubmit and fetchUsers update.
 */
module UserManagement {
  import opened Wrappers
  import opened JsBuiltins
  import opened Keyed
  import opened Records
  import opened Api

  /** The role select: '' until a role is picked, then Number(value). */
  datatype RoleSelection = Unselected | Selected(id: int)

  datatype UserForm = UserForm(username: string, email: string, roleId: RoleSelection, status: Status)

  /** The form as resetForm leaves it. */
  const EmptyUserForm := UserForm("", "", Unselected, Active)

  const DeleteError := "Error deleting user"
  const SaveError := "Error saving user"

  /** The search rule: the lowercased term occurs in the lowercased username or the lowercased email. */
  predicate MatchesSearch(u: User, term: string) {
    Includes(ToLowerCase(u.username), ToLowerCase(term)) || Includes(ToLowerCase(u.email), ToLowerCase(term))
  }

  /** The filter callback for a given search term. */
  function SearchFor(term: string): User -> bool {
    u => MatchesSearch(u, term)
  }

  /** filteredUsers: the users that match the search term, in list order. */
  function FilteredUsers(users: seq<User>, term: string): (r: seq<User>)
    ensures IsSubsequence(r, users)
    ensures forall i :: 0 <= i < |r| ==> r[i] in users && MatchesSearch(r[i], term)
    ensures forall j :: 0 <= j < |users| && MatchesSearch(users[j], term) ==> users[j] in r
    ensures forall u | u in users :: multiset(r)[u] == if MatchesSearch(u, term) then multiset(users)[u] else 0
  {
    Filter(users, SearchFor(term))
  }

  /** An empty search term keeps every user. */
  lemma EmptySearchKeepsAll(users: seq<User>)
    ensures FilteredUsers(users, "") == users
  {
    forall j | 0 <= j < |users| ensures SearchFor("")(users[j]) {
      assert OccursAt(ToLowerCase(users[j].username), "", 0);
    }
    FilterKeepsAll(users, SearchFor(""));
  }

  /** The search ignores the case of the term: searching a term and its lowercase form give the same list. */
  lemma SearchIgnoresTermCase(users: seq<User>, term: string)
    ensures FilteredUsers(users, term) == FilteredUsers(users, ToLowerCase(term))
  {
    ToLowerCaseIdempotent(term);
    FilterAgrees(users, SearchFor(term), SearchFor(ToLowerCase(term)));
  }

  /** Searching "ADMIN" keeps the seed user whose username is admin. */
  lemma SearchAdminUpperCase()
    ensures MockData.InitialUsers[0] in FilteredUsers(MockData.InitialUsers, "ADMIN")
  {
    var admin := MockData.InitialUsers[0];
    assert ToLowerCase("ADMIN") == "admin" && ToLowerCase("admin") == "admin";
    assert OccursAt(ToLowerCase(admin.username), "admin", 0);
  }

  /** The Role column: the name of the first role with the user's roleId, or 'N/A' when none matches or its name is empty. */
  function RoleName(roles: seq<Role>, roleId: int): (name: string)
    ensures name != ""
    ensures !HasId(roles, RoleId, roleId) ==> name == "N/A"
    ensures HasId(roles, RoleId, roleId) && roles[IndexOfId(roles, RoleId, roleId)].name != "" ==>
              name == roles[IndexOfId(roles, RoleId, roleId)].name
    ensures name != "N/A" ==> HasId(roles, RoleId, roleId) && roles[IndexOfId(roles, RoleId, roleId)].name == name
  {
    match FindById(roles, RoleId, roleId)
    case Some(role) => if role.name == "" then "N/A" else role.name
    case None => "N/A"
  }

  /** The form handleEdit fills from a user. */
  function EditForm(u: User): UserForm {
    UserForm(u.username, u.email, Selected(u.roleId), u.status)
  }

  /** The fields handleSubmit sends to createUser: the form, which carries no id. */
  function FieldsFromForm(f: UserForm): UserFields
    requires f.roleId.Selected?
  {
    UserFields(None, f.username, f.email, f.status, f.roleId.id)
  }

  /** The patch handleSubmit sends to updateUser: every form field, and no id. */
  function PatchFromForm(f: UserForm): UserPatch
    requires f.roleId.Selected?
  {
    UserPatch(None, Some(f.username), Some(f.email), Some(f.status), Some(f.roleId.id))
  }

  /** Saving the form handleEdit filled, unchanged, writes the user back as it was. */
  lemma EditThenSaveIsIdentity(u: User)
    ensures MergeUser(u, PatchFromForm(EditForm(u))) == u
  {
  }

  class UserManagementPage {
    var users: seq<User>
    var roles: seq<Role>
    var editingUser: Option<User>
    var selectedUser: Option<User>
    var searchTerm: string
    var formData: UserForm
    var isModalOpen: bool
    var error: Option<string>
    var loading: bool

    constructor ()
      ensures users == [] && roles == [] && editingUser == None && selectedUser == None
      ensures searchTerm == "" && formData == EmptyUserForm && !isModalOpen && error == None && loading
    {
      users, roles := [], [];
      editingUser, selectedUser := None, None;
      searchTerm, formData := "", EmptyUserForm;
      isModalOpen, error, loading := false, None, true;
    }

    /** fetchUsers: the page list becomes the store's list and the error is cleared. */
    method FetchUsers(api: MockApi)
      modifies this`users, this`error, this`loading
      ensures users == api.users && error == None && !loading
    {
      loading := true;
      users := api.GetUsers();
      error := None;
      loading := false;
    }

    /** fetchRoles: the page's roles become the store's roles. */
    method FetchRoles(api: MockApi)
      modifies this`roles
      ensures roles == api.roles
    {
      roles := api.GetRoles();
    }

    /** handleDelete: on success the page drops every user with the id and clears the selection; on failure it shows an error. */
    method HandleDelete(api: MockApi, userId: int)
      modifies this`users, this`selectedUser, this`error, api`users
      ensures var i := IndexOfId(old(api.users), UserId, userId);
        if i == -1 then
          && api.users == old(api.users) && users == old(users) && selectedUser == old(selectedUser)
          && error == Some(DeleteError)
        else
          && api.users == RemoveAt(old(api.users), i) && users == WithoutId(old(users), UserId, userId)
          && selectedUser == None && error == old(error)
    {
      var r := api.DeleteUser(userId);
      if r.Ok? {
        users := WithoutId(users, UserId, userId);
        selectedUser := None;
      } else {
        error := Some(DeleteError);
      }
    }

    /** handleEdit: the user becomes the editing target, the form holds its four editable fields, the modal opens. */
    method HandleEdit(user: User)
      modifies this`editingUser, this`formData, this`isModalOpen
      ensures editingUser == Some(user) && formData == EditForm(user) && isModalOpen
    {
      editingUser := Some(user);
      formData := EditForm(user);
      isModalOpen := true;
    }

    /** resetForm: no editing target, an empty form with status active, no error. */
    method ResetForm()
      modifies this`editingUser, this`formData, this`error
      ensures editingUser == None && formData == EmptyUserForm && error == None
    {
      editingUser := None;
      formData := EmptyUserForm;
      error := None;
    }

    /**
      handleSubmit: update the editing target with the form, or create a user from it; on success
      refetch, close the modal and reset the form, otherwise show an error. The role select is
      required, so a submitted form always carries a role.
     */
    method HandleSubmit(api: MockApi)
      requires formData.roleId.Selected?
      modifies this`users, this`editingUser, this`formData, this`isModalOpen, this`error, this`loading, api`users
      ensures old(editingUser) == None ==>
        api.users == old(api.users) + [CreatedUser(|old(api.users)| + 1, FieldsFromForm(old(formData)))]
      ensures old(editingUser) != None ==>
        var i := IndexOfId(old(api.users), UserId, old(editingUser).value.id);
        if i == -1 then api.users == old(api.users)
        else api.users == old(api.users)[i := MergeUser(old(api.users)[i], PatchFromForm(old(formData)))]
      ensures var saved := old(editingUser) == None || HasId(old(api.users), UserId, old(editingUser).value.id);
        if saved then
          && users == api.users && !isModalOpen && editingUser == None && formData == EmptyUserForm && error == None
        else
          && users == old(users) && isModalOpen == old(isModalOpen) && editingUser == old(editingUser)
          && formData == old(formData) && error == Some(SaveError)
      ensures !loading
    {
      loading := true;
      var saved := true;
      if editingUser.Some? {
        var r := api.UpdateUser(editingUser.value.id, PatchFromForm(formData));
        saved := r.Ok?;
      } else {
        var u := api.CreateUser(FieldsFromForm(formData));
      }
      if saved {
        FetchUsers(api);
        isModalOpen := false;
        ResetForm();
      } else {
        error := Some(SaveError);
      }
      loading := false;
    }
  }
}
