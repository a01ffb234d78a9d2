/**
  The role page: the permission catalogue, the checkbox toggle over the form's permission list,
  and the page state that handleDelete, handleEdit, resetForm, handleSubmit and fetchRoles update.
 */
module RoleManagement {
  import opened Wrappers
  import opened JsBuiltins
  import opened Keyed
  import opened Records
  import opened Api
  import MockData

  /** One group of checkboxes: a category name and the permission strings under it. */
  datatype PermissionCategory = PermissionCategory(name: string, permissions: seq<string>)

  /** availablePermissions, its categories in declaration order. */
  const AvailablePermissions: seq<PermissionCategory> := [
    PermissionCategory("users", ["users.read", "users.write", "users.delete"]),
    PermissionCategory("roles", ["roles.read", "roles.write", "roles.delete"])
  ]

  /** Every permission of the catalogue, category by category. */
  function CataloguePermissions(categories: seq<PermissionCategory>): seq<string> {
    if categories == [] then [] else categories[0].permissions + CataloguePermissions(categories[1..])
  }

  /** The catalogue: two categories, users and roles, holding six distinct permissions, each prefixed by its category. */
  lemma CatalogueShape()
    ensures |AvailablePermissions| == 2
    ensures AvailablePermissions[0].name == "users" && AvailablePermissions[1].name == "roles"
    ensures CataloguePermissions(AvailablePermissions) ==
      ["users.read", "users.write", "users.delete", "roles.read", "roles.write", "roles.delete"]
    ensures NoDuplicates(CataloguePermissions(AvailablePermissions))
    ensures forall c :: 0 <= c < |AvailablePermissions| ==>
      forall k :: 0 <= k < |AvailablePermissions[c].permissions| ==>
        AvailablePermissions[c].name + "." <= AvailablePermissions[c].permissions[k]
  {
    assert AvailablePermissions[1..][1..] == [];
  }

  /** The seed Admin role holds exactly the catalogue, and every seed permission is a catalogue permission. */
  lemma SeedRolesUseCatalogue()
    ensures MockData.InitialRoles[0].permissions == CataloguePermissions(AvailablePermissions)
    ensures forall r :: 0 <= r < |MockData.InitialRoles| ==>
      forall k :: 0 <= k < |MockData.InitialRoles[r].permissions| ==>
        MockData.InitialRoles[r].permissions[k] in CataloguePermissions(AvailablePermissions)
  {
    CatalogueShape();
  }

  datatype RoleForm = RoleForm(name: string, description: string, permissions: seq<string>)

  /** The form as resetForm leaves it. */
  const EmptyRoleForm := RoleForm("", "", [])

  const DeleteError := "Error deleting role"
  const SaveError := "Error saving role"

  /** The filter callback `p => p !== permission`. */
  function IsNot(permission: string): string -> bool {
    q => q != permission
  }

  /** The permission list after a checkbox click: a present permission is filtered out, an absent one appended. */
  function TogglePermission(perms: seq<string>, permission: string): (r: seq<string>)
    ensures permission in r <==> permission !in perms
    ensures forall q :: q != permission ==> (q in r <==> q in perms)
    ensures permission !in perms ==> r == perms + [permission]
    ensures permission in perms ==> IsSubsequence(r, perms) && |r| < |perms|
    ensures permission in perms ==>
      forall q | q in perms :: multiset(r)[q] == if q == permission then 0 else multiset(perms)[q]
  {
    if permission in perms then Filter(perms, IsNot(permission)) else perms + [permission]
  }

  /** handlePermissionToggle on the form: name and description stay, the permission's membership flips. */
  function PermissionToggled(prev: RoleForm, permission: string): (r: RoleForm)
    ensures r.name == prev.name && r.description == prev.description
    ensures permission in r.permissions <==> permission !in prev.permissions
    ensures forall q :: q != permission ==> (q in r.permissions <==> q in prev.permissions)
  {
    prev.(permissions := TogglePermission(prev.permissions, permission))
  }

  /** Checking and then unchecking a box restores the list. */
  lemma {:induction false} ToggleTwiceRestores(perms: seq<string>, permission: string)
    requires permission !in perms
    ensures TogglePermission(TogglePermission(perms, permission), permission) == perms
  {
    var keep := IsNot(permission);
    forall j | 0 <= j < |perms| ensures keep(perms[j]) {
      assert perms[j] in perms;
    }
    calc {
      TogglePermission(TogglePermission(perms, permission), permission);
      Filter(perms + [permission], keep);
      { FilterAppend(perms, [permission], keep); }
      Filter(perms, keep) + Filter([permission], keep);
      { FilterKeepsAll(perms, keep); }
      perms;
    }
  }

  /** A toggle keeps a list without repeats free of repeats. */
  lemma ToggleKeepsNoDuplicates(perms: seq<string>, permission: string)
    requires NoDuplicates(perms)
    ensures NoDuplicates(TogglePermission(perms, permission))
  {
    if permission in perms {
      FilterKeepsNoDuplicates(perms, IsNot(permission));
    }
  }

  /** Toggling a catalogue permission keeps a list drawn from the catalogue drawn from it. */
  lemma ToggleStaysInCatalogue(perms: seq<string>, permission: string)
    requires forall k :: 0 <= k < |perms| ==> perms[k] in CataloguePermissions(AvailablePermissions)
    requires permission in CataloguePermissions(AvailablePermissions)
    ensures var r := TogglePermission(perms, permission);
      forall k :: 0 <= k < |r| ==> r[k] in CataloguePermissions(AvailablePermissions)
  {
    var r := TogglePermission(perms, permission);
    forall k | 0 <= k < |r| ensures r[k] in CataloguePermissions(AvailablePermissions) {
      if r[k] != permission {
        assert r[k] in perms;
      }
    }
  }

  /** The form handleEdit fills from a role. */
  function EditForm(r: Role): RoleForm {
    RoleForm(r.name, r.description, r.permissions)
  }

  /** The fields handleSubmit sends to createRole: the form, which carries no id. */
  function FieldsFromForm(f: RoleForm): RoleFields {
    RoleFields(None, f.name, f.description, f.permissions)
  }

  /** The patch handleSubmit sends to updateRole: every form field, and no id. */
  function PatchFromForm(f: RoleForm): RolePatch {
    RolePatch(None, Some(f.name), Some(f.description), Some(f.permissions))
  }

  /** Saving the form handleEdit filled, unchanged, writes the role back as it was. */
  lemma EditThenSaveIsIdentity(r: Role)
    ensures MergeRole(r, PatchFromForm(EditForm(r))) == r
  {
  }

  class RoleManagementPage {
    var roles: seq<Role>
    var editingRole: Option<Role>
    var selectedRole: Option<Role>
    var formData: RoleForm
    var isModalOpen: bool
    var error: Option<string>
    var loading: bool

    constructor ()
      ensures roles == [] && editingRole == None && selectedRole == None
      ensures formData == EmptyRoleForm && !isModalOpen && error == None && loading
    {
      roles, editingRole, selectedRole := [], None, None;
      formData, isModalOpen, error, loading := EmptyRoleForm, false, None, true;
    }

    /** fetchRoles: the page list becomes the store's list and the error is cleared. */
    method FetchRoles(api: MockApi)
      modifies this`roles, this`error, this`loading
      ensures roles == api.roles && error == None && !loading
    {
      loading := true;
      roles := api.GetRoles();
      error := None;
      loading := false;
    }

    /** handleDelete: on success the page drops every role with the id and clears the selection; on failure it shows an error. */
    method HandleDelete(api: MockApi, roleId: int)
      modifies this`roles, this`selectedRole, this`error, api`roles
      ensures var i := IndexOfId(old(api.roles), RoleId, roleId);
        if i == -1 then
          && api.roles == old(api.roles) && roles == old(roles) && selectedRole == old(selectedRole)
          && error == Some(DeleteError)
        else
          && api.roles == RemoveAt(old(api.roles), i) && roles == WithoutId(old(roles), RoleId, roleId)
          && selectedRole == None && error == old(error)
    {
      var r := api.DeleteRole(roleId);
      if r.Ok? {
        roles := WithoutId(roles, RoleId, roleId);
        selectedRole := None;
      } else {
        error := Some(DeleteError);
      }
    }

    /** handleEdit: the role becomes the editing target, the form holds its name, description and permissions, the modal opens. */
    method HandleEdit(role: Role)
      modifies this`editingRole, this`formData, this`isModalOpen
      ensures editingRole == Some(role) && formData == EditForm(role) && isModalOpen
    {
      editingRole := Some(role);
      formData := EditForm(role);
      isModalOpen := true;
    }

    /** resetForm: no editing target, an empty form, no error. */
    method ResetForm()
      modifies this`editingRole, this`formData, this`error
      ensures editingRole == None && formData == EmptyRoleForm && error == None
    {
      editingRole := None;
      formData := EmptyRoleForm;
      error := None;
    }

    /** handlePermissionToggle: only the form's permission list changes. */
    method HandlePermissionToggle(permission: string)
      modifies this`formData
      ensures formData == PermissionToggled(old(formData), permission)
    {
      formData := PermissionToggled(formData, permission);
    }

    /**
      handleSubmit: update the editing target with the form, or create a role from it; on success
      refetch, close the modal and reset the form, otherwise show an error.
     */
    method HandleSubmit(api: MockApi)
      modifies this`roles, this`editingRole, this`formData, this`isModalOpen, this`error, this`loading, api`roles
      ensures old(editingRole) == None ==>
        api.roles == old(api.roles) + [CreatedRole(|old(api.roles)| + 1, FieldsFromForm(old(formData)))]
      ensures old(editingRole) != None ==>
        var i := IndexOfId(old(api.roles), RoleId, old(editingRole).value.id);
        if i == -1 then api.roles == old(api.roles)
        else api.roles == old(api.roles)[i := MergeRole(old(api.roles)[i], PatchFromForm(old(formData)))]
      ensures var saved := old(editingRole) == None || HasId(old(api.roles), RoleId, old(editingRole).value.id);
        if saved then
          && roles == api.roles && !isModalOpen && editingRole == None && formData == EmptyRoleForm && error == None
        else
          && roles == old(roles) && isModalOpen == old(isModalOpen) && editingRole == old(editingRole)
          && formData == old(formData) && error == Some(SaveError)
      ensures !loading
    {
      loading := true;
      var saved := true;
      if editingRole.Some? {
        var r := api.UpdateRole(editingRole.value.id, PatchFromForm(formData));
        saved := r.Ok?;
      } else {
        var created := api.CreateRole(FieldsFromForm(formData));
      }
      if saved {
        FetchRoles(api);
        isModalOpen := false;
        ResetForm();
      } else {
        error := Some(SaveError);
      }
      loading := false;
    }
  }
}
