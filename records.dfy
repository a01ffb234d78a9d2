/** The two entity kinds the store keeps. */
module Records {

  /** A user's status; the user form offers exactly these two values. */
  datatype Status = Active | Inactive

  datatype User = User(id: int, username: string, email: string, status: Status, roleId: int)

  datatype Role = Role(id: int, name: string, description: string, permissions: seq<string>)

  /** The `id` of a user, as a first-class projection for the id-keyed helpers. */
  function UserId(u: User): int { u.id }

  /** The `id` of a role, as a first-class projection for the id-keyed helpers. */
  function RoleId(r: Role): int { r.id }
}
