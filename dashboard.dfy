/** The dashboard's statistics, recomputed from fresh store snapshots on every fetch. */
module Dashboard {
  import opened Wrappers
  import opened JsBuiltins
  import opened Keyed
  import opened Records
  import opened Api
  import MockData

  /** The stats object; `lastUpdated` is the clock reading passed to the fetch, or None before the first one. */
  datatype Stats = Stats(
    totalUsers: int, totalRoles: int, activeUsers: int, activeRoles: int,
    lastUpdated: Option<int>, userChange: int, roleChange: int)

  /** The stats the page starts with. */
  const InitialStats := Stats(0, 0, 0, 1, None, 5, 2)

  /** Some user's roleId equals the role's id. */
  ghost predicate RoleInUse(role: Role, users: seq<User>) {
    exists j :: 0 <= j < |users| && users[j].roleId == role.id
  }

  /** The positions in `roles` of the roles some user references. */
  ghost function ActivePositions(roles: seq<Role>, users: seq<User>): set<int> {
    set i | 0 <= i < |roles| && RoleInUse(roles[i], users)
  }

  /** The filter callback `role => users.some(user => user.roleId === role.id)`. */
  function InUseBy(users: seq<User>): Role -> bool {
    (role: Role) => Any(users, (u: User) => u.roleId == role.id)
  }

  /** activeRoles: how many roles some user references, each role counted once. */
  function ActiveRoleCount(roles: seq<Role>, users: seq<User>): (n: nat)
    ensures n <= |roles|
    ensures n == |roles| <==> forall i :: 0 <= i < |roles| ==> RoleInUse(roles[i], users)
    ensures n == 0 <==> forall i :: 0 <= i < |roles| ==> !RoleInUse(roles[i], users)
    ensures n == |ActivePositions(roles, users)|
  {
    FilterLengthIsKeptCount(roles, InUseBy(users));
    KeptAreActivePositions(roles, users);
    |Filter(roles, InUseBy(users))|
  }

  /** The filter callback keeps exactly the positions of the roles in use. */
  lemma KeptAreActivePositions(roles: seq<Role>, users: seq<User>)
    ensures KeptPositions(roles, InUseBy(users)) == ActivePositions(roles, users)
  {
  }

  /** activeUsers: floor(0.8 * n), computed on integers. */
  function ActiveUsersEstimate(n: nat): (r: nat)
    ensures r <= n
    ensures 5 * r <= 4 * n < 5 * r + 5
  {
    (4 * n) / 5
  }

  /** The stats fetchStats stores, given the two snapshots, the previous stats and the clock. */
  function ComputeStats(users: seq<User>, roles: seq<Role>, prev: Stats, now: int): (s: Stats)
    ensures s.totalUsers == |users| && s.totalRoles == |roles|
    ensures 0 <= s.activeUsers <= s.totalUsers && 5 * s.activeUsers <= 4 * |users| < 5 * s.activeUsers + 5
    ensures s.activeRoles == ActiveRoleCount(roles, users) && s.activeRoles <= s.totalRoles
    ensures s.lastUpdated == Some(now)
    ensures s.userChange == prev.userChange && s.roleChange == prev.roleChange
  {
    Stats(|users|, |roles|, ActiveUsersEstimate(|users|), ActiveRoleCount(roles, users), Some(now),
          prev.userChange, prev.roleChange)
  }

  /** activeUsers depends on the number of users only, never on their status or any other field. */
  lemma ActiveUsersIgnoresStatus(users1: seq<User>, users2: seq<User>, roles: seq<Role>, prev: Stats, now: int)
    requires |users1| == |users2|
    ensures ComputeStats(users1, roles, prev, now).activeUsers == ComputeStats(users2, roles, prev, now).activeUsers
  {
  }

  /** Roles {1: Admin, 2: User} and two users both on role 1 give one active role. */
  lemma SharedRoleCountsOnce(admin: Role, basic: Role, u1: User, u2: User)
    requires admin.id == 1 && basic.id == 2
    requires u1.roleId == 1 && u2.roleId == 1
    ensures ActiveRoleCount([admin, basic], [u1, u2]) == 1
  {
    var keep := InUseBy([u1, u2]);
    assert keep(admin) by {
      assert [u1, u2][0].roleId == admin.id;
    }
    assert !keep(basic);
    assert [admin, basic][1..] == [basic];
    assert Filter([basic], keep) == Filter([], keep);
  }

  /** Three roles of which users reference the first two: exactly two are active, the unreferenced one is not counted. */
  lemma UnreferencedRoleNotCounted(r1: Role, r2: Role, r3: Role, u1: User, u2: User)
    requires r1.id == 1 && r2.id == 2 && r3.id == 3
    requires u1.roleId == 1 && u2.roleId == 2
    ensures ActiveRoleCount([r1, r2, r3], [u1, u2]) == 2
  {
    var roles, users := [r1, r2, r3], [u1, u2];
    assert RoleInUse(roles[0], users) by { assert users[0].roleId == roles[0].id; }
    assert RoleInUse(roles[1], users) by { assert users[1].roleId == roles[1].id; }
    assert ActivePositions(roles, users) == {0, 1};
  }

  /** The seed store yields 2 users, 2 roles, 1 estimated active user and 2 active roles. */
  lemma SeedStats(now: int)
    ensures var s := ComputeStats(MockData.InitialUsers, MockData.InitialRoles, InitialStats, now);
      s == Stats(2, 2, 1, 2, Some(now), 5, 2)
  {
    var users, roles := MockData.InitialUsers, MockData.InitialRoles;
    assert RoleInUse(roles[0], users) by { assert users[0].roleId == roles[0].id; }
    assert RoleInUse(roles[1], users) by { assert users[1].roleId == roles[1].id; }
  }

  /** Roles with distinct ids that are all referenced by users number at most the users. */
  lemma {:induction false} InUseRolesAtMostUsers(roles: seq<Role>, users: seq<User>)
    requires UniqueIds(roles, RoleId)
    requires forall i :: 0 <= i < |roles| ==> RoleInUse(roles[i], users)
    ensures |roles| <= |users|
    decreases |users|
  {
    if roles != [] {
      assert RoleInUse(roles[0], users);
      var last, front := users[|users| - 1], users[..|users| - 1];
      var rest := WithoutId(roles, RoleId, last.roleId);
      WithoutIdDropsAtMostOne(roles, RoleId, last.roleId);
      FilterKeepsUniqueIds(roles, RoleId, IdIsNot(RoleId, last.roleId));
      assert forall i :: 0 <= i < |rest| ==> rest[i] in roles && RoleId(rest[i]) != last.roleId;
      OthersInUseByFront(roles, users, rest);
      InUseRolesAtMostUsers(rest, front);
    }
  }

  /** A role that the last user does not reference, if referenced at all, is referenced by an earlier user. */
  lemma OthersInUseByFront(roles: seq<Role>, users: seq<User>, rest: seq<Role>)
    requires users != []
    requires forall i :: 0 <= i < |roles| ==> RoleInUse(roles[i], users)
    requires forall i :: 0 <= i < |rest| ==> rest[i] in roles && RoleId(rest[i]) != users[|users| - 1].roleId
    ensures forall i :: 0 <= i < |rest| ==> RoleInUse(rest[i], users[..|users| - 1])
  {
    var last, front := users[|users| - 1], users[..|users| - 1];
    forall i | 0 <= i < |rest| ensures RoleInUse(rest[i], front) {
      var k :| 0 <= k < |roles| && roles[k] == rest[i];
      assert RoleInUse(roles[k], users);
      var j :| 0 <= j < |users| && users[j].roleId == rest[i].id;
      assert front[j] == users[j];
    }
  }

  /** When role ids are distinct, activeRoles never exceeds the number of users. */
  lemma ActiveRolesAtMostUsers(roles: seq<Role>, users: seq<User>)
    requires UniqueIds(roles, RoleId)
    ensures ActiveRoleCount(roles, users) <= |users|
  {
    var active := Filter(roles, InUseBy(users));
    FilterKeepsUniqueIds(roles, RoleId, InUseBy(users));
    InUseRolesAtMostUsers(active, users);
  }

  class DashboardPage {
    var stats: Stats
    var loading: bool
    var error: Option<string>
    var isRefreshing: bool

    constructor ()
      ensures stats == InitialStats && loading && error == None && !isRefreshing
    {
      stats, loading, error, isRefreshing := InitialStats, true, None, false;
    }

    /**
      fetchStats: recompute the stats from both snapshots, carrying the change figures over; the
      refresh indicator stays on until its timer fires.
     */
    method FetchStats(api: MockApi, now: int)
      modifies this
      ensures stats == ComputeStats(api.users, api.roles, old(stats), now)
      ensures !loading && error == None && isRefreshing
    {
      loading := true;
      isRefreshing := true;
      var users := api.GetUsers();
      var roles := api.GetRoles();
      var prev := stats;
      stats := ComputeStats(users, roles, prev, now);
      error := None;
      loading := false;
    }

    /** The timer fetchStats arms: it only switches the refresh indicator off. */
    method RefreshTimerFired()
      modifies this`isRefreshing
      ensures !isRefreshing
    {
      isRefreshing := false;
    }
  }
}
