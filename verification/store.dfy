/**
 * The credential store behind the services: users, roles and permissions
 * (src/models/role.js, src/models/permission.js) addressed by id, and the two
 * many-to-many relations UserRoles and RolePermission
 * (src/models/rolepermission.js) as sets of id pairs. Also the read views the
 * services return, none of which carries a password.
 */
module Store {
  import opened Wrappers
  import opened Access

  type UserId = nat
  type RoleId = nat
  type PermId = nat

  /** A stored user; `password` holds the digest, never the plaintext. */
  datatype User = User(
    username: string, password: string,
    firstname: Option<string>, lastname: Option<string>, email: Option<string>, mobile: Option<string>)

  /** `role_name` is non-null, `role_desc` nullable. */
  datatype Role = Role(name: string, desc: Option<string>)

  /** `perm_name` is non-null, `perm_desc` and `parent_id` nullable. */
  datatype Permission = Permission(name: string, desc: Option<string>, parent: Option<PermId>)

  /**
   * The whole store. A grant row carries nothing beyond its
   * `(role_id, perm_id)` pair, so a relation is a set of pairs.
   */
  datatype Store = Store(
    users: map<UserId, User>,
    roles: map<RoleId, Role>,
    perms: map<PermId, Permission>,
    userRoles: set<(UserId, RoleId)>,
    grants: set<(RoleId, PermId)>)

  /** The constraints the database enforces: unique names and referential integrity. */
  predicate Valid(s: Store) {
    && (forall a, b :: a in s.users && b in s.users && s.users[a].username == s.users[b].username ==> a == b)
    && (forall a, b :: a in s.roles && b in s.roles && s.roles[a].name == s.roles[b].name ==> a == b)
    && (forall a, b :: a in s.perms && b in s.perms && s.perms[a].name == s.perms[b].name ==> a == b)
    && (forall p :: p in s.perms && s.perms[p].parent.Some? ==> s.perms[p].parent.value in s.perms)
    && (forall ur :: ur in s.userRoles ==> ur.0 in s.users && ur.1 in s.roles)
    && (forall g :: g in s.grants ==> g.0 in s.roles && g.1 in s.perms)
  }

  /** Why a store operation failed; the failed operation leaves the store as it was. */
  datatype StoreError =
    | UniqueViolation(field: string)      // SequelizeUniqueConstraintError
    | NotNullViolation(field: string)     // SequelizeValidationError
    | ForeignKeyViolation(field: string)  // SequelizeForeignKeyConstraintError
    | HashFailed                          // bcrypt rejected its input
    | ConnectionLost                      // the database failed mid-transaction

  /** Where, if anywhere, the database fails during a transaction. */
  datatype DbFault = Healthy | FailsOnEntityWrite | FailsOnAssociationWrite

  /** An id-list member of an update body: absent, an array, or some other value. */
  datatype IdsField = Absent | Ids(ids: seq<nat>) | NotAnArray

  /** The store after an operation, and what the operation returned or threw. */
  datatype Txn<+T> = Txn(store: Store, out: Result<T, StoreError>)

  // ---------------------------------------------------------------- ordering

  lemma MinExists(ids: set<nat>)
    requires ids != {}
    ensures exists m :: m in ids && forall x :: x in ids ==> m <= x
    decreases |ids|
  {
    var y :| y in ids;
    if ids - {y} != {} {
      MinExists(ids - {y});
      var m :| m in ids - {y} && forall x :: x in ids - {y} ==> m <= x;
      forall x | x in ids ensures x == y || x in ids - {y} { }
      if y < m {
        assert forall x :: x in ids ==> y <= x;
      } else {
        assert forall x :: x in ids ==> m <= x;
      }
    } else {
      assert ids == {y};
    }
  }

  function MinOf(ids: set<nat>): (m: nat)
    requires ids != {}
    ensures m in ids && forall x :: x in ids ==> m <= x
  {
    MinExists(ids);
    var m :| m in ids && forall x :: x in ids ==> m <= x; m
  }

  /** The ids in increasing order: the list order of every view (database order is unspecified). */
  function SortedIds(ids: set<nat>): (r: seq<nat>)
    ensures forall x :: x in r <==> x in ids
    ensures forall i, j :: 0 <= i < j < |r| ==> r[i] < r[j]
    decreases |ids|
  {
    if ids == {} then []
    else
      var m := MinOf(ids);
      [m] + SortedIds(ids - {m})
  }

  // -------------------------------------------------------------- relations

  /** The existing roles a user holds. */
  function RolesOf(s: Store, u: UserId): (r: set<RoleId>)
    ensures forall x :: x in r <==> (u, x) in s.userRoles && x in s.roles
  {
    set ur | ur in s.userRoles && ur.0 == u && ur.1 in s.roles :: ur.1
  }

  /** The existing permissions a role grants. */
  function PermsOf(s: Store, role: RoleId): (r: set<PermId>)
    ensures forall x :: x in r <==> (role, x) in s.grants && x in s.perms
  {
    set g | g in s.grants && g.0 == role && g.1 in s.perms :: g.1
  }

  /** The permissions whose `parent_id` is `p`: the `children` view of `p`. */
  function ChildrenOf(s: Store, p: PermId): (r: set<PermId>)
    ensures forall c :: c in r <==> c in s.perms && s.perms[c].parent == Some(p)
  {
    set c | c in s.perms && s.perms[c].parent == Some(p)
  }

  /** `parent` and `children` are two readings of the one `parent_id` column. */
  lemma {:induction false} ParentChildrenInverse(s: Store, p: PermId, c: PermId)
    requires Valid(s) && c in s.perms
    ensures c in ChildrenOf(s, p) <==> s.perms[c].parent == Some(p)
    ensures c in ChildrenOf(s, p) ==> p in s.perms
  {
  }

  /** The ids among `ids` that name an existing role (`Role.findAll({where: {id: ids}})`). */
  function ExistingRoles(s: Store, ids: seq<RoleId>): (r: set<RoleId>)
    ensures forall x :: x in r <==> x in ids && x in s.roles
  {
    set x | x in ids && x in s.roles
  }

  /** The ids among `ids` that name an existing permission. */
  function ExistingPerms(s: Store, ids: seq<PermId>): (r: set<PermId>)
    ensures forall x :: x in r <==> x in ids && x in s.perms
  {
    set x | x in ids && x in s.perms
  }

  /** `user.setRoles(roles)`: the user's role set becomes exactly `roles`. */
  function SetUserRoles(s: Store, u: UserId, roles: set<RoleId>): (r: Store)
    ensures r.users == s.users && r.roles == s.roles && r.perms == s.perms && r.grants == s.grants
    ensures forall ur :: ur in r.userRoles <==> (if ur.0 == u then ur.1 in roles else ur in s.userRoles)
  {
    s.(userRoles := (set ur | ur in s.userRoles && ur.0 != u) + (set x | x in roles :: (u, x)))
  }

  /** `role.setPermissions(perms)`: the role's grant set becomes exactly `perms`. */
  function SetRolePerms(s: Store, role: RoleId, perms: set<PermId>): (r: Store)
    ensures r.users == s.users && r.roles == s.roles && r.perms == s.perms && r.userRoles == s.userRoles
    ensures forall g :: g in r.grants <==> (if g.0 == role then g.1 in perms else g in s.grants)
  {
    s.(grants := (set g | g in s.grants && g.0 != role) + (set x | x in perms :: (role, x)))
  }

  /** Writing a user row whose username no other user holds keeps the store valid. */
  lemma PutUserValid(s: Store, id: UserId, u: User)
    requires Valid(s)
    requires forall x :: x in s.users && x != id ==> s.users[x].username != u.username
    ensures Valid(s.(users := s.users[id := u]))
  {
  }

  /** Writing a role row whose name no other role holds keeps the store valid. */
  lemma PutRoleValid(s: Store, id: RoleId, role: Role)
    requires Valid(s)
    requires forall x :: x in s.roles && x != id ==> s.roles[x].name != role.name
    ensures Valid(s.(roles := s.roles[id := role]))
  {
  }

  /** Replacing a user's role set by existing roles keeps the store valid. */
  lemma SetUserRolesValid(s: Store, u: UserId, roles: set<RoleId>)
    requires Valid(s) && u in s.users
    requires forall x :: x in roles ==> x in s.roles
    ensures Valid(SetUserRoles(s, u, roles))
  {
  }

  /** Replacing a role's grant set by existing permissions keeps the store valid. */
  lemma SetRolePermsValid(s: Store, role: RoleId, perms: set<PermId>)
    requires Valid(s) && role in s.roles
    requires forall x :: x in perms ==> x in s.perms
    ensures Valid(SetRolePerms(s, role, perms))
  {
  }

  // ------------------------------------------------------------------ views

  /** A user without the password attribute. */
  datatype PublicUser = PublicUser(
    id: UserId, username: string,
    firstname: Option<string>, lastname: Option<string>, email: Option<string>, mobile: Option<string>)

  /** `attributes: ['id', 'role_name', 'role_desc']` of a role. */
  datatype RoleSummary = RoleSummary(id: RoleId, name: string, desc: Option<string>)

  /** `attributes: ['id', 'perm_name', 'perm_desc']` of a permission. */
  datatype PermSummary = PermSummary(id: PermId, name: string, desc: Option<string>)

  /** A user with its roles, password excluded (`getUserById`, `getAllUsers`). */
  datatype UserWithRoles = UserWithRoles(user: PublicUser, roles: seq<RoleSummary>)

  /** A role with its permissions (`getRoleById`). */
  datatype RoleWithPerms = RoleWithPerms(id: RoleId, name: string, desc: Option<string>, permissions: seq<PermSummary>)

  /** A permission with its children (`getPermissionById`). */
  datatype PermWithChildren = PermWithChildren(
    id: PermId, name: string, desc: Option<string>, parent: Option<PermId>, children: seq<PermSummary>)

  function PublicOf(s: Store, u: UserId): (r: PublicUser)
    requires u in s.users
    ensures r.id == u && r.username == s.users[u].username
    ensures r.firstname == s.users[u].firstname && r.lastname == s.users[u].lastname
    ensures r.email == s.users[u].email && r.mobile == s.users[u].mobile
  {
    var x := s.users[u];
    PublicUser(u, x.username, x.firstname, x.lastname, x.email, x.mobile)
  }

  function RoleSummaries(s: Store, ids: seq<RoleId>): (r: seq<RoleSummary>)
    requires forall i :: 0 <= i < |ids| ==> ids[i] in s.roles
    ensures |r| == |ids|
    ensures forall i :: 0 <= i < |ids| ==> r[i] == RoleSummary(ids[i], s.roles[ids[i]].name, s.roles[ids[i]].desc)
  {
    seq(|ids|, i requires 0 <= i < |ids| && ids[i] in s.roles => RoleSummary(ids[i], s.roles[ids[i]].name, s.roles[ids[i]].desc))
  }

  function PermSummaries(s: Store, ids: seq<PermId>): (r: seq<PermSummary>)
    requires forall i :: 0 <= i < |ids| ==> ids[i] in s.perms
    ensures |r| == |ids|
    ensures forall i :: 0 <= i < |ids| ==> r[i] == PermSummary(ids[i], s.perms[ids[i]].name, s.perms[ids[i]].desc)
  {
    seq(|ids|, i requires 0 <= i < |ids| && ids[i] in s.perms => PermSummary(ids[i], s.perms[ids[i]].name, s.perms[ids[i]].desc))
  }

  /** The user with its roles, as `getUserById` reads it. */
  function ReadUser(s: Store, u: UserId): (r: UserWithRoles)
    requires u in s.users
    ensures r.user == PublicOf(s, u)
    ensures forall x :: x in s.roles ==> ((u, x) in s.userRoles <==> exists i :: 0 <= i < |r.roles| && r.roles[i].id == x)
    ensures forall i :: 0 <= i < |r.roles| ==>
              && r.roles[i].id in s.roles && (u, r.roles[i].id) in s.userRoles
              && r.roles[i] == RoleSummary(r.roles[i].id, s.roles[r.roles[i].id].name, s.roles[r.roles[i].id].desc)
    ensures forall i, j :: 0 <= i < j < |r.roles| ==> r.roles[i].id != r.roles[j].id
  {
    var ids := SortedIds(RolesOf(s, u));
    var rs := RoleSummaries(s, ids);
    assert forall x :: x in s.roles && (u, x) in s.userRoles ==> exists i :: 0 <= i < |rs| && rs[i].id == x by {
      forall x | x in s.roles && (u, x) in s.userRoles ensures exists i :: 0 <= i < |rs| && rs[i].id == x {
        var i :| 0 <= i < |ids| && ids[i] == x;
        assert rs[i].id == x;
      }
    }
    UserWithRoles(PublicOf(s, u), rs)
  }

  /** The role with its permissions, as `getRoleById` reads it. */
  function ReadRole(s: Store, role: RoleId): (r: RoleWithPerms)
    requires role in s.roles
    ensures r.id == role && r.name == s.roles[role].name && r.desc == s.roles[role].desc
    ensures forall p :: p in s.perms ==> ((role, p) in s.grants <==> exists i :: 0 <= i < |r.permissions| && r.permissions[i].id == p)
    ensures forall i :: 0 <= i < |r.permissions| ==>
              && r.permissions[i].id in s.perms && (role, r.permissions[i].id) in s.grants
              && r.permissions[i] == PermSummary(r.permissions[i].id, s.perms[r.permissions[i].id].name, s.perms[r.permissions[i].id].desc)
    ensures forall i, j :: 0 <= i < j < |r.permissions| ==> r.permissions[i].id != r.permissions[j].id
  {
    var ids := SortedIds(PermsOf(s, role));
    var ps := PermSummaries(s, ids);
    assert forall p :: p in s.perms && (role, p) in s.grants ==> exists i :: 0 <= i < |ps| && ps[i].id == p by {
      forall p | p in s.perms && (role, p) in s.grants ensures exists i :: 0 <= i < |ps| && ps[i].id == p {
        var i :| 0 <= i < |ids| && ids[i] == p;
        assert ps[i].id == p;
      }
    }
    RoleWithPerms(role, s.roles[role].name, s.roles[role].desc, ps)
  }

  /** The permission with its children, as `getPermissionById` reads it. */
  function ReadPermission(s: Store, p: PermId): (r: PermWithChildren)
    requires p in s.perms
    ensures r.id == p && r.name == s.perms[p].name && r.desc == s.perms[p].desc && r.parent == s.perms[p].parent
    ensures forall c :: c in s.perms ==> (s.perms[c].parent == Some(p) <==> exists i :: 0 <= i < |r.children| && r.children[i].id == c)
    ensures forall i :: 0 <= i < |r.children| ==>
              && r.children[i].id in s.perms && s.perms[r.children[i].id].parent == Some(p)
              && r.children[i] == PermSummary(r.children[i].id, s.perms[r.children[i].id].name, s.perms[r.children[i].id].desc)
    ensures forall i, j :: 0 <= i < j < |r.children| ==> r.children[i].id != r.children[j].id
  {
    var ids := SortedIds(ChildrenOf(s, p));
    var cs := PermSummaries(s, ids);
    assert forall c :: c in s.perms && s.perms[c].parent == Some(p) ==> exists i :: 0 <= i < |cs| && cs[i].id == c by {
      forall c | c in s.perms && s.perms[c].parent == Some(p) ensures exists i :: 0 <= i < |cs| && cs[i].id == c {
        var i :| 0 <= i < |ids| && ids[i] == c;
        assert cs[i].id == c;
      }
    }
    PermWithChildren(p, s.perms[p].name, s.perms[p].desc, s.perms[p].parent, cs)
  }
}
