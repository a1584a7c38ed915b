/** Reading, creating, updating and deleting roles (src/services/roleService.js). */
module RoleService {
  import opened Wrappers
  import opened Store

  /** A create body; `permissionIds` left out means `[]`. */
  datatype RoleInput = RoleInput(name: Option<string>, desc: Option<string>, permissionIds: Option<seq<PermId>>)

  /** An update body: `permissionIds` is taken out, the rest is written as supplied. */
  datatype RolePatch = RolePatch(name: Field<Option<string>>, desc: Field<Option<string>>, permissionIds: IdsField)

  /** `getRoleById`: the role with its permissions. */
  function GetRoleById(s: Store, id: RoleId): (r: Option<RoleWithPerms>)
    ensures r.Some? <==> id in s.roles
    ensures r.Some? ==> r.value == ReadRole(s, id)
  {
    if id in s.roles then Some(ReadRole(s, id)) else None
  }

  /** `getAllRoles`: every role with its permissions; each entry is what `getRoleById` returns. */
  function GetAllRoles(s: Store): (r: map<RoleId, RoleWithPerms>)
    ensures forall x :: x in r <==> GetRoleById(s, x).Some?
    ensures forall x :: x in r ==> Some(r[x]) == GetRoleById(s, x)
  {
    map x | x in s.roles :: ReadRole(s, x)
  }

  /** No role other than `id` is named `name`. */
  predicate NameFree(s: Store, id: RoleId, name: string) {
    forall x :: x in s.roles && x != id ==> s.roles[x].name != name
  }

  /** The permissions `createRole` grants. */
  function InitialGrants(s: Store, permissionIds: Option<seq<PermId>>): (r: set<PermId>)
    ensures forall p :: p in r <==> p in permissionIds.GetOr([]) && p in s.perms
  {
    ExistingPerms(s, permissionIds.GetOr([]))
  }

  /**
   * `createRole`: the role row and its grants are written in one
   * transaction. `newId` is the fresh id (a UUIDv4 Sequelize assigns on insert).
   */
  function CreateRole(s: Store, input: RoleInput, newId: RoleId, fault: DbFault): (r: Txn<RoleWithPerms>)
    requires Valid(s)
    ensures r.out.Failure? ==> r.store == s
    ensures Valid(r.store)
    ensures r.out.Success? <==>
              && input.name.Some? && newId !in s.roles && NameFree(s, newId, input.name.value)
              && fault != FailsOnEntityWrite
              && (fault == FailsOnAssociationWrite ==> InitialGrants(s, input.permissionIds) == {})
    ensures r.out.Success? ==>
              && r.store.roles == s.roles[newId := Role(input.name.value, input.desc)]
              && r.store.users == s.users && r.store.perms == s.perms && r.store.userRoles == s.userRoles
              && PermsOf(r.store, newId) == InitialGrants(s, input.permissionIds)
              && (forall g :: g in r.store.grants && g.0 != newId <==> g in s.grants)
              && r.out.value == ReadRole(r.store, newId)
  {
    if input.name.None? then Txn(s, Failure(NotNullViolation("role_name")))
    else if newId in s.roles then Txn(s, Failure(UniqueViolation("id")))
    else if !NameFree(s, newId, input.name.value) then Txn(s, Failure(UniqueViolation("role_name")))
    else if fault == FailsOnEntityWrite then Txn(s, Failure(ConnectionLost))
    else
      PutRoleValid(s, newId, Role(input.name.value, input.desc));
      var created := s.(roles := s.roles[newId := Role(input.name.value, input.desc)]);
      var grants := InitialGrants(s, input.permissionIds);
      assert forall g :: g in created.grants ==> g.0 != newId;
      // With no existing permission to grant, `setPermissions` does not run.
      if grants == {} then Txn(created, Success(ReadRole(created, newId)))
      else if fault == FailsOnAssociationWrite then Txn(s, Failure(ConnectionLost))
      else
        SetRolePermsValid(created, newId, grants);
        var after := SetRolePerms(created, newId, grants);
        Txn(after, Success(ReadRole(after, newId)))
  }

  /**
   * `updateRole`: one transaction writes the fields, then replaces the grant
   * set when `permissionIds` is an array (`[]` clears it). An unknown id
   * yields `None`.
   */
  function UpdateRole(s: Store, id: RoleId, patch: RolePatch, fault: DbFault): (r: Txn<Option<RoleWithPerms>>)
    requires Valid(s)
    ensures r.out.Failure? ==> r.store == s
    ensures id !in s.roles ==> r == Txn(s, Success(None))
    ensures Valid(r.store)
    ensures id in s.roles ==>
              (r.out.Success? <==>
                 && patch.name != Set(None)
                 && (patch.name.Set? ==> NameFree(s, id, patch.name.value.value))
                 && fault != FailsOnEntityWrite
                 && (patch.permissionIds.Ids? ==> fault != FailsOnAssociationWrite))
    ensures r.out.Success? && id in s.roles ==>
              && r.store.roles == s.roles[id := Role(if patch.name.Set? then patch.name.value.value else s.roles[id].name,
                                                     patch.desc.Apply(s.roles[id].desc))]
              && r.store.users == s.users && r.store.perms == s.perms && r.store.userRoles == s.userRoles
              && (patch.permissionIds.Ids? ==> PermsOf(r.store, id) == ExistingPerms(s, patch.permissionIds.ids))
              && (!patch.permissionIds.Ids? ==> r.store.grants == s.grants)
              && (forall g :: g in r.store.grants && g.0 != id <==> g in s.grants && g.0 != id)
              && r.out.value == Some(ReadRole(r.store, id))
  {
    if id !in s.roles then Txn(s, Success(None))
    else if patch.name == Set(None) then Txn(s, Failure(NotNullViolation("role_name")))
    else if patch.name.Set? && !NameFree(s, id, patch.name.value.value) then
      Txn(s, Failure(UniqueViolation("role_name")))
    else if fault == FailsOnEntityWrite then Txn(s, Failure(ConnectionLost))
    else
      var current := s.roles[id];
      var row := Role(if patch.name.Set? then patch.name.value.value else current.name, patch.desc.Apply(current.desc));
      PutRoleValid(s, id, row);
      var updated := s.(roles := s.roles[id := row]);
      match patch.permissionIds
      case Ids(ids) =>
        if fault == FailsOnAssociationWrite then Txn(s, Failure(ConnectionLost))
        else
          SetRolePermsValid(updated, id, ExistingPerms(s, ids));
          var after := SetRolePerms(updated, id, ExistingPerms(s, ids));
          Txn(after, Success(Some(ReadRole(after, id))))
      case _ => Txn(updated, Success(Some(ReadRole(updated, id))))
  }

  /** `deleteRole`: `false` for an unknown id; otherwise the role, its grants and its user rows go. */
  function DeleteRole(s: Store, id: RoleId): (r: Txn<bool>)
    requires Valid(s)
    ensures r.out == Success(id in s.roles)
    ensures id !in s.roles ==> r.store == s
    ensures Valid(r.store)
    ensures r.store.roles == s.roles - {id}
    ensures r.store.users == s.users && r.store.perms == s.perms
    ensures forall ur :: ur in r.store.userRoles <==> ur in s.userRoles && ur.1 != id
    ensures forall g :: g in r.store.grants <==> g in s.grants && g.0 != id
  {
    if id !in s.roles then Txn(s, Success(false))
    else
      Txn(s.(roles := s.roles - {id},
             userRoles := (set ur | ur in s.userRoles && ur.1 != id),
             grants := (set g | g in s.grants && g.0 != id)),
          Success(true))
  }

  /**
   * Deleting a role takes it out of every user's role set and leaves every
   * user and every other role in place.
   */
  lemma {:induction false} DeleteRoleKeepsUsers(s: Store, id: RoleId, u: UserId)
    requires Valid(s) && u in s.users
    ensures var after := DeleteRole(s, id).store;
            && u in after.users
            && RolesOf(after, u) == RolesOf(s, u) - {id}
  {
    var after := DeleteRole(s, id).store;
    assert forall x :: x in RolesOf(after, u) <==> x in RolesOf(s, u) - {id};
  }
}
