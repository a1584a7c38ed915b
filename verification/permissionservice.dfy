/**
 * Reading, creating, updating and deleting permissions
 * (src/services/permissionService.js). The service checks nothing itself:
 * every rejection below is a constraint of the permissions table.
 */
module PermissionService {
  import opened Wrappers
  import opened Store

  /** A create body. */
  datatype PermInput = PermInput(name: Option<string>, desc: Option<string>, parent: Option<PermId>)

  /** An update body: every supplied field is written, `parent_id` included. */
  datatype PermPatch = PermPatch(name: Field<Option<string>>, desc: Field<Option<string>>, parent: Field<Option<PermId>>)

  /** `getPermissionById`: the permission and every permission whose `parent_id` is its id. */
  function GetPermissionById(s: Store, id: PermId): (r: Option<PermWithChildren>)
    ensures r.Some? <==> id in s.perms
    ensures r.Some? ==> r.value == ReadPermission(s, id)
  {
    if id in s.perms then Some(ReadPermission(s, id)) else None
  }

  /** `getAllPermissions`: every permission with its children; each entry is what `getPermissionById` returns. */
  function GetAllPermissions(s: Store): (r: map<PermId, PermWithChildren>)
    ensures forall x :: x in r <==> GetPermissionById(s, x).Some?
    ensures forall x :: x in r ==> Some(r[x]) == GetPermissionById(s, x)
  {
    map x | x in s.perms :: ReadPermission(s, x)
  }

  /** No permission other than `id` is named `name`. */
  predicate NameFree(s: Store, id: PermId, name: string) {
    forall x :: x in s.perms && x != id ==> s.perms[x].name != name
  }

  /** A parent reference the foreign key accepts. */
  predicate ParentExists(s: Store, parent: Option<PermId>) {
    parent.None? || parent.value in s.perms
  }

  lemma PutPermValid(s: Store, id: PermId, p: Permission)
    requires Valid(s)
    requires NameFree(s, id, p.name)
    requires p.parent.None? || p.parent.value in s.perms || p.parent.value == id
    ensures Valid(s.(perms := s.perms[id := p]))
  {
  }

  /** `createPermission`: the fields are stored as given. `newId` is the fresh id (a UUIDv4 Sequelize assigns on insert). */
  function CreatePermission(s: Store, input: PermInput, newId: PermId): (r: Txn<PermWithChildren>)
    requires Valid(s)
    ensures r.out.Failure? ==> r.store == s
    ensures Valid(r.store)
    ensures r.out.Success? <==>
              input.name.Some? && newId !in s.perms && NameFree(s, newId, input.name.value)
              && ParentExists(s, input.parent)
    ensures r.out.Success? ==>
              && r.store == s.(perms := s.perms[newId := Permission(input.name.value, input.desc, input.parent)])
              && r.out.value == ReadPermission(r.store, newId)
              && r.out.value.children == []
  {
    if input.name.None? then Txn(s, Failure(NotNullViolation("perm_name")))
    else if newId in s.perms then Txn(s, Failure(UniqueViolation("id")))
    else if !NameFree(s, newId, input.name.value) then Txn(s, Failure(UniqueViolation("perm_name")))
    else if !ParentExists(s, input.parent) then Txn(s, Failure(ForeignKeyViolation("parent_id")))
    else
      var row := Permission(input.name.value, input.desc, input.parent);
      PutPermValid(s, newId, row);
      var after := s.(perms := s.perms[newId := row]);
      assert ChildrenOf(after, newId) == {};
      Txn(after, Success(ReadPermission(after, newId)))
  }

  /** The row after an update that passed the table's constraints. */
  function PatchedPerm(p: Permission, patch: PermPatch): (r: Permission)
    requires patch.name != Set(None)
    ensures r.name == (if patch.name.Set? then patch.name.value.value else p.name)
    ensures r.desc == patch.desc.Apply(p.desc) && r.parent == patch.parent.Apply(p.parent)
  {
    Permission(if patch.name.Set? then patch.name.value.value else p.name,
               patch.desc.Apply(p.desc), patch.parent.Apply(p.parent))
  }

  /**
   * `updatePermission`: writes exactly the supplied fields. An unknown id
   * yields `None`. Nothing stops a parent chain from closing into a cycle.
   */
  function UpdatePermission(s: Store, id: PermId, patch: PermPatch): (r: Txn<Option<PermWithChildren>>)
    requires Valid(s)
    ensures r.out.Failure? ==> r.store == s
    ensures id !in s.perms ==> r == Txn(s, Success(None))
    ensures Valid(r.store)
    ensures id in s.perms ==>
              (r.out.Success? <==>
                 && patch.name != Set(None)
                 && (patch.name.Set? ==> NameFree(s, id, patch.name.value.value))
                 && (patch.parent.Set? ==> ParentExists(s, patch.parent.value)))
    ensures r.out.Success? && id in s.perms ==>
              && r.store == s.(perms := s.perms[id := PatchedPerm(s.perms[id], patch)])
              && r.out.value == Some(ReadPermission(r.store, id))
  {
    if id !in s.perms then Txn(s, Success(None))
    else if patch.name == Set(None) then Txn(s, Failure(NotNullViolation("perm_name")))
    else if patch.name.Set? && !NameFree(s, id, patch.name.value.value) then
      Txn(s, Failure(UniqueViolation("perm_name")))
    else if patch.parent.Set? && !ParentExists(s, patch.parent.value) then
      Txn(s, Failure(ForeignKeyViolation("parent_id")))
    else
      var row := PatchedPerm(s.perms[id], patch);
      PutPermValid(s, id, row);
      var after := s.(perms := s.perms[id := row]);
      Txn(after, Success(Some(ReadPermission(after, id))))
  }

  /** A permission may be made its own parent: the update goes through. */
  lemma {:induction false} SelfParentAccepted(s: Store, id: PermId)
    requires Valid(s) && id in s.perms
    ensures var r := UpdatePermission(s, id, PermPatch(Keep, Keep, Set(Some(id))));
            && r.out.Success?
            && r.store.perms[id].parent == Some(id)
            && id in ChildrenOf(r.store, id)
  {
  }

  /** The other permissions after `id` is deleted: its children lose their parent. */
  function Orphaned(s: Store, id: PermId): (r: map<PermId, Permission>)
    ensures r.Keys == s.perms.Keys - {id}
    ensures forall x :: x in r ==>
              r[x] == (if s.perms[x].parent == Some(id) then s.perms[x].(parent := None) else s.perms[x])
  {
    map x | x in s.perms && x != id ::
      if s.perms[x].parent == Some(id) then s.perms[x].(parent := None) else s.perms[x]
  }

  /**
   * `deletePermission`: `false` for an unknown id; otherwise the permission
   * and its grants go, and its children's `parent_id` becomes null.
   */
  function DeletePermission(s: Store, id: PermId): (r: Txn<bool>)
    requires Valid(s)
    ensures r.out == Success(id in s.perms)
    ensures id !in s.perms ==> r.store == s
    ensures Valid(r.store)
    ensures r.store.perms.Keys == s.perms.Keys - {id}
    ensures forall x :: x in r.store.perms ==>
              r.store.perms[x].name == s.perms[x].name && r.store.perms[x].desc == s.perms[x].desc
              && (r.store.perms[x].parent == if s.perms[x].parent == Some(id) then None else s.perms[x].parent)
    ensures r.store.users == s.users && r.store.roles == s.roles && r.store.userRoles == s.userRoles
    ensures forall g :: g in r.store.grants <==> g in s.grants && g.1 != id
  {
    if id !in s.perms then Txn(s, Success(false))
    else
      var after := s.(perms := Orphaned(s, id), grants := (set g | g in s.grants && g.1 != id));
      DeletePermValid(s, id, after);
      Txn(after, Success(true))
  }

  lemma DeletePermValid(s: Store, id: PermId, after: Store)
    requires Valid(s)
    requires after == s.(perms := Orphaned(s, id), grants := (set g | g in s.grants && g.1 != id))
    ensures Valid(after)
  {
    var m := after.perms;
    assert forall a, b :: a in m && b in m && m[a].name == m[b].name ==> s.perms[a].name == s.perms[b].name;
    forall p | p in m && m[p].parent.Some? ensures m[p].parent.value in m {
      assert s.perms[p].parent.Some? && s.perms[p].parent != Some(id);
    }
  }
}
