/** Reading, updating and deleting users (src/services/userService.js). */
module UserService {
  import opened Wrappers
  import opened Store

  /**
   * An update body: `password` and `roleIds` are taken out, everything else
   * is written as supplied.
   */
  datatype UserPatch = UserPatch(
    password: Option<string>, roleIds: IdsField,
    username: Field<string>, firstname: Field<Option<string>>, lastname: Field<Option<string>>,
    email: Field<Option<string>>, mobile: Field<Option<string>>)

  /** `getUserById`: the user with its roles, never its password. */
  function GetUserById(s: Store, id: UserId): (r: Option<UserWithRoles>)
    ensures r.Some? <==> id in s.users
    ensures r.Some? ==> r.value == ReadUser(s, id) && r.value.user.username == s.users[id].username
  {
    if id in s.users then Some(ReadUser(s, id)) else None
  }

  /** `getAllUsers`: every user with its roles, keyed by id; each entry is what `getUserById` returns. */
  function GetAllUsers(s: Store): (r: map<UserId, UserWithRoles>)
    ensures forall x :: x in r <==> GetUserById(s, x).Some?
    ensures forall x :: x in r ==> Some(r[x]) == GetUserById(s, x)
  {
    map x | x in s.users :: ReadUser(s, x)
  }

  /** `if (password)`: present and not the empty string. */
  predicate Truthy(password: Option<string>) {
    password.Some? && password.value != ""
  }

  /** The user row after the field update. */
  function Patched(u: User, patch: UserPatch, hash: string -> string): (r: User)
    ensures r.password == (if Truthy(patch.password) then hash(patch.password.value) else u.password)
    ensures r.username == patch.username.Apply(u.username)
    ensures r.firstname == patch.firstname.Apply(u.firstname) && r.lastname == patch.lastname.Apply(u.lastname)
    ensures r.email == patch.email.Apply(u.email) && r.mobile == patch.mobile.Apply(u.mobile)
  {
    User(patch.username.Apply(u.username),
         if Truthy(patch.password) then hash(patch.password.value) else u.password,
         patch.firstname.Apply(u.firstname), patch.lastname.Apply(u.lastname),
         patch.email.Apply(u.email), patch.mobile.Apply(u.mobile))
  }

  /**
   * `updateUser`: one transaction writes the fields, then replaces the role
   * set when `roleIds` is an array. An unknown id yields `None`.
   */
  function UpdateUser(s: Store, id: UserId, patch: UserPatch,
                      hash: string -> string, fault: DbFault): (r: Txn<Option<UserWithRoles>>)
    requires Valid(s)
    ensures r.out.Failure? ==> r.store == s
    ensures id !in s.users ==> r == Txn(s, Success(None))
    ensures Valid(r.store)
    ensures r.out.Success? && id in s.users ==>
              && r.store.users == s.users[id := Patched(s.users[id], patch, hash)]
              && r.store.roles == s.roles && r.store.perms == s.perms && r.store.grants == s.grants
              && (patch.roleIds.Ids? ==> RolesOf(r.store, id) == ExistingRoles(s, patch.roleIds.ids))
              && (!patch.roleIds.Ids? ==> r.store.userRoles == s.userRoles)
              && (forall ur :: ur in r.store.userRoles && ur.0 != id <==> ur in s.userRoles && ur.0 != id)
              && r.out.value == Some(ReadUser(r.store, id))
    ensures id in s.users ==>
              (r.out.Success? <==>
                 && (patch.username.Set? ==>
                       forall x :: x in s.users && x != id ==> s.users[x].username != patch.username.value)
                 && fault != FailsOnEntityWrite
                 && (patch.roleIds.Ids? ==> fault != FailsOnAssociationWrite))
  {
    if id !in s.users then Txn(s, Success(None))
    else if patch.username.Set? && exists x :: x in s.users && x != id && s.users[x].username == patch.username.value then
      Txn(s, Failure(UniqueViolation("username")))
    else if fault == FailsOnEntityWrite then Txn(s, Failure(ConnectionLost))
    else
      var row := Patched(s.users[id], patch, hash);
      PutUserValid(s, id, row);
      var updated := s.(users := s.users[id := row]);
      match patch.roleIds
      case Ids(ids) =>
        if fault == FailsOnAssociationWrite then Txn(s, Failure(ConnectionLost))
        else
          SetUserRolesValid(updated, id, ExistingRoles(s, ids));
          var after := SetUserRoles(updated, id, ExistingRoles(s, ids));
          Txn(after, Success(Some(ReadUser(after, id))))
      case _ => Txn(updated, Success(Some(ReadUser(updated, id))))
  }

  /** `deleteUser`: `false` for an unknown id; otherwise the user and its role rows go. */
  function DeleteUser(s: Store, id: UserId): (r: Txn<bool>)
    requires Valid(s)
    ensures r.out == Success(id in s.users)
    ensures id !in s.users ==> r.store == s
    ensures Valid(r.store)
    ensures r.store.users == s.users - {id}
    ensures r.store.roles == s.roles && r.store.perms == s.perms && r.store.grants == s.grants
    ensures forall ur :: ur in r.store.userRoles <==> ur in s.userRoles && ur.0 != id
  {
    if id !in s.users then Txn(s, Success(false))
    else
      var after := s.(users := s.users - {id}, userRoles := (set ur | ur in s.userRoles && ur.0 != id));
      Txn(after, Success(true))
  }

  /**
   * An empty or absent password keeps the stored digest; an array of role
   * ids that names no existing role clears the user's roles.
   */
  lemma {:induction false} UpdateEdgeCases(s: Store, id: UserId, patch: UserPatch, hash: string -> string)
    requires Valid(s) && id in s.users
    requires UpdateUser(s, id, patch, hash, Healthy).out.Success?
    ensures !Truthy(patch.password) ==>
              UpdateUser(s, id, patch, hash, Healthy).store.users[id].password == s.users[id].password
    ensures patch.roleIds.Ids? && (forall x :: x in patch.roleIds.ids ==> x !in s.roles) ==>
              RolesOf(UpdateUser(s, id, patch, hash, Healthy).store, id) == {}
  {
  }
}
