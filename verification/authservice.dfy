/**
 * Registration and login (src/services/authService.js). Hashing, comparing
 * and signing are parameters: `hash` is the digest bcrypt produced for this
 * call, `compare` the bcrypt check, `sign` the JWT signer.
 */
module AuthService {
  import opened Wrappers
  import opened Store

  /** The registration body; `roleIds` left out means `[]`. */
  datatype Registration = Registration(
    username: string, password: Option<string>,
    firstname: Option<string>, lastname: Option<string>, email: Option<string>, mobile: Option<string>,
    roleIds: Option<seq<RoleId>>)

  /** The claims a login token is signed over: exactly the user's id and username. */
  datatype TokenClaims = TokenClaims(id: UserId, username: string)

  /** `{success: false, message}` or `{success: true, data: {user, token}}`. */
  datatype LoginResult =
    | LoginFailed(message: string)
    | LoggedIn(user: PublicUser, roles: seq<RoleSummary>, token: string)

  const DefaultRole: string := "user"

  /** The role named exactly 'user', if the store has one. */
  function FindRoleByName(s: Store, name: string): (r: Option<RoleId>)
    requires Valid(s)
    ensures r.Some? <==> exists x :: x in s.roles && s.roles[x].name == name
    ensures r.Some? ==> r.value in s.roles && s.roles[r.value].name == name
  {
    if exists x :: x in s.roles && s.roles[x].name == name then
      var x :| x in s.roles && s.roles[x].name == name; Some(x)
    else None
  }

  /** The roles a new user receives. */
  function InitialRoles(s: Store, roleIds: Option<seq<RoleId>>): (r: set<RoleId>)
    requires Valid(s)
    ensures forall x :: x in r ==> x in s.roles
  {
    var ids := roleIds.GetOr([]);
    if |ids| > 0 then ExistingRoles(s, ids)
    else match FindRoleByName(s, DefaultRole)
      case Some(x) => {x}
      case None => {}
  }

  /**
   * `registerUser`. The digest is computed before the transaction opens; the
   * user row and its role rows are written in one transaction. `newId` is the
   * fresh primary key of the new row.
   */
  function RegisterUser(s: Store, reg: Registration, newId: UserId,
                        hash: string -> string, fault: DbFault): (r: Txn<PublicUser>)
    requires Valid(s)
    ensures r.out.Failure? ==> r.store == s
    ensures Valid(r.store)
    ensures r.out.Success? <==>
              && reg.password.Some?
              && newId !in s.users
              && (forall x :: x in s.users ==> s.users[x].username != reg.username)
              && fault != FailsOnEntityWrite
              && (fault == FailsOnAssociationWrite ==> InitialRoles(s, reg.roleIds) == {})
    ensures r.out.Success? ==>
              && r.store.users == s.users[newId := User(reg.username, hash(reg.password.value),
                                                        reg.firstname, reg.lastname, reg.email, reg.mobile)]
              && r.out.value == PublicOf(r.store, newId)
              && r.store.roles == s.roles && r.store.perms == s.perms && r.store.grants == s.grants
              && RolesOf(r.store, newId) == InitialRoles(s, reg.roleIds)
              && (forall ur :: ur in r.store.userRoles && ur.0 != newId <==> ur in s.userRoles)
  {
    if reg.password.None? then Txn(s, Failure(HashFailed))
    else if newId in s.users then Txn(s, Failure(UniqueViolation("id")))
    else if exists x :: x in s.users && s.users[x].username == reg.username then
      Txn(s, Failure(UniqueViolation("username")))
    else if fault == FailsOnEntityWrite then Txn(s, Failure(ConnectionLost))
    else
      var user := User(reg.username, hash(reg.password.value), reg.firstname, reg.lastname, reg.email, reg.mobile);
      var created := s.(users := s.users[newId := user]);
      var roles := InitialRoles(s, reg.roleIds);
      // With no role to assign, neither `setRoles` nor `addRole` runs.
      if roles != {} && fault == FailsOnAssociationWrite then Txn(s, Failure(ConnectionLost))
      else
        var after := if roles == {} then created else SetUserRoles(created, newId, roles);
        assert forall ur :: ur in created.userRoles ==> ur.0 != newId;
        Txn(after, Success(PublicOf(after, newId)))
  }

  /** The one user with this username, if any (usernames are unique). */
  function FindUserByName(s: Store, username: string): (r: Option<UserId>)
    requires Valid(s)
    ensures r.Some? <==> exists x :: x in s.users && s.users[x].username == username
    ensures r.Some? ==> r.value in s.users && s.users[r.value].username == username
  {
    if exists x :: x in s.users && s.users[x].username == username then
      var x :| x in s.users && s.users[x].username == username; Some(x)
    else None
  }

  const BadCredentials: string := "Invalid username or password"

  /** `loginUser`: an unknown username and a wrong password fail identically. */
  function LoginUser(s: Store, username: string, password: string,
                     compare: (string, string) -> bool, sign: TokenClaims -> string): (r: LoginResult)
    requires Valid(s)
    ensures r.LoginFailed? ==> r.message == BadCredentials
    ensures r.LoggedIn? <==>
              exists x :: x in s.users && s.users[x].username == username && compare(password, s.users[x].password)
    ensures r.LoggedIn? ==>
              && r.user.username == username
              && r.user.id in s.users
              && r.user == PublicOf(s, r.user.id)
              && r.token == sign(TokenClaims(r.user.id, username))
              && r.roles == ReadUser(s, r.user.id).roles
  {
    match FindUserByName(s, username)
    case None => LoginFailed(BadCredentials)
    case Some(x) =>
      if !compare(password, s.users[x].password) then LoginFailed(BadCredentials)
      else
        var u := s.users[x];
        LoggedIn(PublicOf(s, x), ReadUser(s, x).roles, sign(TokenClaims(x, u.username)))
  }

  /**
   * With a non-empty `roleIds` the new user holds exactly the existing roles
   * among them, even when that is none; the default role is consulted only
   * for an empty or absent `roleIds`.
   */
  lemma {:induction false} RegistrationRoles(s: Store, reg: Registration, newId: UserId,
                                             hash: string -> string, fault: DbFault)
    requires Valid(s)
    requires RegisterUser(s, reg, newId, hash, fault).out.Success?
    ensures var held := RolesOf(RegisterUser(s, reg, newId, hash, fault).store, newId);
            && (|reg.roleIds.GetOr([])| > 0 ==> forall x :: x in held <==> x in reg.roleIds.value && x in s.roles)
            && (|reg.roleIds.GetOr([])| == 0 ==>
                  (forall x :: x in held <==> x in s.roles && s.roles[x].name == DefaultRole))
  {
    var held := RolesOf(RegisterUser(s, reg, newId, hash, fault).store, newId);
    assert held == InitialRoles(s, reg.roleIds);
    if |reg.roleIds.GetOr([])| == 0 {
      var d := FindRoleByName(s, DefaultRole);
      forall x ensures x in held <==> x in s.roles && s.roles[x].name == DefaultRole {
        if x in s.roles && s.roles[x].name == DefaultRole {
          assert d.Some? && s.roles[d.value].name == s.roles[x].name;
        }
      }
    }
  }
}
