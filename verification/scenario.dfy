/**
 * The whole path from registration to a gated request: a user registered
 * without role ids receives the default role, logs in, and presents the
 * token it was given. The bcrypt and JWT parameters are only assumed to
 * round-trip.
 */
module Scenario {
  import opened Wrappers
  import opened Response
  import opened Access
  import opened Store
  import opened Gate
  import opened Routes
  import opened AuthService

  /** The names the role called 'user' grants. */
  ghost function DefaultRoleNames(s: Store): set<string> {
    set g | g in s.grants && g.0 in s.roles && s.roles[g.0].name == DefaultRole && g.1 in s.perms :: s.perms[g.1].name
  }

  /** What a healthy database needs for `registerUser` to succeed. */
  predicate Registrable(s: Store, reg: Registration, newId: UserId) {
    && reg.password.Some?
    && newId !in s.users
    && forall x :: x in s.users ==> s.users[x].username != reg.username
  }

  /** The token a registered user receives at login, sent as a bearer header. */
  function BearerOf(sign: TokenClaims -> string, id: UserId, username: string): (h: Option<string>)
    ensures h.Some? && IsBearer(h)
  {
    var h := BearerPrefix + sign(TokenClaims(id, username));
    assert h[..|BearerPrefix|] == BearerPrefix;
    Some(h)
  }

  /** A token the login signed for a stored user makes the gate attach that user, fully loaded. */
  lemma {:induction false} SignedTokenPassesGate(s1: Store, id: UserId, username: string,
                                                 sign: TokenClaims -> string, verify: string -> Verification)
    requires id in s1.users
    requires ' ' !in sign(TokenClaims(id, username))
    requires verify(sign(TokenClaims(id, username))) == Verified(Claims(Some(id), Some(username)))
    ensures Gate.Authenticate(BearerOf(sign, id, username), verify, StoreLookup(s1)) == Attach(LoadIdentity(s1, id))
  {
    TokenAfterPrefix(sign(TokenClaims(id, username)));
  }

  /**
   * For any stored user, the token signed for it reaches a resource route
   * exactly when the store grants the user one of the route's names, and
   * otherwise gets 403 (never 401).
   */
  lemma {:induction false} SignedTokenOnResourceRoute(s1: Store, id: UserId, username: string,
                                                      sign: TokenClaims -> string, verify: string -> Verification, k: nat)
    requires id in s1.users
    requires ' ' !in sign(TokenClaims(id, username))
    requires verify(sign(TokenClaims(id, username))) == Verified(Claims(Some(id), Some(username)))
    requires 4 <= k < |Table|
    ensures var r := Dispatch(k, BearerOf(sign, id, username), verify, StoreLookup(s1));
            && (r.Reached? <==> exists n :: n in RequiredNames(Table[k].chain[1].perms) && n in StoreGranted(s1, id))
            && (r.Answered? ==> r.response.status == 403)
  {
    SignedTokenPassesGate(s1, id, username, sign, verify);
    ResourceRouteIsGuarded(k);
    GuardedChain(Table[k].chain[1].perms, BearerOf(sign, id, username), verify, StoreLookup(s1));
  }

  /** A user registered without role ids is granted what the role 'user' grants. */
  lemma {:induction false} DefaultRegistrationGrants(s: Store, reg: Registration, newId: UserId, hash: string -> string)
    requires Valid(s)
    requires reg.roleIds.None? && Registrable(s, reg, newId)
    ensures StoreGranted(RegisterUser(s, reg, newId, hash, Healthy).store, newId) == DefaultRoleNames(s)
  {
    var s1 := RegisterUser(s, reg, newId, hash, Healthy).store;
    RegistrationRoles(s, reg, newId, hash, Healthy);
    forall n | n in StoreGranted(s1, newId) ensures n in DefaultRoleNames(s) {
      var g :| g in s1.grants && g.0 in RolesOf(s1, newId) && g.1 in s1.perms && s1.perms[g.1].name == n;
      assert s.roles[g.0].name == DefaultRole;
    }
    forall n | n in DefaultRoleNames(s) ensures n in StoreGranted(s1, newId) {
      var g :| g in s.grants && g.0 in s.roles && s.roles[g.0].name == DefaultRole && g.1 in s.perms
               && s.perms[g.1].name == n;
      assert g.0 in RolesOf(s1, newId);
    }
  }

  /** The password just registered logs the new user in. */
  lemma {:induction false} RegisteredUserLogsIn(s: Store, reg: Registration, newId: UserId, hash: string -> string,
                                                compare: (string, string) -> bool, sign: TokenClaims -> string)
    requires Valid(s)
    requires Registrable(s, reg, newId)
    requires compare(reg.password.value, hash(reg.password.value))
    ensures var login := LoginUser(RegisterUser(s, reg, newId, hash, Healthy).store, reg.username,
                                   reg.password.value, compare, sign);
            login.LoggedIn? && login.user.id == newId && login.token == sign(TokenClaims(newId, reg.username))
  {
    var s1 := RegisterUser(s, reg, newId, hash, Healthy).store;
    assert s1.users[newId].username == reg.username;
    var login := LoginUser(s1, reg.username, reg.password.value, compare, sign);
    assert login.LoggedIn?;
    assert s1.users[login.user.id].username == reg.username;
  }

  /**
   * Register `reg` (no role ids) and send the token the login signs for it:
   * a resource route is reached exactly when the role named 'user' grants one
   * of the route's names, and otherwise answers 403.
   */
  lemma {:induction false} RegisterThenRequest(
    s: Store, reg: Registration, newId: UserId, hash: string -> string,
    sign: TokenClaims -> string, verify: string -> Verification, k: nat)
    requires Valid(s)
    requires reg.roleIds.None? && Registrable(s, reg, newId)
    requires ' ' !in sign(TokenClaims(newId, reg.username))
    requires verify(sign(TokenClaims(newId, reg.username))) == Verified(Claims(Some(newId), Some(reg.username)))
    requires 4 <= k < |Table|
    ensures var r := Dispatch(k, BearerOf(sign, newId, reg.username), verify,
                              StoreLookup(RegisterUser(s, reg, newId, hash, Healthy).store));
            && (r.Reached? <==> exists n :: n in RequiredNames(Table[k].chain[1].perms) && n in DefaultRoleNames(s))
            && (r.Answered? ==> r.response.status == 403)
  {
    var s1 := RegisterUser(s, reg, newId, hash, Healthy).store;
    DefaultRegistrationGrants(s, reg, newId, hash);
    SignedTokenOnResourceRoute(s1, newId, reg.username, sign, verify, k);
  }

  /** The same token reaches the profile route, which only authenticates. */
  lemma {:induction false} RegisterThenProfile(
    s: Store, reg: Registration, newId: UserId, hash: string -> string,
    sign: TokenClaims -> string, verify: string -> Verification)
    requires Valid(s)
    requires Registrable(s, reg, newId)
    requires ' ' !in sign(TokenClaims(newId, reg.username))
    requires verify(sign(TokenClaims(newId, reg.username))) == Verified(Claims(Some(newId), Some(reg.username)))
    ensures var s1 := RegisterUser(s, reg, newId, hash, Healthy).store;
            Dispatch(3, BearerOf(sign, newId, reg.username), verify, StoreLookup(s1)) == Reached(Some(LoadIdentity(s1, newId)))
  {
    var s1 := RegisterUser(s, reg, newId, hash, Healthy).store;
    SignedTokenPassesGate(s1, newId, reg.username, sign, verify);
    ProfileReached(BearerOf(sign, newId, reg.username), verify, StoreLookup(s1));
  }

  /** The profile route lets through whoever the gate attaches. */
  lemma {:induction false} ProfileReached(header: Option<string>, verify: string -> Verification, lookup: UserId -> Lookup)
    requires Gate.Authenticate(header, verify, lookup).Attach?
    ensures Dispatch(3, header, verify, lookup) == Reached(Some(Gate.Authenticate(header, verify, lookup).user))
  {
    assert Table[3].chain == [Authenticate];
    assert Table[3].chain[1..] == [];
  }
}
