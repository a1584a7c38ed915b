/**
 * The access decision middlewares `hasRole` and `hasPermission`
 * (src/middlewares/auth.js). Both are pure functions of the user that
 * `authenticate` attached to the request and the names a route requires.
 */
module Access {
  import opened Wrappers
  import opened Response

  /** A permission as loaded through a role. */
  datatype PermView = PermView(id: nat, name: string, desc: Option<string>, parent: Option<nat>)

  /** A role; `permissions` is `None` when the association was not loaded. */
  datatype RoleView = RoleView(id: nat, name: string, desc: Option<string>, permissions: Option<seq<PermView>>)

  /**
   * The user attached to a request: the whole stored record, password hash
   * included, and `roles` (`None` when the association was not loaded).
   */
  datatype UserView = UserView(
    id: nat, username: string, password: string,
    firstname: Option<string>, lastname: Option<string>, email: Option<string>, mobile: Option<string>,
    roles: Option<seq<RoleView>>)

  /** The argument of `hasRole` / `hasPermission`: one name or an array of names. */
  datatype Required = Single(name: string) | List(names: seq<string>)

  /** What a middleware does: call the next handler, or end the request with a response. */
  datatype Outcome = Next | Respond(response: ErrorReply)

  /** `Array.isArray(x) ? x : [x]`. */
  function RequiredNames(req: Required): (r: seq<string>)
    ensures req.Single? ==> r == [req.name]
    ensures req.List? ==> r == req.names
  {
    match req
    case Single(n) => [n]
    case List(ns) => ns
  }

  /** `required.some(x => held.includes(x))`. */
  predicate Meets(required: seq<string>, held: seq<string>) {
    exists i :: 0 <= i < |required| && required[i] in held
  }

  predicate NoDuplicates<T(==)>(s: seq<T>) {
    forall i, j :: 0 <= i < j < |s| ==> s[i] != s[j]
  }

  /** `[...new Set(xs)]`: the first occurrence of every element, in order. */
  function Dedup(xs: seq<string>): (r: seq<string>)
    ensures forall x :: x in r <==> x in xs
    ensures NoDuplicates(r)
    ensures |r| <= |xs|
  {
    if |xs| == 0 then []
    else
      var d := Dedup(xs[..|xs| - 1]);
      var x := xs[|xs| - 1];
      assert xs == xs[..|xs| - 1] + [x];
      if x in d then d else d + [x]
  }

  /** `role_name` of every role, in order. */
  function RoleNames(roles: seq<RoleView>): (r: seq<string>)
    ensures |r| == |roles|
    ensures forall i :: 0 <= i < |roles| ==> r[i] == roles[i].name
  {
    seq(|roles|, i requires 0 <= i < |roles| => roles[i].name)
  }

  /** `perm_name` of every permission, in order. */
  function PermNames(ps: seq<PermView>): (r: seq<string>)
    ensures |r| == |ps|
    ensures forall i :: 0 <= i < |ps| ==> r[i] == ps[i].name
  {
    seq(|ps|, i requires 0 <= i < |ps| => ps[i].name)
  }

  /** Every role carries its loaded permissions. */
  predicate AllLoaded(roles: seq<RoleView>) {
    forall i :: 0 <= i < |roles| ==> roles[i].permissions.Some?
  }

  /** The names a list of roles grants, stated declaratively. */
  ghost function GrantedSet(roles: seq<RoleView>): set<string> {
    set i, j | 0 <= i < |roles| && roles[i].permissions.Some? && 0 <= j < |roles[i].permissions.value|
      :: roles[i].permissions.value[j].name
  }

  /**
   * The nested `forEach` that pushes every `perm_name` of every role. It
   * throws (`None`) when some role's permissions were not loaded.
   */
  function Flatten(roles: seq<RoleView>): (r: Option<seq<string>>)
    ensures r.Some? <==> AllLoaded(roles)
    ensures r.Some? ==> forall n :: n in r.value <==> n in GrantedSet(roles)
    decreases |roles|
  {
    if |roles| == 0 then Some([])
    else
      match roles[0].permissions
      case None => None
      case Some(ps) =>
        match Flatten(roles[1..])
        case None => None
        case Some(rest) =>
          GrantedSetCons(roles);
          Some(PermNames(ps) + rest)
  }

  lemma GrantedSetCons(roles: seq<RoleView>)
    requires |roles| > 0 && roles[0].permissions.Some?
    ensures GrantedSet(roles) == (set n | n in PermNames(roles[0].permissions.value)) + GrantedSet(roles[1..])
  {
    var ps := roles[0].permissions.value;
    var tail := roles[1..];
    forall n | n in GrantedSet(roles)
      ensures n in PermNames(ps) || n in GrantedSet(tail)
    {
      var i, j :| 0 <= i < |roles| && roles[i].permissions.Some? && 0 <= j < |roles[i].permissions.value|
                  && roles[i].permissions.value[j].name == n;
      if i == 0 {
        assert PermNames(ps)[j] == n;
      } else {
        assert tail[i - 1] == roles[i];
      }
    }
    forall n | n in GrantedSet(tail)
      ensures n in GrantedSet(roles)
    {
      var i, j :| 0 <= i < |tail| && tail[i].permissions.Some? && 0 <= j < |tail[i].permissions.value|
                  && tail[i].permissions.value[j].name == n;
      assert roles[i + 1] == tail[i];
    }
    forall n | n in PermNames(ps)
      ensures n in GrantedSet(roles)
    {
      var j :| 0 <= j < |ps| && PermNames(ps)[j] == n;
      assert roles[0].permissions.value[j].name == n;
    }
  }

  /** `hasRole(roles)`: allow iff some required name is a role name of the user. */
  function HasRole(roles: Required, user: Option<UserView>): (r: Outcome)
    ensures user.None? ==> r == Respond(UnauthorizedResponse(Some("User not authenticated")))
    ensures user.Some? && user.value.roles.None? ==>
              r == Respond(ForbiddenResponse(Some("Role verification failed")))
    ensures user.Some? && user.value.roles.Some? ==>
              (r.Next? <==> exists n :: n in RequiredNames(roles) && n in RoleNames(user.value.roles.value))
    ensures r.Respond? && user.Some? ==> r.response.status == 403
    ensures RequiredNames(roles) == [] ==> r.Respond?
  {
    match user
    case None => Respond(UnauthorizedResponse(Some("User not authenticated")))
    case Some(u) =>
      match u.roles
      case None => Respond(ForbiddenResponse(Some("Role verification failed")))
      case Some(rs) =>
        if Meets(RequiredNames(roles), RoleNames(rs)) then Next
        else Respond(ForbiddenResponse(Some("Insufficient role permissions")))
  }

  /** The user's permissions, flattened and deduplicated, or `None` when that throws. */
  function UniquePermissions(u: UserView): (r: Option<seq<string>>)
    ensures r.Some? <==> u.roles.Some? && AllLoaded(u.roles.value)
    ensures r.Some? ==> NoDuplicates(r.value) && forall n :: n in r.value <==> n in GrantedSet(u.roles.value)
  {
    match u.roles
    case None => None
    case Some(rs) =>
      match Flatten(rs)
      case None => None
      case Some(names) => Some(Dedup(names))
  }

  /** The attached user's roles and their permissions are all loaded. */
  predicate Loaded(u: UserView) {
    u.roles.Some? && AllLoaded(u.roles.value)
  }

  /** `hasPermission(perms)`: allow iff some required name is granted by some role of the user. */
  function HasPermission(perms: Required, user: Option<UserView>): (r: Outcome)
    ensures user.None? ==> r == Respond(UnauthorizedResponse(Some("User not authenticated")))
    ensures user.Some? && !Loaded(user.value) ==>
              r == Respond(ForbiddenResponse(Some("Permission verification failed")))
    ensures user.Some? && Loaded(user.value) ==>
              (r.Next? <==> exists n :: n in RequiredNames(perms) && n in GrantedSet(user.value.roles.value))
    ensures r.Respond? && user.Some? ==> r.response.status == 403
    ensures RequiredNames(perms) == [] ==> r.Respond?
  {
    match user
    case None => Respond(UnauthorizedResponse(Some("User not authenticated")))
    case Some(u) =>
      match UniquePermissions(u)
      case None => Respond(ForbiddenResponse(Some("Permission verification failed")))
      case Some(held) =>
        if Meets(RequiredNames(perms), held) then Next
        else Respond(ForbiddenResponse(Some("Insufficient permissions")))
  }

  /**
   * A name granted through two roles is held once: with roles A and B both
   * granting `p`, the deduplicated list contains `p` exactly once.
   */
  lemma {:induction false} GrantedOnce(u: UserView, p: string)
    requires Loaded(u)
    requires p in GrantedSet(u.roles.value)
    ensures var held := UniquePermissions(u).value;
            exists k :: 0 <= k < |held| && held[k] == p && forall k' :: 0 <= k' < |held| && held[k'] == p ==> k' == k
  {
    var held := UniquePermissions(u).value;
    assert p in held;
    var k :| 0 <= k < |held| && held[k] == p;
  }

  /** Holding more roles never turns an allow into a deny. */
  lemma {:induction false} MoreRolesNeverDeny(perms: Required, u: UserView, u': UserView)
    requires Loaded(u) && Loaded(u')
    requires forall i :: 0 <= i < |u.roles.value| ==> u.roles.value[i] in u'.roles.value
    requires HasPermission(perms, Some(u)).Next?
    ensures HasPermission(perms, Some(u')).Next?
  {
    var n :| n in RequiredNames(perms) && n in GrantedSet(u.roles.value);
    var rs, rs' := u.roles.value, u'.roles.value;
    var i, j :| 0 <= i < |rs| && rs[i].permissions.Some? && 0 <= j < |rs[i].permissions.value|
                && rs[i].permissions.value[j].name == n;
    var i' :| 0 <= i' < |rs'| && rs'[i'] == rs[i];
    assert rs'[i'].permissions.value[j].name == n;
    assert n in GrantedSet(rs');
  }

  /** For `hasRole` likewise: holding more roles never turns an allow into a deny. */
  lemma {:induction false} MoreRolesNeverDenyRole(roles: Required, u: UserView, u': UserView)
    requires u.roles.Some? && u'.roles.Some?
    requires forall i :: 0 <= i < |u.roles.value| ==> u.roles.value[i] in u'.roles.value
    requires HasRole(roles, Some(u)).Next?
    ensures HasRole(roles, Some(u')).Next?
  {
    var rs, rs' := u.roles.value, u'.roles.value;
    var n :| n in RequiredNames(roles) && n in RoleNames(rs);
    var i :| 0 <= i < |rs| && RoleNames(rs)[i] == n;
    var i' :| 0 <= i' < |rs'| && rs'[i'] == rs[i];
    assert RoleNames(rs')[i'] == n;
  }

  /** Accepting more names never turns an allow into a deny. */
  lemma {:induction false} WiderRequirementNeverDenies(perms: Required, perms': Required, u: UserView)
    requires forall n :: n in RequiredNames(perms) ==> n in RequiredNames(perms')
    requires HasPermission(perms, Some(u)).Next?
    ensures HasPermission(perms', Some(u)).Next?
  {
    var n :| n in RequiredNames(perms) && n in GrantedSet(u.roles.value);
    assert n in RequiredNames(perms');
  }

  /**
   * OR semantics, not AND: a user whose roles grant `p1` but not `p3` is
   * denied for `p3` alone and allowed for `[p1, p3]`.
   */
  lemma {:induction false} AnyOneNameSuffices(u: UserView, p1: string, p3: string)
    requires Loaded(u)
    requires p1 in GrantedSet(u.roles.value) && p3 !in GrantedSet(u.roles.value)
    ensures HasPermission(Single(p3), Some(u)).Respond?
    ensures HasPermission(List([p1, p3]), Some(u)).Next?
  {
    assert RequiredNames(List([p1, p3]))[0] == p1;
  }
}
