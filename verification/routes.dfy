/**
 * The route table (src/routes/api.js): every route with its middleware chain,
 * and the evaluation of a chain for one request.
 */
module Routes {
  import opened Wrappers
  import opened Response
  import opened Access
  import opened Store
  import opened Gate

  datatype Verb = Get | Post | Put | Delete

  /** A middleware a route may run before its controller. */
  datatype Middleware = Authenticate | HasRole(roles: Required) | HasPermission(perms: Required)

  /** The controller that ends a route. */
  datatype Handler =
    | Ping | Register | Login | Profile
    | ListUsers | ShowUser | UpdateUser | DeleteUser
    | ListRoles | ShowRole | CreateRole | UpdateRole | DeleteRole
    | ListPermissions | ShowPermission | CreatePermission | UpdatePermission | DeletePermission

  datatype Route = Route(verb: Verb, path: string, chain: seq<Middleware>, handler: Handler)

  /** `[authenticate, hasPermission(perms)]`. */
  function Guarded(perms: Required): seq<Middleware> {
    [Authenticate, HasPermission(perms)]
  }

  const Table: seq<Route> := [
    Route(Get, "/ping", [], Ping),
    Route(Post, "/auth/register", [], Register),
    Route(Post, "/auth/login", [], Login),
    Route(Get, "/auth/profile", [Authenticate], Profile),
    Route(Get, "/users", Guarded(Single("users:read")), ListUsers),
    Route(Get, "/users/:id", Guarded(Single("users:read")), ShowUser),
    Route(Put, "/users/:id", Guarded(Single("users:update")), UpdateUser),
    Route(Delete, "/users/:id", Guarded(List(["users:delete", "admin"])), DeleteUser),
    Route(Get, "/roles", Guarded(Single("roles:read")), ListRoles),
    Route(Get, "/roles/:id", Guarded(Single("roles:read")), ShowRole),
    Route(Post, "/roles", Guarded(Single("roles:create")), CreateRole),
    Route(Put, "/roles/:id", Guarded(Single("roles:update")), UpdateRole),
    Route(Delete, "/roles/:id", Guarded(List(["roles:delete", "admin"])), DeleteRole),
    Route(Get, "/permissions", Guarded(Single("permissions:read")), ListPermissions),
    Route(Get, "/permissions/:id", Guarded(Single("permissions:read")), ShowPermission),
    Route(Post, "/permissions", Guarded(Single("permissions:create")), CreatePermission),
    Route(Put, "/permissions/:id", Guarded(Single("permissions:update")), UpdatePermission),
    Route(Delete, "/permissions/:id", Guarded(List(["permissions:delete", "admin"])), DeletePermission)
  ]

  const Resources: seq<string> := ["users", "roles", "permissions"]

  /** The path is `/<res>` or `/<res>/:id` for one of the three resources. */
  predicate IsResourcePath(path: string) {
    exists k :: 0 <= k < |Resources| && (path == "/" + Resources[k] || path == "/" + Resources[k] + "/:id")
  }

  /** The resource name a resource path starts with. */
  predicate OfResource(path: string, res: string) {
    path == "/" + res || path == "/" + res + "/:id"
  }

  /** How a request ended: its controller ran (with the attached user, if any), or a middleware answered. */
  datatype ChainResult = Reached(user: Option<Access.UserView>) | Answered(response: ErrorReply)

  /** Runs the middlewares in order; each either calls the next one or answers. */
  function RunChain(chain: seq<Middleware>, user: Option<Access.UserView>, header: Option<string>,
                    verify: string -> Verification, lookup: UserId -> Lookup): (r: ChainResult)
    decreases |chain|
  {
    if |chain| == 0 then Reached(user)
    else
      match chain[0]
      case Authenticate =>
        (match Gate.Authenticate(header, verify, lookup)
         case Attach(u) => RunChain(chain[1..], Some(u), header, verify, lookup)
         case Reject(e) => Answered(e))
      case HasRole(roles) =>
        (match Access.HasRole(roles, user)
         case Next => RunChain(chain[1..], user, header, verify, lookup)
         case Respond(e) => Answered(e))
      case HasPermission(perms) =>
        (match Access.HasPermission(perms, user)
         case Next => RunChain(chain[1..], user, header, verify, lookup)
         case Respond(e) => Answered(e))
  }

  /** One request to route `k` of the table. */
  function Dispatch(k: nat, header: Option<string>, verify: string -> Verification,
                    lookup: UserId -> Lookup): ChainResult
    requires k < |Table|
  {
    RunChain(Table[k].chain, None, header, verify, lookup)
  }

  /** The shape of the table: which routes are open, which authenticate, which check a permission. */
  lemma {:induction false} TableShape()
    ensures forall k :: 0 <= k < |Table| && IsResourcePath(Table[k].path) ==>
              exists perms :: Table[k].chain == Guarded(perms)
    ensures forall k :: 0 <= k < |Table| && Table[k].path in {"/ping", "/auth/register", "/auth/login"} ==>
              Table[k].chain == []
    ensures forall k :: 0 <= k < |Table| && Table[k].path == "/auth/profile" ==>
              Table[k].chain == [Authenticate]
    ensures forall k, m :: 0 <= k < |Table| && 0 <= m < |Table[k].chain| ==> !Table[k].chain[m].HasRole?
  {
    forall k | 0 <= k < |Table| && IsResourcePath(Table[k].path)
      ensures exists perms :: Table[k].chain == Guarded(perms)
    {
      assert Table[k].chain == Guarded(Table[k].chain[1].perms);
    }
  }

  /** Each delete route is satisfied by `<resource>:delete` or by `admin`. */
  lemma {:induction false} DeleteRoutesAcceptAdmin()
    ensures forall k :: 0 <= k < |Table| && Table[k].verb == Delete ==>
              exists res :: res in Resources && OfResource(Table[k].path, res)
                && Table[k].chain == Guarded(List([res + ":delete", "admin"]))
  {
    forall k | 0 <= k < |Table| && Table[k].verb == Delete
      ensures exists res :: res in Resources && OfResource(Table[k].path, res)
                && Table[k].chain == Guarded(List([res + ":delete", "admin"]))
    {
      var res := if k < 8 then "users" else if k < 13 then "roles" else "permissions";
      assert k in {7, 12, 17};
      assert res + ":delete" == Table[k].chain[1].perms.names[0];
      assert OfResource(Table[k].path, res);
    }
  }

  /** The permission suffix a verb asks for. */
  function Action(v: Verb): string {
    match v
    case Get => "read"
    case Post => "create"
    case Put => "update"
    case Delete => "delete"
  }

  /** Route `k` is `<verb> /<res>[/:id]` guarded by the one permission `<res>:<action>`. */
  predicate SingleGuard(k: nat, res: string, action: string)
    requires k < |Table|
  {
    OfResource(Table[k].path, res) && Action(Table[k].verb) == action
    && Table[k].chain == Guarded(Single(res + ":" + action))
  }

  /** The three non-delete `/users` routes, each with its single guard. */
  lemma {:induction false} UserGuards()
    ensures SingleGuard(4, "users", "read") && SingleGuard(5, "users", "read") && SingleGuard(6, "users", "update")
  {
    assert Table[4].chain == Guarded(Single("users:read"));
    assert Table[5].chain == Guarded(Single("users:read"));
    assert Table[6].chain == Guarded(Single("users:update"));
    assert "users:read" == "users" + ":" + "read";
    assert "users:update" == "users" + ":" + "update";
  }

  /** The four non-delete `/roles` routes, each with its single guard. */
  lemma {:induction false} RoleGuards()
    ensures SingleGuard(8, "roles", "read") && SingleGuard(9, "roles", "read") &&
            SingleGuard(10, "roles", "create") && SingleGuard(11, "roles", "update")
  {
    assert Table[8].chain == Guarded(Single("roles:read"));
    assert Table[9].chain == Guarded(Single("roles:read"));
    assert Table[10].chain == Guarded(Single("roles:create"));
    assert Table[11].chain == Guarded(Single("roles:update"));
    assert "roles:read" == "roles" + ":" + "read";
    assert "roles:create" == "roles" + ":" + "create";
    assert "roles:update" == "roles" + ":" + "update";
  }

  /** The four non-delete `/permissions` routes, each with its single guard. */
  lemma {:induction false} PermissionGuards()
    ensures SingleGuard(13, "permissions", "read") && SingleGuard(14, "permissions", "read") &&
            SingleGuard(15, "permissions", "create") && SingleGuard(16, "permissions", "update")
  {
    assert Table[13].chain == Guarded(Single("permissions:read"));
    assert Table[14].chain == Guarded(Single("permissions:read"));
    assert Table[15].chain == Guarded(Single("permissions:create"));
    assert Table[16].chain == Guarded(Single("permissions:update"));
    assert "permissions:read" == "permissions" + ":" + "read";
    assert "permissions:create" == "permissions" + ":" + "create";
    assert "permissions:update" == "permissions" + ":" + "update";
  }

  /**
   * Every other resource route requires exactly one permission,
   * `<resource>:<read|create|update>`, chosen by its verb.
   */
  lemma {:induction false} OtherRoutesRequireOnePermission(k: nat)
    requires 4 <= k < |Table| && Table[k].verb != Delete
    ensures Action(Table[k].verb) in ["read", "create", "update"]
    ensures exists res :: res in Resources && OfResource(Table[k].path, res)
              && Table[k].chain == Guarded(Single(res + ":" + Action(Table[k].verb)))
  {
    if k < 8 {
      UserGuards();
      assert "users" in Resources;
    } else if k < 13 {
      RoleGuards();
      assert "roles" in Resources;
    } else {
      PermissionGuards();
      assert "permissions" in Resources;
    }
  }

  /** Past the four open and profile routes, every route authenticates and then checks one permission list. */
  lemma {:induction false} ResourceRouteIsGuarded(k: nat)
    requires 4 <= k < |Table|
    ensures Table[k].chain == Guarded(Table[k].chain[1].perms)
  {
    if Table[k].verb == Delete {
      DeleteRoutesAcceptAdmin();
    } else {
      OtherRoutesRequireOnePermission(k);
    }
  }

  /**
   * A guarded route lets a request through exactly when the gate attaches a
   * user holding one of the route's names. Otherwise the answer is 401 from
   * the gate or 403 from the permission check.
   */
  lemma {:induction false} GuardedChain(perms: Required, header: Option<string>,
                                        verify: string -> Verification, lookup: UserId -> Lookup)
    ensures var r := RunChain(Guarded(perms), None, header, verify, lookup);
            var g := Gate.Authenticate(header, verify, lookup);
            && (g.Reject? ==> r == Answered(g.response))
            && (g.Attach? && Loaded(g.user) ==>
                  (r.Reached? <==> exists n :: n in RequiredNames(perms) && n in GrantedSet(g.user.roles.value)))
            && (r.Reached? ==> g.Attach? && r.user == Some(g.user))
            && (r.Answered? ==> r.response.status == (if g.Attach? then 403 else 401))
  {
    var g := Gate.Authenticate(header, verify, lookup);
    var chain := Guarded(perms);
    assert chain[1..] == [HasPermission(perms)];
    assert chain[1..][1..] == [];
    if g.Attach? {
      var tail := RunChain(chain[1..], Some(g.user), header, verify, lookup);
      assert RunChain(chain, None, header, verify, lookup) == tail;
      match Access.HasPermission(perms, Some(g.user))
      case Next =>
        assert tail == RunChain([], Some(g.user), header, verify, lookup);
      case Respond(e) =>
        assert tail == Answered(e);
    }
  }

  /**
   * `admin` alone unlocks only the three delete routes: for a user whose
   * only permission is `admin`, a resource route is reached exactly when it
   * is a delete.
   */
  lemma {:induction false} AdminAloneUnlocksOnlyDeletes(k: nat, header: Option<string>,
                                                        verify: string -> Verification, lookup: UserId -> Lookup)
    requires 4 <= k < |Table|
    requires Gate.Authenticate(header, verify, lookup).Attach?
    requires var u := Gate.Authenticate(header, verify, lookup).user;
             Loaded(u) && GrantedSet(u.roles.value) == {"admin"}
    ensures Dispatch(k, header, verify, lookup).Reached? <==> Table[k].verb == Delete
  {
    var perms := Table[k].chain[1].perms;
    assert Table[k].chain == Guarded(perms);
    GuardedChain(perms, header, verify, lookup);
    if Table[k].verb == Delete {
      assert RequiredNames(perms)[1] == "admin";
    } else {
      assert forall n :: n in RequiredNames(perms) ==> n != "admin";
    }
  }
}
