# Role-based access control of an inventory backend, in Dafny

This project models the access-control core of a small Express/Sequelize
inventory backend:

- **Gate.** The `authenticate` middleware reads a bearer token, verifies it
  and loads the user with its roles and their permissions.
- **Access checks.** The `hasRole` and `hasPermission` middlewares decide
  from that user and the names a route requires.
- **Route table.** It puts those middlewares in front of every endpoint.
- **Responses.** A global error handler and the JSON envelope helpers turn
  outcomes into responses.
- **Services.** They register and log in users and manage users, roles and
  permissions. The models they write are Permission (with a self-referencing
  parent), Role and the RolePermission junction.

The model is pure. The database is a value (`Store.Store`): three keyed
tables and two association relations. An operation returns the next store
and its outcome (`Store.Txn`). Every operation preserves `Store.Valid`:
unique names, and every association row and parent reference pointing at an
existing row.

Outside effects are function parameters:
- password hashing (`hash`, `compare`);
- JWT signing and verification (`sign`, `verify`);
- the user lookup the gate performs (`lookup`);
- the database's chance of failing mid-transaction (`Store.DbFault`).

The modules:
- `Wrappers`: Option, Result, and the `Field` of a partial update.
- `Response`: the success and failure envelopes (src/utils/response.js).
- `ErrorHandler`: the global error handler.
- `Access`: `hasRole`, `hasPermission`, permission flattening and
  de-duplication.
- `Store`: the entities, the invariant, association maintenance and the
  read views.
- `Gate`: header parsing, `authenticate`, and loading an identity from a
  store.
- `Routes`: the route table of src/routes/api.js and the middleware chain
  runner.
- `AuthService`, `UserService`, `RoleService`, `PermissionService`: the
  services.
- `AuthController`: register, login, profile.
- `Scenario`: registration, login and a guarded request, end to end.

## Model

| member | source | states |
|---|---|---|
| Response.SuccessResponse | src/utils/response.js:10-17 | a success envelope carrying each supplied status, message, data and meta; each one left out falls back to 200, 'Success', `{}`, `{}` |
| Response.ErrorResponse | src/utils/response.js:27-33 | a failure envelope whose status, message and errors fall back to 500, 'Server Error', `{}` |
| Response.NotFoundResponse | src/utils/response.js:41-43 | a 404 failure with default message 'Resource not found' and empty detail |
| Response.BadRequestResponse | src/utils/response.js:52-54 | a 400 failure with default message 'Bad request' that forwards the supplied errors |
| Response.UnauthorizedResponse | src/utils/response.js:62-64 | a 401 failure with default message 'Unauthorized' and empty detail |
| Response.ForbiddenResponse | src/utils/response.js:72-74 | a 403 failure with default message 'Forbidden' and empty detail |
| ErrorHandler.Reshape | src/middlewares/errorHandler.js:18 | each validation item becomes `{field: path, message}`, same length and order |
| ErrorHandler.Handle | src/middlewares/errorHandler.js:6-40 | always a failure; a truthy `statusCode` overrides with its own status, message (default 'Server Error') and raw errors; otherwise Sequelize validation names give 400 'Validation Error' with reshaped items, and the token error names give 401 'Invalid Token' or 'Token Expired' |
| ErrorHandler.DecisionTable | src/middlewares/errorHandler.js:9-30 | without a custom status: 400 iff a validation name, 401 iff a token error name, else 500 'Internal Server Error' with `{}` |
| Access.RequiredNames | src/middlewares/auth.js:62 | a single name becomes a one-element list, an array is taken as is |
| Access.Dedup | src/middlewares/auth.js:97 | the de-duplicated list has exactly the same members, no repeats, and is no longer |
| Access.Flatten | src/middlewares/auth.js:89-94 | the nested loop succeeds iff every role's permissions are loaded, and then yields exactly the names the roles grant |
| Access.UniquePermissions | src/middlewares/auth.js:88-97 | defined iff roles and their permissions are loaded; then repeat-free and equal as a set to the granted names |
| Access.HasRole | src/middlewares/auth.js:53-75 | 401 'User not authenticated' without a user, 403 'Role verification failed' with roles not loaded; otherwise passes iff some required name is one of the user's role names; an empty requirement never passes |
| Access.HasPermission | src/middlewares/auth.js:81-114 | 401 without a user, 403 'Permission verification failed' when roles or permissions are not loaded; otherwise passes iff some required name is granted by some role, else 403; an empty requirement never passes |
| Access.GrantedOnce | src/middlewares/auth.js:96-97 | a name granted by several roles occurs exactly once in the de-duplicated list |
| Access.MoreRolesNeverDeny | src/middlewares/auth.js:88-107 | adding roles to a user never turns an allow into a deny |
| Access.MoreRolesNeverDenyRole | src/middlewares/auth.js:60-68 | for `hasRole`, adding roles to a user never turns an allow into a deny |
| Access.WiderRequirementNeverDenies | src/middlewares/auth.js:99-107 | accepting more names never turns an allow into a deny |
| Access.AnyOneNameSuffices | src/middlewares/auth.js:99-107 | OR semantics: a user granted p1 but not p3 is denied for p3 and allowed for [p1, p3] |
| Gate.Split | src/middlewares/auth.js:17 | `split` gives at least one field, no field contains the separator, and at least two when the separator occurs |
| Gate.JoinSplit | src/middlewares/auth.js:17 | joining the split fields gives back the header |
| Gate.SplitJoin | src/middlewares/auth.js:17 | separator-free fields survive a join followed by a split |
| Gate.TokenOf | src/middlewares/auth.js:17 | the extracted token never contains a space |
| Gate.TokenAfterPrefix | src/middlewares/auth.js:13-17 | the token is the text after 'Bearer ' up to the next space; 'Bearer  x' yields the empty token |
| Gate.Authenticate | src/middlewares/auth.js:8-47 | no bearer header gives 401 'Authentication token is required'; an expired token 'Token expired'; an invalid one or a failing lookup 'Invalid token'; a missing id or unknown user 'User not found'; otherwise attaches the looked-up user; every rejection is a 401 |
| Gate.AttachIffAllStepsSucceed | src/middlewares/auth.js:8-47 | the user is attached iff the header is bearer, the token verifies, it carries an id and the lookup finds the user; the gate never answers 403 |
| Gate.LoadRole | src/middlewares/auth.js:27-30 | a loaded role carries the stored id, name and description, and exactly the existing permissions it is granted, each once and each with its stored fields; so its names are exactly those of its granted permissions |
| Gate.LoadIdentity | src/middlewares/auth.js:23-32 | the loaded user carries the stored id, username, password hash, firstname, lastname, email and mobile; its roles are exactly the existing roles it is assigned, each once and each loaded as `LoadRole` loads it; the names it holds are exactly those the store grants it |
| Gate.IdentityGrants | src/middlewares/auth.js:23-32 | loading each of a user's roles with its permissions yields exactly the store's grant set for that user |
| Gate.GateResolvesStoreIdentity | src/middlewares/auth.js:20-40 | against a store, the attached user is the one the token names and holds what the store grants it |
| Routes.TableShape | src/routes/api.js:15-48 | ping, register and login are open; profile only authenticates; every resource route authenticates then checks a permission; no route uses `hasRole` |
| Routes.DeleteRoutesAcceptAdmin | src/routes/api.js:30-48 | each DELETE route accepts `<resource>:delete` or `admin` |
| Routes.UserGuards | src/routes/api.js:27-29 | `GET /users`, `GET /users/:id` require 'users:read' and `PUT /users/:id` requires 'users:update', each alone |
| Routes.RoleGuards | src/routes/api.js:35-38 | the two `GET /roles` routes require 'roles:read', `POST` 'roles:create' and `PUT` 'roles:update', each alone |
| Routes.PermissionGuards | src/routes/api.js:44-47 | the two `GET /permissions` routes require 'permissions:read', `POST` 'permissions:create' and `PUT` 'permissions:update', each alone |
| Routes.OtherRoutesRequireOnePermission | src/routes/api.js:27-47 | every other resource route requires the single name `<resource>:<read, create or update>` chosen by its verb |
| Routes.ResourceRouteIsGuarded | src/routes/api.js:27-48 | every route after the profile route is `authenticate` followed by one `hasPermission` |
| Routes.GuardedChain | src/routes/api.js:27-48 | a guarded route reaches its handler iff the gate attaches a user granted one of the route's names; the answer is otherwise the gate's 401 or the check's 403 |
| Routes.AdminAloneUnlocksOnlyDeletes | src/routes/api.js:27-48 | a user whose only permission name is 'admin' reaches exactly the three DELETE handlers |
| Store.ChildrenOf | src/models/permission.js:17-20 | the children of a permission are exactly the permissions whose parent is it |
| Store.ParentChildrenInverse | src/models/permission.js:12-20 | `parent` and `children` are inverse associations, and a parent with children exists |
| Store.PutRoleValid | src/models/role.js:26-30 | writing a role whose name no other role has keeps the store valid |
| Store.SetUserRolesValid | src/models/role.js:6-10 | replacing a user's role set with existing roles keeps the store valid |
| Store.SetRolePermsValid | src/models/rolepermission.js:16-31 | replacing a role's grants with existing permissions keeps every junction row pointing at a role and a permission |
| Store.ReadUser | src/services/userService.js:26-37 | a user view has no password; its roles are exactly the user's existing roles, each listed once with its own id, name and description |
| Store.ReadRole | src/services/roleService.js:24-34 | a role view lists exactly the existing permissions the role is granted, each once with its own id, name and description |
| Store.ReadPermission | src/services/permissionService.js:24-34 | a permission view lists exactly the permissions whose parent it is, each once with its own id, name and description |
| AuthService.InitialRoles | src/services/authService.js:30-52 | a new user is given only existing roles |
| AuthService.RegisterUser | src/services/authService.js:10-65 | succeeds iff a password is present, the id and username are unused, and the database does not fail on a write it performs; success stores the hashed password and the initial roles and changes nothing else; failure leaves the store as it was |
| AuthService.RegistrationRoles | src/services/authService.js:30-52 | with non-empty roleIds the user holds exactly the existing roles among them; otherwise exactly the role named 'user' if there is one |
| AuthService.LoginUser | src/services/authService.js:73-120 | succeeds iff some user has the username and the password compares equal to the stored hash; both failures give 'Invalid username or password'; success signs the user's id and username |
| UserService.GetUserById | src/services/userService.js:26-37 | present iff the user exists, and then the user's public view with roles |
| UserService.GetAllUsers | src/services/userService.js:8-19 | lists exactly the users `getUserById` finds, each as it returns it |
| UserService.Patched | src/services/userService.js:58-66 | a truthy password is rehashed and otherwise kept; each supplied field replaces the stored one |
| UserService.UpdateUser | src/services/userService.js:45-88 | an unknown id changes nothing and returns null; otherwise succeeds iff the new username is free and the database does not fail on a write it performs; an array of roleIds replaces the roles with the existing ones among them, anything else leaves them; other users are untouched; failure rolls back |
| UserService.UpdateEdgeCases | src/services/userService.js:61-77 | a missing or empty password keeps the stored hash; roleIds naming no existing role clears the user's roles |
| UserService.DeleteUser | src/services/userService.js:95-104 | returns whether the user existed; removes it and its role rows and nothing else |
| RoleService.GetRoleById | src/services/roleService.js:24-34 | present iff the role exists, and then the role with its permissions |
| RoleService.GetAllRoles | src/services/roleService.js:7-17 | lists exactly the roles `getRoleById` finds, each as it returns it |
| RoleService.InitialGrants | src/services/roleService.js:55-66 | a new role is granted exactly the existing permissions among permissionIds |
| RoleService.CreateRole | src/services/roleService.js:41-77 | succeeds iff a name is given, the id and name are unused, and the database does not fail on a write it performs; success adds the role with its initial grants and nothing else |
| RoleService.UpdateRole | src/services/roleService.js:85-126 | an unknown id returns null; otherwise succeeds iff the name is not nulled and stays unique and the database does not fail on a write it performs; an array of permissionIds replaces the grants with the existing ones among them |
| RoleService.DeleteRole | src/services/roleService.js:133-142 | returns whether the role existed; removes it with its user-role and grant rows |
| RoleService.DeleteRoleKeepsUsers | src/services/roleService.js:133-142 | deleting a role keeps every user and removes only that role from their role sets |
| PermissionService.GetPermissionById | src/services/permissionService.js:24-34 | present iff the permission exists, and then it with its children |
| PermissionService.GetAllPermissions | src/services/permissionService.js:7-17 | lists exactly the permissions `getPermissionById` finds, each as it returns it |
| PermissionService.PutPermValid | src/models/permission.js:30-46 | writing a permission with a unique name and an existing (or its own) parent keeps the store valid |
| PermissionService.CreatePermission | src/services/permissionService.js:41-55 | succeeds iff a name is given, the id and name are unused and the parent exists; success adds exactly that permission, returned with no children |
| PermissionService.PatchedPerm | src/services/permissionService.js:70-75 | each supplied field replaces the stored one, the others are kept |
| PermissionService.UpdatePermission | src/services/permissionService.js:63-80 | an unknown id returns null; otherwise succeeds iff the name is not nulled and stays unique and a new parent exists; success changes only that permission |
| PermissionService.SelfParentAccepted | src/services/permissionService.js:63-80 | a permission can be made its own parent, creating a one-element cycle |
| PermissionService.Orphaned | src/models/permission.js:39-46 | removing a permission sets its children's parent to null and keeps every other permission |
| PermissionService.DeletePermission | src/services/permissionService.js:87-96 | returns whether the permission existed; removes it and its grants, nulls its children's parent, and touches nothing else |
| PermissionService.DeletePermValid | src/models/rolepermission.js:24-31 | the cascade and set-null on deletion keep the store valid |
| AuthController.Thrown | src/controllers/authController.js:12-14 | the error a store failure throws is a validation error exactly for unique and not-null violations, and carries its item list then |
| AuthController.Register | src/controllers/authController.js:7-15 | 201 'User registered successfully' with the new user on success; otherwise 400 iff a unique or not-null violation, else 500 |
| AuthController.Login | src/controllers/authController.js:20-38 | 400 'Username and password are required' when either is missing or empty; 401 with the service's message; 200 'Login successful' with user, roles and token |
| AuthController.GetProfile | src/controllers/authController.js:43-66 | 200 with the user's public fields and each role as `{id, name, description}` in order; 500 when the roles were not loaded |
| Scenario.SignedTokenPassesGate | src/middlewares/auth.js:13-40 | a token the service signed, sent as 'Bearer <token>', makes the gate attach that user with everything the store grants it |
| Scenario.SignedTokenOnResourceRoute | src/routes/api.js:27-48 | the token signed for a stored user reaches a resource route iff the store grants the user one of the route's names, and otherwise gets 403 |
| Scenario.DefaultRegistrationGrants | src/services/authService.js:41-51 | a user registered without roleIds holds exactly the names the 'user' role grants |
| Scenario.RegisteredUserLogsIn | src/services/authService.js:73-107 | the password just registered logs in and signs the new user's id and username |
| Scenario.ProfileReached | src/routes/api.js:22 | the profile route lets through whoever the gate attaches |
| Scenario.RegisterThenRequest | src/routes/api.js:27-48 | after registering without roleIds, the token signed for the new user reaches a resource route iff the 'user' role grants one of its names, and otherwise gets 403 |
| Scenario.RegisterThenProfile | src/routes/api.js:22 | the same token reaches the profile route with the new user attached |

## Left out

- Cryptography: bcrypt and JWT are parameters. The scenario lemmas
  (`Scenario.SignedTokenPassesGate`, `Scenario.SignedTokenOnResourceRoute`,
  `Scenario.RegisterThenRequest`, `Scenario.RegisterThenProfile`) assume two
  things of them:
  - the round trip: `verify(sign(c))` yields the claims `c`, and `compare`
    accepts a password against its own hash;
  - a signed token contains no space, as a JWT never does.

  Token expiry is one outcome of `verify`, not a clock.
- The database is a value, not I/O. Primary keys are fresh naturals
  supplied by the caller. The Role and Permission models declare UUIDv4
  defaults that Sequelize assigns in Node when the row is built. The User
  model is not part of this model.
- Timestamps (`created_at`, `updated_at`) and the junction table's own
  surrogate id are not modelled.
- Console logging in the error handler is not modelled.
- The list order of an association equals the order of increasing ids. The
  source's order is whatever the database returns.
- `GetAllUsers`, `GetAllRoles` and `GetAllPermissions` return maps keyed by
  id. The source returns arrays in database order; the model promises the
  set of entries, not their order.
- The user model file is not part of this model. `Store.Valid` assumes the
  username is unique, because the login looks users up by username.
- The user-role junction is a set of pairs, as `role.js` declares it through
  'UserRoles'. The RolePermission model names its keys `role_id`/`perm_id`
  while the associations name `roleId`/`permId`. The model abstracts this
  mismatch as a set of pairs.
- `parent_id` must name an existing permission. The services do not check
  this; the foreign key in `permission.js` rejects it. The model reports
  that as a `ForeignKeyViolation`. Nothing prevents a parent cycle (see
  `PermissionService.SelfParentAccepted`).
- On create, `registerUser` and `createRole` test only `.length > 0` of
  `roleIds` / `permissionIds`:
  - `null` throws a TypeError.
  - A number, boolean or plain object has no length. It takes the "none
    given" path: the default 'user' role in `registerUser`
    (src/services/authService.js:31, 41-51), no grants in `createRole`
    (src/services/roleService.js:56).
  - A non-empty string passes the test and reaches the id lookup as a
    single id.

  The model's create inputs (`AuthService.Registration`,
  `RoleService.RoleInput`) admit only an absent value or an array of ids,
  so these cases are not modelled. On update the source requires
  `Array.isArray`; there the model covers absent, array and any other value
  (`Store.IdsField`).
- `updateUser`, `updateRole` and `updatePermission` spread every other body
  property into the update (src/services/permissionService.js:70-73 for the
  last). The model updates only the declared columns
  (`UserService.UserPatch`, `RoleService.RolePatch`,
  `PermissionService.PermPatch`).
- The messages of Sequelize and bcrypt errors are paraphrased
  (`AuthController.Thrown`). Only their names and item lists drive the
  handler.
- The ping, user, role and permission controllers are not part of this
  model. The routes name their handlers only as tags.
- A database failure is modelled only for the writes inside a transaction
  (`Store.DbFault`) and for the gate's lookup. A failing read elsewhere is
  not modelled.

