/**
 * The authentication controllers (src/controllers/authController.js): they
 * validate the body, call the service and turn its outcome into a response.
 * A thrown error goes to the global error handler.
 */
module AuthController {
  import opened Wrappers
  import opened Response
  import Access
  import ErrorHandler
  import opened Store
  import opened AuthService

  /**
   * The error a failed store operation throws, as the error handler reads
   * it. The item messages paraphrase Sequelize's wording.
   */
  function Thrown(e: StoreError): (r: ErrorHandler.AppError)
    ensures ErrorHandler.IsValidationName(r.name) ==> r.errors.Some?
    ensures !ErrorHandler.HasCustomStatus(r)
    ensures ErrorHandler.IsValidationName(r.name) <==> e.UniqueViolation? || e.NotNullViolation?
  {
    match e
    case UniqueViolation(f) =>
      ErrorHandler.AppError("SequelizeUniqueConstraintError", Some("Validation error"), None,
                            Some([ValidationItem(f, f + " must be unique")]))
    case NotNullViolation(f) =>
      ErrorHandler.AppError("SequelizeValidationError", Some("notNull Violation"), None,
                            Some([ValidationItem(f, f + " cannot be null")]))
    case ForeignKeyViolation(f) =>
      ErrorHandler.AppError("SequelizeForeignKeyConstraintError", Some("insert or update violates foreign key constraint"), None, None)
    case HashFailed => ErrorHandler.AppError("Error", Some("data and salt arguments required"), None, None)
    case ConnectionLost => ErrorHandler.AppError("SequelizeConnectionError", Some("connection lost"), None, None)
  }

  /** `register`: 201 with the new user, or the error handler's answer. */
  function Register(s: Store, reg: Registration, newId: UserId, hash: string -> string,
                    fault: DbFault): (r: (Store, Envelope<PublicUser>))
    requires Valid(s)
    ensures var t := RegisterUser(s, reg, newId, hash, fault);
            && r.0 == t.store
            && (t.out.Success? ==> r.1 == Succeeded(201, "User registered successfully", Data(t.out.value), Empty))
            && (t.out.Failure? ==>
                  && r.1.Failed? && r.1.status in {400, 500}
                  && (r.1.status == 400 <==> t.out.error.UniqueViolation? || t.out.error.NotNullViolation?))
  {
    var t := RegisterUser(s, reg, newId, hash, fault);
    match t.out
    case Success(u) => (t.store, SuccessResponse(Some(201), Some("User registered successfully"), Some(u), None))
    case Failure(e) =>
      ErrorHandler.DecisionTable(Thrown(e));
      (t.store, Reply(ErrorHandler.Handle(Thrown(e))))
  }

  /** The login body. */
  datatype Credentials = Credentials(username: Option<string>, password: Option<string>)

  /** `data` of a successful login. */
  datatype LoginData = LoginData(user: PublicUser, roles: seq<RoleSummary>, token: string)

  predicate Falsy(x: Option<string>) {
    x.None? || x.value == ""
  }

  /** `login`: 400 without both fields, 401 with the service's message, or 200 with its data. */
  function Login(s: Store, body: Credentials, compare: (string, string) -> bool,
                 sign: TokenClaims -> string): (r: Envelope<LoginData>)
    requires Valid(s)
    ensures Falsy(body.username) || Falsy(body.password) ==>
              r == Failed(400, "Username and password are required", EmptyObject)
    ensures !Falsy(body.username) && !Falsy(body.password) ==>
              var res := LoginUser(s, body.username.value, body.password.value, compare, sign);
              && (res.LoginFailed? ==> r == Failed(401, res.message, EmptyObject))
              && (res.LoggedIn? ==> r == Succeeded(200, "Login successful", Data(LoginData(res.user, res.roles, res.token)), Empty))
  {
    if Falsy(body.username) || Falsy(body.password) then
      Reply(ErrorResponse(Some(400), Some("Username and password are required"), None))
    else
      match LoginUser(s, body.username.value, body.password.value, compare, sign)
      case LoginFailed(m) => Reply(UnauthorizedResponse(Some(m)))
      case LoggedIn(u, roles, token) =>
        SuccessResponse(Some(200), Some("Login successful"), Some(LoginData(u, roles, token)), None)
  }

  /** A role as the profile shows it. */
  datatype ProfileRole = ProfileRole(id: nat, name: string, description: Option<string>)

  /** The profile: the user's public fields and roles; no password. */
  datatype Profile = Profile(
    id: nat, username: string,
    firstname: Option<string>, lastname: Option<string>, email: Option<string>, mobile: Option<string>,
    roles: seq<ProfileRole>)

  /** `getProfile`: projects the attached user; an unloaded role list makes `map` throw. */
  function GetProfile(user: Access.UserView): (r: Envelope<Profile>)
    ensures user.roles.None? ==> r == Failed(500, "Internal Server Error", EmptyObject)
    ensures user.roles.Some? ==>
              && r.Succeeded? && r.status == 200 && r.data.Data?
              && var p := r.data.value;
              && p.id == user.id && p.username == user.username
              && p.firstname == user.firstname && p.lastname == user.lastname
              && p.email == user.email && p.mobile == user.mobile
              && |p.roles| == |user.roles.value|
              && forall i :: 0 <= i < |p.roles| ==>
                   p.roles[i] == ProfileRole(user.roles.value[i].id, user.roles.value[i].name, user.roles.value[i].desc)
  {
    match user.roles
    case None =>
      var err := ErrorHandler.AppError("TypeError", Some("Cannot read properties of undefined (reading 'map')"), None, None);
      Reply(ErrorHandler.Handle(err))
    case Some(rs) =>
      var roles := seq(|rs|, i requires 0 <= i < |rs| => ProfileRole(rs[i].id, rs[i].name, rs[i].desc));
      var p := Profile(user.id, user.username, user.firstname, user.lastname, user.email, user.mobile, roles);
      SuccessResponse(Some(200), Some("User profile retrieved successfully"), Some(p), None)
  }
}
