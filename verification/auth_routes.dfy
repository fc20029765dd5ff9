/** The user service's auth router: the validator chain in front of each public endpoint and
    the Bearer middleware in front of the two private ones. */
module AuthRoutes {
  import opened Wrappers
  import opened Json
  import opened Validation
  import Router
  import AuthMiddleware

  datatype Endpoint = Register | Login | Me | RefreshToken | ForgotPassword | ResetPassword

  const RegisterRules: seq<Rule> := [
    Rule(["email"], IsEmail, false, "Please enter a valid email"),
    Rule(["password"], MinLength(6), false, "Password must be at least 6 characters"),
    Rule(["firstName"], NotEmpty, false, "First name is required"),
    Rule(["lastName"], NotEmpty, false, "Last name is required"),
    Rule(["phone"], NotEmpty, false, "Phone number is required"),
    Rule(["role"], IsIn(["rider", "driver"]), true, "Role must be rider or driver")
  ]

  const LoginRules: seq<Rule> := [
    Rule(["email"], IsEmail, false, "Please enter a valid email"),
    Rule(["password"], NotEmpty, false, "Password is required")
  ]

  const ForgotRules: seq<Rule> := [
    Rule(["email"], IsEmail, false, "Please enter a valid email")
  ]

  const ResetRules: seq<Rule> := [
    Rule(["token"], NotEmpty, false, "Reset token is required"),
    Rule(["password"], MinLength(6), false, "Password must be at least 6 characters")
  ]

  /** What runs before the controller: a validator chain, or the Bearer middleware. */
  datatype Guard = Chain(rules: seq<Rule>) | BearerAuth

  function GuardOf(e: Endpoint): Guard
  {
    match e
    case Register => Chain(RegisterRules)
    case Login => Chain(LoginRules)
    case Me => BearerAuth
    case RefreshToken => BearerAuth
    case ForgotPassword => Chain(ForgotRules)
    case ResetPassword => Chain(ResetRules)
  }

  const Table: seq<Router.Route<Endpoint>> := [
    Router.Route(Router.POST, [Router.Lit("register")], Register),
    Router.Route(Router.POST, [Router.Lit("login")], Login),
    Router.Route(Router.GET, [Router.Lit("me")], Me),
    Router.Route(Router.POST, [Router.Lit("refresh-token")], RefreshToken),
    Router.Route(Router.POST, [Router.Lit("forgot-password")], ForgotPassword),
    Router.Route(Router.POST, [Router.Lit("reset-password")], ResetPassword)
  ]

  datatype Dispatch =
    | NoRoute
    | Invalid(errors: seq<FieldError>)
    | Unauthorized(denial: AuthMiddleware.Denial)
    | Run(endpoint: Endpoint, user: Option<AuthMiddleware.Claims>)

  function Handle(m: Router.Method, path: seq<string>, body: Object, authorization: Option<string>,
                  isEmail: string -> bool, verify: string -> AuthMiddleware.Verified): (d: Dispatch)
    ensures d.Run? ==> Router.Resolve(Table, m, path) == Some(d.endpoint)
    ensures d.Run? && d.user.Some? ==> GuardOf(d.endpoint).BearerAuth?
    ensures d.Run? && GuardOf(d.endpoint).BearerAuth? ==>
      d.user.Some? && AuthMiddleware.ServiceAuthenticate(authorization, verify) == AuthMiddleware.ServiceAllowed(d.user.value, d.user.value.userId)
    ensures d.Run? && GuardOf(d.endpoint).Chain? ==> Validate(GuardOf(d.endpoint).rules, body, isEmail).Proceed?
  {
    match Router.Resolve(Table, m, path)
    case None => NoRoute
    case Some(e) =>
      match GuardOf(e)
      case BearerAuth =>
        (match AuthMiddleware.ServiceAuthenticate(authorization, verify)
         case ServiceDenied(denial) => Unauthorized(denial)
         case ServiceAllowed(user, _) => Run(e, Some(user)))
      case Chain(rules) =>
        (match Validate(rules, body, isEmail)
         case Proceed => Run(e, None)
         case Reject(_, errs) => Invalid(errs))
  }

  /** Only `/me` and `/refresh-token` need a token; the other four are public. */
  lemma OnlyMeAndRefreshAuthenticate(e: Endpoint)
    ensures GuardOf(e).BearerAuth? <==> e == Me || e == RefreshToken
  {
  }

  /** Registration with a defined role passes only for `rider` or `driver`; `admin` is refused. */
  lemma RegisterRoleGate(body: Object, isEmail: string -> bool, role: string)
    requires Get(body, "role") == Some(JStr(role))
    requires Validate(RegisterRules, body, isEmail).Proceed?
    ensures role == "rider" || role == "driver"
  {
    assert !Fails(RegisterRules[5], body, isEmail);
  }

  /** A registration that passes carries a valid-looking email and a password of at least six
      characters, and a request without a role passes on the other fields alone. */
  lemma RegisterGate(body: Object, isEmail: string -> bool, email: string, password: string)
    requires Get(body, "email") == Some(JStr(email)) && Get(body, "password") == Some(JStr(password))
    ensures Validate(RegisterRules, body, isEmail).Proceed? ==> isEmail(email) && TextLength(password) >= 6
    ensures ("role" !in body || body["role"] == JStr("rider") || body["role"] == JStr("driver")) ==>
      (Validate(RegisterRules, body, isEmail).Proceed? <==>
        && isEmail(email) && TextLength(password) >= 6
        && Passes(NotEmpty, Get(body, "firstName"), isEmail)
        && Passes(NotEmpty, Get(body, "lastName"), isEmail)
        && Passes(NotEmpty, Get(body, "phone"), isEmail))
  {
    ProceedIffSix(RegisterRules, body, isEmail);
    RegisterEmailRule(body, isEmail, email);
    RegisterPasswordRule(body, isEmail, password);
    RegisterNameRule(body, isEmail, 2);
    RegisterNameRule(body, isEmail, 3);
    RegisterNameRule(body, isEmail, 4);
    if "role" !in body || body["role"] == JStr("rider") || body["role"] == JStr("driver") {
      RegisterRoleRule(body, isEmail);
    }
  }

  // One lemma per rule of the registration chain, each proved on its own.

  lemma RegisterEmailRule(body: Object, isEmail: string -> bool, email: string)
    requires Get(body, "email") == Some(JStr(email))
    ensures !Fails(RegisterRules[0], body, isEmail) <==> isEmail(email)
  {
    TopLevelRule(RegisterRules[0], body, isEmail);
  }

  lemma RegisterPasswordRule(body: Object, isEmail: string -> bool, password: string)
    requires Get(body, "password") == Some(JStr(password))
    ensures !Fails(RegisterRules[1], body, isEmail) <==> TextLength(password) >= 6
  {
    TopLevelRule(RegisterRules[1], body, isEmail);
  }

  lemma RegisterNameRule(body: Object, isEmail: string -> bool, k: nat)
    requires 2 <= k <= 4
    ensures RegisterRules[k].path == [["firstName", "lastName", "phone"][k - 2]]
    ensures !Fails(RegisterRules[k], body, isEmail) <==> Passes(NotEmpty, Get(body, RegisterRules[k].path[0]), isEmail)
  {
    TopLevelRule(RegisterRules[k], body, isEmail);
  }

  lemma RegisterRoleRule(body: Object, isEmail: string -> bool)
    requires "role" !in body || body["role"] == JStr("rider") || body["role"] == JStr("driver")
    ensures !Fails(RegisterRules[5], body, isEmail)
  {
    TopLevelRule(RegisterRules[5], body, isEmail);
  }

  /** A reset request passes exactly when the token is non-empty and the password has six
      characters or more. */
  lemma ResetGate(token: string, password: string, isEmail: string -> bool)
    ensures
      var body := map["token" := JStr(token), "password" := JStr(password)];
      Validate(ResetRules, body, isEmail).Proceed? <==> |token| > 0 && TextLength(password) >= 6
  {
    var body := map["token" := JStr(token), "password" := JStr(password)];
    assert FieldOf(body, ResetRules[0]) == Some(JStr(token));
    assert FieldOf(body, ResetRules[1]) == Some(JStr(password));
    if Validate(ResetRules, body, isEmail).Proceed? {
      assert !Fails(ResetRules[0], body, isEmail);
      assert !Fails(ResetRules[1], body, isEmail);
    }
  }

  /** A forgot-password request passes exactly when the email check accepts the address. */
  lemma ForgotGate(email: string, isEmail: string -> bool)
    ensures Validate(ForgotRules, map["email" := JStr(email)], isEmail).Proceed? <==> isEmail(email)
  {
    var body := map["email" := JStr(email)];
    assert FieldOf(body, ForgotRules[0]) == Some(JStr(email));
    if Validate(ForgotRules, body, isEmail).Proceed? {
      assert !Fails(ForgotRules[0], body, isEmail);
    }
  }
}
