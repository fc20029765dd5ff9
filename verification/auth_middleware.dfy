/** The two Bearer-token middlewares: the user service's own (for `/me` and
    `/refresh-token`) and the API gateway's, which also forwards the caller's identity to the
    downstream services as `x-user-*` headers.  `jwt.verify` is a parameter. */
module AuthMiddleware {
  import opened Wrappers
  import Text

  /** The payload `generateToken` signs. */
  datatype Claims = Claims(userId: string, email: string, role: string)

  /** What `jwt.verify` can do with a token: decode it, fail with a named error, or throw
      something unexpected. */
  datatype Verified = Decoded(claims: Claims) | VerifyError(name: string) | Crash

  /** The header check shared by both middlewares. */
  datatype Bearer = NoToken | BadFormat | Token(token: string)

  /** `!authHeader`, then `authHeader.split(' ')` must give exactly `Bearer` and one more piece. */
  function ParseBearer(header: Option<string>): (b: Bearer)
    ensures b == NoToken <==> header.None? || header.value == ""
  {
    if header.None? || header.value == "" then NoToken
    else
      var parts := Text.Split(header.value, ' ');
      if |parts| != 2 || parts[0] != "Bearer" then BadFormat
      else Token(parts[1])
  }

  /** A header is accepted with token `t` exactly when it is `Bearer`, one space, and `t`
      with no space in it. */
  lemma BearerIff(h: string, t: string)
    ensures ParseBearer(Some(h)) == Token(t) <==> h == "Bearer " + t && ' ' !in t
  {
    if ParseBearer(Some(h)) == Token(t) {
      Text.SplitTwoParts(h, ' ');
    }
    if h == "Bearer " + t && ' ' !in t {
      assert h == "Bearer" + [' '] + t;
      assert ' ' !in "Bearer";
      Text.SplitAround("Bearer", t, ' ');
    }
  }

  /** `bearer <t>` (lower case), a doubled space, or a bare token are all format errors. */
  lemma FormatIsCaseSensitive(t: string)
    requires ' ' !in t
    ensures ParseBearer(Some("bearer " + t)) == BadFormat
    ensures ParseBearer(Some("Bearer  " + t)) == BadFormat
    ensures t != "" ==> ParseBearer(Some(t)) == BadFormat
  {
    Text.SplitFree(t, ' ');
    assert "bearer " + t == "bearer" + [' '] + t;
    assert ' ' !in "bearer";
    Text.SplitAround("bearer", t, ' ');
    assert "Bearer  " + t == "Bearer" + [' '] + ([' '] + t);
    Text.SplitPrefix("Bearer", [' '] + t, ' ');
    assert ([' '] + t)[1..] == t;
  }

  /** A rejection: 401 (or 500 for the gateway's unexpected errors) with its message. */
  datatype Denial = Denial(status: int, error: string)

  // ---------------------------------------------------------------- user service

  /** The user service's middleware: on success `req.user` is the claims and `x-user-id` is
      the claimed user id. */
  datatype ServiceAuth = ServiceDenied(denial: Denial) | ServiceAllowed(user: Claims, xUserId: string)

  function ServiceAuthenticate(header: Option<string>, verify: string -> Verified): (r: ServiceAuth)
    ensures header.None? ==> r == ServiceDenied(Denial(401, "No token provided"))
    ensures r.ServiceAllowed? <==> ParseBearer(header).Token? && verify(ParseBearer(header).token).Decoded?
    ensures r.ServiceAllowed? ==> r.user == verify(ParseBearer(header).token).claims && r.xUserId == r.user.userId
    ensures r.ServiceDenied? ==> r.denial.status == 401
  {
    match ParseBearer(header)
    case NoToken => ServiceDenied(Denial(401, "No token provided"))
    case BadFormat => ServiceDenied(Denial(401, "Token format invalid"))
    case Token(t) =>
      match verify(t)
      case Decoded(c) => ServiceAllowed(c, c.userId)
      case VerifyError(name) =>
        ServiceDenied(Denial(401, if name == "TokenExpiredError" then "Token expired" else "Token invalid"))
      case Crash => ServiceDenied(Denial(401, "Token invalid"))
  }

  // ---------------------------------------------------------------- gateway

  type Headers = map<string, string>

  datatype GatewayAuth = GatewayDenied(denial: Denial) | Forward(user: Claims, headers: Headers)

  /** `req.headers.authorization`. */
  function AuthHeader(headers: Headers): Option<string>
  {
    if "authorization" in headers then Some(headers["authorization"]) else None
  }

  /** The gateway's middleware.  Verification errors arrive in the callback; an exception
      outside it gives 500. */
  function GatewayAuthenticate(headers: Headers, verify: string -> Verified): (r: GatewayAuth)
    ensures "authorization" !in headers ==> r == GatewayDenied(Denial(401, "No token provided"))
    ensures r.Forward? <==> ParseBearer(AuthHeader(headers)).Token? && verify(ParseBearer(AuthHeader(headers)).token).Decoded?
    ensures r.Forward? ==>
      var c := verify(ParseBearer(AuthHeader(headers)).token).claims;
      && r.user == c
      && "x-user-id" in r.headers && "x-user-email" in r.headers && "x-user-role" in r.headers
      && r.headers["x-user-id"] == c.userId && r.headers["x-user-email"] == c.email && r.headers["x-user-role"] == c.role
      && forall k :: k in headers && k !in {"x-user-id", "x-user-email", "x-user-role"} ==> k in r.headers && r.headers[k] == headers[k]
    ensures r.GatewayDenied? && r.denial.status == 500 <==>
      ParseBearer(AuthHeader(headers)).Token? && verify(ParseBearer(AuthHeader(headers)).token).Crash?
  {
    match ParseBearer(AuthHeader(headers))
    case NoToken => GatewayDenied(Denial(401, "No token provided"))
    case BadFormat => GatewayDenied(Denial(401, "Token format invalid"))
    case Token(t) =>
      match verify(t)
      case Decoded(c) =>
        Forward(c, headers["x-user-id" := c.userId]["x-user-email" := c.email]["x-user-role" := c.role])
      case VerifyError(name) =>
        GatewayDenied(Denial(401, if name == "TokenExpiredError" then "Token expired" else "Token invalid"))
      case Crash => GatewayDenied(Denial(500, "Authentication error"))
  }

  /** Identity headers a client sends itself never survive the gateway: two requests with the
      same Authorization header forward the same identity whatever else they carry. */
  lemma ClientIdentityHeadersOverwritten(h1: Headers, h2: Headers, verify: string -> Verified)
    requires "authorization" in h1 && "authorization" in h2 && h1["authorization"] == h2["authorization"]
    ensures GatewayAuthenticate(h1, verify).Forward? <==> GatewayAuthenticate(h2, verify).Forward?
    ensures GatewayAuthenticate(h1, verify).Forward? ==>
      var a := GatewayAuthenticate(h1, verify).headers;
      var b := GatewayAuthenticate(h2, verify).headers;
      a["x-user-id"] == b["x-user-id"] && a["x-user-email"] == b["x-user-email"] && a["x-user-role"] == b["x-user-role"]
  {
  }

  /** Both middlewares accept the same headers and reject the rest with the same message,
      except that an unexpected exception is a 401 in the service and a 500 at the gateway. */
  lemma MiddlewaresAgree(h: string, verify: string -> Verified)
    ensures ServiceAuthenticate(Some(h), verify).ServiceAllowed? <==> GatewayAuthenticate(map["authorization" := h], verify).Forward?
    ensures
      var g := GatewayAuthenticate(map["authorization" := h], verify);
      g.GatewayDenied? && g.denial.status == 401 ==> ServiceAuthenticate(Some(h), verify) == ServiceDenied(g.denial)
  {
  }

  /** A well-formed header carrying a token the verifier accepts authenticates as the claims'
      user at both layers. */
  lemma BearerTokenAuthenticates(t: string, verify: string -> Verified)
    requires ' ' !in t && verify(t).Decoded?
    ensures ServiceAuthenticate(Some("Bearer " + t), verify) == ServiceAllowed(verify(t).claims, verify(t).claims.userId)
    ensures GatewayAuthenticate(map["authorization" := "Bearer " + t], verify).Forward?
    ensures GatewayAuthenticate(map["authorization" := "Bearer " + t], verify).headers["x-user-id"] == verify(t).claims.userId
  {
    BearerIff("Bearer " + t, t);
  }
}
