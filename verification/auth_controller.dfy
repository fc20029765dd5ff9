/** The account handlers of the user service: registration, login, and the two-step password
    reset (a hashed single-use token with a ten-minute expiry).  The user collection is a
    sequence in natural order, since `findOne` returns the first match.  `bcrypt.hash`,
    `bcrypt.compare`, SHA-256, `jwt.sign` and the random token are parameters. */
module AuthController {
  import opened Wrappers
  import opened UserModel
  import AuthMiddleware
  import Seqs

  type Users = seq<User>

  /** No two accounts share an email, which the `unique` index guarantees. */
  predicate UniqueEmails(users: Users)
  {
    forall i, j :: 0 <= i < j < |users| ==> users[i].email != users[j].email
  }

  /** `User.findOne({ email })`: the query value goes through the same setters as the field. */
  function FindByEmail(users: Users, email: string): (k: Option<nat>)
    ensures k.None? <==> forall i :: 0 <= i < |users| ==> users[i].email != NormalizeEmail(email)
    ensures k.Some? ==> k.value < |users| && users[k.value].email == NormalizeEmail(email)
    ensures k.Some? ==> forall i :: 0 <= i < k.value ==> users[i].email != NormalizeEmail(email)
  {
    var key := NormalizeEmail(email);
    Seqs.FirstWhere(users, (u: User) => u.email == key)
  }

  /** `generateToken`: the signed claims are exactly the id, email and role. */
  function TokenClaims(u: User): (c: AuthMiddleware.Claims)
    ensures c.userId == u.id && c.email == u.email && c.role == RoleName(u.role)
  {
    AuthMiddleware.Claims(u.id, u.email, RoleName(u.role))
  }

  /** A reply body: a user (sent through `toJSON`) with a token, a plain message, or an error. */
  datatype Reply =
    | Issued(status: int, message: string, user: User, token: string)
    | Message(status: int, message: string)
    | Error(status: int, error: string)

  datatype Outcome = Outcome(users: Users, reply: Reply)

  // ---------------------------------------------------------------- register

  datatype RegisterRequest = RegisterRequest(
    email: string, password: string, firstName: string, lastName: string, phone: string, role: Option<string>)

  /** `role || 'rider'`: a missing or empty role is a rider; an unknown one fails the enum. */
  function RequestedRole(role: Option<string>): Option<Role>
  {
    if role.None? || role.value == "" then Some(Rider) else ParseRole(role.value)
  }

  function Register(users: Users, req: RegisterRequest, newId: string, now: int,
                    hash: string -> string, sign: AuthMiddleware.Claims -> string): (o: Outcome)
    ensures FindByEmail(users, req.email).Some? ==> o == Outcome(users, Error(400, "Email already registered"))
    ensures o.reply.Issued? <==>
      && FindByEmail(users, req.email).None?
      && RequestedRole(req.role).Some?
      && SchemaValid(NewUser(newId, req.email, req.password, req.firstName, req.lastName, req.phone, RequestedRole(req.role).value, now))
    ensures o.reply.Issued? ==>
      && o.reply.status == 201
      && o.users == users + [o.reply.user]
      && o.reply.user.email == NormalizeEmail(req.email)
      && o.reply.user.password == hash(req.password)
      && o.reply.user.role == RequestedRole(req.role).value
      && o.reply.user.isActive && !o.reply.user.isVerified
      && o.reply.token == sign(TokenClaims(o.reply.user))
    ensures !o.reply.Issued? ==> o.users == users
  {
    if FindByEmail(users, req.email).Some? then Outcome(users, Error(400, "Email already registered"))
    else
      match RequestedRole(req.role)
      case None => Outcome(users, Error(500, "User validation failed"))
      case Some(role) =>
        var u := NewUser(newId, req.email, req.password, req.firstName, req.lastName, req.phone, role, now);
        match Save(u, true, hash)
        case Invalid => Outcome(users, Error(500, "User validation failed"))
        case Stored(saved) =>
          Outcome(users + [saved], Issued(201, "User registered successfully", saved, sign(TokenClaims(saved))))
  }

  /** Registration never creates a second account for an email. */
  lemma RegisterKeepsEmailsUnique(users: Users, req: RegisterRequest, newId: string, now: int,
                                  hash: string -> string, sign: AuthMiddleware.Claims -> string)
    requires UniqueEmails(users)
    ensures UniqueEmails(Register(users, req, newId, now, hash, sign).users)
  {
    var o := Register(users, req, newId, now, hash, sign);
    if o.reply.Issued? {
      AppendFreshEmail(users, o.reply.user);
    }
  }

  /** Appending a user whose email no account has keeps emails unique. */
  lemma AppendFreshEmail(users: Users, u: User)
    requires UniqueEmails(users)
    requires forall i :: 0 <= i < |users| ==> users[i].email != u.email
    ensures UniqueEmails(users + [u])
  {
  }

  // ---------------------------------------------------------------- login

  function Login(users: Users, email: string, password: string,
                 compare: (string, string) -> bool, sign: AuthMiddleware.Claims -> string): (o: Outcome)
    ensures o.users == users
    ensures FindByEmail(users, email).None? ==> o.reply == Error(401, "Invalid email or password")
    ensures o.reply.Issued? <==>
      var k := FindByEmail(users, email);
      k.Some? && users[k.value].isActive && compare(password, users[k.value].password)
    ensures o.reply.Issued? ==>
      && o.reply.status == 200
      && o.reply.user == users[FindByEmail(users, email).value]
      && o.reply.token == sign(TokenClaims(o.reply.user))
    ensures !o.reply.Issued? ==> o.reply.Error? && o.reply.status == 401
  {
    match FindByEmail(users, email)
    case None => Outcome(users, Error(401, "Invalid email or password"))
    case Some(k) =>
      var u := users[k];
      if !u.isActive then Outcome(users, Error(401, "Account is deactivated"))
      else if !compare(password, u.password) then Outcome(users, Error(401, "Invalid email or password"))
      else Outcome(users, Issued(200, "Login successful", u, sign(TokenClaims(u))))
  }

  /** An unknown email and a wrong password for an active account get the same reply, so a
      login attempt does not reveal which emails are registered. */
  lemma LoginDoesNotRevealEmail(users: Users, unknown: string, known: string, password: string,
                                compare: (string, string) -> bool, sign: AuthMiddleware.Claims -> string)
    requires FindByEmail(users, unknown).None?
    requires FindByEmail(users, known).Some?
    requires users[FindByEmail(users, known).value].isActive
    requires !compare(password, users[FindByEmail(users, known).value].password)
    ensures Login(users, unknown, password, compare, sign) == Login(users, known, password, compare, sign)
  {
  }

  /** A deactivated account is refused before its password is looked at. */
  lemma DeactivatedRefusedWhateverThePassword(users: Users, email: string, p1: string, p2: string,
                                              compare: (string, string) -> bool, sign: AuthMiddleware.Claims -> string)
    requires FindByEmail(users, email).Some? && !users[FindByEmail(users, email).value].isActive
    ensures Login(users, email, p1, compare, sign).reply == Error(401, "Account is deactivated")
    ensures Login(users, email, p1, compare, sign) == Login(users, email, p2, compare, sign)
  {
  }

  /** A token issued at login, sent back as `Bearer <token>`, authenticates as that user at
      the gateway, provided the signer never emits a space and the verifier decodes what the
      signer signed. */
  lemma LoginTokenAuthenticates(users: Users, email: string, password: string,
                                compare: (string, string) -> bool, sign: AuthMiddleware.Claims -> string,
                                verify: string -> AuthMiddleware.Verified)
    requires Login(users, email, password, compare, sign).reply.Issued?
    requires forall c :: ' ' !in sign(c) && verify(sign(c)) == AuthMiddleware.Decoded(c)
    ensures
      var r := Login(users, email, password, compare, sign).reply;
      var g := AuthMiddleware.GatewayAuthenticate(map["authorization" := "Bearer " + r.token], verify);
      && g.Forward?
      && g.headers["x-user-id"] == r.user.id
      && g.headers["x-user-role"] == RoleName(r.user.role)
  {
    var r := Login(users, email, password, compare, sign).reply;
    AuthMiddleware.BearerTokenAuthenticates(r.token, verify);
  }

  // ---------------------------------------------------------------- password reset

  /** Ten minutes, in milliseconds. */
  const ResetWindow: int := 10 * 60 * 1000

  const ForgotMessage: string := "If email exists, password reset link has been sent"

  /** The request sent to the notification service; the reply does not wait on its fate. */
  datatype ResetMail = ResetMail(userId: string, email: string, name: string, resetLink: string)

  datatype ForgotOutcome = ForgotOutcome(users: Users, reply: Reply, mail: Option<ResetMail>)

  function ForgotPassword(users: Users, email: string, token: string, now: int, frontendUrl: string,
                          sha: string -> string, hash: string -> string): (o: ForgotOutcome)
    ensures o.reply == Message(200, ForgotMessage) || o.reply == Error(500, "Failed to process password reset request")
    ensures FindByEmail(users, email).None? ==> o == ForgotOutcome(users, Message(200, ForgotMessage), None)
    ensures o.reply.Message? && FindByEmail(users, email).Some? ==>
      var k := FindByEmail(users, email).value;
      && |o.users| == |users|
      && o.users[k] == users[k].(resetTokenHash := Some(sha(token)), resetExpires := Some(now + ResetWindow))
      && (forall i :: 0 <= i < |users| && i != k ==> o.users[i] == users[i])
      && o.mail == Some(ResetMail(users[k].id, users[k].email, users[k].firstName, frontendUrl + "/reset-password?token=" + token))
    ensures o.reply.Error? ==> o.users == users && o.mail.None?
  {
    match FindByEmail(users, email)
    case None => ForgotOutcome(users, Message(200, ForgotMessage), None)
    case Some(k) =>
      var u := users[k].(resetTokenHash := Some(sha(token)), resetExpires := Some(now + ResetWindow));
      match Save(u, false, hash)
      case Invalid => ForgotOutcome(users, Error(500, "Failed to process password reset request"), None)
      case Stored(saved) =>
        var mail := ResetMail(saved.id, saved.email, saved.firstName, frontendUrl + "/reset-password?token=" + token);
        ForgotOutcome(users[k := saved], Message(200, ForgotMessage), Some(mail))
  }

  /** Whether an account is registered is invisible in the reply. */
  lemma ForgotDoesNotRevealEmail(users: Users, unknown: string, known: string, token: string, now: int,
                                 frontendUrl: string, sha: string -> string, hash: string -> string)
    requires FindByEmail(users, unknown).None?
    requires FindByEmail(users, known).Some? && SchemaValid(users[FindByEmail(users, known).value])
    ensures ForgotPassword(users, unknown, token, now, frontendUrl, sha, hash).reply
         == ForgotPassword(users, known, token, now, frontendUrl, sha, hash).reply
  {
  }

  /** `findOne({ passwordResetToken: h, passwordResetExpires: { $gt: now } })`. */
  predicate HoldsLiveToken(u: User, h: string, now: int)
  {
    u.resetTokenHash == Some(h) && u.resetExpires.Some? && u.resetExpires.value > now
  }

  function FindByResetToken(users: Users, h: string, now: int): (k: Option<nat>)
    ensures k.None? <==> forall i :: 0 <= i < |users| ==> !HoldsLiveToken(users[i], h, now)
    ensures k.Some? ==> k.value < |users| && HoldsLiveToken(users[k.value], h, now)
    ensures k.Some? ==> forall i :: 0 <= i < k.value ==> !HoldsLiveToken(users[i], h, now)
  {
    Seqs.FirstWhere(users, (u: User) => HoldsLiveToken(u, h, now))
  }

  /** JavaScript truthiness of an optional string field. */
  predicate Present(s: Option<string>) { s.Some? && s.value != "" }

  function ResetPassword(users: Users, token: Option<string>, password: Option<string>, now: int,
                         sha: string -> string, hash: string -> string): (o: Outcome)
    ensures !Present(token) || !Present(password) ==> o == Outcome(users, Error(400, "Token and new password are required"))
    ensures Present(token) && Present(password) && FindByResetToken(users, sha(token.value), now).None? ==>
      o == Outcome(users, Error(400, "Invalid or expired reset token"))
    ensures o.reply.Message? ==>
      && Present(token) && Present(password)
      && FindByResetToken(users, sha(token.value), now).Some?
      && var k := FindByResetToken(users, sha(token.value), now).value;
      && |o.users| == |users|
      && o.users[k] == users[k].(password := hash(password.value), resetTokenHash := None, resetExpires := None)
      && (forall i :: 0 <= i < |users| && i != k ==> o.users[i] == users[i])
      && o.reply.status == 200
    ensures !o.reply.Message? ==> o.users == users && o.reply.Error?
  {
    if !Present(token) || !Present(password) then Outcome(users, Error(400, "Token and new password are required"))
    else
      match FindByResetToken(users, sha(token.value), now)
      case None => Outcome(users, Error(400, "Invalid or expired reset token"))
      case Some(k) =>
        var u := users[k].(password := password.value, resetTokenHash := None, resetExpires := None);
        match Save(u, true, hash)
        case Invalid => Outcome(users, Error(500, "Failed to reset password"))
        case Stored(saved) =>
          Outcome(users[k := saved], Message(200, "Password reset successfully. Please log in with your new password."))
  }

  /** At most one account holds a given token hash. */
  predicate HashHeldOnce(users: Users, h: string)
  {
    forall i, j :: 0 <= i < j < |users| && users[i].resetTokenHash == Some(h) ==> users[j].resetTokenHash != Some(h)
  }

  /** A reset token works once: replaying it, at any time, is refused. */
  lemma ResetTokenSingleUse(users: Users, token: string, password: string, now: int, later: int, again: string,
                            sha: string -> string, hash: string -> string)
    requires HashHeldOnce(users, sha(token))
    requires ResetPassword(users, Some(token), Some(password), now, sha, hash).reply.Message?
    requires again != ""
    ensures
      var after := ResetPassword(users, Some(token), Some(password), now, sha, hash).users;
      ResetPassword(after, Some(token), Some(again), later, sha, hash) == Outcome(after, Error(400, "Invalid or expired reset token"))
  {
    var k := FindByResetToken(users, sha(token), now).value;
    var after := ResetPassword(users, Some(token), Some(password), now, sha, hash).users;
    assert forall i :: 0 <= i < |after| ==> !HoldsLiveToken(after[i], sha(token), later);
  }

  /** The whole protocol: a token issued by forgot-password resets the password while it is
      live, and the new password then logs in. */
  lemma ForgotThenReset(users: Users, email: string, token: string, now: int, later: int, frontendUrl: string,
                        password: string, sha: string -> string, hash: string -> string,
                        compare: (string, string) -> bool, sign: AuthMiddleware.Claims -> string)
    requires FindByEmail(users, email).Some?
    requires forall i :: 0 <= i < |users| ==> users[i].resetTokenHash != Some(sha(token))
    requires SchemaValid(users[FindByEmail(users, email).value])
    requires token != "" && |password| >= 6
    requires now <= later < now + ResetWindow
    requires forall p :: compare(p, hash(p))
    requires users[FindByEmail(users, email).value].isActive
    ensures
      var mid := ForgotPassword(users, email, token, now, frontendUrl, sha, hash).users;
      var after := ResetPassword(mid, Some(token), Some(password), later, sha, hash);
      && after.reply.Message?
      && Login(after.users, email, password, compare, sign).reply.Issued?
  {
    var k := FindByEmail(users, email).value;
    var mid := ForgotPassword(users, email, token, now, frontendUrl, sha, hash).users;
    ForgotIssuesLiveToken(users, email, token, now, later, frontendUrl, sha, hash);
    ResetLogsIn(mid, email, token, password, later, sha, hash, compare, sign);
  }

  /** A reset with the live token of the account an email finds lets that email log in with
      the new password. */
  lemma ResetLogsIn(users: Users, email: string, token: string, password: string, now: int,
                    sha: string -> string, hash: string -> string,
                    compare: (string, string) -> bool, sign: AuthMiddleware.Claims -> string)
    requires FindByEmail(users, email).Some? && users[FindByEmail(users, email).value].isActive
    requires FindByResetToken(users, sha(token), now) == FindByEmail(users, email)
    requires SchemaValid(users[FindByEmail(users, email).value])
    requires token != "" && |password| >= 6
    requires forall p :: compare(p, hash(p))
    ensures
      var after := ResetPassword(users, Some(token), Some(password), now, sha, hash);
      && after.reply.Message?
      && Login(after.users, email, password, compare, sign).reply.Issued?
  {
    var k := FindByEmail(users, email).value;
    NewPasswordKeepsSchema(users[k], password);
    var after := ResetPassword(users, Some(token), Some(password), now, sha, hash);
    NewPasswordLogsIn(users, after.users, k, email, password, hash, compare, sign);
  }

  /** A valid account with a new password of six characters or more, and its token cleared,
      is still valid. */
  lemma NewPasswordKeepsSchema(u: User, password: string)
    requires SchemaValid(u) && |password| >= 6
    ensures SchemaValid(u.(password := password, resetTokenHash := None, resetExpires := None))
  {
  }

  /** Replacing one active account's password with the hash of a new one lets its email log in
      with the new password. */
  lemma NewPasswordLogsIn(users: Users, after: Users, k: nat, email: string, password: string, hash: string -> string,
                          compare: (string, string) -> bool, sign: AuthMiddleware.Claims -> string)
    requires FindByEmail(users, email) == Some(k) && users[k].isActive
    requires |after| == |users| && after[k] == users[k].(password := hash(password), resetTokenHash := None, resetExpires := None)
    requires forall i :: 0 <= i < |users| && i != k ==> after[i] == users[i]
    requires compare(password, hash(password))
    ensures Login(after, email, password, compare, sign).reply.Issued?
  {
    SameEmailsSameFind(users, after, email);
  }

  /** After forgot-password the account alone holds the token, live until the window ends. */
  lemma ForgotIssuesLiveToken(users: Users, email: string, token: string, now: int, later: int, frontendUrl: string,
                              sha: string -> string, hash: string -> string)
    requires FindByEmail(users, email).Some?
    requires forall i :: 0 <= i < |users| ==> users[i].resetTokenHash != Some(sha(token))
    requires SchemaValid(users[FindByEmail(users, email).value])
    requires now <= later < now + ResetWindow
    ensures
      var mid := ForgotPassword(users, email, token, now, frontendUrl, sha, hash).users;
      var k := FindByEmail(users, email).value;
      && FindByResetToken(mid, sha(token), later) == Some(k)
      && FindByEmail(mid, email) == Some(k)
      && mid[k].isActive == users[k].isActive
      && SchemaValid(mid[k])
  {
    var k := FindByEmail(users, email).value;
    var mid := ForgotPassword(users, email, token, now, frontendUrl, sha, hash).users;
    TokenWrittenFound(users, mid, k, email, sha(token), now + ResetWindow, later);
  }

  /** Writing a fresh token hash and expiry into the account an email finds makes it the
      account the token finds before the expiry, and leaves the email lookup as it was. */
  lemma TokenWrittenFound(users: Users, mid: Users, k: nat, email: string, h: string, expires: int, now: int)
    requires FindByEmail(users, email) == Some(k)
    requires forall i :: 0 <= i < |users| ==> users[i].resetTokenHash != Some(h)
    requires |mid| == |users| && mid[k] == users[k].(resetTokenHash := Some(h), resetExpires := Some(expires))
    requires forall i :: 0 <= i < |users| && i != k ==> mid[i] == users[i]
    requires now < expires
    ensures FindByResetToken(mid, h, now) == Some(k) && FindByEmail(mid, email) == Some(k)
  {
    OnlyHolderFound(mid, k, h, now);
    SameEmailsSameFind(users, mid, email);
  }

  /** The one account holding a live token is the one the lookup finds. */
  lemma OnlyHolderFound(users: Users, k: nat, h: string, now: int)
    requires k < |users| && HoldsLiveToken(users[k], h, now)
    requires forall i :: 0 <= i < |users| && i != k ==> users[i].resetTokenHash != Some(h)
    ensures FindByResetToken(users, h, now) == Some(k)
  {
    var f := FindByResetToken(users, h, now);
    assert f.Some?;
  }

  /** A lookup by email sees only the emails. */
  lemma SameEmailsSameFind(a: Users, b: Users, email: string)
    requires |a| == |b| && forall i :: 0 <= i < |a| ==> a[i].email == b[i].email
    ensures FindByEmail(a, email) == FindByEmail(b, email)
  {
    var ka := FindByEmail(a, email);
    var kb := FindByEmail(b, email);
    if ka.Some? && kb.Some? {
      assert !(ka.value < kb.value) && !(kb.value < ka.value);
    }
  }
}
