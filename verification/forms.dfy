/** The client-side checks of the registration, password-reset and login forms: each runs its
    checks in order, shows the first failure as a toast and calls the server only when all
    pass.  String lengths are JavaScript's, in UTF-16 code units. */
module Forms {
  import opened Wrappers
  import opened Json
  import Validation
  import Text
  import AuthRoutes

  /** One check of a form: whether it holds, and the toast shown when it does not. */
  datatype Guard = Guard(holds: bool, message: string)

  /** The message of the first guard that does not hold, or None when all hold. */
  function FirstFailure(gs: seq<Guard>): (m: Option<string>)
    ensures m.None? <==> forall i :: 0 <= i < |gs| ==> gs[i].holds
    ensures m.Some? ==> exists i :: 0 <= i < |gs| && !gs[i].holds && gs[i].message == m.value &&
                                    forall j :: 0 <= j < i ==> gs[j].holds
  {
    if |gs| == 0 then None
    else if !gs[0].holds then Some(gs[0].message)
    else
      var rest := FirstFailure(gs[1..]);
      assert forall i :: 1 <= i < |gs| ==> gs[i] == gs[1..][i - 1];
      if rest.Some? then
        var k :| 0 <= k < |gs[1..]| && !gs[1..][k].holds && gs[1..][k].message == rest.value &&
                 forall j :: 0 <= j < k ==> gs[1..][j].holds;
        assert !gs[k + 1].holds && forall j :: 0 <= j < k + 1 ==> gs[j].holds;
        rest
      else rest
  }

  /** `s.length`: characters outside the Basic Multilingual Plane take two code units. */
  function JsLength(s: string): (n: nat)
    ensures n >= |s|
  {
    if |s| == 0 then 0 else (if s[0] as int > 0xFFFF then 2 else 1) + JsLength(s[1..])
  }

  /** A string with only Basic Multilingual Plane characters and no emoji presentation
      selectors: the two length measures agree on it. */
  predicate PlainText(s: string)
  {
    forall i :: 0 <= i < |s| ==> s[i] as int <= 0xFFFF && s[i] != '\U{FE0E}' && s[i] != '\U{FE0F}'
  }

  lemma {:induction false} PlainLengthsAgree(s: string)
    requires PlainText(s)
    ensures JsLength(s) == |s| == Validation.TextLength(s)
    decreases |s|
  {
    if |s| == 0 {
      assert Validation.TextLength(s) == 0;
    } else {
      PlainLengthsAgree(s[1..]);
      assert Text.Count(s, '\U{FE0E}') == Text.Count(s[1..], '\U{FE0E}');
      assert Text.Count(s, '\U{FE0F}') == Text.Count(s[1..], '\U{FE0F}');
    }
  }

  /** What a submitted form leads to: a toast and no call, or the request body sent. */
  datatype Submission = Toast(message: string) | Send(body: Object)

  const FillAll := "Please fill in all fields"
  const Mismatch := "Passwords do not match"
  const TooShort := "Password must be at least 6 characters"
  const MinPassword := 6

  // ---------------------------------------------------------------- register

  datatype RegisterForm = RegisterForm(
    firstName: string, lastName: string, email: string, phone: string,
    password: string, confirmPassword: string, role: string)

  /** The form as the page first shows it: empty fields, role `rider`. */
  const BlankRegister := RegisterForm("", "", "", "", "", "", "rider")

  function RegisterGuards(f: RegisterForm): seq<Guard>
  {
    [ Guard(f.firstName != "" && f.lastName != "" && f.email != "" && f.phone != "" && f.password != "", FillAll),
      Guard(f.password == f.confirmPassword, Mismatch),
      Guard(JsLength(f.password) >= MinPassword, TooShort) ]
  }

  /** `handleSubmit` of the registration page. */
  function SubmitRegister(f: RegisterForm): (s: Submission)
    ensures s.Send? <==> && f.firstName != "" && f.lastName != "" && f.email != "" && f.phone != ""
                         && f.password != "" && f.password == f.confirmPassword && JsLength(f.password) >= MinPassword
    ensures s.Send? ==> s.body == map["firstName" := JStr(f.firstName), "lastName" := JStr(f.lastName),
                                      "email" := JStr(f.email), "phone" := JStr(f.phone),
                                      "password" := JStr(f.password), "role" := JStr(f.role)]
    ensures s.Send? ==> "confirmPassword" !in s.body
    ensures (f.firstName == "" || f.lastName == "" || f.email == "" || f.phone == "" || f.password == "")
            ==> s == Toast(FillAll)
    ensures s == Toast(Mismatch) <==> !(f.firstName == "" || f.lastName == "" || f.email == "" || f.phone == "" || f.password == "")
                                      && f.password != f.confirmPassword
  {
    var gs := RegisterGuards(f);
    match FirstFailure(gs)
    case Some(m) =>
      assert !gs[0].holds ==> m == FillAll;
      assert gs[0].holds && !gs[1].holds ==> m == Mismatch;
      assert gs[0].holds && gs[1].holds ==> m == TooShort;
      Toast(m)
    case None =>
      assert gs[0].holds && gs[1].holds && gs[2].holds;
      Send(map["firstName" := JStr(f.firstName), "lastName" := JStr(f.lastName),
               "email" := JStr(f.email), "phone" := JStr(f.phone),
               "password" := JStr(f.password), "role" := JStr(f.role)])
  }

  /** The body the registration page sends. */
  function RegisterBody(f: RegisterForm): Object
  {
    map["firstName" := JStr(f.firstName), "lastName" := JStr(f.lastName),
        "email" := JStr(f.email), "phone" := JStr(f.phone),
        "password" := JStr(f.password), "role" := JStr(f.role)]
  }

  /** The server's registration chain on such a body, with a role the chain allows: it passes
      exactly when the email check accepts the address, the password has six characters by
      the server's count and the names and phone are non-empty. */
  lemma RegisterBodyGate(f: RegisterForm, isEmail: string -> bool)
    requires f.role == "rider" || f.role == "driver"
    ensures Validation.Validate(AuthRoutes.RegisterRules, RegisterBody(f), isEmail).Proceed? <==>
      && isEmail(f.email) && Validation.TextLength(f.password) >= 6
      && f.firstName != "" && f.lastName != "" && f.phone != ""
  {
    var body := RegisterBody(f);
    RegisterBodyFields(f);
    AuthRoutes.RegisterGate(body, isEmail, f.email, f.password);
    Validation.NotEmptyText(f.firstName, isEmail);
    Validation.NotEmptyText(f.lastName, isEmail);
    Validation.NotEmptyText(f.phone, isEmail);
  }

  /** Each field of the body reads back as the form's text. */
  lemma RegisterBodyFields(f: RegisterForm)
    ensures Get(RegisterBody(f), "firstName") == Some(JStr(f.firstName))
    ensures Get(RegisterBody(f), "lastName") == Some(JStr(f.lastName))
    ensures Get(RegisterBody(f), "email") == Some(JStr(f.email))
    ensures Get(RegisterBody(f), "phone") == Some(JStr(f.phone))
    ensures Get(RegisterBody(f), "password") == Some(JStr(f.password))
    ensures "role" in RegisterBody(f) && RegisterBody(f)["role"] == JStr(f.role)
  {
  }

  /** A registration the page sends, with a plain password, an address the email check
      accepts and the role left at its default, passes the server's chain. */
  lemma RegisterFormPassesServer(f: RegisterForm, isEmail: string -> bool)
    requires SubmitRegister(f).Send? && PlainText(f.password) && isEmail(f.email) && f.role == "rider"
    ensures Validation.Validate(AuthRoutes.RegisterRules, SubmitRegister(f).body, isEmail).Proceed?
  {
    assert SubmitRegister(f).body == RegisterBody(f);
    PlainLengthsAgree(f.password);
    RegisterBodyGate(f, isEmail);
  }

  /** Three emoji are six code units, enough for the page; the server counts three
      characters and refuses the password. */
  lemma EmojiPasswordRefusedByServer(isEmail: string -> bool)
    ensures
      var f := BlankRegister.(firstName := "A", lastName := "B", email := "a@b.co", phone := "1",
                              password := "\U{1F600}\U{1F600}\U{1F600}", confirmPassword := "\U{1F600}\U{1F600}\U{1F600}");
      && SubmitRegister(f).Send?
      && Validation.Validate(AuthRoutes.RegisterRules, SubmitRegister(f).body, isEmail).Reject?
  {
    var p := "\U{1F600}\U{1F600}\U{1F600}";
    var f := BlankRegister.(firstName := "A", lastName := "B", email := "a@b.co", phone := "1",
                            password := p, confirmPassword := p);
    assert JsLength(p) == 6 by {
      assert p[1..] == "\U{1F600}\U{1F600}" && p[1..][1..] == "\U{1F600}";
    }
    assert SubmitRegister(f).body == RegisterBody(f);
    assert Validation.TextLength(p) == 3 by {
      assert Text.Count(p, '\U{FE0E}') == 0 && Text.Count(p, '\U{FE0F}') == 0 by {
        assert p[1..] == "\U{1F600}\U{1F600}" && p[1..][1..] == "\U{1F600}";
      }
    }
    ShortPasswordRefused(f, isEmail);
  }

  /** A password the server counts as shorter than six characters is refused. */
  lemma ShortPasswordRefused(f: RegisterForm, isEmail: string -> bool)
    requires f.role == "rider" || f.role == "driver"
    requires Validation.TextLength(f.password) < 6
    ensures Validation.Validate(AuthRoutes.RegisterRules, RegisterBody(f), isEmail).Reject?
  {
    RegisterBodyGate(f, isEmail);
  }

  // ---------------------------------------------------------------- reset password

  /** `handleSubmit` of the reset page; `token` is the query parameter, None when absent. */
  function SubmitReset(token: Option<string>, password: string, confirmPassword: string): (s: Submission)
    ensures s.Send? <==> && token.Some? && token.value != "" && password != "" && confirmPassword != ""
                         && password == confirmPassword && JsLength(password) >= MinPassword
    ensures s.Send? ==> s.body == map["token" := JStr(token.value), "password" := JStr(password)]
    ensures token.None? || token.value == "" ==> s == Toast("Invalid reset link")
    ensures token.Some? && token.value != "" && (password == "" || confirmPassword == "") ==> s == Toast(FillAll)
    ensures s == Toast(Mismatch) <==> token.Some? && token.value != "" && password != "" && confirmPassword != ""
                                      && password != confirmPassword
  {
    var gs := [ Guard(token.Some? && token.value != "", "Invalid reset link"),
                Guard(password != "" && confirmPassword != "", FillAll),
                Guard(password == confirmPassword, Mismatch),
                Guard(JsLength(password) >= MinPassword, TooShort) ];
    match FirstFailure(gs)
    case Some(m) =>
      assert !gs[0].holds ==> m == "Invalid reset link";
      assert gs[0].holds && !gs[1].holds ==> m == FillAll;
      assert gs[0].holds && gs[1].holds && !gs[2].holds ==> m == Mismatch;
      assert gs[0].holds && gs[1].holds && gs[2].holds ==> m == TooShort;
      Toast(m)
    case None =>
      assert gs[0].holds && gs[1].holds && gs[2].holds && gs[3].holds;
      Send(map["token" := JStr(token.value), "password" := JStr(password)])
  }

  /** A reset the page sends with a plain password passes the server's chain. */
  lemma ResetFormPassesServer(token: Option<string>, password: string, isEmail: string -> bool)
    requires SubmitReset(token, password, password).Send? && PlainText(password)
    ensures Validation.Validate(AuthRoutes.ResetRules, SubmitReset(token, password, password).body, isEmail).Proceed?
  {
    PlainLengthsAgree(password);
    AuthRoutes.ResetGate(token.value, password, isEmail);
  }

  // ---------------------------------------------------------------- login

  /** `handleSubmit` of the login page: both fields are needed before `login` is called. */
  function SubmitLogin(email: string, password: string): (s: Submission)
    ensures s.Send? <==> email != "" && password != ""
    ensures s.Toast? ==> s.message == FillAll
    ensures s.Send? ==> Get(s.body, "email") == Some(JStr(email)) && Get(s.body, "password") == Some(JStr(password))
  {
    if email == "" || password == "" then Toast(FillAll)
    else Send(map["email" := JStr(email), "password" := JStr(password)])
  }

  /** `error.response?.data?.error || fallback`. */
  function ErrorToast(serverError: Option<Json>, fallback: string): (m: string)
    ensures Truthy(serverError) ==> m == Stringify(serverError.value)
    ensures !Truthy(serverError) ==> m == fallback
  {
    InterpOr(serverError, fallback)
  }

  /** The forgot-password modal. */
  datatype ForgotModal = ForgotModal(open: bool, email: string)

  /** The server's answer to the forgot-password call: success, or the error field of the
      failed reply (None when there is no reply or no field). */
  datatype Answer = Sent | Failed(error: Option<Json>)

  /** `handleForgotPassword`: the modal afterwards, the toast shown and the body sent, if any. */
  function ForgotPassword(m: ForgotModal, answer: Answer): (r: (ForgotModal, string, Option<Object>))
    ensures m.email == "" ==> r == (m, "Please enter your email", None)
    ensures m.email != "" ==> r.2 == Some(map["email" := JStr(m.email)])
    ensures m.email != "" && answer.Sent? ==> r.0 == ForgotModal(false, "") && r.1 == "Check your email for password reset link!"
    ensures m.email != "" && answer.Failed? ==> r.0 == m && r.1 == ErrorToast(answer.error, "Failed to send reset email")
  {
    if m.email == "" then (m, "Please enter your email", None)
    else
      var body := map["email" := JStr(m.email)];
      match answer
      case Sent => (ForgotModal(false, ""), "Check your email for password reset link!", Some(body))
      case Failed(e) => (m, ErrorToast(e, "Failed to send reset email"), Some(body))
  }

  /** A server error given as text is shown as it is; an empty or missing one falls back to
      the fixed text. */
  lemma LoginToastShowsServerText(e: string)
    ensures ErrorToast(Some(JStr(e)), "Login failed") == (if e == "" then "Login failed" else e)
    ensures ErrorToast(None, "Login failed") == "Login failed"
  {
  }
}
