/** The notification service's router: `/send` and `/push` run a validator chain first,
    `/stats` runs straight away. */
module NotificationRoutes {
  import opened Wrappers
  import opened Json
  import opened Validation
  import Router
  import PushHandler
  import NotificationController

  datatype Endpoint = Send | Push | GetStats

  const SendRules: seq<Rule> := [
    Rule(["type"], NotEmpty, false, "Notification type is required"),
    Rule(["userId"], NotEmpty, false, "User ID is required")
  ]

  const PushRules: seq<Rule> := [
    Rule(["deviceToken"], NotEmpty, false, "Device token is required")
  ]

  function RulesOf(e: Endpoint): seq<Rule>
  {
    match e
    case Send => SendRules
    case Push => PushRules
    case GetStats => []
  }

  const Table: seq<Router.Route<Endpoint>> := [
    Router.Route(Router.POST, [Router.Lit("send")], Send),
    Router.Route(Router.POST, [Router.Lit("push")], Push),
    Router.Route(Router.GET, [Router.Lit("stats")], GetStats)
  ]

  datatype Dispatch = NoRoute | Invalid(errors: seq<FieldError>) | Run(endpoint: Endpoint)

  function Handle(m: Router.Method, path: seq<string>, body: Object): (d: Dispatch)
    ensures d.NoRoute? <==> Router.Resolve(Table, m, path).None?
    ensures d.Run? ==> Router.Resolve(Table, m, path) == Some(d.endpoint) && Validate(RulesOf(d.endpoint), body, NoEmail).Proceed?
    ensures d.Invalid? ==> |d.errors| > 0 && Router.Resolve(Table, m, path).Some?
  {
    match Router.Resolve(Table, m, path)
    case None => NoRoute
    case Some(e) =>
      match Validate(RulesOf(e), body, NoEmail)
      case Proceed => Run(e)
      case Reject(_, errs) => Invalid(errs)
  }

  /** `/send` runs exactly when `type` and `userId` are non-empty text. */
  lemma SendGate(t: string, u: string, rest: Object)
    ensures
      var body := rest["type" := JStr(t)]["userId" := JStr(u)];
      Handle(Router.POST, ["send"], body) == Run(Send) <==> t != "" && u != ""
  {
    var body := rest["type" := JStr(t)]["userId" := JStr(u)];
    assert Router.Matches(Table[0], Router.POST, ["send"]);
    assert FieldOf(body, SendRules[0]) == Some(JStr(t));
    assert FieldOf(body, SendRules[1]) == Some(JStr(u));
    if Validate(SendRules, body, NoEmail).Proceed? {
      assert !Fails(SendRules[0], body, NoEmail);
      assert !Fails(SendRules[1], body, NoEmail);
    }
  }

  /** `/push` without a device token never reaches the controller. */
  lemma PushNeedsToken(body: Object)
    requires "deviceToken" !in body
    ensures Handle(Router.POST, ["push"], body).Invalid?
  {
    assert Router.Matches(Table[1], Router.POST, ["push"]);
    assert !Router.SegmentMatches(Table[0].pattern[0], ["push"][0]) by {
      assert "push"[0] != "send"[0];
    }
    assert Fails(PushRules[0], body, NoEmail);
  }

  /** The non-empty check looks at each element of an array, so an empty array passes as a
      device token; the mock then fails on it, and the reply still says the push was queued. */
  lemma EmptyArrayToken(now: int, fcm: PushHandler.FcmMessage -> PushHandler.FcmResult)
    ensures Handle(Router.POST, ["push"], map["deviceToken" := JArr([]), "template" := JStr("welcome")]) == Run(Push)
    ensures
      var env := NotificationController.Env(NotificationController.NoQueue, false, now, fcm);
      NotificationController.SendPushRequest(map["deviceToken" := JArr([]), "template" := JStr("welcome")], env)
        == NotificationController.Queuing(NotificationController.QueuedMessage,
             Some(NotificationController.Direct(PushHandler.PushFailed(PushHandler.NotAFunction))))
  {
    var body := map["deviceToken" := JArr([]), "template" := JStr("welcome")];
    assert Router.Matches(Table[1], Router.POST, ["push"]);
    assert !Router.SegmentMatches(Table[0].pattern[0], ["push"][0]) by {
      assert "push"[0] != "send"[0];
    }
    EmptyArrayPassesPushRules(body);
  }

  lemma EmptyArrayPassesPushRules(body: Object)
    requires body == map["deviceToken" := JArr([]), "template" := JStr("welcome")]
    ensures Validate(PushRules, body, NoEmail).Proceed?
  {
    assert FieldOf(body, PushRules[0]) == Some(JArr([]));
    assert NoneFails(PushRules, body, NoEmail);
  }
}
