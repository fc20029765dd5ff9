/** The ride router: which validator chain guards each endpoint, and the registration
    order that decides which handler a path reaches. */
module RideRoutes {
  import opened Wrappers
  import opened Json
  import opened Validation
  import Router
  import Text
  import RideModel
  import Vehicles

  datatype Endpoint =
    | RequestRide | AcceptRide | UpdateRideStatus | FareEstimate | ActiveRides
    | RideHistory | DriverStats | RideById | RateRide | CancelRide

  const RequestRules: seq<Rule> := [
    Rule(["vehicleType"], IsIn(Vehicles.Names), false, "Invalid vehicle type"),
    Rule(["pickup", "address"], NotEmpty, false, "Pickup address is required"),
    Rule(["pickup", "coordinates"], IsObject, false, "Pickup coordinates required"),
    Rule(["dropoff", "address"], NotEmpty, false, "Dropoff address is required"),
    Rule(["dropoff", "coordinates"], IsObject, false, "Dropoff coordinates required")
  ]

  /** The statuses the status endpoint lets through; `arrived` is among them. */
  const WritableStatuses: seq<string> := ["arriving", "arrived", "in_progress", "completed", "cancelled"]

  const StatusRules: seq<Rule> := [
    Rule(["status"], IsIn(WritableStatuses), false, "Invalid status")
  ]

  const EstimateRules: seq<Rule> := [
    Rule(["pickup"], IsObject, false, "Pickup location required"),
    Rule(["dropoff"], IsObject, false, "Dropoff location required")
  ]

  const RateRules: seq<Rule> := [
    Rule(["rating"], IsIntIn(1, 5), false, "Rating must be between 1 and 5"),
    Rule(["role"], IsIn(["rider", "driver"]), true, "Role must be rider or driver")
  ]

  /** The chain in front of each endpoint; endpoints without one get the empty chain. */
  function RulesFor(e: Endpoint): seq<Rule>
  {
    match e
    case RequestRide => RequestRules
    case UpdateRideStatus => StatusRules
    case FareEstimate => EstimateRules
    case RateRide => RateRules
    case _ => []
  }

  /** The routes in registration order; `/driver-stats` is registered twice and the second
      registration can never be reached. */
  const Table: seq<Router.Route<Endpoint>> := [
    Router.Route(Router.POST, [Router.Lit("request")], RequestRide),
    Router.Route(Router.POST, [Router.Param, Router.Lit("accept")], AcceptRide),
    Router.Route(Router.PATCH, [Router.Param, Router.Lit("status")], UpdateRideStatus),
    Router.Route(Router.POST, [Router.Lit("estimate")], FareEstimate),
    Router.Route(Router.GET, [Router.Lit("active")], ActiveRides),
    Router.Route(Router.GET, [Router.Lit("history")], RideHistory),
    Router.Route(Router.GET, [Router.Lit("driver-stats")], DriverStats),
    Router.Route(Router.GET, [Router.Param], RideById),
    Router.Route(Router.POST, [Router.Param, Router.Lit("rate")], RateRide),
    Router.Route(Router.POST, [Router.Param, Router.Lit("cancel")], CancelRide),
    Router.Route(Router.GET, [Router.Lit("driver-stats")], DriverStats)
  ]

  /** The outcome of routing a request: Express's own 404, a 400 from the chain, or the
      endpoint that runs. */
  datatype Dispatch = NoRoute | Invalid(errors: seq<FieldError>) | Run(endpoint: Endpoint)

  function Handle(m: Router.Method, path: seq<string>, body: Object): (d: Dispatch)
    ensures d.Run? ==> Validate(RulesFor(d.endpoint), body, NoEmail).Proceed?
    ensures d.Invalid? ==> |d.errors| > 0
  {
    match Router.Resolve(Table, m, path)
    case None => NoRoute
    case Some(e) =>
      match Validate(RulesFor(e), body, NoEmail)
      case Proceed => Run(e)
      case Reject(_, errs) => Invalid(errs)
  }

  /** A single-segment GET reaches `getRideById` exactly when the segment is non-empty and is
      none of the three literal paths registered before it, in any letter case. */
  lemma LiteralPathsShadowRideById(x: string)
    ensures Router.Resolve(Table, Router.GET, [x]) == Some(RideById)
        <==> |x| > 0 && Text.FoldAscii(x) !in {"active", "history", "driver-stats"}
  {
    Text.FoldOfLowercase("active");
    Text.FoldOfLowercase("history");
    Text.FoldOfLowercase("driver-stats");
    var lx := Text.FoldAscii(x);
    if lx == "active" {
      assert Router.Matches(Table[4], Router.GET, [x]);
    } else if lx == "history" {
      assert Router.Matches(Table[5], Router.GET, [x]);
    } else if lx == "driver-stats" {
      assert Router.Matches(Table[6], Router.GET, [x]);
    } else if |x| > 0 {
      assert Router.Matches(Table[7], Router.GET, [x]);
      assert !Router.SegmentMatches(Table[4].pattern[0], x);
      assert !Router.SegmentMatches(Table[5].pattern[0], x);
      assert !Router.SegmentMatches(Table[6].pattern[0], x);
    } else {
      assert !Router.SegmentMatches(Table[7].pattern[0], x);
    }
  }

  /** Accept and cancel run no body validation: every body reaches the controller. */
  lemma AcceptAndCancelUnvalidated(body: Object)
    ensures Validate(RulesFor(AcceptRide), body, NoEmail) == Proceed
    ensures Validate(RulesFor(CancelRide), body, NoEmail) == Proceed
  {
  }

  /** A ride request reaches the controller only with a known vehicle class, two non-empty
      addresses and two coordinate objects. */
  lemma RequestGate(body: Object)
    ensures Validate(RequestRules, body, NoEmail).Proceed? <==>
      && Passes(IsIn(Vehicles.Names), FieldOf(body, RequestRules[0]), NoEmail)
      && Passes(NotEmpty, At(body, ["pickup", "address"]), NoEmail)
      && Passes(NotEmpty, At(body, ["dropoff", "address"]), NoEmail)
      && At(body, ["pickup", "coordinates"]).Some? && At(body, ["pickup", "coordinates"]).value.JObj?
      && At(body, ["dropoff", "coordinates"]).Some? && At(body, ["dropoff", "coordinates"]).value.JObj?
  {
    ProceedIffFive(RequestRules, body, NoEmail);
    RequiredRule(RequestRules[0], body, NoEmail);
    RequiredRule(RequestRules[1], body, NoEmail);
    RequiredRule(RequestRules[2], body, NoEmail);
    RequiredRule(RequestRules[3], body, NoEmail);
    RequiredRule(RequestRules[4], body, NoEmail);
  }

  /** A string vehicle class that passes is one of the four classes. */
  lemma RequestedClassIsKnown(body: Object, t: string)
    requires Validate(RequestRules, body, NoEmail).Proceed?
    requires Get(body, "vehicleType") == Some(JStr(t))
    ensures Vehicles.Parse(t).Some?
  {
    assert !Fails(RequestRules[0], body, NoEmail);
  }

  /** A string status that passes the status chain is one of the five writable statuses, so
      `requested` and `accepted` can never be written through it; all five pass. */
  lemma StatusGate(t: string)
    ensures Validate(StatusRules, map["status" := JStr(t)], NoEmail).Proceed? <==> t in WritableStatuses
    ensures Validate(StatusRules, map["status" := JStr(t)], NoEmail).Proceed? ==>
      RideModel.ParseStatus(t).Some? && RideModel.ParseStatus(t).value !in {RideModel.Requested, RideModel.Accepted}
  {
    var body := map["status" := JStr(t)];
    assert FieldOf(body, StatusRules[0]) == Some(JStr(t));
    if Validate(StatusRules, body, NoEmail).Proceed? {
      assert !Fails(StatusRules[0], body, NoEmail);
    }
  }

  /** Whatever the body holds under `status`, a request that passes never names `requested`
      or `accepted` as a plain string. */
  lemma StatusRouteRejectsRequestedAndAccepted(body: Object)
    requires Get(body, "status") in {Some(JStr("requested")), Some(JStr("accepted"))}
    ensures Validate(StatusRules, body, NoEmail).Reject?
  {
    assert Fails(StatusRules[0], body, NoEmail);
  }

  /** A rating request passes exactly when the rating reads as an integer in 1..5 and the
      role, if defined, is `rider` or `driver`. */
  lemma RateGate(rating: string, role: Option<string>)
    ensures
      var body := if role.Some? then map["rating" := JStr(rating), "role" := JStr(role.value)]
                  else map["rating" := JStr(rating)];
      Validate(RateRules, body, NoEmail).Proceed? <==>
        && IntText(rating) && 1 <= IntValue(rating) <= 5
        && (role.None? || role.value in ["rider", "driver"])
  {
    var body := if role.Some? then map["rating" := JStr(rating), "role" := JStr(role.value)]
                else map["rating" := JStr(rating)];
    assert FieldOf(body, RateRules[0]) == Some(JStr(rating));
    assert FieldOf(body, RateRules[1]) == (if role.Some? then Some(JStr(role.value)) else None);
    if Validate(RateRules, body, NoEmail).Proceed? {
      assert !Fails(RateRules[0], body, NoEmail);
      assert !Fails(RateRules[1], body, NoEmail);
    }
  }

  /** The estimate chain asks only that both endpoints are objects. */
  lemma EstimateGate(body: Object)
    ensures Validate(EstimateRules, body, NoEmail).Proceed? <==>
      && "pickup" in body && body["pickup"].JObj?
      && "dropoff" in body && body["dropoff"].JObj?
  {
    assert FieldOf(body, EstimateRules[0]) == Get(body, "pickup");
    assert FieldOf(body, EstimateRules[1]) == Get(body, "dropoff");
    if Validate(EstimateRules, body, NoEmail).Proceed? {
      assert !Fails(EstimateRules[0], body, NoEmail);
      assert !Fails(EstimateRules[1], body, NoEmail);
    }
  }
}
