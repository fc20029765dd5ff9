/** The user service's `/api/users` router: which controller a request reaches and which
    validator chain runs first.  The router itself authenticates nothing; the caller's id
    arrives in the gateway's `x-user-id` header. */
module UserRoutes {
  import opened Wrappers
  import opened Json
  import opened Validation
  import Router
  import Text
  import UserController
  import UserModel

  datatype Endpoint =
    | GetUser | UpdateProfile | UpdateDriverInfo | UpdateLocation
    | UpdateAvailability | NearbyDrivers | AddAddress | DeleteUser

  const LocationRules: seq<Rule> := [
    Rule(["longitude"], IsNumeric, false, "Longitude must be a number"),
    Rule(["latitude"], IsNumeric, false, "Latitude must be a number")
  ]

  const NearbyRules: seq<Rule> := [
    Rule(["longitude"], IsNumeric, false, "Longitude must be a number"),
    Rule(["latitude"], IsNumeric, false, "Latitude must be a number"),
    Rule(["radius"], IsNumeric, true, "Radius must be a number")
  ]

  const AddressRules: seq<Rule> := [
    Rule(["label"], NotEmpty, false, "Label is required"),
    Rule(["address"], NotEmpty, false, "Address is required"),
    Rule(["coordinates"], IsArrayLen(2, 2), false, "Coordinates must be [longitude, latitude]")
  ]

  /** The chain in front of each endpoint; the five without one run straight away. */
  function RulesOf(e: Endpoint): seq<Rule>
  {
    match e
    case UpdateLocation => LocationRules
    case NearbyDrivers => NearbyRules
    case AddAddress => AddressRules
    case _ => []
  }

  const Table: seq<Router.Route<Endpoint>> := [
    Router.Route(Router.GET, [Router.Param], GetUser),
    Router.Route(Router.PUT, [Router.Lit("profile")], UpdateProfile),
    Router.Route(Router.PUT, [Router.Param, Router.Lit("profile")], UpdateProfile),
    Router.Route(Router.PUT, [Router.Lit("driver"), Router.Lit("info")], UpdateDriverInfo),
    Router.Route(Router.PUT, [Router.Lit("driver"), Router.Lit("location")], UpdateLocation),
    Router.Route(Router.PATCH, [Router.Lit("availability")], UpdateAvailability),
    Router.Route(Router.GET, [Router.Lit("drivers"), Router.Lit("nearby")], NearbyDrivers),
    Router.Route(Router.POST, [Router.Lit("addresses")], AddAddress),
    Router.Route(Router.DELETE, [Router.Param], DeleteUser)
  ]

  /** Query-string values are strings; the query validators see them as such. */
  function QueryObject(query: map<string, string>): (o: Object)
    ensures forall k :: k in o <==> k in query
    ensures forall k :: k in query ==> o[k] == JStr(query[k])
  {
    map k | k in query :: JStr(query[k])
  }

  datatype Dispatch = NoRoute | Invalid(errors: seq<FieldError>) | Run(endpoint: Endpoint)

  /** Routing, then the endpoint's chain on the body (or, for the nearby search, the query). */
  function Handle(m: Router.Method, path: seq<string>, body: Object, query: map<string, string>): (d: Dispatch)
    ensures d.NoRoute? <==> Router.Resolve(Table, m, path).None?
    ensures d.Run? ==> Router.Resolve(Table, m, path) == Some(d.endpoint)
    ensures d.Run? ==>
      Validate(RulesOf(d.endpoint), if d.endpoint == NearbyDrivers then QueryObject(query) else body, NoEmail).Proceed?
    ensures d.Invalid? ==> |d.errors| > 0
  {
    match Router.Resolve(Table, m, path)
    case None => NoRoute
    case Some(e) =>
      var input := if e == NearbyDrivers then QueryObject(query) else body;
      match Validate(RulesOf(e), input, NoEmail)
      case Proceed => Run(e)
      case Reject(_, errs) => Invalid(errs)
  }

  /** Both `PUT /profile` and `PUT /<id>/profile`, in any letter case, reach the profile
      handler, which prefers the header id, so the path id never selects another user while
      the gateway sets the header. */
  lemma ProfileRoutesReachUpdateProfile(id: string, p: string, body: Object, query: map<string, string>)
    requires id != "" && Text.FoldAscii(p) == "profile"
    ensures Handle(Router.PUT, [p], body, query) == Run(UpdateProfile)
    ensures Handle(Router.PUT, [id, p], body, query) == Run(UpdateProfile)
    ensures forall h :: h != "" ==> UserController.CallerId(Some(h), Some(id)) == Some(h)
  {
    Text.FoldOfLowercase("profile");
    assert Router.Matches(Table[1], Router.PUT, [p]);
    assert !Router.Matches(Table[0], Router.PUT, [p]);
    assert Router.Matches(Table[2], Router.PUT, [id, p]);
    assert !Router.Matches(Table[0], Router.PUT, [id, p]);
    assert !Router.Matches(Table[1], Router.PUT, [id, p]);
  }

  /** A single-segment GET is always a lookup by id, so `GET /drivers` is a user lookup of
      the id "drivers", and only the two-segment path reaches the nearby search. */
  lemma SingleSegmentGetIsLookup(id: string, body: Object, query: map<string, string>)
    requires id != ""
    ensures Handle(Router.GET, [id], body, query) == Run(GetUser)
  {
    assert Router.Matches(Table[0], Router.GET, [id]);
  }

  /** A string the numeric validator accepts has a number at its start, so `parseFloat` of it
      is never NaN. */
  lemma NumericParses(t: string)
    requires NumericText(t)
    ensures UserController.ParseFloat(t).Some?
  {
    var u := Unsigned(t);
    if u[0] == '.' {
      assert |u| >= 2;
      assert Text.Count(u[1..], '.') == 0;
    }
  }

  /** After the query validators, the search can fail only on the radius: a numeric radius
      with no digit before its dot is NaN to `parseInt`. */
  lemma NearbyAfterValidation(users: UserController.Users, query: map<string, string>,
                              near: (UserModel.User, real, real, int) -> bool)
    requires Validate(NearbyRules, QueryObject(query), NoEmail).Proceed?
    requires "radius" in query ==> UserController.ParseInt(query["radius"]).Some?
    ensures UserController.GetNearbyDrivers(users, query, near).NearbyReply?
  {
    var q := QueryObject(query);
    assert NoneFails(NearbyRules, q, NoEmail);
    assert !Fails(NearbyRules[0], q, NoEmail);
    assert !Fails(NearbyRules[1], q, NoEmail);
    assert FieldOf(q, NearbyRules[0]) == Some(JStr(query["longitude"]));
    assert FieldOf(q, NearbyRules[1]) == Some(JStr(query["latitude"]));
    NumericParses(query["longitude"]);
    NumericParses(query["latitude"]);
  }

  /** `radius=.5` passes the numeric check but `parseInt` finds no digits, so the search
      answers 500. */
  lemma FractionalRadiusFails(users: UserController.Users, near: (UserModel.User, real, real, int) -> bool)
    ensures NumericText(".5")
    ensures UserController.ParseInt(".5").None?
    ensures UserController.GetNearbyDrivers(users, map["longitude" := "1", "latitude" := "1", "radius" := ".5"], near)
         == UserController.Fail(500, "Failed to get nearby drivers")
  {
    assert Text.Count(".5", '.') == 1 by {
      assert ".5"[1..] == "5";
    }
    assert UserController.ParseFloat("1") == Some(1.0);
  }

  /** An empty array passes `isNumeric` (it has no element to reject) and is truthy, so it
      reaches `parseFloat`, which gives NaN, and the location update answers 500. */
  lemma EmptyArrayCoordinate(users: UserController.Users, userId: Option<string>)
    ensures
      var body := map["longitude" := JArr([]), "latitude" := JNum(1)];
      && Validate(LocationRules, body, NoEmail).Proceed?
      && UserController.UpdateDriverLocation(users, userId, body).reply == UserController.Fail(500, "Failed to update location")
  {
    var body := map["longitude" := JArr([]), "latitude" := JNum(1)];
    EmptyArrayPassesLocationRules(body);
  }

  lemma EmptyArrayPassesLocationRules(body: Object)
    requires body == map["longitude" := JArr([]), "latitude" := JNum(1)]
    ensures Validate(LocationRules, body, NoEmail).Proceed?
  {
    assert FieldOf(body, LocationRules[0]) == Some(JArr([]));
    assert FieldOf(body, LocationRules[1]) == Some(JNum(1));
    assert Text.IntToString(1) == "1";
    assert NumericText("1");
    assert !Fails(LocationRules[1], body, NoEmail);
    assert NoneFails(LocationRules, body, NoEmail);
  }
}
