/** The profile and driver handlers of the user service.  The caller's id is the gateway's
    `x-user-id` header or, where the route has one, the `:id` parameter.  The geospatial
    `$near` test is a parameter. */
module UserController {
  import opened Wrappers
  import opened Json
  import opened UserModel
  import Seqs
  import Text
  import Validation
  import ObjectId

  type Users = seq<User>

  /** `User.findById(id)`; an undefined id finds nothing. */
  function FindById(users: Users, id: Option<string>): (k: Option<nat>)
    ensures k.None? <==> id.None? || forall i :: 0 <= i < |users| ==> users[i].id != id.value
    ensures k.Some? ==> id.Some? && k.value < |users| && users[k.value].id == id.value
    ensures k.Some? ==> forall i :: 0 <= i < k.value ==> users[i].id != id.value
  {
    if id.None? then None else Seqs.FirstWhere(users, (u: User) => u.id == id.value)
  }

  /** The id cast inside `findById`: an undefined id looks up nothing, a defined one that is
      not an ObjectId throws. */
  predicate IdCastFails(id: Option<string>)
  {
    id.Some? && !ObjectId.IsObjectId(id.value)
  }

  /** `req.headers['x-user-id'] || req.params.id`. */
  function CallerId(header: Option<string>, param: Option<string>): (r: Option<string>)
    ensures header.Some? && header.value != "" ==> r == header
    ensures (header.None? || header.value == "") ==> r == param
  {
    if header.Some? && header.value != "" then header else param
  }

  /** A user seen by the nearby-driver search, after its `select(...)`. */
  datatype NearbyDriver = NearbyDriver(
    id: string, firstName: string, lastName: string, rating: real,
    vehicleType: Option<string>, vehicleModel: Option<string>, location: seq<real>)

  datatype Reply =
    | UserReply(message: string, user: User)
    | LocationReply(message: string, coordinates: seq<real>)
    | AvailabilityReply(message: string, isAvailable: Option<bool>)
    | AddressesReply(message: string, addresses: seq<SavedAddress>)
    | NearbyReply(count: int, drivers: seq<NearbyDriver>)
    | Plain(message: string)
    | Fail(status: int, error: string)

  datatype Outcome = Outcome(users: Users, reply: Reply)

  /** The collection with entry `i` replaced and every other entry kept. */
  predicate ReplacesAt(users: Users, users': Users, i: nat, u: User)
  {
    i < |users| && users' == users[i := u]
  }

  // ---------------------------------------------------------------- casting

  /** What a String path does with an assigned value: store text, store null, or refuse. */
  datatype TextCast = SetText(text: string) | SetNull | CastFails

  /** Mongoose's String cast: primitives become their `String(v)`, objects and arrays fail. */
  function CastText(v: Json): (c: TextCast)
    ensures v.JStr? ==> c == SetText(v.s)
    ensures c.CastFails? <==> v.JArr? || v.JObj?
  {
    match v
    case JNull => SetNull
    case JStr(s) => SetText(s)
    case JNum(_) => SetText(Stringify(v))
    case JBool(_) => SetText(Stringify(v))
    case _ => CastFails
  }

  /** Mongoose's Boolean cast: `true/'true'/1/'1'/'yes'` and `false/'false'/0/'0'/'no'`; null
      stays null (`Some(None)`); anything else fails (`None`). */
  function CastBoolean(v: Json): (r: Option<Option<bool>>)
    ensures v.JBool? ==> r == Some(Some(v.b))
    ensures v == JNull ==> r == Some(None)
  {
    match v
    case JNull => Some(None)
    case JBool(b) => Some(Some(b))
    case JNum(n) => if n == 1 then Some(Some(true)) else if n == 0 then Some(Some(false)) else None
    case JStr(s) =>
      if s in {"true", "1", "yes"} then Some(Some(true))
      else if s in {"false", "0", "no"} then Some(Some(false))
      else None
    case _ => None
  }

  // ---------------------------------------------------------------- profile

  const ProfileFields: set<string> := {"firstName", "lastName", "phone", "profilePicture"}

  /** The `$set` document: the body's keys that are on the whitelist, with their values. */
  function ProfileUpdates(body: Object): (updates: Object)
    ensures forall k :: k in updates <==> k in body && k in ProfileFields
    ensures forall k :: k in updates ==> updates[k] == body[k]
  {
    map k | k in body && k in ProfileFields :: body[k]
  }

  /** The four whitelisted paths after casting: `None` leaves a path alone. */
  datatype ProfilePatch = ProfilePatch(
    firstName: Option<string>, lastName: Option<string>, phone: Option<string>,
    profilePicture: Option<Option<string>>)

  /** A required, trimmed String path under `runValidators`: the trimmed text must be
      non-empty; null, the empty string and a failed cast are refused. */
  function CastRequired(v: Json): (r: Option<string>)
    ensures r.Some? ==> |r.value| > 0
    ensures v.JStr? ==> (r.Some? <==> |Text.Trim(v.s)| > 0)
  {
    match CastText(v)
    case SetText(t) => if |Text.Trim(t)| > 0 then Some(Text.Trim(t)) else None
    case _ => None
  }

  /** The optional `profilePicture` path: text, or null. */
  function CastOptional(v: Json): (r: Option<Option<string>>)
    ensures r.None? <==> v.JArr? || v.JObj?
  {
    match CastText(v)
    case SetText(t) => Some(Some(t))
    case SetNull => Some(None)
    case CastFails => None
  }

  /** Casting and validating the `$set` document, which happens before the lookup. */
  function CastProfile(updates: Object): (p: Option<ProfilePatch>)
    ensures p.Some? ==>
      && (p.value.firstName.Some? <==> "firstName" in updates)
      && (p.value.lastName.Some? <==> "lastName" in updates)
      && (p.value.phone.Some? <==> "phone" in updates)
      && (p.value.profilePicture.Some? <==> "profilePicture" in updates)
    ensures p.None? <==>
      || ("firstName" in updates && CastRequired(updates["firstName"]).None?)
      || ("lastName" in updates && CastRequired(updates["lastName"]).None?)
      || ("phone" in updates && CastRequired(updates["phone"]).None?)
      || ("profilePicture" in updates && CastOptional(updates["profilePicture"]).None?)
  {
    var first := if "firstName" in updates then CastRequired(updates["firstName"]) else Some("");
    var last := if "lastName" in updates then CastRequired(updates["lastName"]) else Some("");
    var phone := if "phone" in updates then CastRequired(updates["phone"]) else Some("");
    var picture := if "profilePicture" in updates then CastOptional(updates["profilePicture"]) else Some(None);
    if first.None? || last.None? || phone.None? || picture.None? then None
    else Some(ProfilePatch(
      if "firstName" in updates then first else None,
      if "lastName" in updates then last else None,
      if "phone" in updates then phone else None,
      if "profilePicture" in updates then picture else None))
  }

  /** `$set` of the patched paths. */
  function Patch(u: User, p: ProfilePatch): (r: User)
    ensures r.(firstName := u.firstName, lastName := u.lastName, phone := u.phone, profilePicture := u.profilePicture) == u
    ensures p == ProfilePatch(None, None, None, None) ==> r == u
  {
    u.(firstName := p.firstName.GetOr(u.firstName), lastName := p.lastName.GetOr(u.lastName),
       phone := p.phone.GetOr(u.phone), profilePicture := p.profilePicture.GetOr(u.profilePicture))
  }

  function UpdateProfile(users: Users, userId: Option<string>, body: Object): (o: Outcome)
    ensures IdCastFails(userId) || CastProfile(ProfileUpdates(body)).None? ==> o == Outcome(users, Fail(500, "Failed to update profile"))
    ensures !IdCastFails(userId) && CastProfile(ProfileUpdates(body)).Some? && FindById(users, userId).None? ==>
      o == Outcome(users, Fail(404, "User not found"))
    ensures o.reply.UserReply? <==> !IdCastFails(userId) && CastProfile(ProfileUpdates(body)).Some? && FindById(users, userId).Some?
    ensures o.reply.UserReply? ==>
      var i := FindById(users, userId).value;
      && o.reply.user == Patch(users[i], CastProfile(ProfileUpdates(body)).value)
      && ReplacesAt(users, o.users, i, o.reply.user)
    ensures !o.reply.UserReply? ==> o.users == users && o.reply.Fail?
  {
    if IdCastFails(userId) then Outcome(users, Fail(500, "Failed to update profile"))
    else match CastProfile(ProfileUpdates(body))
    case None => Outcome(users, Fail(500, "Failed to update profile"))
    case Some(p) =>
      match FindById(users, userId)
      case None => Outcome(users, Fail(404, "User not found"))
      case Some(i) =>
        var u := Patch(users[i], p);
        Outcome(users[i := u], UserReply("Profile updated successfully", u))
  }

  /** Names and phone are stored trimmed: a profile update that blanks one out is refused
      whatever the stored user. */
  lemma BlankNameRefused(users: Users, userId: Option<string>, body: Object)
    requires "firstName" in body && body["firstName"].JStr? && |Text.Trim(body["firstName"].s)| == 0
    ensures UpdateProfile(users, userId, body) == Outcome(users, Fail(500, "Failed to update profile"))
  {
    assert ProfileUpdates(body)["firstName"] == body["firstName"];
  }

  /** A first name of one ideographic space is blank once trimmed, so it is refused too. */
  lemma IdeographicSpaceNameRefused(users: Users, userId: Option<string>, body: Object)
    requires "firstName" in body && body["firstName"] == JStr("\U{3000}")
    ensures UpdateProfile(users, userId, body) == Outcome(users, Fail(500, "Failed to update profile"))
  {
    Text.UnicodeSpacesTrimmed();
    BlankNameRefused(users, userId, body);
  }

  /** Keys outside the whitelist never reach the document: a body that also carries `email`,
      `role`, `password`, `isActive` or `driverInfo` does exactly what the body without them
      does. */
  lemma ProfileIgnoresOtherKeys(users: Users, userId: Option<string>, body: Object, extra: Object)
    requires forall k :: k in extra ==> k !in ProfileFields
    ensures UpdateProfile(users, userId, body + extra) == UpdateProfile(users, userId, body)
  {
    assert ProfileUpdates(body + extra) == ProfileUpdates(body);
  }

  /** A successful profile update leaves the email, role, password, activity flag and driver
      information as they were. */
  lemma ProfileKeepsProtectedFields(users: Users, userId: Option<string>, body: Object)
    requires UpdateProfile(users, userId, body).reply.UserReply?
    ensures
      var i := FindById(users, userId).value;
      var u := UpdateProfile(users, userId, body).reply.user;
      && u.id == users[i].id && u.email == users[i].email && u.role == users[i].role
      && u.password == users[i].password && u.isActive == users[i].isActive
      && u.driverInfo == users[i].driverInfo
  {
  }

  // ---------------------------------------------------------------- driver info

  /** `value || prior`: a truthy value is cast and kept, anything falsy keeps the prior text. */
  function OrKeep(prior: Option<string>, v: Option<Json>): (r: Option<Option<string>>)
    ensures !Truthy(v) ==> r == Some(prior)
    ensures Truthy(v) && v.value.JStr? ==> r == Some(Some(v.value.s))
  {
    if !Truthy(v) then Some(prior)
    else match CastText(v.value)
      case SetText(t) => Some(Some(t))
      case SetNull => Some(None)
      case CastFails => None
  }

  /** The merged `driverInfo`, or `None` when a value cannot be cast. */
  function MergeDriverInfo(d: DriverInfo, body: Object): (r: Option<DriverInfo>)
    ensures r.Some? ==> r.value.(licenseNumber := d.licenseNumber, vehicleType := d.vehicleType,
                                 vehicleNumber := d.vehicleNumber, vehicleModel := d.vehicleModel,
                                 isAvailable := d.isAvailable) == d
    ensures r.Some? && !Truthy(Get(body, "licenseNumber")) ==> r.value.licenseNumber == d.licenseNumber
    ensures r.Some? && !Truthy(Get(body, "vehicleType")) ==> r.value.vehicleType == d.vehicleType
    ensures r.Some? && !Truthy(Get(body, "vehicleNumber")) ==> r.value.vehicleNumber == d.vehicleNumber
    ensures r.Some? && !Truthy(Get(body, "vehicleModel")) ==> r.value.vehicleModel == d.vehicleModel
    ensures r.Some? && "isAvailable" !in body ==> r.value.isAvailable == d.isAvailable
    ensures r.Some? && Get(body, "isAvailable").Some? && Get(body, "isAvailable").value.JBool? ==>
      r.value.isAvailable == Some(body["isAvailable"].b)
  {
    var license := OrKeep(d.licenseNumber, Get(body, "licenseNumber"));
    var vtype := OrKeep(d.vehicleType, Get(body, "vehicleType"));
    var number := OrKeep(d.vehicleNumber, Get(body, "vehicleNumber"));
    var model := OrKeep(d.vehicleModel, Get(body, "vehicleModel"));
    var available := if "isAvailable" in body then CastBoolean(body["isAvailable"]) else Some(d.isAvailable);
    if license.None? || vtype.None? || number.None? || model.None? || available.None? then None
    else Some(d.(licenseNumber := license.value, vehicleType := vtype.value, vehicleNumber := number.value,
                 vehicleModel := model.value, isAvailable := available.value))
  }

  function UpdateDriverInfo(users: Users, userId: Option<string>, body: Object, hash: string -> string): (o: Outcome)
    ensures IdCastFails(userId) ==> o == Outcome(users, Fail(500, "Failed to update driver info"))
    ensures !IdCastFails(userId) && FindById(users, userId).None? ==> o == Outcome(users, Fail(404, "User not found"))
    ensures !IdCastFails(userId) && FindById(users, userId).Some? && users[FindById(users, userId).value].role != Driver ==>
      o == Outcome(users, Fail(400, "User is not a driver"))
    ensures o.reply.UserReply? ==>
      var i := FindById(users, userId).value;
      && users[i].role == Driver
      && MergeDriverInfo(users[i].driverInfo, body).Some?
      && o.reply.user == users[i].(driverInfo := MergeDriverInfo(users[i].driverInfo, body).value)
      && ReplacesAt(users, o.users, i, o.reply.user)
    ensures !o.reply.UserReply? ==> o.users == users && o.reply.Fail?
  {
    if IdCastFails(userId) then Outcome(users, Fail(500, "Failed to update driver info"))
    else match FindById(users, userId)
    case None => Outcome(users, Fail(404, "User not found"))
    case Some(i) =>
      if users[i].role != Driver then Outcome(users, Fail(400, "User is not a driver"))
      else match MergeDriverInfo(users[i].driverInfo, body)
        case None => Outcome(users, Fail(500, "Failed to update driver info"))
        case Some(info) =>
          match Save(users[i].(driverInfo := info), false, hash)
          case Invalid => Outcome(users, Fail(500, "Failed to update driver info"))
          case Stored(u) => Outcome(users[i := u], UserReply("Driver info updated successfully", u))
  }

  // ---------------------------------------------------------------- location

  /** `parseFloat` on a string: optional sign, digits, at most one dot; the longest such prefix.
      No digits at all is NaN (`None`). */
  function ParseFloat(t: string): Option<real>
  {
    var neg := |t| > 0 && t[0] == '-';
    var u := if |t| > 0 && (t[0] == '-' || t[0] == '+') then t[1..] else t;
    if |u| == 0 || !(Text.IsDigit(u[0]) || (u[0] == '.' && |u| > 1 && Text.IsDigit(u[1]))) then None
    else
      var m := DecimalPrefix(u, 0.0, 1.0, false);
      Some(if neg then -m else m)
  }

  /** Accumulates digits until the first character that cannot continue a decimal. */
  function DecimalPrefix(u: string, acc: real, scale: real, afterDot: bool): real
    decreases |u|
  {
    if |u| == 0 then acc
    else if u[0] == '.' then (if afterDot then acc else DecimalPrefix(u[1..], acc, 1.0, true))
    else if Text.IsDigit(u[0]) then
      var d := (u[0] as int - '0' as int) as real;
      if afterDot then DecimalPrefix(u[1..], acc + d * scale / 10.0, scale / 10.0, true)
      else DecimalPrefix(u[1..], acc * 10.0 + d, 1.0, false)
    else acc
  }

  /** `parseFloat(v)` for a body value; booleans, null, objects and arrays are NaN. */
  function FloatOf(v: Json): (r: Option<real>)
    ensures v.JNum? ==> r == Some(v.n as real)
  {
    match v
    case JNum(n) => Some(n as real)
    case JStr(s) => ParseFloat(s)
    case JArr(items) => ParseFloat(JoinItems(items))
    case _ => None
  }

  lemma ParseFloatExamples()
    ensures ParseFloat("12") == Some(12.0)
    ensures ParseFloat("-0.5") == Some(-0.5)
    ensures ParseFloat("abc") == None
  {
    assert DecimalPrefix("2", 1.0, 1.0, false) == 12.0;
    assert DecimalPrefix("5", 0.0, 1.0, true) == 0.5;
    assert DecimalPrefix(".5", 0.0, 1.0, false) == 0.5;
  }

  function UpdateDriverLocation(users: Users, userId: Option<string>, body: Object): (o: Outcome)
    ensures !Truthy(Get(body, "longitude")) || !Truthy(Get(body, "latitude")) ==>
      o == Outcome(users, Fail(400, "Longitude and latitude are required"))
    ensures Truthy(Get(body, "longitude")) && Truthy(Get(body, "latitude")) && IdCastFails(userId) ==>
      o == Outcome(users, Fail(500, "Failed to update location"))
    ensures o.reply.LocationReply? ==>
      && !IdCastFails(userId)
      && FindById(users, userId).Some?
      && var i := FindById(users, userId).value;
      && FloatOf(body["longitude"]).Some? && FloatOf(body["latitude"]).Some?
      && o.reply.coordinates == [FloatOf(body["longitude"]).value, FloatOf(body["latitude"]).value]
      && ReplacesAt(users, o.users, i, users[i].(driverInfo := users[i].driverInfo.(location := o.reply.coordinates)))
    ensures !o.reply.LocationReply? ==> o.users == users && o.reply.Fail?
    ensures Truthy(Get(body, "longitude")) && Truthy(Get(body, "latitude"))
            && FloatOf(body["longitude"]).Some? && FloatOf(body["latitude"]).Some? ==>
      (o.reply.LocationReply? <==> !IdCastFails(userId) && FindById(users, userId).Some?)
  {
    if !Truthy(Get(body, "longitude")) || !Truthy(Get(body, "latitude")) then
      Outcome(users, Fail(400, "Longitude and latitude are required"))
    else
      var lng := FloatOf(body["longitude"]);
      var lat := FloatOf(body["latitude"]);
      if lng.None? || lat.None? || IdCastFails(userId) then Outcome(users, Fail(500, "Failed to update location"))
      else match FindById(users, userId)
        case None => Outcome(users, Fail(404, "User not found"))
        case Some(i) =>
          var coords := [lng.value, lat.value];
          var u := users[i].(driverInfo := users[i].driverInfo.(location := coords));
          Outcome(users[i := u], LocationReply("Location updated successfully", coords))
  }

  /** A longitude or latitude of exactly 0 is refused, since 0 is falsy. */
  lemma ZeroCoordinateRefused(users: Users, userId: Option<string>, lat: Json)
    ensures UpdateDriverLocation(users, userId, map["longitude" := JNum(0), "latitude" := lat]).reply
         == Fail(400, "Longitude and latitude are required")
  {
  }

  // ---------------------------------------------------------------- availability

  function UpdateAvailability(users: Users, userId: Option<string>, body: Object, hash: string -> string): (o: Outcome)
    ensures "isAvailable" !in body ==> o == Outcome(users, Fail(400, "isAvailable is required"))
    ensures "isAvailable" in body && IdCastFails(userId) ==> o == Outcome(users, Fail(500, "Failed to update availability"))
    ensures "isAvailable" in body && !IdCastFails(userId) && FindById(users, userId).None? ==> o == Outcome(users, Fail(404, "User not found"))
    ensures "isAvailable" in body && !IdCastFails(userId) && FindById(users, userId).Some? && users[FindById(users, userId).value].role != Driver ==>
      o == Outcome(users, Fail(400, "Only drivers can update availability"))
    ensures o.reply.AvailabilityReply? ==>
      && "isAvailable" in body
      && !IdCastFails(userId)
      && FindById(users, userId).Some?
      && var i := FindById(users, userId).value;
      && users[i].role == Driver
      && CastBoolean(body["isAvailable"]).Some?
      && o.reply.isAvailable == CastBoolean(body["isAvailable"]).value
      && ReplacesAt(users, o.users, i, users[i].(driverInfo := users[i].driverInfo.(isAvailable := o.reply.isAvailable)))
      && o.reply.message == (if Truthy(Get(body, "isAvailable")) then "You are now online" else "You are now offline")
    ensures !o.reply.AvailabilityReply? ==> o.users == users && o.reply.Fail?
  {
    if "isAvailable" !in body then Outcome(users, Fail(400, "isAvailable is required"))
    else if IdCastFails(userId) then Outcome(users, Fail(500, "Failed to update availability"))
    else match FindById(users, userId)
      case None => Outcome(users, Fail(404, "User not found"))
      case Some(i) =>
        if users[i].role != Driver then Outcome(users, Fail(400, "Only drivers can update availability"))
        else match CastBoolean(body["isAvailable"])
          case None => Outcome(users, Fail(500, "Failed to update availability"))
          case Some(flag) =>
            var u := users[i].(driverInfo := users[i].driverInfo.(isAvailable := flag));
            match Save(u, false, hash)
            case Invalid => Outcome(users, Fail(500, "Failed to update availability"))
            case Stored(saved) =>
              var message := if Truthy(Get(body, "isAvailable")) then "You are now online" else "You are now offline";
              Outcome(users[i := saved], AvailabilityReply(message, flag))
  }

  /** With a boolean the reply's wording agrees with the stored flag; the string "false" is
      stored as false but answered with "You are now online", since the wording tests the raw
      value's truthiness. */
  lemma AvailabilityWording(users: Users, userId: Option<string>, b: bool, hash: string -> string)
    ensures
      var o := UpdateAvailability(users, userId, map["isAvailable" := JBool(b)], hash);
      o.reply.AvailabilityReply? ==> o.reply.isAvailable == Some(b) && (o.reply.message == "You are now online" <==> b)
    ensures
      var o := UpdateAvailability(users, userId, map["isAvailable" := JStr("false")], hash);
      o.reply.AvailabilityReply? ==> o.reply.isAvailable == Some(false) && o.reply.message == "You are now online"
  {
  }

  // ---------------------------------------------------------------- nearby drivers

  /** `parseInt` on a string: optional sign and the leading digits; no digits is NaN. */
  function ParseInt(t: string): Option<int>
  {
    var neg := |t| > 0 && t[0] == '-';
    var u := if |t| > 0 && (t[0] == '-' || t[0] == '+') then t[1..] else t;
    var n := LeadingDigits(u);
    if n == 0 then None
    else
      var v: int := Text.ParseDigits(u[..n]);
      Some(if neg then -v else v)
  }

  /** The length of the run of digits at the start of `u`. */
  function LeadingDigits(u: string): (n: nat)
    ensures n <= |u| && Text.AllDigits(u[..n])
    ensures n < |u| ==> !Text.IsDigit(u[n])
  {
    if |u| == 0 || !Text.IsDigit(u[0]) then 0
    else
      var n := LeadingDigits(u[1..]);
      assert u[..n + 1] == [u[0]] + u[1..][..n];
      n + 1
  }

  /** The default search radius in metres. */
  const DefaultRadius: int := 5000

  function Project(u: User): NearbyDriver
  {
    NearbyDriver(u.id, u.firstName, u.lastName, u.driverInfo.rating, u.driverInfo.vehicleType,
                 u.driverInfo.vehicleModel, u.driverInfo.location)
  }

  /** The role and availability part of the query. */
  predicate AvailableDriver(u: User)
  {
    u.role == Driver && u.driverInfo.isAvailable == Some(true)
  }

  /** The query string value under a key; query values are strings. */
  function Param(query: map<string, string>, k: string): Option<string>
  {
    if k in query then Some(query[k]) else None
  }

  /** The projections of the available drivers that pass the `$near` test, in stored order. */
  function NearbyList(users: Users, near: (User, real, real, int) -> bool, lng: real, lat: real, radius: int): (r: seq<NearbyDriver>)
    ensures |r| <= |users|
    ensures forall d :: d in r <==>
      exists i :: 0 <= i < |users| && AvailableDriver(users[i]) && near(users[i], lng, lat, radius) && d == Project(users[i])
  {
    if |users| == 0 then []
    else
      var rest := NearbyList(users[1..], near, lng, lat, radius);
      assert forall i :: 1 <= i < |users| ==> users[i] == users[1..][i - 1];
      forall d | d in rest
        ensures exists i :: 0 <= i < |users| && AvailableDriver(users[i]) && near(users[i], lng, lat, radius) && d == Project(users[i])
      {
        var i :| 0 <= i < |users[1..]| && AvailableDriver(users[1..][i]) && near(users[1..][i], lng, lat, radius) && d == Project(users[1..][i]);
        assert users[i + 1] == users[1..][i];
      }
      if AvailableDriver(users[0]) && near(users[0], lng, lat, radius) then [Project(users[0])] + rest else rest
  }

  /** `getNearbyDrivers`.  `near(u, lng, lat, radius)` stands for the `$near` test. */
  function GetNearbyDrivers(users: Users, query: map<string, string>,
                            near: (User, real, real, int) -> bool): (r: Reply)
    ensures Param(query, "longitude") in {None, Some("")} || Param(query, "latitude") in {None, Some("")} ==>
      r == Fail(400, "Longitude and latitude are required")
    ensures r.NearbyReply? ==>
      && r.count == |r.drivers|
      && "longitude" in query && "latitude" in query
      && ParseFloat(query["longitude"]).Some? && ParseFloat(query["latitude"]).Some?
      && ("radius" in query ==> ParseInt(query["radius"]).Some?)
      && var lng := ParseFloat(query["longitude"]).value;
      && var lat := ParseFloat(query["latitude"]).value;
      && var radius := if "radius" in query then ParseInt(query["radius"]).value else DefaultRadius;
      && forall d :: d in r.drivers <==>
           exists i :: 0 <= i < |users| && AvailableDriver(users[i]) && near(users[i], lng, lat, radius) && d == Project(users[i])
    ensures r.NearbyReply? || r.Fail?
  {
    if Param(query, "longitude") in {None, Some("")} || Param(query, "latitude") in {None, Some("")} then
      Fail(400, "Longitude and latitude are required")
    else
      var lng := ParseFloat(query["longitude"]);
      var lat := ParseFloat(query["latitude"]);
      var radius := if "radius" in query then ParseInt(query["radius"]) else Some(DefaultRadius);
      if lng.None? || lat.None? || radius.None? then Fail(500, "Failed to get nearby drivers")
      else
        var drivers := NearbyList(users, near, lng.value, lat.value, radius.value);
        NearbyReply(|drivers|, drivers)
  }

  /** A query longitude of "0" is a non-empty string and so is accepted, unlike a body value 0. */
  lemma ZeroQueryAccepted(users: Users, near: (User, real, real, int) -> bool)
    ensures GetNearbyDrivers(users, map["longitude" := "0", "latitude" := "0"], near).NearbyReply?
  {
    assert ParseFloat("0") == Some(0.0);
  }

  /** Nothing checks `isActive`: a deactivated driver still marked available and in range is
      listed. */
  lemma NearbyListsDeactivatedDrivers(users: Users, near: (User, real, real, int) -> bool, lng: real, lat: real, radius: int, i: nat)
    requires i < |users| && users[i].role == Driver && users[i].driverInfo.isAvailable == Some(true)
    requires !users[i].isActive && near(users[i], lng, lat, radius)
    ensures Project(users[i]) in NearbyList(users, near, lng, lat, radius)
  {
  }

  // ---------------------------------------------------------------- addresses, delete

  function AddSavedAddress(users: Users, userId: Option<string>, body: Object): (o: Outcome)
    ensures IdCastFails(userId) ==> o == Outcome(users, Fail(500, "Failed to save address"))
    ensures !IdCastFails(userId) && FindById(users, userId).None? ==> o == Outcome(users, Fail(404, "User not found"))
    ensures !IdCastFails(userId) && FindById(users, userId).Some? ==>
      var i := FindById(users, userId).value;
      var added := SavedAddress(Get(body, "label"), Get(body, "address"), Get(body, "coordinates"));
      && o.reply == AddressesReply("Address saved successfully", users[i].savedAddresses + [added])
      && ReplacesAt(users, o.users, i, users[i].(savedAddresses := users[i].savedAddresses + [added]))
  {
    if IdCastFails(userId) then Outcome(users, Fail(500, "Failed to save address"))
    else match FindById(users, userId)
    case None => Outcome(users, Fail(404, "User not found"))
    case Some(i) =>
      var added := SavedAddress(Get(body, "label"), Get(body, "address"), Get(body, "coordinates"));
      var u := users[i].(savedAddresses := users[i].savedAddresses + [added]);
      Outcome(users[i := u], AddressesReply("Address saved successfully", u.savedAddresses))
  }

  /** Soft delete: the record stays, only `isActive` becomes false. */
  function DeleteUser(users: Users, userId: Option<string>): (o: Outcome)
    ensures |o.users| == |users|
    ensures IdCastFails(userId) ==> o == Outcome(users, Fail(500, "Failed to delete user"))
    ensures !IdCastFails(userId) && FindById(users, userId).None? ==> o == Outcome(users, Fail(404, "User not found"))
    ensures !IdCastFails(userId) && FindById(users, userId).Some? ==>
      var i := FindById(users, userId).value;
      && o.reply == Plain("User deleted successfully")
      && ReplacesAt(users, o.users, i, users[i].(isActive := false))
  {
    if IdCastFails(userId) then Outcome(users, Fail(500, "Failed to delete user"))
    else match FindById(users, userId)
    case None => Outcome(users, Fail(404, "User not found"))
    case Some(i) => Outcome(users[i := users[i].(isActive := false)], Plain("User deleted successfully"))
  }

  /** `getUserById`. */
  function GetUserById(users: Users, id: string): (r: Reply)
    ensures !ObjectId.IsObjectId(id) <==> r == Fail(500, "Failed to get user")
    ensures ObjectId.IsObjectId(id) && FindById(users, Some(id)).None? <==> r == Fail(404, "User not found")
    ensures r.UserReply? <==> ObjectId.IsObjectId(id) && FindById(users, Some(id)).Some?
    ensures r.UserReply? ==> r.user.id == id && r.user in users
  {
    if !ObjectId.IsObjectId(id) then Fail(500, "Failed to get user")
    else match FindById(users, Some(id))
    case None => Fail(404, "User not found")
    case Some(i) => UserReply("", users[i])
  }

  /** Every handler refuses an unknown caller with 404 once its own input checks pass, and a
      caller id that is not an ObjectId with 500; the driver-info, address and delete handlers
      check nothing before the lookup. */
  lemma UnknownUserIs404(users: Users, userId: Option<string>, body: Object, hash: string -> string)
    requires FindById(users, userId).None?
    ensures !IdCastFails(userId) ==>
      && (CastProfile(ProfileUpdates(body)).Some? ==> UpdateProfile(users, userId, body).reply == Fail(404, "User not found"))
      && UpdateDriverInfo(users, userId, body, hash).reply == Fail(404, "User not found")
      && AddSavedAddress(users, userId, body).reply == Fail(404, "User not found")
      && DeleteUser(users, userId).reply == Fail(404, "User not found")
      && ("isAvailable" in body ==> UpdateAvailability(users, userId, body, hash).reply == Fail(404, "User not found"))
    ensures IdCastFails(userId) ==>
      && UpdateProfile(users, userId, body).reply.status == 500
      && UpdateDriverInfo(users, userId, body, hash).reply.status == 500
      && AddSavedAddress(users, userId, body).reply.status == 500
      && DeleteUser(users, userId).reply.status == 500
      && ("isAvailable" in body ==> UpdateAvailability(users, userId, body, hash).reply.status == 500)
  {
  }
}
