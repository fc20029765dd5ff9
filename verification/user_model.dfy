/** The `User` document of the user service: its fields, defaults and schema checks, the
    `toJSON` projection that drops the password, and the pre-save hook that hashes a password
    only when it was just assigned.  `bcrypt.hash` is a parameter. */
module UserModel {
  import opened Wrappers
  import opened Json
  import Text
  import Vehicles

  datatype Role = Rider | Driver | Admin

  function RoleName(r: Role): string
  {
    match r
    case Rider => "rider"
    case Driver => "driver"
    case Admin => "admin"
  }

  /** The enum `['rider', 'driver', 'admin']`. */
  function ParseRole(t: string): (r: Option<Role>)
    ensures r.Some? <==> t in {"rider", "driver", "admin"}
    ensures r.Some? ==> RoleName(r.value) == t
  {
    if t == "rider" then Some(Rider)
    else if t == "driver" then Some(Driver)
    else if t == "admin" then Some(Admin)
    else None
  }

  lemma ParseRoleName(r: Role)
    ensures ParseRole(RoleName(r)) == Some(r)
  {
  }

  // ---------------------------------------------------------------- email pattern

  /** `\w`. */
  predicate IsWord(c: char)
  {
    'a' <= c <= 'z' || 'A' <= c <= 'Z' || '0' <= c <= '9' || c == '_'
  }

  /** `[.-]`. */
  predicate IsJoiner(c: char) { c == '.' || c == '-' }

  /** `\w+([.-]?\w+)*`: word characters with single dots or hyphens between them. */
  predicate WordRun(s: string)
  {
    && |s| > 0 && IsWord(s[0]) && IsWord(s[|s| - 1])
    && (forall i :: 0 <= i < |s| ==> IsWord(s[i]) || IsJoiner(s[i]))
    && (forall i :: 0 <= i < |s| - 1 ==> IsWord(s[i]) || IsWord(s[i + 1]))
  }

  /** The position of the last `c` in `s`. */
  function LastIndexOf(s: string, c: char): (k: Option<nat>)
    ensures k.None? <==> c !in s
    ensures k.Some? ==> k.value < |s| && s[k.value] == c && forall j :: k.value < j < |s| ==> s[j] != c
  {
    if |s| == 0 then None
    else if s[|s| - 1] == c then Some(|s| - 1)
    else
      var k := LastIndexOf(s[..|s| - 1], c);
      assert forall j :: 0 <= j < |s| - 1 ==> s[..|s| - 1][j] == s[j];
      assert c in s ==> c in s[..|s| - 1] by {
        if c in s {
          var j :| 0 <= j < |s| && s[j] == c;
          assert s[..|s| - 1][j] == c;
        }
      }
      k
  }

  /** `\w+([.-]?\w+)*(\.\w{2,3})+`: a word run, a final dot, and two or three word characters. */
  predicate DomainPart(d: string)
  {
    var k := LastIndexOf(d, '.');
    && k.Some?
    && WordRun(d[..k.value])
    && 2 <= |d| - k.value - 1 <= 3
    && forall i :: k.value < i < |d| ==> IsWord(d[i])
  }

  /** The schema's `match` pattern for `email`: one `@` between a word run and a domain. */
  predicate EmailPattern(e: string)
  {
    var parts := Text.Split(e, '@');
    |parts| == 2 && WordRun(parts[0]) && DomainPart(parts[1])
  }

  /** A matching address has no surrounding whitespace, so the schema's trim leaves it alone. */
  lemma EmailPatternIsTrimmed(e: string)
    requires EmailPattern(e)
    ensures Text.Trim(e) == e
  {
    var parts := Text.Split(e, '@');
    Text.SplitTwoParts(e, '@');
    assert e[0] == parts[0][0];
    var d := parts[1];
    assert e[|e| - 1] == d[|d| - 1];
    assert !Text.IsSpace(e[0]) && !Text.IsSpace(e[|e| - 1]);
  }

  /** The pattern on an address split at its `@`. */
  lemma EmailPatternAt(local: string, domain: string)
    requires '@' !in local && '@' !in domain
    ensures EmailPattern(local + "@" + domain) <==> WordRun(local) && DomainPart(domain)
  {
    assert local + "@" + domain == local + ['@'] + domain;
    Text.SplitAround(local, domain, '@');
  }

  /** Domains: a two- or three-letter final label is required. */
  lemma DomainPartExamples()
    ensures DomainPart("ex.com")
    ensures !DomainPart("ex.c")
    ensures !DomainPart("ex")
  {
    var d := "ex.com";
    assert LastIndexOf(d[..3], '.') == Some(2);
    assert LastIndexOf(d[..4], '.') == Some(2) by { assert d[..4][..3] == d[..3]; }
    assert LastIndexOf(d[..5], '.') == Some(2) by { assert d[..5][..4] == d[..4]; }
    assert LastIndexOf(d, '.') == Some(2) by { assert d[..5] == d[..|d| - 1]; }
    assert d[..2] == "ex";
    var e := "ex.c";
    assert LastIndexOf(e[..3], '.') == Some(2);
    assert LastIndexOf(e, '.') == Some(2) by { assert e[..3] == e[..|e| - 1]; }
    assert '.' !in "ex";
  }

  /** Local parts: single dots between word characters, never doubled or at an end. */
  lemma WordRunExamples()
    ensures WordRun("rider.one")
    ensures !WordRun("rider..one")
    ensures !WordRun(".rider")
  {
    assert "rider..one"[5] == '.' && "rider..one"[6] == '.';
  }

  /** The `lowercase` and `trim` setters of `email`; queries by email go through them too. */
  function NormalizeEmail(e: string): (r: string)
    ensures forall i :: 0 <= i < |r| ==> !('A' <= r[i] <= 'Z')
    ensures |r| > 0 ==> !Text.IsSpace(r[0]) && !Text.IsSpace(r[|r| - 1])
    ensures '\U{0130}' !in e ==> |r| <= |e|
  {
    var t := Text.Trim(e);
    LowerKeepsEnds(t);
    TrimmedLength(e);
    Text.ToLower(t)
  }

  /** Without a dotted capital I, the normalized text is no longer than the input. */
  lemma TrimmedLength(e: string)
    ensures '\U{0130}' !in e ==> |Text.ToLower(Text.Trim(e))| <= |e|
  {
    if '\U{0130}' !in e {
      var s := Text.TrimStart(e);
      var t := Text.TrimEnd(s);
      forall j | 0 <= j < |t|
        ensures t[j] != '\U{0130}'
      {
        assert t[j] == s[j] == e[|e| - |s| + j];
      }
      Text.ToLowerLengthPreserved(t);
    }
  }

  /** Lower-casing text that does not start or end with white space keeps it that way. */
  lemma LowerKeepsEnds(t: string)
    requires |t| > 0 ==> !Text.IsSpace(t[0]) && !Text.IsSpace(t[|t| - 1])
    ensures var r := Text.ToLower(t); |r| > 0 ==> !Text.IsSpace(r[0]) && !Text.IsSpace(r[|r| - 1])
  {
    if |t| > 0 {
      Text.ToLowerFirst(t);
      Text.ToLowerLast(t);
    }
  }

  /** A stored address normalizes to itself, so logging in with it finds the account. */
  lemma NormalizeEmailIdempotent(e: string)
    ensures NormalizeEmail(NormalizeEmail(e)) == NormalizeEmail(e)
  {
    var r := NormalizeEmail(e);
    assert Text.Trim(r) == r;
    Text.ToLowerIdempotent(Text.Trim(e));
  }

  // ---------------------------------------------------------------- the document

  /** `driverInfo`; `isAvailable` is `None` when it was set to null. */
  datatype DriverInfo = DriverInfo(
    licenseNumber: Option<string>,
    vehicleType: Option<string>,
    vehicleNumber: Option<string>,
    vehicleModel: Option<string>,
    rating: real,
    totalRides: int,
    isAvailable: Option<bool>,
    location: seq<real>)

  const DefaultDriverInfo: DriverInfo := DriverInfo(None, None, None, None, 5.0, 0, Some(false), [0.0, 0.0])

  /** One element of `riderInfo.savedAddresses`, stored as sent. */
  datatype SavedAddress = SavedAddress(labelText: Option<Json>, address: Option<Json>, coordinates: Option<Json>)

  datatype User = User(
    id: string,
    email: string,
    password: string,
    firstName: string,
    lastName: string,
    phone: string,
    role: Role,
    profilePicture: Option<string>,
    isVerified: bool,
    isActive: bool,
    driverInfo: DriverInfo,
    savedAddresses: seq<SavedAddress>,
    riderRating: real,
    riderTotalRides: int,
    resetTokenHash: Option<string>,
    resetExpires: Option<int>,
    createdAt: int,
    updatedAt: int)

  /** `new User({...})`: the setters run on assignment and every other field takes its default. */
  function NewUser(id: string, email: string, password: string, firstName: string, lastName: string,
                   phone: string, role: Role, now: int): (u: User)
    ensures u.email == NormalizeEmail(email) && u.password == password
    ensures u.role == role && u.profilePicture.None?
    ensures !u.isVerified && u.isActive
    ensures u.driverInfo == DefaultDriverInfo && u.driverInfo.isAvailable == Some(false)
    ensures u.savedAddresses == [] && u.riderRating == 5.0 && u.riderTotalRides == 0
    ensures u.resetTokenHash.None? && u.resetExpires.None?
    ensures u.createdAt == now && u.updatedAt == now
  {
    User(id, NormalizeEmail(email), password, Text.Trim(firstName), Text.Trim(lastName), Text.Trim(phone),
         role, None, false, true, DefaultDriverInfo, [], 5.0, 0, None, None, now, now)
  }

  /** The schema's validators: required fields, the email pattern, the password's minimum
      length, the vehicle-class enum and the rating ranges. */
  predicate SchemaValid(u: User)
  {
    && EmailPattern(u.email)
    && |u.password| >= 6
    && |u.firstName| > 0 && |u.lastName| > 0 && |u.phone| > 0
    && (u.driverInfo.vehicleType.None? || u.driverInfo.vehicleType.value in Vehicles.Names)
    && 1.0 <= u.driverInfo.rating <= 5.0
    && 1.0 <= u.riderRating <= 5.0
  }

  /** The result of `user.save()`. */
  datatype Saved = Stored(user: User) | Invalid

  /** `save()`: validation runs on the document as assigned, then the pre-save hook hashes the
      password only when it was modified. */
  function Save(u: User, passwordModified: bool, hash: string -> string): (r: Saved)
    ensures r.Stored? <==> SchemaValid(u)
    ensures r.Stored? ==> r.user.password == (if passwordModified then hash(u.password) else u.password)
    ensures r.Stored? ==> r.user.(password := u.password) == u
  {
    if !SchemaValid(u) then Invalid
    else if passwordModified then Stored(u.(password := hash(u.password)))
    else Stored(u)
  }

  /** Saving a stored document again without assigning the password never re-hashes it. */
  lemma ResaveKeepsHash(u: User, modified: bool, hash: string -> string)
    requires Save(u, modified, hash).Stored?
    requires |Save(u, modified, hash).user.password| >= 6
    ensures Save(Save(u, modified, hash).user, false, hash) == Save(u, modified, hash)
  {
  }

  // ---------------------------------------------------------------- toJSON

  /** A value of the plain object `toObject()` produces. */
  datatype Value =
    | Null | Text(s: string) | Flag(b: bool) | Number(r: real) | List(items: seq<Value>)
    | Nested(fields: map<string, Value>)

  function OptText(o: Option<string>): Value
  {
    if o.Some? then Text(o.value) else Null
  }

  function FromJson(v: Json): Value
  {
    match v
    case JNull => Null
    case JBool(b) => Flag(b)
    case JNum(n) => Number(n as real)
    case JStr(s) => Text(s)
    case JArr(items) => List(seq(|items|, i requires 0 <= i < |items| => FromJson(items[i])))
    case JObj(fields) => Nested(map k | k in fields :: FromJson(fields[k]))
  }

  /** Sub-document fields left undefined are absent from the plain object. */
  function AddressObject(a: SavedAddress): map<string, Value>
  {
    (if a.labelText.Some? then map["label" := FromJson(a.labelText.value)] else map[])
    + (if a.address.Some? then map["address" := FromJson(a.address.value)] else map[])
    + (if a.coordinates.Some? then map["coordinates" := FromJson(a.coordinates.value)] else map[])
  }

  function DriverInfoObject(d: DriverInfo): map<string, Value>
  {
    map[
      "licenseNumber" := OptText(d.licenseNumber),
      "vehicleType" := OptText(d.vehicleType),
      "vehicleNumber" := OptText(d.vehicleNumber),
      "vehicleModel" := OptText(d.vehicleModel),
      "rating" := Number(d.rating),
      "totalRides" := Number(d.totalRides as real),
      "isAvailable" := (if d.isAvailable.Some? then Flag(d.isAvailable.value) else Null),
      "currentLocation" := Nested(map[
        "type" := Text("Point"),
        "coordinates" := List(seq(|d.location|, i requires 0 <= i < |d.location| => Number(d.location[i])))])]
  }

  /** The top-level keys of a stored user. */
  datatype Key =
    | IdKey | EmailKey | PasswordKey | FirstNameKey | LastNameKey | PhoneKey | RoleKey
    | ProfilePictureKey | IsVerifiedKey | IsActiveKey | DriverInfoKey | RiderInfoKey
    | ResetTokenKey | ResetExpiresKey | CreatedAtKey | UpdatedAtKey

  function KeyName(k: Key): string
  {
    match k
    case IdKey => "_id"
    case EmailKey => "email"
    case PasswordKey => "password"
    case FirstNameKey => "firstName"
    case LastNameKey => "lastName"
    case PhoneKey => "phone"
    case RoleKey => "role"
    case ProfilePictureKey => "profilePicture"
    case IsVerifiedKey => "isVerified"
    case IsActiveKey => "isActive"
    case DriverInfoKey => "driverInfo"
    case RiderInfoKey => "riderInfo"
    case ResetTokenKey => "passwordResetToken"
    case ResetExpiresKey => "passwordResetExpires"
    case CreatedAtKey => "createdAt"
    case UpdatedAtKey => "updatedAt"
  }

  /** `toObject()`, key by key: every stored field, the reset fields only while they are set. */
  function ToObject(u: User, k: Key): Option<Value>
  {
    match k
    case IdKey => Some(Text(u.id))
    case EmailKey => Some(Text(u.email))
    case PasswordKey => Some(Text(u.password))
    case FirstNameKey => Some(Text(u.firstName))
    case LastNameKey => Some(Text(u.lastName))
    case PhoneKey => Some(Text(u.phone))
    case RoleKey => Some(Text(RoleName(u.role)))
    case ProfilePictureKey => Some(OptText(u.profilePicture))
    case IsVerifiedKey => Some(Flag(u.isVerified))
    case IsActiveKey => Some(Flag(u.isActive))
    case DriverInfoKey => Some(Nested(DriverInfoObject(u.driverInfo)))
    case RiderInfoKey => Some(Nested(map[
      "savedAddresses" := List(seq(|u.savedAddresses|, i requires 0 <= i < |u.savedAddresses| => Nested(AddressObject(u.savedAddresses[i])))),
      "rating" := Number(u.riderRating),
      "totalRides" := Number(u.riderTotalRides as real)]))
    case ResetTokenKey => if u.resetTokenHash.Some? then Some(Text(u.resetTokenHash.value)) else None
    case ResetExpiresKey => if u.resetExpires.Some? then Some(Number(u.resetExpires.value as real)) else None
    case CreatedAtKey => Some(Number(u.createdAt as real))
    case UpdatedAtKey => Some(Number(u.updatedAt as real))
  }

  /** `toJSON()`: the plain object with `password` deleted and nothing else touched. */
  function ToJson(u: User, k: Key): (v: Option<Value>)
    ensures k == PasswordKey ==> v.None?
    ensures k != PasswordKey ==> v == ToObject(u, k)
  {
    if k == PasswordKey then None else ToObject(u, k)
  }

  /** The JSON a client sees does not depend on the stored password at all. */
  lemma ToJsonIgnoresPassword(u: User, p: string)
    ensures forall k :: ToJson(u.(password := p), k) == ToJson(u, k)
  {
  }

  /** The stored password is the one field `toJSON` drops: the plain object shows it. */
  lemma ToObjectShowsPassword(u: User)
    ensures ToObject(u, PasswordKey) == Some(Text(u.password))
    ensures forall k :: ToObject(u, k).None? ==> k in {ResetTokenKey, ResetExpiresKey}
  {
  }

  /** Every other field does show: two users with the same JSON agree on their email, role and
      active flag. */
  lemma ToJsonShowsIdentity(u: User, v: User)
    requires forall k :: ToJson(u, k) == ToJson(v, k)
    ensures u.id == v.id && u.email == v.email && u.role == v.role && u.isActive == v.isActive
  {
    assert ToJson(u, IdKey) == ToJson(v, IdKey) && ToJson(u, EmailKey) == ToJson(v, EmailKey);
    assert ToJson(u, RoleKey) == ToJson(v, RoleKey) && ToJson(u, IsActiveKey) == ToJson(v, IsActiveKey);
    assert ParseRole(RoleName(u.role)) == Some(u.role);
    assert ParseRole(RoleName(v.role)) == Some(v.role);
  }
}
