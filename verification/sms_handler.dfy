/** The notification service's SMS handler: the six message templates, the lookup that
    refuses an unknown name, and the development mock.  `Date.now()` is the parameter
    `now`; `NODE_ENV === 'development'` is the parameter `development`. */
module SmsHandler {
  import opened Wrappers
  import opened Json
  import Text

  /** What `sendSMS` resolves to; it never fails once the message exists. */
  datatype SmsResult = SmsResult(success: bool, messageId: string, mock: bool)

  function SendSms(development: bool, now: int): (r: SmsResult)
    ensures r.success
    ensures r.mock <==> development
    ensures development ==> r.messageId == "mock-" + Text.IntToString(now)
    ensures !development ==> r.messageId == "sms-" + Text.IntToString(now)
  {
    if development then SmsResult(true, "mock-" + Text.IntToString(now), true)
    else SmsResult(true, "sms-" + Text.IntToString(now), false)
  }

  const TemplateNames: seq<string> := ["rideRequested", "rideAccepted", "driverArrived", "rideCompleted", "rideCancelled", "otp"]

  /** `${data.x}`: undefined renders as "undefined". */
  function Field(data: Option<Json>, k: string): string
  {
    Interp(Member(data, k))
  }

  /** The rupee sign in the completed-ride message. */
  const Rupee: char := '₹'

  const CancelledPrefix := "Your ride has been cancelled. Reason: "

  /** The template with the given name applied to `data`, which must be an object-like value:
      reading a field of undefined or null throws, as `Nullish` says. */
  function Render(name: string, data: Option<Json>): (m: Option<string>)
    requires !Nullish(data)
    ensures m.Some? <==> name in TemplateNames
  {
    if name == "rideRequested" then
      Some("Your ride has been requested. Pickup: " + Field(data, "pickup") + ". We're finding a driver for you.")
    else if name == "rideAccepted" then
      Some("Great news! " + Field(data, "driverName") + " is on the way in a " + Field(data, "vehicleModel")
           + ". ETA: " + Field(data, "eta") + " mins.")
    else if name == "driverArrived" then
      Some("Your driver has arrived! Look for " + Field(data, "vehicleModel") + " - " + Field(data, "vehicleNumber") + ".")
    else if name == "rideCompleted" then
      Some("Ride completed! Total fare: " + [Rupee] + Field(data, "fare") + ". Thank you for riding with us!")
    else if name == "rideCancelled" then
      Some(CancelledPrefix + InterpOr(Member(data, "reason"), "N/A"))
    else if name == "otp" then
      Some("Your OTP for Uber Clone is: " + Field(data, "otp") + ". Valid for 5 minutes.")
    else None
  }

  /** `sendTemplateSMS` settles with the SMS sent, or rejects with an error. */
  datatype SmsOutcome = Delivered(to: Option<Json>, message: string, result: SmsResult) | Thrown(error: string)

  const ReadOfNullish := "Cannot read properties of undefined"

  function SendTemplateSms(to: Option<Json>, name: string, data: Option<Json>, development: bool, now: int): (o: SmsOutcome)
    ensures name !in TemplateNames ==> o == Thrown("SMS template '" + name + "' not found")
    ensures o.Delivered? <==> name in TemplateNames && !Nullish(data)
    ensures o.Delivered? ==> o.to == to && Some(o.message) == Render(name, data) && o.result == SendSms(development, now)
  {
    if name !in TemplateNames then Thrown("SMS template '" + name + "' not found")
    else if Nullish(data) then Thrown(ReadOfNullish)
    else Delivered(to, Render(name, data).value, SendSms(development, now))
  }

  /** The cancellation message ends with the reason, or "N/A" when none is given: the text
      after the fixed prefix gives the reason back. */
  lemma CancelledReasonRecoverable(data: Option<Json>)
    requires !Nullish(data)
    ensures
      var m := Render("rideCancelled", data).value;
      && |m| >= |CancelledPrefix|
      && m[..|CancelledPrefix|] == CancelledPrefix
      && m[|CancelledPrefix|..] == (if Truthy(Member(data, "reason")) then Stringify(Member(data, "reason").value) else "N/A")
  {
  }

  /** The requested-ride message carries the pickup right after its fixed opening, followed
      by the closing sentence. */
  lemma RequestedEmbedsPickup(data: Option<Json>)
    requires !Nullish(data)
    ensures
      var m := Render("rideRequested", data).value;
      var p := Field(data, "pickup");
      && |m| == 38 + |p| + 33
      && m[38..38 + |p|] == p
      && m[38 + |p|..] == ". We're finding a driver for you."[..]
  {
    var m := Render("rideRequested", data).value;
    var p := Field(data, "pickup");
    var pre := "Your ride has been requested. Pickup: ";
    var post := ". We're finding a driver for you.";
    assert m == pre + p + post;
    assert |pre| == 38 && |post| == 33;
    assert (pre + p + post)[38..38 + |p|] == p;
    assert (pre + p + post)[38 + |p|..] == post;
  }

  /** The accepted-ride message mentions the driver's name, the vehicle model and the ETA in
      that order: each appears at the position the fixed text before it leaves. */
  lemma AcceptedEmbedsDriver(data: Option<Json>)
    requires !Nullish(data)
    ensures
      var m := Render("rideAccepted", data).value;
      var a := Field(data, "driverName");
      var b := Field(data, "vehicleModel");
      var c := Field(data, "eta");
      && m[12..12 + |a|] == a
      && m[12 + |a| + 20..12 + |a| + 20 + |b|] == b
      && m[12 + |a| + 20 + |b| + 7..12 + |a| + 20 + |b| + 7 + |c|] == c
  {
    var m := Render("rideAccepted", data).value;
    var a := Field(data, "driverName");
    var b := Field(data, "vehicleModel");
    var c := Field(data, "eta");
    assert m == "Great news! " + a + " is on the way in a " + b + ". ETA: " + c + " mins.";
    PiecesAt("Great news! ", a, " is on the way in a ", b, ". ETA: ", c, " mins.");
  }

  /** In a text glued from fixed pieces and fields, each field sits right after the pieces
      before it. */
  lemma PiecesAt(p: string, a: string, q: string, b: string, r: string, c: string, t: string)
    ensures
      var m := p + a + q + b + r + c + t;
      && m[|p|..|p| + |a|] == a
      && m[|p| + |a| + |q|..|p| + |a| + |q| + |b|] == b
      && m[|p| + |a| + |q| + |b| + |r|..|p| + |a| + |q| + |b| + |r| + |c|] == c
  {
  }

  /** An unknown template never sends anything, whatever the data and environment. */
  lemma UnknownTemplateSendsNothing(to: Option<Json>, data: Option<Json>, development: bool, now: int)
    ensures SendTemplateSms(to, "rideArriving", data, development, now) == Thrown("SMS template 'rideArriving' not found")
  {
    assert "rideArriving"[5] != "rideAccepted"[5];
    assert "rideArriving" !in TemplateNames;
  }
}
