/** The notification service's push handler: building the Firebase Cloud Messaging message
    from a job, the mock used when no Firebase app is configured, and the template table of
    `sendTemplatePush`.  Firebase itself is the parameter `fcm`. */
module PushHandler {
  import opened Wrappers
  import opened Json
  import Text

  /** The fields `sendPush` reads from its argument; any other field of a job is ignored. */
  datatype PushJob = PushJob(deviceToken: Option<Json>, title: Option<Json>, body: Option<Json>, data: Option<Json>)

  /** The parts of the FCM message that depend on the job; the Android and APNs constants
      (priority "high", sound "default", badge 1, `apns-priority` "10") are fixed. */
  datatype FcmMessage = FcmMessage(
    token: Option<Json>, title: Json, body: Json, data: map<string, string>,
    alertTitle: Json, alertBody: Json)

  /** What `admin.messaging().send` does: return a message id or throw. */
  datatype FcmResult = Accepted(id: string) | Refused(reason: string)

  /** The object `sendPush` resolves to. */
  datatype PushResult =
    | Sent(messageId: string)
    | MockSent(messageId: string)
    | PushFailed(error: string)
  {
    predicate Success() { !PushFailed? }
  }

  const DefaultTitle := "Uber Clone"
  const DefaultBody := "You have a notification"

  /** `v || fallback` for a title or body: the value itself when truthy. */
  function OrDefault(v: Option<Json>, fallback: string): (r: Json)
    ensures Truthy(v) ==> r == v.value
    ensures !Truthy(v) ==> r == JStr(fallback)
  {
    if Truthy(v) then v.value else JStr(fallback)
  }

  /** `Object.entries(payload)` with every value passed through `String(v)`. */
  function PayloadData(payload: Option<Json>): (d: map<string, string>)
    ensures !Truthy(payload) ==> d == map[]
    ensures Truthy(payload) && payload.value.JObj? ==>
      && d.Keys == payload.value.fields.Keys
      && forall k :: k in d ==> d[k] == Stringify(payload.value.fields[k])
  {
    if !Truthy(payload) then map[]
    else match payload.value
      case JObj(f) => map k | k in f :: Stringify(f[k])
      case JArr(items) => IndexEntries(StringifyEach(items))
      case JStr(s) => IndexEntries(Characters(s))
      case _ => map[]
  }

  /** `String(v)` of every element. */
  function StringifyEach(items: seq<Json>): (r: seq<string>)
    ensures |r| == |items| && forall i :: 0 <= i < |items| ==> r[i] == Stringify(items[i])
  {
    if |items| == 0 then [] else [Stringify(items[0])] + StringifyEach(items[1..])
  }

  /** The one-character strings a string's entries hold. */
  function Characters(s: string): (r: seq<string>)
    ensures |r| == |s| && forall i :: 0 <= i < |s| ==> r[i] == [s[i]]
  {
    if |s| == 0 then [] else [[s[0]]] + Characters(s[1..])
  }

  /** The entries of an array-like value: index `i`, written in decimal, maps to element `i`
      (see `IndexEntriesAt`). */
  function IndexEntries(values: seq<string>): map<string, string>
    decreases |values|
  {
    if |values| == 0 then map[]
    else
      var n := |values| - 1;
      IndexEntries(values[..n])[Text.NatToString(n) := values[n]]
  }

  /** Each index, written in decimal, maps to the element at that index, and there are no
      other entries. */
  lemma {:induction false} IndexEntriesAt(values: seq<string>)
    ensures forall i :: 0 <= i < |values| ==>
      Text.NatToString(i) in IndexEntries(values) && IndexEntries(values)[Text.NatToString(i)] == values[i]
    ensures |IndexEntries(values)| <= |values|
    decreases |values|
  {
    if |values| > 0 {
      var n := |values| - 1;
      var prev := IndexEntries(values[..n]);
      var d := IndexEntries(values);
      assert d == prev[Text.NatToString(n) := values[n]];
      IndexEntriesAt(values[..n]);
      forall i | 0 <= i < |values|
        ensures Text.NatToString(i) in d && d[Text.NatToString(i)] == values[i]
      {
        if i < n {
          KeysDiffer(i, n);
          assert values[..n][i] == values[i];
        }
      }
    }
  }

  /** Distinct indices are written differently. */
  lemma KeysDiffer(i: nat, n: nat)
    requires i != n
    ensures Text.NatToString(i) != Text.NatToString(n)
  {
    Text.ParseNatToString(i);
    Text.ParseNatToString(n);
  }

  /** The message `sendPush` hands to Firebase. */
  function Message(job: PushJob): (m: FcmMessage)
    ensures m.token == job.deviceToken && m.data == PayloadData(job.data)
    ensures m.title == m.alertTitle && m.body == m.alertBody
    ensures !Truthy(job.title) ==> m.title == JStr(DefaultTitle)
    ensures !Truthy(job.body) ==> m.body == JStr(DefaultBody)
  {
    var title := OrDefault(job.title, DefaultTitle);
    var body := OrDefault(job.body, DefaultBody);
    FcmMessage(job.deviceToken, title, body, PayloadData(job.data), title, body)
  }

  /** The mock logs `deviceToken?.substring(0, 20)`, which throws for a token that is neither
      missing, null nor a string. */
  predicate MockLogThrows(token: Option<Json>)
  {
    token.Some? && !token.value.JNull? && !token.value.JStr?
  }

  const NotAFunction := "deviceToken?.substring is not a function"

  /** `sendPush`.  `firebase` says whether a Firebase app exists after the lazy initialisation;
      `now` is `Date.now()`.  Every error is caught, so the result is always a value. */
  function SendPush(job: PushJob, firebase: bool, now: int, fcm: FcmMessage -> FcmResult): (r: PushResult)
    ensures !firebase ==> (r.PushFailed? <==> MockLogThrows(job.deviceToken))
    ensures !firebase && r.Success() ==> r == MockSent("mock-push-" + Text.IntToString(now))
    ensures firebase ==> (r.Sent? <==> fcm(Message(job)).Accepted?)
    ensures firebase && r.Sent? ==> r.messageId == fcm(Message(job)).id
    ensures firebase && r.PushFailed? ==> r.error == fcm(Message(job)).reason
    ensures firebase ==> !r.MockSent?
  {
    if !firebase then
      if MockLogThrows(job.deviceToken) then PushFailed(NotAFunction)
      else MockSent("mock-push-" + Text.IntToString(now))
    else
      match fcm(Message(job))
      case Accepted(id) => Sent(id)
      case Refused(reason) => PushFailed(reason)
  }

  // ---------------------------------------------------------------- templates

  datatype Template = Template(title: string, body: string)

  /** The five template names, in the order the table lists them. */
  const TemplateNames: seq<string> := ["rideRequested", "rideAccepted", "rideCompleted", "rideCancelled", "welcome"]

  const Welcome := Template("\U{1F44B} Welcome to Uber Clone!", "Start your first ride today")

  /** `templates[name]`: a named entry, or `None` for a name the table does not hold. */
  function Lookup(name: string, data: Option<Json>): (t: Option<Template>)
    ensures t.Some? <==> name in TemplateNames
    ensures name == "rideRequested" ==> t.value.title == "\U{1F697} Ride Requested"
    ensures name == "rideRequested" ==>
      t.value.body == "New ride request to " +
        (if Truthy(Member(data, "dropoffAddress")) then Stringify(Member(data, "dropoffAddress").value) else "destination")
    ensures name == "rideAccepted" ==> t.value.title == "✅ Driver Accepted!"
    ensures name == "rideAccepted" ==>
      t.value.body ==
        (if Truthy(Member(data, "driverName")) then Stringify(Member(data, "driverName").value) else "Your driver") + " accepted your ride"
    ensures name == "rideCompleted" ==> t == Some(Template("\U{1F389} Ride Completed", "Thank you for riding! Rate your experience"))
    ensures name == "rideCancelled" ==> t == Some(Template("❌ Ride Cancelled", "Your ride has been cancelled"))
    ensures name == "welcome" ==> t == Some(Welcome)
  {
    if name == "rideRequested" then
      Some(Template("\U{1F697} Ride Requested", "New ride request to " + InterpOr(Member(data, "dropoffAddress"), "destination")))
    else if name == "rideAccepted" then
      Some(Template("✅ Driver Accepted!", InterpOr(Member(data, "driverName"), "Your driver") + " accepted your ride"))
    else if name == "rideCompleted" then
      Some(Template("\U{1F389} Ride Completed", "Thank you for riding! Rate your experience"))
    else if name == "rideCancelled" then
      Some(Template("❌ Ride Cancelled", "Your ride has been cancelled"))
    else if name == "welcome" then Some(Welcome)
    else None
  }

  /** `templates[template] || templates.welcome`, with `template` converted to a property key. */
  function TemplateFor(template: Option<Json>, data: Option<Json>): (t: Template)
    ensures Interp(template) in TemplateNames ==> Some(t) == Lookup(Interp(template), data)
    ensures Interp(template) !in TemplateNames ==> t == Welcome
  {
    Lookup(Interp(template), data).GetOr(Welcome)
  }

  /** `sendTemplatePush`: the template's title and body, and the data as the payload. */
  function TemplateJob(deviceToken: Option<Json>, template: Option<Json>, data: Option<Json>): (job: PushJob)
    ensures job.deviceToken == deviceToken && job.data == data
    ensures job.title == Some(JStr(TemplateFor(template, data).title))
    ensures job.body == Some(JStr(TemplateFor(template, data).body))
  {
    var t := TemplateFor(template, data);
    PushJob(deviceToken, Some(JStr(t.title)), Some(JStr(t.body)), data)
  }

  /** `sendTemplatePush`: a push whose notification and alert carry the template's own title
      and body, never the defaults, with the data as its payload.  The mock and the error
      handling are those of `sendPush`. */
  function SendTemplatePush(deviceToken: Option<Json>, template: Option<Json>, data: Option<Json>,
                            firebase: bool, now: int, fcm: FcmMessage -> FcmResult): (r: PushResult)
    ensures r == SendPush(TemplateJob(deviceToken, template, data), firebase, now, fcm)
    ensures
      var t := TemplateFor(template, data);
      var m := FcmMessage(deviceToken, JStr(t.title), JStr(t.body), PayloadData(data), JStr(t.title), JStr(t.body));
      && (firebase ==> (r.Sent? <==> fcm(m).Accepted?))
      && (firebase && r.Sent? ==> r.messageId == fcm(m).id)
      && (firebase && r.PushFailed? ==> r.error == fcm(m).reason)
    ensures !firebase ==> (r.PushFailed? <==> MockLogThrows(deviceToken))
    ensures !firebase && r.Success() ==> r == MockSent("mock-push-" + Text.IntToString(now))
  {
    TemplatesOverrideDefaults(deviceToken, template, data);
    SendPush(TemplateJob(deviceToken, template, data), firebase, now, fcm)
  }

  /** Only the requested and accepted templates read the data; every other entry is the same
      whatever the data holds. */
  lemma OnlyRideTemplatesReadData(name: string, data: Option<Json>, other: Option<Json>)
    requires name != "rideRequested" && name != "rideAccepted"
    ensures Lookup(name, data) == Lookup(name, other)
  {
  }

  /** Template titles and bodies are never empty, so the defaults never replace them. */
  lemma TemplatesOverrideDefaults(deviceToken: Option<Json>, template: Option<Json>, data: Option<Json>)
    ensures
      var m := Message(TemplateJob(deviceToken, template, data));
      m.title == JStr(TemplateFor(template, data).title) && m.body == JStr(TemplateFor(template, data).body)
  {
    TemplateTextNonEmpty(template, data);
  }

  /** Every template has a title and a body. */
  lemma TemplateTextNonEmpty(template: Option<Json>, data: Option<Json>)
    ensures TemplateFor(template, data).title != "" && TemplateFor(template, data).body != ""
  {
    var t := TemplateFor(template, data);
    var name := Interp(template);
    if name == "rideRequested" {
      assert |t.body| >= |"New ride request to "|;
    } else if name == "rideAccepted" {
      assert |t.body| >= |" accepted your ride"|;
    }
  }

  /** An unknown template name, or none at all, sends the welcome push. */
  lemma UnknownTemplateIsWelcome(name: string, data: Option<Json>)
    requires name !in TemplateNames
    ensures TemplateFor(Some(JStr(name)), data) == Welcome
    ensures TemplateFor(None, data) == Welcome
  {
    assert Interp(None) == "undefined";
  }

  /** The accepted-ride body names the driver when the data carries a name, and says "Your
      driver" otherwise. */
  lemma AcceptedBodyNamesDriver(name: string)
    ensures TemplateFor(Some(JStr("rideAccepted")), Some(JObj(map["driverName" := JStr(name)]))).body
         == (if name == "" then "Your driver" else name) + " accepted your ride"
    ensures TemplateFor(Some(JStr("rideAccepted")), Some(JObj(map[]))).body == "Your driver" + " accepted your ride"
  {
    AcceptedBodyNamed(name);
    AcceptedBodyUnnamed();
  }

  lemma AcceptedBodyNamed(name: string)
    ensures TemplateFor(Some(JStr("rideAccepted")), Some(JObj(map["driverName" := JStr(name)]))).body
         == (if name == "" then "Your driver" else name) + " accepted your ride"
  {
    var named := Some(JObj(map["driverName" := JStr(name)]));
    assert Member(named, "driverName") == Some(JStr(name));
    AcceptedBody(named);
  }

  lemma AcceptedBodyUnnamed()
    ensures TemplateFor(Some(JStr("rideAccepted")), Some(JObj(map[]))).body == "Your driver" + " accepted your ride"
  {
    var empty: Option<Json> := Some(JObj(map[]));
    assert Member(empty, "driverName").None?;
    AcceptedBody(empty);
  }

  lemma AcceptedBody(data: Option<Json>)
    ensures TemplateFor(Some(JStr("rideAccepted")), data).body ==
      (if Truthy(Member(data, "driverName")) then Stringify(Member(data, "driverName").value) else "Your driver") + " accepted your ride"
  {
    assert Interp(Some(JStr("rideAccepted"))) == "rideAccepted";
  }

  /** The payload keeps every key of an object payload, each value as its string form, and a
      primitive payload other than a string contributes no entries. */
  lemma PayloadKeepsKeys(fields: map<string, Json>, k: string, n: int, b: bool)
    requires k in fields
    ensures k in PayloadData(Some(JObj(fields))) && PayloadData(Some(JObj(fields)))[k] == Stringify(fields[k])
    ensures PayloadData(Some(JNum(n))) == map[] && PayloadData(Some(JBool(b))) == map[]
  {
  }
}
