/** The notification service's controller: the notification-type table of `sendNotification`,
    the template-or-raw branch of `sendPush`, and the mode `getStats` reports.  The Bull queue
    is reduced to its state (absent, reachable, unreachable); a queued job is delivered later
    by the same `sendPush` a direct delivery uses. */
module NotificationController {
  import opened Wrappers
  import opened Json
  import opened PushHandler
  import RideModel

  /** The push queue as the controller meets it. */
  datatype Queue = NoQueue | QueueUp | QueueDown

  /** Everything outside the request the handlers depend on. */
  datatype Env = Env(queue: Queue, firebase: bool, now: int, fcm: FcmMessage -> FcmResult)

  /** `results.push` / `result`: the queued job, or the direct delivery's result. */
  datatype Dispatch = Queued(job: PushJob) | Direct(result: PushResult)

  /** What the push eventually delivered or will deliver for a dispatch. */
  function Delivery(d: Dispatch, env: Env): PushResult
  {
    match d
    case Queued(job) => SendPush(job, env.firebase, env.now, env.fcm)
    case Direct(result) => result
  }

  /** `addPushJob`: send at once without a queue, enqueue otherwise; an unreachable queue
      rejects. */
  function AddPushJob(job: PushJob, env: Env): (r: Option<Dispatch>)
    ensures r.None? <==> env.queue == QueueDown
    ensures r.Some? ==> Delivery(r.value, env) == SendPush(job, env.firebase, env.now, env.fcm)
    ensures r.Some? ==> (r.value.Queued? <==> env.queue == QueueUp)
  {
    match env.queue
    case NoQueue => Some(Direct(SendPush(job, env.firebase, env.now, env.fcm)))
    case QueueUp => Some(Queued(job))
    case QueueDown => None
  }

  datatype Reply =
    | Queuing(message: string, push: Option<Dispatch>)
    | Stats(message: string, mode: string, counts: Option<QueueCounts>)
    | Failed(status: int, error: string)

  const QueuedMessage := "Push notification queued successfully"

  // ---------------------------------------------------------------- type table

  /** The own entries of `notificationMap`: notification type to push template. */
  const TypeTemplates: map<string, string> := map[
    "ride_requested" := "rideRequested",
    "ride_accepted" := "rideAccepted",
    "ride_completed" := "rideCompleted",
    "ride_cancelled" := "rideCancelled",
    "welcome" := "welcome"]

  /** The members every object literal inherits from `Object.prototype`. */
  const InheritedNames: set<string> := {
    "constructor", "hasOwnProperty", "isPrototypeOf", "propertyIsEnumerable", "toLocaleString",
    "toString", "valueOf", "__proto__", "__defineGetter__", "__defineSetter__",
    "__lookupGetter__", "__lookupSetter__"}

  /** A configuration found under a type: its `pushTemplate`, undefined for an inherited member. */
  datatype TypeConfig = TypeConfig(pushTemplate: Option<string>)

  /** `notificationMap[type]` as written: an inherited member is truthy, so it passes the
      `!config` test although it is no notification type. */
  function TypeConfigAsWritten(key: string): (c: Option<TypeConfig>)
    ensures c.Some? <==> key in TypeTemplates || key in InheritedNames
  {
    if key in TypeTemplates then Some(TypeConfig(Some(TypeTemplates[key])))
    else if key in InheritedNames then Some(TypeConfig(None))
    else None
  }

  /** The lookup the 400 branch is meant to give: the table's own five entries only. */
  function TypeConfigOf(key: string): (c: Option<TypeConfig>)
    ensures c.Some? <==> key in TypeTemplates
    ensures c.Some? ==> c.value.pushTemplate == Some(TypeTemplates[key])
  {
    if key in TypeTemplates then Some(TypeConfig(Some(TypeTemplates[key]))) else None
  }

  /** The five types are exactly the ones the table maps, each to its own template. */
  lemma TypeTableIsInjective(a: string, b: string)
    requires a in TypeTemplates && b in TypeTemplates && a != b
    ensures TypeTemplates[a] != TypeTemplates[b]
    ensures TypeTemplates[a] in TemplateNames
  {
  }

  /** `type: 'toString'` passes the as-written lookup but not the intended one. */
  lemma InheritedTypeAcceptedAsWritten()
    ensures TypeConfigAsWritten("toString") == Some(TypeConfig(None))
    ensures TypeConfigOf("toString") == None
  {
  }

  // ---------------------------------------------------------------- sendNotification

  /** `sendNotification` as written: the job carries `template`, but `sendPush` reads only
      `deviceToken`, `title`, `body` and `data`, so the template never reaches the message. */
  function SendNotificationAsWritten(body: Object, env: Env): (r: Reply)
    ensures r.Queuing? && r.push.Some? ==>
      && Truthy(Member(Get(body, "data"), "deviceToken"))
      && Delivery(r.push.value, env) == SendPush(PushJob(Member(Get(body, "data"), "deviceToken"), None, None, Get(body, "data")), env.firebase, env.now, env.fcm)
  {
    var config := TypeConfigAsWritten(Interp(Get(body, "type")));
    var data := Get(body, "data");
    if config.None? then Failed(400, "Unknown notification type: " + Interp(Get(body, "type")))
    else if Nullish(data) then Failed(500, "Failed to send notification")
    else if !Truthy(Member(data, "deviceToken")) then Queuing(QueuedMessage, None)
    else
      match AddPushJob(PushJob(Member(data, "deviceToken"), None, None, data), env)
      case None => Failed(500, "Failed to send notification")
      case Some(d) => Queuing(QueuedMessage, Some(d))
  }

  /** As written, a ride-accepted push carries the generic defaults, not the template. */
  lemma TemplateDroppedAsWritten(token: string, driver: string, env: Env)
    requires token != "" && env.queue != QueueDown && env.firebase
    ensures
      var data := JObj(map["deviceToken" := JStr(token), "driverName" := JStr(driver)]);
      var r := SendNotificationAsWritten(map["type" := JStr("ride_accepted"), "data" := data], env);
      && r.Queuing? && r.push.Some?
      && Message(PushJob(Some(JStr(token)), None, None, Some(data))).title == JStr(DefaultTitle)
      && Message(PushJob(Some(JStr(token)), None, None, Some(data))).body == JStr(DefaultBody)
  {
  }

  /** As written, `type: 'toString'` with any data object answers 200 instead of 400. */
  lemma InheritedTypeQueuesAsWritten(env: Env)
    ensures SendNotificationAsWritten(map["type" := JStr("toString"), "data" := JObj(map[])], env) == Queuing(QueuedMessage, None)
  {
  }

  /** `sendNotification` with the two corrections: only the table's own types are known, and
      the push is built from the type's template. */
  function SendNotification(body: Object, env: Env): (r: Reply)
    ensures r.Failed? && r.status == 400 <==> Interp(Get(body, "type")) !in TypeTemplates
    ensures r.Failed? && r.status == 400 ==> r.error == "Unknown notification type: " + Interp(Get(body, "type"))
    ensures Interp(Get(body, "type")) in TypeTemplates && Nullish(Get(body, "data")) ==> r == Failed(500, "Failed to send notification")
    ensures r.Queuing? ==> r.message == QueuedMessage
    ensures r.Queuing? ==> (r.push.Some? <==> Truthy(Member(Get(body, "data"), "deviceToken")))
    ensures r.Queuing? && r.push.Some? ==>
      var key := Interp(Get(body, "type"));
      && key in TypeTemplates
      && Delivery(r.push.value, env)
         == SendPush(TemplateJob(Member(Get(body, "data"), "deviceToken"), Some(JStr(TypeTemplates[key])), Get(body, "data")),
                     env.firebase, env.now, env.fcm)
  {
    var key := Interp(Get(body, "type"));
    var data := Get(body, "data");
    match TypeConfigOf(key)
    case None => Failed(400, "Unknown notification type: " + key)
    case Some(config) =>
      if Nullish(data) then Failed(500, "Failed to send notification")
      else if !Truthy(Member(data, "deviceToken")) then Queuing(QueuedMessage, None)
      else
        match AddPushJob(TemplateJob(Member(data, "deviceToken"), Some(JStr(config.pushTemplate.value)), data), env)
        case None => Failed(500, "Failed to send notification")
        case Some(d) => Queuing(QueuedMessage, Some(d))
  }

  /** With the correction the ride-accepted push carries the template's title and names the
      driver. */
  lemma TemplateDelivered(token: string, driver: string, env: Env)
    requires token != "" && driver != ""
    ensures
      var data := JObj(map["deviceToken" := JStr(token), "driverName" := JStr(driver)]);
      var job := TemplateJob(Some(JStr(token)), Some(JStr("rideAccepted")), Some(data));
      && Message(job).title == JStr("✅ Driver Accepted!")
      && Message(job).body == JStr(driver + " accepted your ride")
  {
    var data := JObj(map["deviceToken" := JStr(token), "driverName" := JStr(driver)]);
    TemplatesOverrideDefaults(Some(JStr(token)), Some(JStr("rideAccepted")), Some(data));
  }

  /** The ride service posts `ride_<status>` on every status change; only `requested`,
      `accepted`, `completed` and `cancelled` have an entry, so `arriving`, `arrived` and
      `in_progress` are refused with 400. */
  lemma RideStatusTypes(s: RideModel.Status, data: Json, env: Env)
    ensures
      var r := SendNotification(map["type" := JStr("ride_" + RideModel.StatusName(s)), "data" := data], env);
      r.Failed? && r.status == 400 <==> s in {RideModel.Arriving, RideModel.Arrived, RideModel.InProgress}
  {
    var key := "ride_" + RideModel.StatusName(s);
    var body := map["type" := JStr(key), "data" := data];
    assert Interp(Get(body, "type")) == key;
    RideKeyKnown(s);
  }

  /** The ride-status keys with an entry in the table. */
  lemma RideKeyKnown(s: RideModel.Status)
    ensures "ride_" + RideModel.StatusName(s) in TypeTemplates <==> s !in {RideModel.Arriving, RideModel.Arrived, RideModel.InProgress}
  {
    var key := "ride_" + RideModel.StatusName(s);
    match s
    case Requested => assert key == "ride_requested";
    case Accepted => assert key == "ride_accepted";
    case Arriving => assert key == "ride_arriving";
    case Arrived => assert key == "ride_arrived";
    case InProgress => assert key == "ride_in_progress";
    case Completed => assert key == "ride_completed";
    case Cancelled => assert key == "ride_cancelled";
  }

  /** No push leaves without a device token in the data; the reply still reports success. */
  lemma NoTokenNoPush(body: Object, env: Env)
    requires Interp(Get(body, "type")) in TypeTemplates
    requires Get(body, "data").Some? && Get(body, "data").value.JObj? && "deviceToken" !in Get(body, "data").value.fields
    ensures SendNotification(body, env) == Queuing(QueuedMessage, None)
  {
  }

  // ---------------------------------------------------------------- sendPush, getStats

  /** `sendPush`: with a truthy template the push goes straight through `sendTemplatePush`,
      bypassing the queue; otherwise the raw title and body are queued. */
  function SendPushRequest(body: Object, env: Env): (r: Reply)
    ensures Truthy(Get(body, "template")) ==>
      r == Queuing(QueuedMessage, Some(Direct(SendTemplatePush(Get(body, "deviceToken"), Get(body, "template"), Get(body, "data"), env.firebase, env.now, env.fcm))))
    ensures !Truthy(Get(body, "template")) ==>
      (r.Failed? <==> env.queue == QueueDown)
    ensures !Truthy(Get(body, "template")) && r.Queuing? ==>
      r.push.Some? && Delivery(r.push.value, env)
        == SendPush(PushJob(Get(body, "deviceToken"), Get(body, "title"), Get(body, "body"), Get(body, "data")), env.firebase, env.now, env.fcm)
    ensures r.Failed? ==> r == Failed(500, "Failed to queue push notification")
  {
    if Truthy(Get(body, "template")) then
      Queuing(QueuedMessage, Some(Direct(SendTemplatePush(Get(body, "deviceToken"), Get(body, "template"), Get(body, "data"), env.firebase, env.now, env.fcm))))
    else
      match AddPushJob(PushJob(Get(body, "deviceToken"), Get(body, "title"), Get(body, "body"), Get(body, "data")), env)
      case None => Failed(500, "Failed to queue push notification")
      case Some(d) => Queuing(QueuedMessage, Some(d))
  }

  /** The four counters of the push queue. */
  datatype QueueCounts = QueueCounts(waiting: nat, active: nat, completed: nat, failed: nat)

  /** `getStats`: `SKIP_REDIS` is the environment variable; `counts` is what the queue
      reports, read only in queued mode. */
  function GetStats(skipRedis: Option<string>, queue: Queue, counts: QueueCounts): (r: Reply)
    ensures skipRedis == Some("true") ==> r.Stats? && r.mode == "direct" && r.counts.None?
    ensures skipRedis != Some("true") ==>
      match queue
      case QueueUp => r == Stats("Queue statistics", "queued", Some(counts))
      case NoQueue => r == Stats("Queue statistics", "queued", None)
      case QueueDown => r == Failed(500, "Failed to get service stats")
  {
    if skipRedis == Some("true") then Stats("Notifications are sent directly without queuing", "direct", None)
    else
      match queue
      case QueueUp => Stats("Queue statistics", "queued", Some(counts))
      case NoQueue => Stats("Queue statistics", "queued", None)
      case QueueDown => Failed(500, "Failed to get service stats")
  }
}
