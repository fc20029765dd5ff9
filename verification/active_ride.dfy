/** The rider's live-ride page: the status banner, when the cancel button shows, and how the
    socket events and the initial fetch change what the page holds.  The ride is kept as the
    JSON object the server sent. */
module ActiveRide {
  import opened Wrappers
  import opened Json
  import RideModel
  import RideController
  import ObjectId

  datatype StatusInfo = StatusInfo(text: string, color: string, animate: bool)

  const Gray := "bg-gray-500"

  /** The seven statuses the banner knows, with their texts, colours and animation flags. */
  function KnownStatusInfo(status: string): Option<StatusInfo>
  {
    if status == "requested" then Some(StatusInfo("Looking for driver...", "bg-yellow-500", true))
    else if status == "accepted" then Some(StatusInfo("✅ Driver Accepted! On the way", "bg-green-500", false))
    else if status == "arriving" then Some(StatusInfo("\U{1F4CD} Driver arriving soon", "bg-blue-500", true))
    else if status == "arrived" then Some(StatusInfo("\U{1F697} Driver has arrived", "bg-green-500", true))
    else if status == "in_progress" then Some(StatusInfo("\U{1F697} On your way", "bg-purple-500", false))
    else if status == "completed" then Some(StatusInfo("✨ Ride completed", "bg-green-500", false))
    else if status == "cancelled" then Some(StatusInfo("❌ Ride cancelled", "bg-red-500", false))
    else None
  }

  /** `getStatusInfo`: the table entry, or the raw status in gray.  A ride status is never gray
      and never shown as its bare name; only the three waiting statuses pulse. */
  function GetStatusInfo(status: string): (i: StatusInfo)
    ensures RideModel.ParseStatus(status).Some? <==> i.color != Gray
    ensures RideModel.ParseStatus(status).Some? ==> i.text != status
    ensures RideModel.ParseStatus(status).None? ==> i == StatusInfo(status, Gray, false)
    ensures i.animate <==> status in ["requested", "arriving", "arrived"]
  {
    match KnownStatusInfo(status)
    case Some(info) => info
    case None => StatusInfo(status, Gray, false)
  }

  /** Every status the ride model has gets its own banner and never the gray default; any
      other text is shown as it is. */
  lemma StatusInfoCoversModel(s: RideModel.Status, other: string)
    requires RideModel.ParseStatus(other).None?
    ensures GetStatusInfo(RideModel.StatusName(s)).color != Gray
    ensures GetStatusInfo(other) == StatusInfo(other, Gray, false)
  {
    match s {
      case Requested =>
      case Accepted =>
      case Arriving =>
      case Arrived =>
      case InProgress =>
      case Completed =>
      case Cancelled =>
    }
  }

  /** The cancel button: shown only before the trip starts, and not while the driver is
      marked arriving. */
  predicate CanCancel(status: string)
  {
    status in ["requested", "accepted", "arrived"]
  }

  /** A cancel the button offers is one the server accepts: none of the three statuses is
      finished.  The page's id is the `_id` the server sent, so it is an ObjectId. */
  lemma CancelButtonAgreesWithServer(store: RideController.Store, rideId: string, userId: string,
                                     reason: Option<string>, now: int)
    requires ObjectId.IsObjectId(rideId) && RideController.Find(store, rideId).Some?
    requires CanCancel(RideModel.StatusName(store[RideController.Find(store, rideId).value].status))
    ensures RideController.CancelRide(store, rideId, userId, reason, now).reply.Done?
  {
    var s := store[RideController.Find(store, rideId).value].status;
    assert RideModel.StatusName(s) in ["requested", "accepted", "arrived"];
  }

  // ---------------------------------------------------------------- page state

  /** What the page holds: the ride the server sent (null before it loads) and whether the
      rating dialog is open, with the score chosen in it. */
  datatype Page = Page(rideId: string, ride: Option<Json>, showRating: bool, rating: int)

  const DefaultScore := 5

  function Initial(rideId: string): (p: Page)
    ensures p.ride.None? && !p.showRating && p.rating == DefaultScore && p.rideId == rideId
  {
    Page(rideId, None, false, DefaultScore)
  }

  /** `ride-accepted`: an event whose `ride._id` is this ride replaces the whole ride. */
  function OnRideAccepted(p: Page, data: Option<Json>): (p': Page)
    ensures Member(Member(data, "ride"), "_id") == Some(JStr(p.rideId)) ==>
      p' == p.(ride := Member(data, "ride"))
    ensures Member(Member(data, "ride"), "_id") != Some(JStr(p.rideId)) ==> p' == p
  {
    if Member(Member(data, "ride"), "_id") == Some(JStr(p.rideId)) then
      p.(ride := Member(data, "ride"))
    else p
  }

  /** `{...prev, status}`: only the status changes; anything but an object spreads as `{}`.
      A missing status is stored as no key, which reads back the same as an undefined one. */
  function WithStatus(ride: Option<Json>, status: Option<Json>): (r: Object)
    ensures forall k | k != "status" :: (k in r <==> Member(ride, k).Some?)
    ensures forall k | k != "status" && k in r :: Some(r[k]) == Member(ride, k)
    ensures Get(r, "status") == status
  {
    var base := if ride.Some? && ride.value.JObj? then ride.value.fields else map[];
    if status.Some? then base["status" := status.value] else base - {"status"}
  }

  /** `ride-status-update`: an event for another ride changes nothing; for this ride the status
      is replaced, and a `completed` event opens the rating dialog. */
  function OnStatusUpdate(p: Page, data: Option<Json>): (p': Page)
    ensures Member(data, "rideId") != Some(JStr(p.rideId)) ==> p' == p
    ensures Member(data, "rideId") == Some(JStr(p.rideId)) ==>
      && p'.ride == Some(JObj(WithStatus(p.ride, Member(data, "status"))))
      && p'.showRating == (p.showRating || Member(data, "status") == Some(JStr("completed")))
      && p'.rideId == p.rideId && p'.rating == p.rating
  {
    if Member(data, "rideId") == Some(JStr(p.rideId)) then
      var status := Member(data, "status");
      p.(ride := Some(JObj(WithStatus(p.ride, status))),
         showRating := p.showRating || status == Some(JStr("completed")))
    else p
  }

  /** Events for other rides never touch this page. */
  lemma OtherRideIgnored(p: Page, other: string, status: Json, ride: Object)
    requires other != p.rideId
    ensures OnStatusUpdate(p, Some(JObj(map["rideId" := JStr(other), "status" := status]))) == p
    ensures OnRideAccepted(p, Some(JObj(map["ride" := JObj(ride["_id" := JStr(other)])]))) == p
  {
    var d := Some(JObj(map["rideId" := JStr(other), "status" := status]));
    assert Member(d, "rideId") == Some(JStr(other));
    var e := Some(JObj(map["ride" := JObj(ride["_id" := JStr(other)])]));
    assert Member(Member(e, "ride"), "_id") == Some(JStr(other));
  }

  /** The result of the initial fetch: the page with the ride, or a failure that sends the
      rider home. */
  datatype Loaded = Shown(page: Page) | SentHome

  /** `fetchRide`: `response` is the reply body, None when the request fails.  A reply whose
      ride is null or missing throws on `ride.status`, which also sends the rider home.  A
      completed ride the rider has not rated opens the dialog. */
  function FetchRide(p: Page, response: Option<Json>): (l: Loaded)
    ensures l.Shown? <==> !Nullish(Member(response, "ride"))
    ensures l.Shown? ==>
      var ride := Member(response, "ride");
      && l.page == p.(ride := ride, showRating := l.page.showRating)
      && (l.page.showRating <==>
            (p.showRating || (Member(ride, "status") == Some(JStr("completed")) && !Truthy(Member(Member(ride, "rating"), "fromRider")))))
  {
    var ride := Member(response, "ride");
    if Nullish(ride) then SentHome
    else
      var rated := Truthy(Member(Member(ride, "rating"), "fromRider"));
      Shown(p.(ride := ride,
               showRating := p.showRating || (Member(ride, "status") == Some(JStr("completed")) && !rated)))
  }

  /** The body `submitRating` posts: the chosen score, a role the server reads as the rider's,
      and no feedback. */
  function RatingBody(p: Page): (b: Object)
    ensures Get(b, "rating") == Some(JNum(p.rating))
    ensures RideController.RatesDriver(Get(b, "role"))
    ensures Get(b, "feedback").None?
  {
    map["rating" := JNum(p.rating), "role" := JStr("rider")]
  }

  /** The page's rating goes to the driver: the server reads the posted role as a rider's,
      and an untouched dialog gives five stars. */
  lemma PageRatingRatesDriver(rideId: string)
    ensures RideController.RatesDriver(Get(RatingBody(Initial(rideId)), "role"))
    ensures Get(RatingBody(Initial(rideId)), "rating") == Some(JNum(5))
  {
  }

  /** Posting the page's body rates the driver with the chosen score and leaves an empty rider
      feedback; the driver's rating of the rider is untouched. */
  lemma PostedRatingRatesDriver(p: Page, store: RideController.Store)
    requires ObjectId.IsObjectId(p.rideId) && RideController.Find(store, p.rideId).Some?
    ensures
      var b := RatingBody(p);
      var o := RideController.RateRide(store, p.rideId, p.rating, None, Get(b, "role"));
      var old_ := store[RideController.Find(store, p.rideId).value].rating;
      && o.reply.Done?
      && o.reply.ride.rating == old_.(driverRating := Some(p.rating), riderFeedback := Some(""))
  {
  }
}
