/** The ride controller's write operations over the ride collection: request, accept,
    status update, cancel and rate, plus lookup by id and the fare estimate.  Each handler is
    a pure function from the collection, the request and the clock to the new collection, the
    reply, the socket events it emits and the notifications it posts. */
module RideController {
  import opened Wrappers
  import opened Json
  import opened RideModel
  import Pricing
  import Vehicles
  import Text
  import ObjectId

  /** The ride collection in natural (insertion) order. */
  type Store = seq<Ride>

  /** Document ids are unique. */
  predicate UniqueIds(store: Store)
  {
    forall i, j :: 0 <= i < j < |store| ==> store[i].id != store[j].id
  }

  /** `findById`: the position of the ride with this id. */
  function Find(store: Store, id: string): (r: Option<nat>)
    ensures r.Some? ==> r.value < |store| && store[r.value].id == id
    ensures r.Some? ==> forall j :: 0 <= j < r.value ==> store[j].id != id
    ensures r.None? ==> forall j :: 0 <= j < |store| ==> store[j].id != id
  {
    if |store| == 0 then None
    else if store[0].id == id then Some(0)
    else match Find(store[1..], id)
      case None => None
      case Some(k) => Some(k + 1)
  }

  /** A socket.io emit: the room and the event name. */
  datatype Emit = Emit(room: string, event: string)

  /** A POST to the notification service: its `type` and `userId`. */
  datatype Notice = Notice(kind: string, userId: string)

  datatype Reply =
    | Done(status: int, message: string, ride: Ride)
    | Fail(status: int, error: string)

  datatype Outcome = Outcome(store: Store, reply: Reply, emits: seq<Emit>, notices: seq<Notice>)

  /** The reply when nothing is written. */
  function Refuse(store: Store, status: int, error: string): (o: Outcome)
    ensures o.store == store && o.reply.Fail? && o.emits == [] && o.notices == []
  {
    Outcome(store, Fail(status, error), [], [])
  }

  /** The new ride replaces the one at position `i`; nothing else changes. */
  predicate ReplacesAt(store: Store, store': Store, i: nat, r: Ride)
  {
    && i < |store| && |store'| == |store|
    && store'[i] == r
    && forall j :: 0 <= j < |store| && j != i ==> store'[j] == store[j]
  }

  // ---------------------------------------------------------------- request

  /** The route service's answer for the two endpoints, supplied by the caller. */
  datatype RouteInfo = RouteInfo(distance: real, duration: int)

  /** `Math.max(distance, 0.1)`: the billed distance is never below 100 m. */
  function BilledDistance(distance: real): (d: real)
    ensures d >= 1.0 / 10.0 && d >= distance
    ensures d == distance || d == 1.0 / 10.0
  {
    if distance >= 1.0 / 10.0 then distance else 1.0 / 10.0
  }

  /** The `x-user-id` header as a required ObjectId path: a missing header fails the
      required validator and anything but 24 hexadecimal digits fails the cast. */
  predicate CastsRequired(header: Option<string>)
  {
    header.Some? && ObjectId.IsObjectId(header.value)
  }

  /** The header as an optional ObjectId in an update: a missing header drops the key, and
      anything else must cast. */
  predicate CastsOptional(header: Option<string>)
  {
    header.None? || ObjectId.IsObjectId(header.value)
  }

  /** The fare sub-document a quote is stored as. */
  function StoredFare(q: Pricing.FareQuote): (f: Fare)
    ensures f.baseFare == q.baseFare && f.distanceFare == q.distanceFare
    ensures f.totalFare == q.totalFare && f.currency == q.currency
  {
    Fare(q.baseFare, q.distanceFare, q.totalFare, q.currency)
  }

  /** `c?.lat ?? c?.[1]`: the named field unless it is undefined or null, else the indexed
      one. */
  function Axis(coords: Object, name: string, index: string): (v: Option<Json>)
    ensures !Nullish(Get(coords, name)) ==> v == Get(coords, name)
    ensures Nullish(Get(coords, name)) ==> v == Get(coords, index)
  {
    if !Nullish(Get(coords, name)) then Get(coords, name) else Get(coords, index)
  }

  /** The GeoJSON point a request stores for a coordinates object, `[lng, lat]`, when both
      axes are numbers. */
  function GeoPoint(coords: Object): (p: Option<seq<real>>)
    ensures p.Some? ==> |p.value| == 2
    ensures p.Some? <==> Axis(coords, "lng", "0").Some? && Axis(coords, "lng", "0").value.JNum?
                         && Axis(coords, "lat", "1").Some? && Axis(coords, "lat", "1").value.JNum?
  {
    match (Axis(coords, "lng", "0"), Axis(coords, "lat", "1"))
    case (Some(JNum(lng)), Some(JNum(lat))) => Some([lng as real, lat as real])
    case _ => None
  }

  /** Both accepted shapes give the same point, longitude first: `{lat, lng}` and the
      array-like `{0: lng, 1: lat}`. */
  lemma GeoPointShapesAgree(lat: int, lng: int)
    ensures GeoPoint(map["lat" := JNum(lat), "lng" := JNum(lng)]) == Some([lng as real, lat as real])
    ensures GeoPoint(map["0" := JNum(lng), "1" := JNum(lat)]) == Some([lng as real, lat as real])
  {
    var named := map["lat" := JNum(lat), "lng" := JNum(lng)];
    var indexed := map["0" := JNum(lng), "1" := JNum(lat)];
    assert Get(named, "lng") == Some(JNum(lng)) && Get(named, "lat") == Some(JNum(lat));
    assert "lng" !in indexed && "lat" !in indexed;
    assert Get(indexed, "0") == Some(JNum(lng)) && Get(indexed, "1") == Some(JNum(lat));
  }

  /** A named axis wins over the indexed one; a null named axis falls back to it. */
  lemma GeoPointPrefersNamedAxes(lat: int, lng: int, other: int)
    ensures GeoPoint(map["lat" := JNum(lat), "lng" := JNum(lng), "0" := JNum(other), "1" := JNum(other)])
              == Some([lng as real, lat as real])
    ensures GeoPoint(map["lat" := JNull, "lng" := JNum(lng), "1" := JNum(lat)]) == Some([lng as real, lat as real])
  {
    var both := map["lat" := JNum(lat), "lng" := JNum(lng), "0" := JNum(other), "1" := JNum(other)];
    assert Get(both, "lng") == Some(JNum(lng)) && Get(both, "lat") == Some(JNum(lat));
    var nulled := map["lat" := JNull, "lng" := JNum(lng), "1" := JNum(lat)];
    assert Get(nulled, "lat") == Some(JNull) && Get(nulled, "1") == Some(JNum(lat));
    assert Get(nulled, "lng") == Some(JNum(lng));
  }

  /** `requestRide`: a new ride with the quoted fare, appended to the collection, broadcast to
      the available drivers.  A rider header that does not cast, or a payment method outside
      the enum, fails the document save. */
  function RequestRide(
    store: Store, pricing: Pricing.PricingState, newId: string, riderId: Option<string>,
    vehicleType: Vehicles.VehicleType, pickup: Place, dropoff: Place,
    paymentMethod: Option<string>, route: RouteInfo, now: int): (o: Outcome)
    ensures o.reply.Done? <==>
      && CastsRequired(riderId)
      && (paymentMethod.None? || paymentMethod.value == "" || ParsePaymentMethod(paymentMethod.value).Some?)
    ensures !CastsRequired(riderId) ==> o == Refuse(store, 500, "Failed to request ride")
    ensures o.reply.Fail? ==> o.store == store && o.reply == Fail(500, "Failed to request ride") && o.emits == []
    ensures o.reply.Done? ==>
      && o.store == store + [o.reply.ride]
      && o.reply.status == 201
      && o.reply.ride.id == newId && Some(o.reply.ride.riderId) == riderId
      && o.reply.ride.vehicleType == vehicleType
      && o.reply.ride.pickup == pickup && o.reply.ride.dropoff == dropoff
      && o.reply.ride.distance == BilledDistance(route.distance) && o.reply.ride.duration == route.duration
      && o.reply.ride.fare == StoredFare(Pricing.CalculateFare(pricing, Vehicles.Name(vehicleType), BilledDistance(route.distance)))
      && o.reply.ride.paymentMethod == (if paymentMethod.None? || paymentMethod.value == "" then Cash
                                        else ParsePaymentMethod(paymentMethod.value).value)
      && o.reply.ride.status == Requested && o.reply.ride.driverId.None?
      && o.reply.ride.distance >= 1.0 / 10.0
      && o.reply.ride.fare.totalFare >= Pricing.MinimumFare(Vehicles.Name(vehicleType))
      && o.reply.ride.fare.currency == "INR"
      && SchemaValid(o.reply.ride)
      && o.emits == [Emit("available-drivers", "new-ride-request")]
      && o.notices == [Notice("ride_requested", o.reply.ride.riderId)]
  {
    var pm := if paymentMethod.None? || paymentMethod.value == "" then Some(Cash)
                  else ParsePaymentMethod(paymentMethod.value);
    if !CastsRequired(riderId) || pm.None? then Refuse(store, 500, "Failed to request ride")
    else
      var d := BilledDistance(route.distance);
      var q := Pricing.CalculateFare(pricing, Vehicles.Name(vehicleType), d);
      var ride := NewRide(newId, riderId.value, vehicleType, pickup, dropoff, d, route.duration,
                          StoredFare(q), pm.value, now);
      Outcome(store + [ride], Done(201, "Ride requested successfully", ride),
              [Emit("available-drivers", "new-ride-request")], [Notice("ride_requested", riderId.value)])
  }

  // ---------------------------------------------------------------- accept

  /** `acceptRide`: one atomic conditional update that claims a ride still `requested`.  The
      ride id and the driver header are cast before the update runs. */
  function AcceptRide(store: Store, rideId: string, driverId: Option<string>, now: int): (o: Outcome)
    ensures !ObjectId.IsObjectId(rideId) || !CastsOptional(driverId) ==> o == Refuse(store, 500, "Failed to accept ride")
    ensures o.reply.Done? <==>
      && ObjectId.IsObjectId(rideId) && CastsOptional(driverId)
      && Find(store, rideId).Some? && store[Find(store, rideId).value].status == Requested
    ensures ObjectId.IsObjectId(rideId) && CastsOptional(driverId) && o.reply.Fail? ==>
      o == Refuse(store, 404, "Ride not found or already accepted")
    ensures o.reply.Done? ==>
      var i := Find(store, rideId).value;
      && ReplacesAt(store, o.store, i, o.reply.ride)
      && o.reply.ride == store[i].(driverId := driverId, status := Accepted,
                                   timeline := store[i].timeline.(acceptedAt := Some(now)))
      && o.emits == [Emit("rider-" + store[i].riderId, "ride-accepted")]
      && o.notices == [Notice("ride_accepted", store[i].riderId)]
  {
    if !ObjectId.IsObjectId(rideId) || !CastsOptional(driverId) then Refuse(store, 500, "Failed to accept ride")
    else match Find(store, rideId)
    case None => Refuse(store, 404, "Ride not found or already accepted")
    case Some(i) =>
      var r := store[i];
      if r.status != Requested then Refuse(store, 404, "Ride not found or already accepted")
      else
        var r' := r.(driverId := driverId, status := Accepted, timeline := r.timeline.(acceptedAt := Some(now)));
        Outcome(store[i := r'], Done(200, "Ride accepted", r'),
                [Emit("rider-" + r.riderId, "ride-accepted")], [Notice("ride_accepted", r.riderId)])
  }

  /** A request or an accept whose user header is not an ObjectId is answered 500 and writes
      nothing, whatever the rest of the request. */
  lemma MalformedUserHeaderRefused(
    store: Store, pricing: Pricing.PricingState, newId: string, vehicleType: Vehicles.VehicleType,
    pickup: Place, dropoff: Place, paymentMethod: Option<string>, route: RouteInfo, rideId: string, now: int)
    ensures RequestRide(store, pricing, newId, None, vehicleType, pickup, dropoff, paymentMethod, route, now)
              == Refuse(store, 500, "Failed to request ride")
    ensures RequestRide(store, pricing, newId, Some("rider-1"), vehicleType, pickup, dropoff, paymentMethod, route, now)
              == Refuse(store, 500, "Failed to request ride")
    ensures AcceptRide(store, rideId, Some("driver-1"), now) == Refuse(store, 500, "Failed to accept ride")
  {
    assert !ObjectId.IsObjectId("rider-1");
    assert !ObjectId.IsObjectId("driver-1");
  }

  /** Only one driver can win a ride: once accepted, every later accept fails and changes
      nothing. */
  lemma SecondAcceptFails(store: Store, rideId: string, d1: Option<string>, d2: Option<string>, t1: int, t2: int)
    requires UniqueIds(store)
    requires AcceptRide(store, rideId, d1, t1).reply.Done?
    ensures
      var o2 := AcceptRide(AcceptRide(store, rideId, d1, t1).store, rideId, d2, t2);
      && o2.reply == (if CastsOptional(d2) then Fail(404, "Ride not found or already accepted")
                      else Fail(500, "Failed to accept ride"))
      && o2.store == AcceptRide(store, rideId, d1, t1).store
  {
    var o1 := AcceptRide(store, rideId, d1, t1);
    var i := Find(store, rideId).value;
    FindAfterReplace(store, o1.store, i, rideId);
  }

  /** Replacing a ride by one with the same id leaves every lookup where it was. */
  lemma FindAfterReplace(store: Store, store': Store, i: nat, id: string)
    requires UniqueIds(store)
    requires i < |store| && |store'| == |store| && store[i].id == id && store'[i].id == id
    requires forall j :: 0 <= j < |store| && j != i ==> store'[j] == store[j]
    ensures Find(store', id) == Some(i)
  {
  }

  // ---------------------------------------------------------------- status update

  /** The `$set` of `updateRideStatus`: the new status, plus one timeline stamp for four of the
      targets; the current status is not consulted. */
  function ApplyStatus(r: Ride, status: Status, cancelledBy: Option<string>, reason: Option<string>, now: int): (r': Ride)
    ensures r'.status == status
    ensures r' == r.(status := r'.status, timeline := r'.timeline, paymentStatus := r'.paymentStatus, cancellation := r'.cancellation)
    ensures r'.timeline.requestedAt == r.timeline.requestedAt && r'.timeline.acceptedAt == r.timeline.acceptedAt
    ensures r'.timeline.arrivedAt == (if status == Arriving then Some(now) else r.timeline.arrivedAt)
    ensures r'.timeline.startedAt == (if status == InProgress then Some(now) else r.timeline.startedAt)
    ensures r'.timeline.completedAt == (if status == Completed then Some(now) else r.timeline.completedAt)
    ensures r'.timeline.cancelledAt == (if status == Cancelled then Some(now) else r.timeline.cancelledAt)
    ensures r'.paymentStatus == (if status == Completed then Paid else r.paymentStatus)
    ensures r'.cancellation == (if status == Cancelled then Cancellation(Some(Text.OrElse(cancelledBy, "rider")), KeptUnlessGiven(reason, r.cancellation.reason)) else r.cancellation)
    ensures status == Cancelled && reason.None? ==> r'.cancellation.reason == r.cancellation.reason
  {
    match status
    case Arriving => r.(status := status, timeline := r.timeline.(arrivedAt := Some(now)))
    case InProgress => r.(status := status, timeline := r.timeline.(startedAt := Some(now)))
    case Completed => r.(status := status, timeline := r.timeline.(completedAt := Some(now)), paymentStatus := Paid)
    case Cancelled =>
      r.(status := status, timeline := r.timeline.(cancelledAt := Some(now)),
         cancellation := Cancellation(Some(Text.OrElse(cancelledBy, "rider")), KeptUnlessGiven(reason, r.cancellation.reason)))
    case _ => r.(status := status)
  }

  /** A `$set` path whose value is undefined is dropped from the update, so the stored value
      stays. */
  function KeptUnlessGiven<T>(given: Option<T>, stored: Option<T>): (v: Option<T>)
    ensures given.Some? ==> v == given
    ensures given.None? ==> v == stored
  {
    if given.Some? then given else stored
  }

  /** `updateRideStatus`: 404 only for an unknown id; any existing ride, finished or not, takes
      the new status. */
  function UpdateRideStatus(store: Store, rideId: string, status: Status, cancelledBy: Option<string>, reason: Option<string>, now: int): (o: Outcome)
    ensures !ObjectId.IsObjectId(rideId) ==> o == Refuse(store, 500, "Failed to update ride status")
    ensures o.reply.Done? <==> ObjectId.IsObjectId(rideId) && Find(store, rideId).Some?
    ensures ObjectId.IsObjectId(rideId) && o.reply.Fail? ==> o == Refuse(store, 404, "Ride not found")
    ensures o.reply.Done? ==>
      var i := Find(store, rideId).value;
      && ReplacesAt(store, o.store, i, o.reply.ride)
      && o.reply.ride == ApplyStatus(store[i], status, cancelledBy, reason, now)
      && o.emits == [Emit("ride-" + rideId, "ride-status-updated")]
      && o.notices == [Notice("ride_" + StatusName(status), store[i].riderId)]
  {
    if !ObjectId.IsObjectId(rideId) then Refuse(store, 500, "Failed to update ride status")
    else match Find(store, rideId)
    case None => Refuse(store, 404, "Ride not found")
    case Some(i) =>
      var r' := ApplyStatus(store[i], status, cancelledBy, reason, now);
      Outcome(store[i := r'], Done(200, "Ride status updated", r'),
              [Emit("ride-" + rideId, "ride-status-updated")],
              [Notice("ride_" + StatusName(status), store[i].riderId)])
  }

  /** Finished rides are not protected: a completed or cancelled ride can be moved to any
      status the route lets through. */
  lemma StatusUpdateOverwritesFinishedRide(store: Store, rideId: string, status: Status, now: int)
    requires ObjectId.IsObjectId(rideId) && Find(store, rideId).Some?
    requires store[Find(store, rideId).value].status in {Completed, Cancelled}
    ensures UpdateRideStatus(store, rideId, status, None, None, now).reply.Done?
    ensures UpdateRideStatus(store, rideId, status, None, None, now).reply.ride.status == status
  {
  }

  /** Writing `arrived` stores a status the document schema does not admit, so the ride no
      longer satisfies the schema. */
  lemma ArrivedLeavesSchema(store: Store, rideId: string, now: int)
    requires ObjectId.IsObjectId(rideId) && Find(store, rideId).Some?
    ensures !SchemaValid(UpdateRideStatus(store, rideId, Arrived, None, None, now).reply.ride)
  {
    SchemaEnumOmitsArrived(Arrived);
  }

  // ---------------------------------------------------------------- cancel

  /** `cancelRide`: refused for finished rides; otherwise it records who cancelled, compared
      against the rider id, and why. */
  function CancelRide(store: Store, rideId: string, userId: string, reason: Option<string>, now: int): (o: Outcome)
    ensures !ObjectId.IsObjectId(rideId) ==> o == Refuse(store, 500, "Failed to cancel ride")
    ensures ObjectId.IsObjectId(rideId) && Find(store, rideId).None? ==> o == Refuse(store, 404, "Ride not found")
    ensures ObjectId.IsObjectId(rideId) && Find(store, rideId).Some? && store[Find(store, rideId).value].status in {Completed, Cancelled} ==>
      o == Refuse(store, 400, "Ride cannot be cancelled")
    ensures o.reply.Done? <==>
      ObjectId.IsObjectId(rideId) && Find(store, rideId).Some? && store[Find(store, rideId).value].status !in {Completed, Cancelled}
    ensures o.reply.Done? ==>
      var i := Find(store, rideId).value;
      var who := if store[i].riderId == userId then "rider" else "driver";
      && ReplacesAt(store, o.store, i, o.reply.ride)
      && o.reply.ride.status == Cancelled
      && o.reply.ride.timeline == store[i].timeline.(cancelledAt := Some(now))
      && o.reply.ride.cancellation.cancelledBy == Some(who)
      && o.reply.ride.cancellation.reason == Some(if reason.Some? && reason.value != "" then reason.value else "No reason provided")
      && o.reply.ride == store[i].(status := Cancelled, timeline := o.reply.ride.timeline, cancellation := o.reply.ride.cancellation)
      && |o.emits| >= 1 && o.emits[0] == Emit("ride-" + rideId, "ride-cancelled")
  {
    if !ObjectId.IsObjectId(rideId) then Refuse(store, 500, "Failed to cancel ride")
    else match Find(store, rideId)
    case None => Refuse(store, 404, "Ride not found")
    case Some(i) =>
      var r := store[i];
      if r.status == Completed || r.status == Cancelled then Refuse(store, 400, "Ride cannot be cancelled")
      else
        var byRider := r.riderId == userId;
        var r' := r.(status := Cancelled,
                     cancellation := Cancellation(Some(if byRider then "rider" else "driver"),
                                                  Some(if reason.Some? && reason.value != "" then reason.value else "No reason provided")),
                     timeline := r.timeline.(cancelledAt := Some(now)));
        var others :=
          if byRider && r.driverId.Some? then
            ([Emit("driver-" + r.driverId.value, "ride-cancelled")], [Notice("ride_cancelled", r.driverId.value)])
          else if !byRider then
            ([Emit("rider-" + r.riderId, "ride-cancelled")], [Notice("ride_cancelled", r.riderId)])
          else ([], []);
        Outcome(store[i := r'], Done(200, "Ride cancelled successfully", r'),
                [Emit("ride-" + rideId, "ride-cancelled")] + others.0, others.1)
  }

  /** The other party hears of a cancellation: the driver when the rider cancels an accepted
      ride, the rider when anyone else cancels; a rider cancelling an unassigned ride tells
      nobody else. */
  lemma CancelNotifiesOtherParty(store: Store, rideId: string, userId: string, reason: Option<string>, now: int)
    requires CancelRide(store, rideId, userId, reason, now).reply.Done?
    ensures
      var r := store[Find(store, rideId).value];
      var o := CancelRide(store, rideId, userId, reason, now);
      && (r.riderId == userId && r.driverId.Some? ==> o.notices == [Notice("ride_cancelled", r.driverId.value)])
      && (r.riderId == userId && r.driverId.None? ==> o.notices == [] && |o.emits| == 1)
      && (r.riderId != userId ==> o.notices == [Notice("ride_cancelled", r.riderId)])
  {
  }

  /** A cancelled ride cannot be cancelled again. */
  lemma CancelIsFinal(store: Store, rideId: string, u1: string, u2: string, r1: Option<string>, r2: Option<string>, t1: int, t2: int)
    requires UniqueIds(store)
    requires CancelRide(store, rideId, u1, r1, t1).reply.Done?
    ensures
      var s1 := CancelRide(store, rideId, u1, r1, t1).store;
      CancelRide(s1, rideId, u2, r2, t2) == Refuse(s1, 400, "Ride cannot be cancelled")
  {
    var i := Find(store, rideId).value;
    FindAfterReplace(store, CancelRide(store, rideId, u1, r1, t1).store, i, rideId);
  }

  /** A status update to `cancelled` without a reason keeps the reason already stored: after
      a cancel without a reason, "No reason provided" survives a second cancellation by
      status. */
  lemma StatusCancelKeepsStoredReason(store: Store, rideId: string, userId: string, cancelledBy: Option<string>, t1: int, t2: int)
    requires UniqueIds(store)
    requires CancelRide(store, rideId, userId, None, t1).reply.Done?
    ensures
      var s1 := CancelRide(store, rideId, userId, None, t1).store;
      var o := UpdateRideStatus(s1, rideId, Cancelled, cancelledBy, None, t2);
      o.reply.Done? && o.reply.ride.cancellation.reason == Some("No reason provided")
  {
    var i := Find(store, rideId).value;
    var s1 := CancelRide(store, rideId, userId, None, t1).store;
    FindAfterReplace(store, s1, i, rideId);
    assert s1[i].cancellation.reason == Some("No reason provided");
  }

  // ---------------------------------------------------------------- rate

  /** `role || 'rider'` compared with `'rider'`: an absent or falsy role rates the driver. */
  predicate RatesDriver(role: Option<Json>)
  {
    !Truthy(role) || role == Some(JStr("rider"))
  }

  /** `rateRide`: a rider's rating goes to `driverRating` with `riderFeedback`, anyone else's to
      `riderRating` with `driverFeedback`; the other pair is untouched. */
  function RateRide(store: Store, rideId: string, rating: int, feedback: Option<string>, role: Option<Json>): (o: Outcome)
    ensures !ObjectId.IsObjectId(rideId) ==> o == Refuse(store, 500, "Failed to rate ride")
    ensures o.reply.Done? <==> ObjectId.IsObjectId(rideId) && Find(store, rideId).Some?
    ensures ObjectId.IsObjectId(rideId) && o.reply.Fail? ==> o == Refuse(store, 404, "Ride not found")
    ensures o.reply.Done? ==>
      var i := Find(store, rideId).value;
      var old_ := store[i].rating;
      var text := if feedback.Some? then feedback.value else "";
      && ReplacesAt(store, o.store, i, o.reply.ride)
      && o.reply.ride == store[i].(rating := o.reply.ride.rating)
      && (RatesDriver(role) ==> o.reply.ride.rating == old_.(driverRating := Some(rating), riderFeedback := Some(text)))
      && (!RatesDriver(role) ==> o.reply.ride.rating == old_.(riderRating := Some(rating), driverFeedback := Some(text)))
      && o.emits == [] && o.notices == []
  {
    if !ObjectId.IsObjectId(rideId) then Refuse(store, 500, "Failed to rate ride")
    else match Find(store, rideId)
    case None => Refuse(store, 404, "Ride not found")
    case Some(i) =>
      var r := store[i];
      var text := if feedback.Some? then feedback.value else "";
      var rating' := if RatesDriver(role) then r.rating.(driverRating := Some(rating), riderFeedback := Some(text))
                     else r.rating.(riderRating := Some(rating), driverFeedback := Some(text));
      var r' := r.(rating := rating');
      Outcome(store[i := r'], Done(200, "Rating submitted", r'), [], [])
  }

  /** A role that is anything but the string `rider` (an array such as `["rider"]` passes the
      element-wise validator) rates the rider. */
  lemma ArrayRoleRatesRider()
    ensures !RatesDriver(Some(JArr([JStr("rider")])))
    ensures RatesDriver(None) && RatesDriver(Some(JStr("")))
  {
  }

  // ---------------------------------------------------------------- read one

  function GetRideById(store: Store, rideId: string): (o: Outcome)
    ensures o.store == store
    ensures !ObjectId.IsObjectId(rideId) ==> o.reply == Fail(500, "Failed to get ride")
    ensures o.reply.Done? <==> ObjectId.IsObjectId(rideId) && Find(store, rideId).Some?
    ensures o.reply.Done? ==> o.reply.ride.id == rideId && o.reply.ride in store
    ensures ObjectId.IsObjectId(rideId) && o.reply.Fail? ==> o.reply == Fail(404, "Ride not found")
  {
    if !ObjectId.IsObjectId(rideId) then Refuse(store, 500, "Failed to get ride")
    else match Find(store, rideId)
    case None => Refuse(store, 404, "Ride not found")
    case Some(i) => Outcome(store, Done(200, "", store[i]), [], [])
  }

  // ---------------------------------------------------------------- identity invariant

  /** Every write keeps document ids unique; a request keeps them unique when its new id is
      fresh. */
  lemma WritesKeepIdsUnique(
    store: Store, rideId: string, who: string, driver: Option<string>, status: Status, cancelledBy: Option<string>,
    reason: Option<string>, rating: int, role: Option<Json>, now: int)
    requires UniqueIds(store)
    ensures UniqueIds(AcceptRide(store, rideId, driver, now).store)
    ensures UniqueIds(UpdateRideStatus(store, rideId, status, cancelledBy, reason, now).store)
    ensures UniqueIds(CancelRide(store, rideId, who, reason, now).store)
    ensures UniqueIds(RateRide(store, rideId, rating, reason, role).store)
  {
    AcceptKeepsIdsUnique(store, rideId, driver, now);
    StatusKeepsIdsUnique(store, rideId, status, cancelledBy, reason, now);
    CancelKeepsIdsUnique(store, rideId, who, reason, now);
    RateKeepsIdsUnique(store, rideId, rating, reason, role);
  }

  lemma AcceptKeepsIdsUnique(store: Store, rideId: string, driver: Option<string>, now: int)
    requires UniqueIds(store)
    ensures UniqueIds(AcceptRide(store, rideId, driver, now).store)
  {
    var a := AcceptRide(store, rideId, driver, now);
    if a.reply.Done? {
      ReplaceKeepsUnique(store, a.store, Find(store, rideId).value, a.reply.ride);
    }
  }

  lemma StatusKeepsIdsUnique(store: Store, rideId: string, status: Status, cancelledBy: Option<string>,
                             reason: Option<string>, now: int)
    requires UniqueIds(store)
    ensures UniqueIds(UpdateRideStatus(store, rideId, status, cancelledBy, reason, now).store)
  {
    var u := UpdateRideStatus(store, rideId, status, cancelledBy, reason, now);
    if u.reply.Done? {
      ReplaceKeepsUnique(store, u.store, Find(store, rideId).value, u.reply.ride);
    }
  }

  lemma CancelKeepsIdsUnique(store: Store, rideId: string, who: string, reason: Option<string>, now: int)
    requires UniqueIds(store)
    ensures UniqueIds(CancelRide(store, rideId, who, reason, now).store)
  {
    var c := CancelRide(store, rideId, who, reason, now);
    if c.reply.Done? {
      ReplaceKeepsUnique(store, c.store, Find(store, rideId).value, c.reply.ride);
    }
  }

  lemma RateKeepsIdsUnique(store: Store, rideId: string, rating: int, reason: Option<string>, role: Option<Json>)
    requires UniqueIds(store)
    ensures UniqueIds(RateRide(store, rideId, rating, reason, role).store)
  {
    var r := RateRide(store, rideId, rating, reason, role);
    if r.reply.Done? {
      ReplaceKeepsUnique(store, r.store, Find(store, rideId).value, r.reply.ride);
    }
  }

  /** Replacing a ride by one with the same id keeps ids unique. */
  lemma ReplaceKeepsUnique(store: Store, store': Store, i: nat, r: Ride)
    requires UniqueIds(store) && ReplacesAt(store, store', i, r) && r.id == store[i].id
    ensures UniqueIds(store')
  {
  }

  lemma RequestKeepsIdsUnique(
    store: Store, pricing: Pricing.PricingState, newId: string, riderId: Option<string>,
    vehicleType: Vehicles.VehicleType, pickup: Place, dropoff: Place,
    paymentMethod: Option<string>, route: RouteInfo, now: int)
    requires UniqueIds(store)
    requires forall j :: 0 <= j < |store| ==> store[j].id != newId
    ensures UniqueIds(RequestRide(store, pricing, newId, riderId, vehicleType, pickup, dropoff, paymentMethod, route, now).store)
  {
  }

  // ---------------------------------------------------------------- estimate

  /** The four quotes of a fare estimate, the one matching the requested class, and the
      distance as reported. */
  datatype Estimate = Estimate(distance: real, duration: int, economy: Pricing.FareQuote, standard: Pricing.FareQuote,
                               premium: Pricing.FareQuote, xl: Pricing.FareQuote, selected: Option<Pricing.FareQuote>)

  datatype Result = Estimated(estimate: Estimate) | Refused(status: int, error: string)

  /** `body.side?.field || req.query[name]`: the coordinate is given when the body's value is
      truthy or, failing that, the query string carries a non-empty value. */
  predicate CoordinateGiven(body: Object, side: string, field: string, query: map<string, string>, name: string)
  {
    Truthy(Member(Get(body, side), field)) || (name in query && query[name] != "")
  }

  predicate CoordinatesGiven(body: Object, query: map<string, string>)
  {
    && CoordinateGiven(body, "pickup", "lat", query, "pickupLat")
    && CoordinateGiven(body, "pickup", "lng", query, "pickupLng")
    && CoordinateGiven(body, "dropoff", "lat", query, "dropoffLat")
    && CoordinateGiven(body, "dropoff", "lng", query, "dropoffLng")
  }

  /** `parseFloat(x.toFixed(2))`: the nearest hundredth, halves up. */
  function Hundredths(x: real): (y: real)
    ensures (y * 100.0).Floor as real == y * 100.0
    ensures y - 1.0 / 200.0 <= x < y + 1.0 / 200.0
  {
    var n := Pricing.Round(x * 100.0);
    assert (n as real / 100.0) * 100.0 == n as real;
    n as real / 100.0
  }

  /** `getFareEstimate`: 400 when any coordinate is missing from both the body and the query,
      otherwise one quote per class at the billed distance, with the requested class selected
      when it is one of them, and the billed distance reported to the hundredth. */
  function FareEstimate(
    pricing: Pricing.PricingState, body: Object, query: map<string, string>,
    vehicleType: Option<string>, route: RouteInfo): (r: Result)
    ensures r.Estimated? <==> CoordinatesGiven(body, query)
    ensures r.Refused? ==> r.status == 400 && r.error == "Invalid coordinates"
    ensures r.Estimated? ==>
      var d := BilledDistance(route.distance);
      && r.estimate.distance - 1.0 / 200.0 <= d < r.estimate.distance + 1.0 / 200.0
      && (r.estimate.distance * 100.0).Floor as real == r.estimate.distance * 100.0
      && r.estimate.duration == route.duration
      && r.estimate.economy == Pricing.CalculateFare(pricing, "economy", d)
      && r.estimate.standard == Pricing.CalculateFare(pricing, "standard", d)
      && r.estimate.premium == Pricing.CalculateFare(pricing, "premium", d)
      && r.estimate.xl == Pricing.CalculateFare(pricing, "xl", d)
      && (r.estimate.selected.Some? <==> vehicleType.Some? && vehicleType.value in Vehicles.Names)
      && (r.estimate.selected.Some? ==> r.estimate.selected.value == Pricing.CalculateFare(pricing, vehicleType.value, d))
  {
    if !CoordinatesGiven(body, query) then Refused(400, "Invalid coordinates")
    else
      var d := BilledDistance(route.distance);
      var sel := if vehicleType.Some? then Vehicles.Parse(vehicleType.value) else None;
      Estimated(Estimate(Hundredths(d), route.duration,
        Pricing.CalculateFare(pricing, "economy", d), Pricing.CalculateFare(pricing, "standard", d),
        Pricing.CalculateFare(pricing, "premium", d), Pricing.CalculateFare(pricing, "xl", d),
        if sel.Some? then Some(Pricing.CalculateFare(pricing, Vehicles.Name(sel.value), d)) else None))
  }

  /** The estimate for a class quotes exactly the fare a request for that class then stores,
      for the same route and surge. */
  lemma EstimateMatchesRequest(
    store: Store, pricing: Pricing.PricingState, body: Object, query: map<string, string>,
    newId: string, riderId: Option<string>, vehicleType: Vehicles.VehicleType, pickup: Place, dropoff: Place,
    paymentMethod: Option<string>, route: RouteInfo, now: int)
    requires CoordinatesGiven(body, query)
    requires RequestRide(store, pricing, newId, riderId, vehicleType, pickup, dropoff, paymentMethod, route, now).reply.Done?
    ensures
      var e := FareEstimate(pricing, body, query, Some(Vehicles.Name(vehicleType)), route);
      var ride := RequestRide(store, pricing, newId, riderId, vehicleType, pickup, dropoff, paymentMethod, route, now).reply.ride;
      && e.Estimated? && e.estimate.selected.Some?
      && e.estimate.selected.value.totalFare == ride.fare.totalFare
      && e.estimate.selected.value.distanceFare == ride.fare.distanceFare
      && e.estimate.selected.value.baseFare == ride.fare.baseFare
      && e.estimate.distance - 1.0 / 200.0 <= ride.distance < e.estimate.distance + 1.0 / 200.0
  {
    Vehicles.ParseName(vehicleType);
  }
}
