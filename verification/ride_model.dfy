/** The ride document: its status and payment enums, nested sub-documents and the
    defaults a freshly created ride receives.  `arrived` is a status the routes accept and
    the driver page sends, but the document schema's enum does not list it; the model keeps
    it as a status and records the gap in `SchemaValid`. */
module RideModel {
  import opened Wrappers
  import Vehicles

  datatype Status = Requested | Accepted | Arriving | Arrived | InProgress | Completed | Cancelled

  function StatusName(s: Status): string
  {
    match s
    case Requested => "requested"
    case Accepted => "accepted"
    case Arriving => "arriving"
    case Arrived => "arrived"
    case InProgress => "in_progress"
    case Completed => "completed"
    case Cancelled => "cancelled"
  }

  /** The status enum of the ride schema; `arrived` is not in it. */
  const SchemaStatuses: seq<string> :=
    ["requested", "accepted", "arriving", "in_progress", "completed", "cancelled"]

  /** Reads a status spelling; anything that is not one of the seven is absent. */
  function ParseStatus(t: string): (r: Option<Status>)
    ensures r.Some? ==> StatusName(r.value) == t
    ensures r.None? ==> forall s: Status :: StatusName(s) != t
  {
    if t == "requested" then Some(Requested)
    else if t == "accepted" then Some(Accepted)
    else if t == "arriving" then Some(Arriving)
    else if t == "arrived" then Some(Arrived)
    else if t == "in_progress" then Some(InProgress)
    else if t == "completed" then Some(Completed)
    else if t == "cancelled" then Some(Cancelled)
    else None
  }

  /** Every status reads back from its own spelling. */
  lemma ParseStatusName(s: Status)
    ensures ParseStatus(StatusName(s)) == Some(s)
  {
  }

  /** The schema enum admits every status except `arrived`. */
  lemma SchemaEnumOmitsArrived(s: Status)
    ensures StatusName(s) in SchemaStatuses <==> s != Arrived
  {
  }

  datatype PaymentMethod = Cash | Card | Wallet

  function PaymentMethodName(p: PaymentMethod): string
  {
    match p
    case Cash => "cash"
    case Card => "card"
    case Wallet => "wallet"
  }

  function ParsePaymentMethod(t: string): (r: Option<PaymentMethod>)
    ensures r.Some? <==> t in ["cash", "card", "wallet"]
    ensures r.Some? ==> PaymentMethodName(r.value) == t
  {
    if t == "cash" then Some(Cash)
    else if t == "card" then Some(Card)
    else if t == "wallet" then Some(Wallet)
    else None
  }

  datatype PaymentStatus = Pending | Paid | PaymentFailed

  function PaymentStatusName(p: PaymentStatus): string
  {
    match p
    case Pending => "pending"
    case Paid => "completed"
    case PaymentFailed => "failed"
  }

  /** An endpoint: its address and GeoJSON `[lng, lat]` coordinates. */
  datatype Place = Place(address: string, coordinates: seq<real>)

  datatype Fare = Fare(baseFare: int, distanceFare: int, totalFare: int, currency: string)

  /** `rating`: the two scores and the two feedback texts; absent fields are None. */
  datatype Rating = Rating(
    riderRating: Option<int>,
    driverRating: Option<int>,
    riderFeedback: Option<string>,
    driverFeedback: Option<string>)

  /** `timeline`: instants in milliseconds since the epoch. */
  datatype Timeline = Timeline(
    requestedAt: int,
    acceptedAt: Option<int>,
    arrivedAt: Option<int>,
    startedAt: Option<int>,
    completedAt: Option<int>,
    cancelledAt: Option<int>)

  datatype Cancellation = Cancellation(cancelledBy: Option<string>, reason: Option<string>)

  datatype Ride = Ride(
    id: string,
    riderId: string,
    driverId: Option<string>,
    status: Status,
    vehicleType: Vehicles.VehicleType,
    pickup: Place,
    dropoff: Place,
    distance: real,
    duration: int,
    fare: Fare,
    paymentMethod: PaymentMethod,
    paymentStatus: PaymentStatus,
    rating: Rating,
    timeline: Timeline,
    cancellation: Cancellation,
    createdAt: int)

  /** A score the schema accepts: unset, or within 1..5. */
  predicate ScoreValid(r: Option<int>)
  {
    r.None? || 1 <= r.value <= 5
  }

  /** What a document save would let through: the status enum (without `arrived`),
      the score ranges and the `cancelledBy` enum. */
  predicate SchemaValid(r: Ride)
  {
    && StatusName(r.status) in SchemaStatuses
    && ScoreValid(r.rating.riderRating)
    && ScoreValid(r.rating.driverRating)
    && (r.cancellation.cancelledBy.None? || r.cancellation.cancelledBy.value in ["rider", "driver", "system"])
  }

  /** A ride as the schema creates it from the fields a request supplies: every other field
      takes its default. */
  function NewRide(
    id: string, riderId: string, vehicleType: Vehicles.VehicleType, pickup: Place, dropoff: Place,
    distance: real, duration: int, fare: Fare, paymentMethod: PaymentMethod, now: int): (r: Ride)
    ensures r.id == id && r.riderId == riderId && r.vehicleType == vehicleType
    ensures r.pickup == pickup && r.dropoff == dropoff
    ensures r.distance == distance && r.duration == duration && r.fare == fare
    ensures r.status == Requested && r.driverId.None?
    ensures r.paymentStatus == Pending && r.paymentMethod == paymentMethod
    ensures r.cancellation == Cancellation(None, None)
    ensures r.rating == Rating(None, None, None, None)
    ensures r.timeline.requestedAt == now && r.createdAt == now
    ensures r.timeline.acceptedAt.None? && r.timeline.arrivedAt.None? && r.timeline.startedAt.None?
    ensures r.timeline.completedAt.None? && r.timeline.cancelledAt.None?
    ensures SchemaValid(r)
  {
    Ride(id, riderId, None, Requested, vehicleType, pickup, dropoff, distance, duration, fare,
         paymentMethod, Pending, Rating(None, None, None, None),
         Timeline(now, None, None, None, None, None), Cancellation(None, None), now)
  }
}
