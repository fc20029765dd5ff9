/** The driver page's decision logic: the status badge, the next-step button, the countdown
    on an incoming request, the accept / reject / status-update transitions of the page state,
    the navigation target and the online toggle.  Server replies are parameters. */
module DriverDashboard {
  import opened Wrappers
  import RideRoutes

  /** The part of a ride the page reads. */
  datatype ClientRide = ClientRide(id: string, status: string)

  datatype Badge = Offline | OnTrip | Busy | Available

  /** `getDriverStatus`. */
  function GetDriverStatus(isOnline: bool, currentRide: Option<ClientRide>): (b: Badge)
    ensures b == Offline <==> !isOnline
    ensures b == OnTrip <==> isOnline && currentRide.Some? && currentRide.value.status == "in_progress"
    ensures b == Busy <==> isOnline && currentRide.Some? && currentRide.value.status != "in_progress"
    ensures b == Available <==> isOnline && currentRide.None?
  {
    if !isOnline then Offline
    else if currentRide.Some? then (if currentRide.value.status == "in_progress" then OnTrip else Busy)
    else Available
  }

  /** The one button the ride card shows for a status, as the status it sends. */
  function NextAction(status: string): (next: Option<string>)
    ensures next.Some? <==> status in {"accepted", "arrived", "in_progress"}
    ensures next.Some? ==> next.value in RideRoutes.WritableStatuses
    ensures next != Some("arriving")
  {
    if status == "accepted" then Some("arrived")
    else if status == "arrived" then Some("in_progress")
    else if status == "in_progress" then Some("completed")
    else None
  }

  /** Following the buttons from `accepted` visits `arrived`, `in_progress` and `completed` in
      that order and then stops. */
  lemma ButtonsWalkTheTrip()
    ensures NextAction("accepted") == Some("arrived")
    ensures NextAction("arrived") == Some("in_progress")
    ensures NextAction("in_progress") == Some("completed")
    ensures NextAction("completed") == None
  {
  }

  // ---------------------------------------------------------------- page state

  /** The page state the handlers below change.  `ticking` is whether the countdown interval
      is running. */
  datatype Page = Page(
    isOnline: bool, currentRide: Option<ClientRide>, incoming: Option<ClientRide>,
    countdown: int, ticking: bool, loading: bool)

  const RequestSeconds := 30

  /** A new request arrives: it replaces any earlier one and the countdown restarts. */
  function OnRideRequest(p: Page, r: ClientRide): (p': Page)
    ensures p'.incoming == Some(r) && p'.countdown == RequestSeconds && p'.ticking
    ensures p'.currentRide == p.currentRide && p'.isOnline == p.isOnline
  {
    p.(incoming := Some(r), countdown := RequestSeconds, ticking := true)
  }

  /** One second of the countdown: at one or below the request is dropped and the count
      reads 0; a stopped interval changes nothing. */
  function Tick(p: Page): (p': Page)
    ensures !p.ticking ==> p' == p
    ensures p.ticking && p.countdown <= 1 ==> p'.incoming.None? && p'.countdown == 0 && !p'.ticking
    ensures p.ticking && p.countdown > 1 ==> p' == p.(countdown := p.countdown - 1)
    ensures p'.currentRide == p.currentRide
  {
    if !p.ticking then p
    else if p.countdown <= 1 then p.(incoming := None, countdown := 0, ticking := false)
    else p.(countdown := p.countdown - 1)
  }

  function Ticks(p: Page, n: nat): Page
    decreases n
  {
    if n == 0 then p else Ticks(Tick(p), n - 1)
  }

  /** A request that nobody answers is shown for 29 ticks, counting down from 30, and is
      gone after the 30th. */
  lemma {:induction false} RequestExpires(p: Page, r: ClientRide, k: nat)
    requires k < RequestSeconds
    ensures Ticks(OnRideRequest(p, r), k) == OnRideRequest(p, r).(countdown := RequestSeconds - k)
    ensures Ticks(OnRideRequest(p, r), RequestSeconds).incoming.None?
  {
    var q := OnRideRequest(p, r);
    CountsDown(q, k);
    CountsDown(q, RequestSeconds - 1);
    TicksLast(q, RequestSeconds - 1);
  }

  /** The last of `n + 1` ticks is applied to the page the first `n` leave. */
  lemma {:induction false} TicksLast(p: Page, n: nat)
    ensures Ticks(p, n + 1) == Tick(Ticks(p, n))
    decreases n
  {
    if n > 0 {
      TicksLast(Tick(p), n - 1);
    }
  }

  lemma {:induction false} CountsDown(p: Page, k: nat)
    requires p.ticking && k < p.countdown
    ensures Ticks(p, k) == p.(countdown := p.countdown - k)
    decreases k
  {
    if k > 0 {
      CountsDown(Tick(p), k - 1);
    }
  }

  /** The server's answer to a call the page makes. */
  datatype Answer = Ok(ride: ClientRide) | Error(message: string)

  /** `acceptRide`: nothing without an incoming request; otherwise the countdown stops and a
      successful reply makes the returned ride current. */
  function AcceptRide(p: Page, answer: Answer): (p': Page)
    ensures p.incoming.None? ==> p' == p
    ensures p.incoming.Some? ==> !p'.ticking && !p'.loading
    ensures p.incoming.Some? && answer.Ok? ==> p'.currentRide == Some(answer.ride) && p'.incoming.None?
    ensures p.incoming.Some? && answer.Error? ==> p' == p.(ticking := false, loading := false)
  {
    if p.incoming.None? then p
    else match answer
      case Ok(ride) => p.(currentRide := Some(ride), incoming := None, ticking := false, loading := false)
      case Error(_) => p.(ticking := false, loading := false)
  }

  /** A refused accept leaves the request on screen with its countdown stopped: no later tick
      removes it. */
  lemma FailedAcceptFreezesCountdown(p: Page, message: string, n: nat)
    requires p.incoming.Some?
    ensures Ticks(AcceptRide(p, Error(message)), n) == AcceptRide(p, Error(message))
    decreases n
  {
    if n > 0 {
      FailedAcceptFreezesCountdown(p, message, n - 1);
    }
  }

  /** `rejectRide`: the request goes, the countdown stops, and no call is made. */
  function RejectRide(p: Page): (p': Page)
    ensures p'.incoming.None? && !p'.ticking
    ensures p'.currentRide == p.currentRide && p'.isOnline == p.isOnline
  {
    p.(incoming := None, ticking := false)
  }

  /** `updateRideStatus`: nothing without a current ride; completing clears the ride, any
      other status takes the server's ride. */
  function UpdateRideStatus(p: Page, status: string, answer: Answer): (p': Page)
    ensures p.currentRide.None? ==> p' == p
    ensures p.currentRide.Some? && answer.Ok? && status == "completed" ==> p'.currentRide.None?
    ensures p.currentRide.Some? && answer.Ok? && status != "completed" ==> p'.currentRide == Some(answer.ride)
    ensures answer.Error? ==> p'.currentRide == p.currentRide
  {
    if p.currentRide.None? then p
    else match answer
      case Ok(ride) => p.(currentRide := if status == "completed" then None else Some(ride), loading := false)
      case Error(_) => p.(loading := false)
  }

  /** The online toggle is disabled while a call is running or a ride exists. */
  function ToggleDisabled(p: Page): (d: bool)
    ensures !d <==> !p.loading && p.currentRide.None?
  {
    p.loading || p.currentRide.Some?
  }

  /** Through the buttons a driver with a ride can never go offline: the toggle stays
      disabled until the ride is completed. */
  lemma NoOfflineMidTrip(p: Page, status: string, answer: Answer)
    requires p.currentRide.Some? && status != "completed"
    ensures ToggleDisabled(UpdateRideStatus(p, status, answer))
  {
  }

  // ---------------------------------------------------------------- navigation, location

  /** What `openNavigation` receives: a GeoJSON point or a plain `{lat, lng}`. */
  datatype Target = GeoPoint(coordinates: seq<real>) | LatLng(lat: real, lng: real)

  /** The destination put into the maps URL; an element a short array lacks is undefined. */
  datatype Destination = Destination(lat: Option<real>, lng: Option<real>)

  function At(c: seq<real>, i: nat): Option<real>
  {
    if i < |c| then Some(c[i]) else None
  }

  /** `openNavigation`: a GeoJSON point is read as `[lng, lat]`. */
  function OpenNavigation(target: Option<Target>): (d: Option<Destination>)
    ensures target.None? <==> d.None?
    ensures target.Some? && target.value.LatLng? ==> d == Some(Destination(Some(target.value.lat), Some(target.value.lng)))
  {
    match target
    case None => None
    case Some(GeoPoint(c)) => Some(Destination(At(c, 1), At(c, 0)))
    case Some(LatLng(lat, lng)) => Some(Destination(Some(lat), Some(lng)))
  }

  /** A point stored in the server's `[lng, lat]` order and the same place given as
      `{lat, lng}` navigate to the same destination. */
  lemma GeoJsonOrderRoundTrip(lat: real, lng: real)
    ensures OpenNavigation(Some(GeoPoint([lng, lat]))) == OpenNavigation(Some(LatLng(lat, lng)))
    ensures OpenNavigation(Some(GeoPoint([lng, lat]))) == Some(Destination(Some(lat), Some(lng)))
  {
  }

  /** The location message a position fix sends. */
  datatype LocationUpdate = LocationUpdate(driverId: string, rideId: Option<string>, lat: real, lng: real)

  function OnPosition(driverId: string, currentRide: Option<ClientRide>, lat: real, lng: real): (u: LocationUpdate)
    ensures u.rideId.Some? <==> currentRide.Some?
    ensures currentRide.Some? ==> u.rideId == Some(currentRide.value.id)
    ensures u.driverId == driverId && u.lat == lat && u.lng == lng
  {
    LocationUpdate(driverId, if currentRide.Some? then Some(currentRide.value.id) else None, lat, lng)
  }
}
