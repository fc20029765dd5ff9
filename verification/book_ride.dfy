/** The booking page's location logic: map clicks, typed addresses, the search guard, picking a
    search result, clearing an endpoint and the guard in front of the fare estimate.  Reverse
    geocoding and the place search are parameters. */
module BookRide {
  import opened Wrappers
  import Forms

  datatype LatLng = LatLng(lat: real, lng: real)

  /** One end of the trip.  Coordinates are an object or null, so "set" is `Some`. */
  datatype Endpoint = Endpoint(address: string, coordinates: Option<LatLng>)

  const Blank := Endpoint("", None)

  datatype Side = Pickup | Dropoff

  datatype Booking = Booking(pickup: Endpoint, dropoff: Endpoint, results: seq<Endpoint>, active: Option<Side>)

  function Initial(): (b: Booking)
    ensures b.pickup == Blank && b.dropoff == Blank && b.results == [] && b.active.None?
  {
    Booking(Blank, Blank, [], None)
  }

  function EndpointAt(b: Booking, side: Side): Endpoint
  {
    match side
    case Pickup => b.pickup
    case Dropoff => b.dropoff
  }

  function SetEndpoint(b: Booking, side: Side, e: Endpoint): (b': Booking)
    ensures EndpointAt(b', side) == e
    ensures side == Pickup ==> b'.dropoff == b.dropoff
    ensures side == Dropoff ==> b'.pickup == b.pickup
    ensures b'.results == b.results && b'.active == b.active
  {
    match side
    case Pickup => b.(pickup := e)
    case Dropoff => b.(dropoff := e)
  }

  /** The side the map hint says a tap will set. */
  function HintSide(b: Booking): (side: Side)
    ensures side == Pickup <==> b.pickup.coordinates.None?
  {
    if b.pickup.coordinates.None? then Pickup else Dropoff
  }

  /** `handleMapClick`: `address` is what reverse geocoding returned for the point.  The pickup
      is set first, then the drop-off, and after that every tap moves the drop-off. */
  function MapClick(b: Booking, at: LatLng, address: string): (b': Booking)
    ensures b'.results == b.results && b'.active == b.active
    ensures b.pickup.coordinates.None? ==> b' == b.(pickup := Endpoint(address, Some(at)))
    ensures b.pickup.coordinates.Some? ==> b' == b.(dropoff := Endpoint(address, Some(at)))
  {
    if b.pickup.coordinates.None? then b.(pickup := Endpoint(address, Some(at)))
    else b.(dropoff := Endpoint(address, Some(at)))
  }

  /** A tap sets exactly the endpoint the hint named before it. */
  lemma ClickSetsHintedSide(b: Booking, at: LatLng, address: string)
    ensures var side := HintSide(b);
      && EndpointAt(MapClick(b, at, address), side) == Endpoint(address, Some(at))
      && MapClick(b, at, address) == SetEndpoint(b, side, Endpoint(address, Some(at)))
  {
  }

  datatype Tap = Tap(at: LatLng, address: string)

  function MapClicks(b: Booking, taps: seq<Tap>): Booking
    decreases |taps|
  {
    if taps == [] then b else MapClicks(MapClick(b, taps[0].at, taps[0].address), taps[1..])
  }

  /** Once the pickup has coordinates no number of taps changes it, and the last tap decides
      the drop-off. */
  lemma {:induction false} TapsNeverMovePickup(b: Booking, taps: seq<Tap>)
    requires b.pickup.coordinates.Some?
    ensures MapClicks(b, taps).pickup == b.pickup
    ensures taps != [] ==> MapClicks(b, taps).dropoff == Endpoint(taps[|taps| - 1].address, Some(taps[|taps| - 1].at))
    ensures taps == [] ==> MapClicks(b, taps) == b
    decreases |taps|
  {
    if taps != [] {
      var b1 := MapClick(b, taps[0].at, taps[0].address);
      TapsNeverMovePickup(b1, taps[1..]);
      if |taps| > 1 {
        assert taps[1..][|taps[1..]| - 1] == taps[|taps| - 1];
      }
    }
  }

  /** On a fresh page the first tap is the pickup and the second the drop-off. */
  lemma FirstTwoTaps(p: Tap, d: Tap)
    ensures MapClicks(Initial(), [p, d]).pickup == Endpoint(p.address, Some(p.at))
    ensures MapClicks(Initial(), [p, d]).dropoff == Endpoint(d.address, Some(d.at))
  {
    var b1 := MapClick(Initial(), p.at, p.address);
    assert [p, d][1..] == [d];
    assert MapClicks(Initial(), [p, d]) == MapClicks(b1, [d]);
    TapsNeverMovePickup(b1, [d]);
  }

  /** `handleInputChange`: typing changes the address only and activates that input. */
  function Type(b: Booking, side: Side, value: string): (b': Booking)
    ensures EndpointAt(b', side) == EndpointAt(b, side).(address := value)
    ensures EndpointAt(b', side).coordinates == EndpointAt(b, side).coordinates
    ensures side == Pickup ==> b'.dropoff == b.dropoff
    ensures side == Dropoff ==> b'.pickup == b.pickup
    ensures b'.active == Some(side) && b'.results == b.results
  {
    SetEndpoint(b, side, EndpointAt(b, side).(address := value)).(active := Some(side))
  }

  /** The clear button: only the endpoint's own state is set, so the suggestions and the
      active input stay as they were. */
  function Clear(b: Booking, side: Side): (b': Booking)
    ensures EndpointAt(b', side) == Blank
    ensures side == Pickup ==> b'.dropoff == b.dropoff
    ensures side == Dropoff ==> b'.pickup == b.pickup
    ensures b'.results == b.results && b'.active == b.active
  {
    SetEndpoint(b, side, Blank)
  }

  const MinQuery := 3

  /** `searchLocations`: a query under three UTF-16 code units empties the list without a
      request; otherwise `found` is the search's answer, None when it fails, which also
      empties the list.  The second result says whether a request was made. */
  function Search(query: string, found: Option<seq<Endpoint>>): (r: (seq<Endpoint>, bool))
    ensures r.1 <==> Forms.JsLength(query) >= MinQuery
    ensures !r.1 ==> r.0 == []
    ensures r.1 ==> r.0 == (if found.Some? then found.value else [])
  {
    if Forms.JsLength(query) < MinQuery then ([], false)
    else if found.Some? then (found.value, true)
    else ([], true)
  }

  /** `selectLocation`: the result becomes the endpoint, and the list and active input clear. */
  function SelectLocation(b: Booking, result: Endpoint, side: Side): (b': Booking)
    ensures EndpointAt(b', side) == result
    ensures side == Pickup ==> b'.dropoff == b.dropoff
    ensures side == Dropoff ==> b'.pickup == b.pickup
    ensures b'.results == [] && b'.active.None?
  {
    SetEndpoint(b, side, result).(results := [], active := None)
  }

  /** The estimate call, or the toast that refuses it. */
  datatype EstimateCall = Estimate(pickup: LatLng, dropoff: LatLng, vehicleType: string) | Refused(toast: string)

  /** `getFareEstimate`: both endpoints need coordinates. */
  function GetFareEstimate(b: Booking, vehicleType: string): (c: EstimateCall)
    ensures c.Estimate? <==> b.pickup.coordinates.Some? && b.dropoff.coordinates.Some?
    ensures c.Estimate? ==> c == Estimate(b.pickup.coordinates.value, b.dropoff.coordinates.value, vehicleType)
    ensures c.Refused? ==> c.toast == "Please select valid locations"
  {
    if b.pickup.coordinates.None? || b.dropoff.coordinates.None? then Refused("Please select valid locations")
    else Estimate(b.pickup.coordinates.value, b.dropoff.coordinates.value, vehicleType)
  }

  /** Typing an address by hand never makes an estimate possible, and clearing either end
      always refuses it; picking a located result for both ends allows it. */
  lemma EstimateNeedsPickedLocations(b: Booking, side: Side, value: string, vt: string, p: Endpoint, d: Endpoint)
    ensures GetFareEstimate(Type(b, side, value), vt).Estimate? <==> GetFareEstimate(b, vt).Estimate?
    ensures GetFareEstimate(Clear(b, side), vt).Refused?
    ensures p.coordinates.Some? && d.coordinates.Some? ==>
      GetFareEstimate(SelectLocation(SelectLocation(b, p, Pickup), d, Dropoff), vt)
        == Estimate(p.coordinates.value, d.coordinates.value, vt)
  {
  }
}
