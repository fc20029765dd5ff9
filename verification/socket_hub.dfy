/** The realtime room registry of the ride service: two insertion-ordered id-to-socket maps
    (riders and drivers) and the rooms each socket has joined.  Every socket event handler is a
    pure step on the registry; the notify helpers only choose a room. */
module SocketHub {
  import opened Wrappers
  import opened Json

  type SocketId = string

  /** One entry of a JavaScript `Map`, which iterates in insertion order. */
  datatype Entry = Entry(key: string, socket: SocketId)

  type Assoc = seq<Entry>

  /** Each key occurs once: no key reappears later in the map. */
  predicate KeysUnique(m: Assoc)
  {
    |m| == 0 || (Lookup(m[1..], m[0].key).None? && KeysUnique(m[1..]))
  }

  /** `map.get(key)`. */
  function Lookup(m: Assoc, key: string): (r: Option<SocketId>)
    ensures r.None? <==> forall i :: 0 <= i < |m| ==> m[i].key != key
    ensures r.Some? ==> exists i :: 0 <= i < |m| && m[i] == Entry(key, r.value)
  {
    if |m| == 0 then None
    else if m[0].key == key then Some(m[0].socket)
    else
      var r := Lookup(m[1..], key);
      assert forall i :: 1 <= i < |m| ==> m[i] == m[1..][i - 1];
      r
  }

  lemma LookupCons(e: Entry, m: Assoc)
    ensures Lookup([e] + m, e.key) == Some(e.socket)
    ensures forall k :: k != e.key ==> Lookup([e] + m, k) == Lookup(m, k)
    ensures KeysUnique([e] + m) <==> Lookup(m, e.key).None? && KeysUnique(m)
  {
    assert ([e] + m)[1..] == m;
  }

  /** `map.set(key, socket)`: an existing key keeps its place and takes the new socket, a new
      key goes to the end. */
  function Put(m: Assoc, key: string, socket: SocketId): (r: Assoc)
    ensures Lookup(r, key) == Some(socket)
    ensures forall k :: k != key ==> Lookup(r, k) == Lookup(m, k)
  {
    if |m| == 0 then
      LookupCons(Entry(key, socket), []);
      [Entry(key, socket)]
    else if m[0].key == key then
      LookupCons(Entry(key, socket), m[1..]);
      LookupCons(m[0], m[1..]);
      assert m == [m[0]] + m[1..];
      [Entry(key, socket)] + m[1..]
    else
      var rest := Put(m[1..], key, socket);
      LookupCons(m[0], rest);
      LookupCons(m[0], m[1..]);
      assert m == [m[0]] + m[1..];
      [m[0]] + rest
  }

  /** A new key is appended after every existing entry; an existing key keeps its place. */
  lemma {:induction false} PutPlacement(m: Assoc, key: string, socket: SocketId)
    ensures Lookup(m, key).None? ==> Put(m, key, socket) == m + [Entry(key, socket)]
    ensures Lookup(m, key).Some? ==> |Put(m, key, socket)| == |m|
  {
    if |m| > 0 && m[0].key != key {
      PutPlacement(m[1..], key, socket);
      assert m == [m[0]] + m[1..];
      assert Lookup(m, key) == Lookup(m[1..], key);
    }
  }

  /** Setting a key never makes a key occur twice. */
  lemma {:induction false} PutKeepsKeysUnique(m: Assoc, key: string, socket: SocketId)
    requires KeysUnique(m)
    ensures KeysUnique(Put(m, key, socket))
  {
    if |m| > 0 {
      LookupCons(m[0], m[1..]);
      assert m == [m[0]] + m[1..];
      if m[0].key == key {
        LookupCons(Entry(key, socket), m[1..]);
      } else {
        PutKeepsKeysUnique(m[1..], key, socket);
        LookupCons(m[0], Put(m[1..], key, socket));
      }
    }
  }

  /** `map.delete(key)`: the key is gone, every other binding and the order of the rest stay. */
  function Remove(m: Assoc, key: string): (r: Assoc)
    ensures Lookup(r, key).None?
    ensures forall k :: k != key ==> Lookup(r, k) == Lookup(m, k)
    ensures |r| <= |m|
    ensures KeysUnique(m) ==> KeysUnique(r)
  {
    if |m| == 0 then []
    else if m[0].key == key then
      LookupCons(m[0], m[1..]);
      assert m == [m[0]] + m[1..];
      Remove(m[1..], key)
    else
      var rest := Remove(m[1..], key);
      LookupCons(m[0], rest);
      LookupCons(m[0], m[1..]);
      assert m == [m[0]] + m[1..];
      [m[0]] + rest
  }

  /** The disconnect loop: delete the first entry whose socket is this one, and stop. */
  function RemoveFirstSocket(m: Assoc, socket: SocketId): (r: Assoc)
    ensures (forall i :: 0 <= i < |m| ==> m[i].socket != socket) ==> r == m
    ensures |m| - 1 <= |r| <= |m|
    ensures forall k :: Lookup(m, k).None? ==> Lookup(r, k).None?
    ensures KeysUnique(m) ==> KeysUnique(r)
  {
    if |m| == 0 then m
    else if m[0].socket == socket then
      LookupCons(m[0], m[1..]);
      assert m == [m[0]] + m[1..];
      m[1..]
    else
      var rest := RemoveFirstSocket(m[1..], socket);
      assert forall i :: 1 <= i < |m| ==> m[i] == m[1..][i - 1];
      LookupCons(m[0], rest);
      LookupCons(m[0], m[1..]);
      assert m == [m[0]] + m[1..];
      [m[0]] + rest
  }

  /** The exact entry the disconnect removes: the first one bound to the socket, and no other. */
  lemma {:induction false} RemoveFirstSocketPicksFirst(m: Assoc, socket: SocketId, i: nat)
    requires i < |m| && m[i].socket == socket
    requires forall j :: 0 <= j < i ==> m[j].socket != socket
    ensures RemoveFirstSocket(m, socket) == m[..i] + m[i + 1..]
    decreases i
  {
    if i > 0 {
      var tail := m[1..];
      RemoveFirstSocketPicksFirst(tail, socket, i - 1);
      RemoveSkipsHead(m, socket);
      SpliceCons(m, i);
    }
  }

  /** An entry bound to another socket stays in front. */
  lemma RemoveSkipsHead(m: Assoc, socket: SocketId)
    requires |m| > 0 && m[0].socket != socket
    ensures RemoveFirstSocket(m, socket) == [m[0]] + RemoveFirstSocket(m[1..], socket)
  {
  }

  /** Cutting entry `i` out of a list is keeping its head and cutting entry `i - 1` out of the
      tail. */
  lemma SpliceCons(m: Assoc, i: nat)
    requires 0 < i < |m|
    ensures [m[0]] + (m[1..][..i - 1] + m[1..][i..]) == m[..i] + m[i + 1..]
  {
    assert m[1..][..i - 1] == m[1..i];
    assert m[1..][i..] == m[i + 1..];
    assert [m[0]] + m[1..i] == m[..i];
  }

  // ---------------------------------------------------------------- registry

  datatype Hub = Hub(riders: Assoc, drivers: Assoc, rooms: map<string, set<SocketId>>)

  const Empty: Hub := Hub([], [], map[])

  /** Rooms exist only while they have a member, and each map holds a key once. */
  predicate Valid(h: Hub)
  {
    && KeysUnique(h.riders) && KeysUnique(h.drivers)
    && forall r :: r in h.rooms ==> h.rooms[r] != {}
  }

  function Members(h: Hub, room: string): set<SocketId>
  {
    if room in h.rooms then h.rooms[room] else {}
  }

  function JoinRoom(rooms: map<string, set<SocketId>>, room: string, s: SocketId): (r: map<string, set<SocketId>>)
    ensures room in r && s in r[room]
    ensures forall x :: x in r <==> x in rooms || x == room
    ensures forall x :: x in r ==> r[x] == (if x == room then (if room in rooms then rooms[room] else {}) + {s} else rooms[x])
  {
    rooms[room := (if room in rooms then rooms[room] else {}) + {s}]
  }

  function LeaveRoom(rooms: map<string, set<SocketId>>, room: string, s: SocketId): (r: map<string, set<SocketId>>)
    ensures room in r ==> room in rooms && s !in r[room] && r[room] == rooms[room] - {s} && r[room] != {}
    ensures forall x :: x != room ==> (x in r <==> x in rooms)
    ensures forall x :: x in r && x != room ==> r[x] == rooms[x]
  {
    if room !in rooms then rooms
    else if rooms[room] - {s} == {} then rooms - {room}
    else rooms[room := rooms[room] - {s}]
  }

  function RiderRoom(id: string): string { "rider-" + id }
  function DriverRoom(id: string): string { "driver-" + id }
  function RideRoom(id: string): string { "ride-" + id }
  const AvailableDrivers: string := "available-drivers"

  /** `join-rider`: the socket enters `rider-<id>` and becomes the rider's socket. */
  function JoinRider(h: Hub, s: SocketId, userId: string): (h': Hub)
    requires Valid(h)
    ensures Valid(h')
    ensures Lookup(h'.riders, userId) == Some(s)
    ensures forall k :: k != userId ==> Lookup(h'.riders, k) == Lookup(h.riders, k)
    ensures h'.drivers == h.drivers
    ensures forall r :: Members(h', r) == (if r == RiderRoom(userId) then Members(h, r) + {s} else Members(h, r))
  {
    PutKeepsKeysUnique(h.riders, userId, s);
    Hub(Put(h.riders, userId, s), h.drivers, JoinRoom(h.rooms, RiderRoom(userId), s))
  }

  /** `join-driver`: the socket enters `available-drivers` and `driver-<id>` and replaces any
      earlier socket of that driver. */
  function JoinDriver(h: Hub, s: SocketId, driverId: string): (h': Hub)
    requires Valid(h)
    ensures Valid(h')
    ensures Lookup(h'.drivers, driverId) == Some(s)
    ensures forall k :: k != driverId ==> Lookup(h'.drivers, k) == Lookup(h.drivers, k)
    ensures h'.riders == h.riders
    ensures forall r :: (Members(h', r) ==
      if r == AvailableDrivers || r == DriverRoom(driverId) then Members(h, r) + {s} else Members(h, r))
  {
    PutKeepsKeysUnique(h.drivers, driverId, s);
    var rooms := JoinRoom(JoinRoom(h.rooms, AvailableDrivers, s), DriverRoom(driverId), s);
    Hub(h.riders, Put(h.drivers, driverId, s), rooms)
  }

  /** `driver-offline`: the socket leaves `available-drivers` and the driver's entry goes; the
      socket stays in `driver-<id>`. */
  function DriverOffline(h: Hub, s: SocketId, driverId: string): (h': Hub)
    requires Valid(h)
    ensures Valid(h')
    ensures Lookup(h'.drivers, driverId).None?
    ensures forall k :: k != driverId ==> Lookup(h'.drivers, k) == Lookup(h.drivers, k)
    ensures h'.riders == h.riders
    ensures forall r :: Members(h', r) == (if r == AvailableDrivers then Members(h, r) - {s} else Members(h, r))
  {
    Hub(h.riders, Remove(h.drivers, driverId), LeaveRoom(h.rooms, AvailableDrivers, s))
  }

  /** `join-ride`: only `ride-<id>` changes. */
  function JoinRide(h: Hub, s: SocketId, rideId: string): (h': Hub)
    requires Valid(h)
    ensures Valid(h')
    ensures h'.riders == h.riders && h'.drivers == h.drivers
    ensures forall r :: Members(h', r) == (if r == RideRoom(rideId) then Members(h, r) + {s} else Members(h, r))
  {
    h.(rooms := JoinRoom(h.rooms, RideRoom(rideId), s))
  }

  /** `leave-ride`: only `ride-<id>` changes. */
  function LeaveRide(h: Hub, s: SocketId, rideId: string): (h': Hub)
    requires Valid(h)
    ensures Valid(h')
    ensures h'.riders == h.riders && h'.drivers == h.drivers
    ensures forall r :: Members(h', r) == (if r == RideRoom(rideId) then Members(h, r) - {s} else Members(h, r))
  {
    h.(rooms := LeaveRoom(h.rooms, RideRoom(rideId), s))
  }

  /** Joining a ride room and leaving it again restores the registry when the socket was not
      in that room before. */
  lemma JoinThenLeaveRide(h: Hub, s: SocketId, rideId: string)
    requires Valid(h) && s !in Members(h, RideRoom(rideId))
    ensures forall r :: Members(LeaveRide(JoinRide(h, s, rideId), s, rideId), r) == Members(h, r)
  {
  }

  /** An emit: the target room, the event, and the payload fields. */
  datatype Broadcast = Broadcast(room: string, event: string, driverId: Option<Json>, location: Option<Json>, timestamp: int)

  /** `driver-location-update`: relayed to `ride-<rideId>` only when the ride id is truthy; the
      registry is not touched. */
  function LocationUpdate(data: Object, now: int): (out: seq<Broadcast>)
    ensures |out| <= 1
    ensures |out| == 1 <==> Truthy(Get(data, "rideId"))
    ensures |out| == 1 ==> out[0] == Broadcast(RideRoom(Stringify(data["rideId"])), "driver-location", Get(data, "driverId"), Get(data, "location"), now)
  {
    var rideId := Get(data, "rideId");
    if Truthy(rideId) then
      [Broadcast(RideRoom(Stringify(rideId.value)), "driver-location", Get(data, "driverId"), Get(data, "location"), now)]
    else []
  }

  function RemoveEverywhere(rooms: map<string, set<SocketId>>, s: SocketId): (r: map<string, set<SocketId>>)
    ensures forall x :: x in r ==> x in rooms && r[x] == rooms[x] - {s} && r[x] != {}
    ensures forall x :: x in rooms && rooms[x] - {s} != {} ==> x in r
  {
    map x | x in rooms && rooms[x] - {s} != {} :: rooms[x] - {s}
  }

  /** `disconnect`: the first rider entry and the first driver entry bound to this socket are
      deleted (at most one each), and the transport takes the socket out of every room. */
  function Disconnect(h: Hub, s: SocketId): (h': Hub)
    requires Valid(h)
    ensures Valid(h')
    ensures h'.riders == RemoveFirstSocket(h.riders, s) && h'.drivers == RemoveFirstSocket(h.drivers, s)
    ensures |h.riders| - 1 <= |h'.riders| <= |h.riders| && |h.drivers| - 1 <= |h'.drivers| <= |h.drivers|
    ensures forall r :: Members(h', r) == Members(h, r) - {s}
  {
    var riders := RemoveFirstSocket(h.riders, s);
    var drivers := RemoveFirstSocket(h.drivers, s);
    Hub(riders, drivers, RemoveEverywhere(h.rooms, s))
  }

  /** The target room of each notify helper. */
  function NotifyRider(riderId: string): string { RiderRoom(riderId) }
  function NotifyDriver(driverId: string): string { DriverRoom(driverId) }
  function NotifyRide(rideId: string): string { RideRoom(rideId) }
  function BroadcastToDrivers(): string { AvailableDrivers }

  /** The four room families never collide, and each names its id unambiguously, so a notify
      helper reaches exactly the sockets that joined for that id. */
  lemma RoomFamiliesDisjoint(a: string, b: string)
    ensures NotifyRider(a) != NotifyDriver(b) && NotifyRider(a) != NotifyRide(b) && NotifyDriver(a) != NotifyRide(b)
    ensures NotifyRider(a) != BroadcastToDrivers() && NotifyDriver(a) != BroadcastToDrivers() && NotifyRide(a) != BroadcastToDrivers()
    ensures NotifyRider(a) == NotifyRider(b) ==> a == b
    ensures NotifyDriver(a) == NotifyDriver(b) ==> a == b
    ensures NotifyRide(a) == NotifyRide(b) ==> a == b
  {
    assert NotifyRider(a)[0] == 'r' && NotifyDriver(b)[0] == 'd' && BroadcastToDrivers()[0] == 'a';
    assert NotifyRider(a)[4] == 'r' && NotifyRide(b)[4] == '-';
    assert NotifyRide(a)[4] == '-' && NotifyRider(b)[4] == 'r';
    assert NotifyDriver(a)[0] == 'd' && NotifyRide(b)[0] == 'r';
    if NotifyRider(a) == NotifyRider(b) {
      assert a == NotifyRider(a)[6..];
    }
    if NotifyDriver(a) == NotifyDriver(b) {
      assert a == NotifyDriver(a)[7..];
    }
    if NotifyRide(a) == NotifyRide(b) {
      assert a == NotifyRide(a)[5..];
    }
  }

  /** A driver who goes offline keeps receiving their personal events but no longer the
      broadcast of new requests. */
  lemma OfflineDriverKeepsPersonalRoom(h: Hub, s: SocketId, driverId: string)
    requires Valid(h)
    ensures
      var h' := DriverOffline(JoinDriver(h, s, driverId), s, driverId);
      s in Members(h', NotifyDriver(driverId)) && s !in Members(h', BroadcastToDrivers())
  {
    RoomFamiliesDisjoint(driverId, driverId);
  }
}
