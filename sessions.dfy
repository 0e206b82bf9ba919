/**
 * The process-wide state of server.js and the socket handlers that change it: the room registry
 * `rooms` (server.js:17), the session map `socketRoom` (server.js:18), `findRoom`
 * (server.js:20-28) and the `join_request`, `input` and `disconnect` handlers (server.js:87-119).
 * Ids made from `Date.now()` are parameters.
 */
module Sessions {
  import opened World
  import opened Npcs
  import opened Rooms

  /** `players.filter(p => p.socketId !== sid)` (server.js:115). */
  function Without(ps: seq<Player>, sid: string): (r: seq<Player>)
    decreases |ps|
    ensures |r| <= |ps|
  {
    if ps == [] then []
    else if ps[0].socketId == sid then Without(ps[1..], sid)
    else [ps[0]] + Without(ps[1..], sid)
  }

  /** Every player the filter keeps belongs to another socket and was in the list. */
  lemma {:induction false} WithoutSound(ps: seq<Player>, sid: string)
    decreases |ps|
    ensures forall p :: p in Without(ps, sid) ==> p in ps && p.socketId != sid
  {
    if ps != [] {
      WithoutSound(ps[1..], sid);
      WithoutStep(ps, sid);
      assert forall p :: p in ps[1..] ==> p in ps;
    }
  }

  /** Every player of another socket is kept. */
  lemma {:induction false} WithoutComplete(ps: seq<Player>, sid: string)
    decreases |ps|
    ensures forall p :: p in ps && p.socketId != sid ==> p in Without(ps, sid)
  {
    if ps != [] {
      WithoutComplete(ps[1..], sid);
      WithoutStep(ps, sid);
      assert forall p :: p in ps ==> p == ps[0] || p in ps[1..];
    }
  }

  /** Without a player of that socket, the filter removes nothing. */
  lemma {:induction false} WithoutNoop(ps: seq<Player>, sid: string)
    decreases |ps|
    requires forall p :: p in ps ==> p.socketId != sid
    ensures Without(ps, sid) == ps
  {
    if ps != [] {
      forall p | p in ps[1..] ensures p.socketId != sid {
        assert p in ps;
      }
      WithoutNoop(ps[1..], sid);
      assert ps[0] in ps;
      WithoutStep(ps, sid);
      assert ps == [ps[0]] + ps[1..];
    }
  }

  /**
   * The filter keeps exactly the players of other sockets, and removes nothing when no player has
   * that socket.
   */
  lemma WithoutKeeps(ps: seq<Player>, sid: string)
    ensures forall p :: p in Without(ps, sid) ==> p in ps && p.socketId != sid
    ensures forall p :: p in ps && p.socketId != sid ==> p in Without(ps, sid)
    ensures (forall p :: p in ps ==> p.socketId != sid) ==> Without(ps, sid) == ps
  {
    WithoutSound(ps, sid);
    WithoutComplete(ps, sid);
    if forall p :: p in ps ==> p.socketId != sid {
      WithoutNoop(ps, sid);
    }
  }

  /**
   * The filter keeps the order and the multiplicity of the remaining players: filtering a
   * concatenation filters each part and concatenates the results in the same order.
   */
  lemma {:induction false} WithoutAppend(a: seq<Player>, b: seq<Player>, sid: string)
    decreases |a|
    ensures Without(a + b, sid) == Without(a, sid) + Without(b, sid)
  {
    if a == [] {
      assert a + b == b;
    } else {
      var ab := a + b;
      assert ab[0] == a[0] && ab[1..] == a[1..] + b;
      WithoutAppend(a[1..], b, sid);
      WithoutStep(ab, sid);
      WithoutStep(a, sid);
      var head, x, y := if a[0].socketId == sid then [] else [a[0]], Without(a[1..], sid), Without(b, sid);
      assert Without(ab, sid) == head + (x + y);
      assert Without(a, sid) == head + x;
      assert head + (x + y) == (head + x) + y;
    }
  }

  /** One step of the filter: the first player is kept or dropped, then the rest is filtered. */
  lemma WithoutStep(ps: seq<Player>, sid: string)
    requires ps != []
    ensures Without(ps, sid) == (if ps[0].socketId == sid then [] else [ps[0]]) + Without(ps[1..], sid)
  {
  }

  /** A single player survives the filter exactly when it belongs to another socket. */
  lemma WithoutSingle(p: Player, sid: string)
    ensures Without([p], sid) == if p.socketId == sid then [] else [p]
  {
    assert [p][1..] == [];
  }

  /** Filtering a second time removes nothing more. */
  lemma WithoutIdempotent(ps: seq<Player>, sid: string)
    ensures Without(Without(ps, sid), sid) == Without(ps, sid)
  {
    WithoutKeeps(ps, sid);
    WithoutKeeps(Without(ps, sid), sid);
  }

  /** The index of `players.find(p => p.socketId === sid)` (server.js:100), None if undefined. */
  function FirstWith(ps: seq<Player>, sid: string): (k: Option<nat>)
    decreases |ps|
    ensures k.Some? ==> k.value < |ps| && ps[k.value].socketId == sid
    ensures k.Some? ==> forall j :: 0 <= j < k.value ==> ps[j].socketId != sid
    ensures k.None? <==> forall j :: 0 <= j < |ps| ==> ps[j].socketId != sid
  {
    if ps == [] then None
    else if ps[0].socketId == sid then Some(0)
    else match FirstWith(ps[1..], sid)
      case None => None
      case Some(k) => Some(k + 1)
  }

  /**
   * What an `input` message does to the players of the socket's room (server.js:100-106): the
   * first player of that socket moves; nobody else changes, and without such a player nothing does.
   */
  function ApplyInput(ps: seq<Player>, sid: string, keys: Keys): (r: seq<Player>)
    ensures |r| == |ps|
    ensures forall j :: 0 <= j < |ps| && FirstWith(ps, sid) != Some(j) ==> r[j] == ps[j]
    ensures forall j :: 0 <= j < |ps| && FirstWith(ps, sid) == Some(j) ==> r[j] == Moved(ps[j], keys)
    ensures (forall j :: 0 <= j < |ps| ==> ps[j].socketId != sid) ==> r == ps
    ensures (forall j :: 0 <= j < |ps| ==> WellFormed(ps[j])) ==> forall j :: 0 <= j < |r| ==> WellFormed(r[j])
  {
    match FirstWith(ps, sid)
    case None => ps
    case Some(k) => ps[k := Moved(ps[k], keys)]
  }

  /**
   * After a disconnect the snapshot of the room lists exactly the players of the other sockets:
   * no view of the departed socket's players remains and every other player is still shown.
   */
  lemma SnapshotAfterDisconnect(ps: seq<Player>, sid: string)
    ensures forall v :: v in Project(Without(ps, sid)) ==>
      exists p :: p in ps && p.socketId != sid && v == View(p)
    ensures forall p :: p in ps && p.socketId != sid ==> View(p) in Project(Without(ps, sid))
  {
    var rest := Without(ps, sid);
    WithoutKeeps(ps, sid);
    var vs := Project(rest);
    forall v | v in vs ensures exists p :: p in ps && p.socketId != sid && v == View(p) {
      var i :| 0 <= i < |vs| && vs[i] == v;
      assert rest[i] in rest;
    }
    forall p | p in ps && p.socketId != sid ensures View(p) in vs {
      var i :| 0 <= i < |rest| && rest[i] == p;
      assert vs[i] == View(p);
    }
  }

  class Server {
    /** `rooms`: room id to room. */
    var rooms: map<string, Room>
    /** The keys of `rooms` in insertion order, the order `for (const id in rooms)` visits. */
    var order: seq<string>
    /** `socketRoom`: socket id to the id of the room the socket joined last. */
    var socketRoom: map<string, string>

    /**
     * Every registered room is keyed by its own id, is running and keeps its room invariant
     * (at most 8 players, all inside the world with health in [0, 100]); `order` lists each key
     * once; every session is bound to a registered room.
     */
    ghost predicate Valid()
      reads this, rooms.Values
    {
      RoomsValid() && OrderValid() && SessionsValid()
    }

    ghost predicate RoomsValid()
      reads this, rooms.Values
    {
      forall id :: id in rooms ==> rooms[id].id == id && rooms[id].running && rooms[id].Valid()
    }

    ghost predicate OrderValid()
      reads this
    {
      (forall i :: 0 <= i < |order| ==> order[i] in rooms)
      && (forall id :: id in rooms ==> id in order)
      && (forall i, j :: 0 <= i < j < |order| ==> order[i] != order[j])
    }

    ghost predicate SessionsValid()
      reads this
    {
      forall s :: s in socketRoom ==> socketRoom[s] in rooms
    }

    /** Room order[i] exists and has a free place. */
    ghost predicate Open(i: int)
      reads this, rooms.Values
    {
      0 <= i < |order| && order[i] in rooms && |rooms[order[i]].players| < Capacity
    }

    /** Room order[i] is the first room with a free place. */
    ghost predicate FirstOpen(i: int)
      reads this, rooms.Values
    {
      Open(i) && forall j :: 0 <= j < i ==> !Open(j)
    }

    /**
     * `socketRoom[sid]` is truthy (server.js:98, 113): the socket has a binding and it is not the
     * empty string.
     */
    predicate Bound(sid: string)
      reads this
    {
      sid in socketRoom && socketRoom[sid] != ""
    }

    /** The state at process start (server.js:17-18). */
    constructor ()
      ensures Valid() && rooms == map[] && order == [] && socketRoom == map[]
    {
      rooms, order, socketRoom := map[], [], map[];
    }

    /**
     * The position of the room `findRoom` picks, scanning the registry from position i: the first
     * room there with a free place, or None when every room from i on is full.
     */
    ghost function OpenFrom(i: nat): (k: Option<nat>)
      reads this, rooms.Values
      decreases |order| - i
      ensures k.Some? ==> i <= k.value < |order| && Open(k.value)
    {
      if |order| <= i then None else if Open(i) then Some(i) else OpenFrom(i + 1)
    }

    /**
     * The scan from the start picks the first open room and returns None only when every room
     * is full.
     */
    lemma {:induction false} OpenFromIsFirstOpen(i: nat)
      requires i <= |order|
      requires forall j :: 0 <= j < i ==> !Open(j)
      decreases |order| - i
      ensures OpenFrom(i).Some? ==> FirstOpen(OpenFrom(i).value)
      ensures OpenFrom(i).None? <==> forall j :: 0 <= j < |order| ==> !Open(j)
    {
      if i < |order| && !Open(i) {
        OpenFromIsFirstOpen(i + 1);
      }
    }

    /**
     * `findRoom` (server.js:20-28): the first room, in registry order, with fewer than 8 players;
     * only when every room is full, a new seeded room with id `room_<stamp>`, registered and
     * started, where `stamp` stands for the decimal digits of `Date.now()`.  A new room whose id is
     * already registered replaces that room and keeps its key's position.
     */
    method FindRoom(stamp: string) returns (room: Room)
      requires Valid()
      modifies this`rooms, this`order
      ensures Valid()
      ensures room.id in rooms && rooms[room.id] == room
      ensures |room.players| < Capacity && room.running
      ensures forall id :: id in old(rooms) && id != room.id ==> id in rooms && rooms[id] == old(rooms[id])
      ensures old(OpenFrom(0)).Some? ==>
        rooms == old(rooms) && order == old(order) && room.id == order[old(OpenFrom(0)).value]
      ensures old(OpenFrom(0)).None? ==>
        fresh(room) && room.id == "room_" + stamp && rooms == old(rooms)[room.id := room]
        && order == (if room.id in old(rooms) then old(order) else old(order) + [room.id])
        && room.players == [] && room.npcs == SeedNpcs() && room.pickups == SeedPickups()
    {
      for i := 0 to |order|
        invariant OpenFrom(i) == OpenFrom(0)
      {
        if |rooms[order[i]].players| < Capacity {
          room := rooms[order[i]];
          return;
        }
      }
      room := AddRoom("room_" + stamp);
    }

    /**
     * server.js:24-26: creates a seeded room, registers it under `freshId` (replacing a room
     * already registered under that id) and starts its timer.
     */
    method AddRoom(freshId: string) returns (room: Room)
      requires Valid()
      modifies this`rooms, this`order
      ensures Valid()
      ensures fresh(room) && room.id == freshId && rooms == old(rooms)[freshId := room]
      ensures order == if freshId in old(rooms) then old(order) else old(order) + [freshId]
      ensures room.players == [] && room.running
      ensures room.npcs == SeedNpcs() && room.pickups == SeedPickups()
    {
      room := new Room(freshId);
      if freshId !in rooms {
        order := order + [freshId];
      }
      rooms := rooms[freshId := room];
      var _ := room.Start();
    }

    /**
     * The `join_request` handler (server.js:87-95): appends a new player at the spawn point with
     * full health to the room `findRoom` picks, binds the socket to that room and acknowledges
     * with the room id and player id.  `roomStamp` and `playerStamp` stand for the two readings of
     * `Date.now()`.
     */
    method Join(socketId: string, roomStamp: string, playerStamp: string)
      returns (roomId: string, playerId: string)
      requires Valid()
      modifies this`rooms, this`order, this`socketRoom, rooms.Values`players
      ensures Valid()
      ensures roomId in rooms && playerId == "player_" + playerStamp
      ensures socketRoom == old(socketRoom)[socketId := roomId]
      ensures old(OpenFrom(0)).Some? ==>
        rooms == old(rooms) && order == old(order) && roomId == order[old(OpenFrom(0)).value]
        && rooms[roomId].players == old(rooms[roomId].players) + [Spawn(socketId, playerId)]
      ensures old(OpenFrom(0)).None? ==>
        roomId == "room_" + roomStamp && fresh(rooms[roomId]) && rooms == old(rooms)[roomId := rooms[roomId]]
        && order == (if roomId in old(rooms) then old(order) else old(order) + [roomId])
        && rooms[roomId].players == [Spawn(socketId, playerId)]
        && rooms[roomId].npcs == SeedNpcs() && rooms[roomId].pickups == SeedPickups()
      ensures forall id :: id in old(rooms) && id != roomId ==>
        id in rooms && rooms[id] == old(rooms[id]) && rooms[id].players == old(rooms[id].players)
    {
      var room := FindRoom(roomStamp);
      var player := Spawn(socketId, "player_" + playerStamp);
      Admit(room, player);
      roomId, playerId := room.id, player.id;
    }

    /** server.js:90-91: appends `player` to `room` and binds its socket to the room. */
    method Admit(room: Room, player: Player)
      requires Valid() && room.id in rooms && rooms[room.id] == room
      requires |room.players| < Capacity && WellFormed(player)
      modifies room`players, this`socketRoom
      ensures Valid()
      ensures room.players == old(room.players) + [player]
      ensures socketRoom == old(socketRoom)[player.socketId := room.id]
      ensures forall id :: id in rooms && id != room.id ==> rooms[id].players == old(rooms[id].players)
    {
      forall id | id in rooms && id != room.id ensures rooms[id] != room {
        assert rooms[id].id == id;
      }
      room.players := room.players + [player];
      socketRoom := socketRoom[player.socketId := room.id];
    }

    /**
     * The `input` handler (server.js:96-107): a socket that is not bound changes nothing;
     * otherwise the first player of that socket in its room moves (see ApplyInput).
     */
    method Input(socketId: string, keys: Keys)
      requires Valid()
      modifies rooms.Values`players
      ensures Valid()
      ensures forall id :: id in rooms ==>
        rooms[id].players == if Bound(socketId) && id == socketRoom[socketId]
          then ApplyInput(old(rooms[id].players), socketId, keys)
          else old(rooms[id].players)
    {
      if !Bound(socketId) {
        return;
      }
      var room := rooms[socketRoom[socketId]];
      var k := FirstWith(room.players, socketId);
      if k.None? {
        return;
      }
      room.players := room.players[k.value := Moved(room.players[k.value], keys)];
    }

    /**
     * The `disconnect` handler (server.js:111-119): removes every player of the socket from the
     * room it is bound to and deletes the binding.  An unbound socket changes nothing, so a
     * second disconnect of the same socket is a no-op.
     */
    method Disconnect(socketId: string)
      requires Valid()
      modifies this`socketRoom, rooms.Values`players
      ensures Valid()
      ensures socketRoom == if old(Bound(socketId)) then old(socketRoom) - {socketId} else old(socketRoom)
      ensures forall id :: id in rooms ==>
        rooms[id].players == if old(Bound(socketId)) && id == old(socketRoom[socketId])
          then Without(old(rooms[id].players), socketId)
          else old(rooms[id].players)
    {
      if Bound(socketId) && socketRoom[socketId] in rooms {
        var room := rooms[socketRoom[socketId]];
        WithoutKeeps(room.players, socketId);
        room.players := Without(room.players, socketId);
        socketRoom := socketRoom - {socketId};
      }
    }

    /**
     * One firing of the timer of `room`, registered under `roomId` (server.js:41): runs
     * `tickRoom` on it.  Every room invariant, health in [0, 100] included, survives the tick.
     */
    method OnTick(roomId: string, room: Room, move: Mover) returns (snap: Snapshot)
      requires Valid() && roomId in rooms && rooms[roomId] == room
      modifies room`players, room`npcs
      ensures Valid()
      ensures (room.players, room.npcs) == TickSpec(old(room.players), old(room.npcs), move)
      ensures snap == room.SnapshotOf()
    {
      snap := TickRoom(room, move);
    }
  }
}
