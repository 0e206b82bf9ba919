# Room and session engine of the multiplayer survival server

This project models the authoritative game server in `server.js`. The server keeps two
process-wide dictionaries:

- `rooms` maps a room id to a room;
- `socketRoom` maps a socket id to the id of the room that socket joined.

Each room holds up to eight players, five NPCs and six pickups. While its tick timer runs, the
room runs a 20 Hz simulation:

- every NPC chooses the nearest player, steps towards it and damages it on contact;
- the room then broadcasts a snapshot.

Sockets send three messages:

- `join_request` places the player in the first room with a free place, creating and starting a
  new room when every room is full;
- `input` moves the socket's player 8 units per pressed direction, clamped to the world;
- `disconnect` removes the socket's players and forgets its binding.

## Files

- `world.dfy` (module `World`) holds:
  - the constants;
  - the `Player` value and the four-key `Keys` message;
  - the position arithmetic of one `input` message (`Axis`, `Clamp`, `Moved`);
  - contact damage (`Damaged`).
- `npcs.dfy` (module `Npcs`) holds:
  - the NPC value and squared distances;
  - the nearest-player scan: the loop as `FindNearest`, its recursive mirror `Scan`, and an
    independent definition `IsNearest` proved equal to it;
  - one NPC's turn (`NpcTurn`, `TakeTurn`);
  - a whole tick's NPC pass (`TickSpec`) and what it preserves (`TickKeeps`).
- `rooms.dfy` (module `Rooms`) holds:
  - the `Room` class, with fields `players`, `npcs`, `pickups` and a `running` flag that stands
    for `tickInterval`;
  - `createRoom` as the constructor, with its seeding loops;
  - `start` and `stop`;
  - `tickRoom` as the in-place loop `TickRoom`, proved against `TickSpec`;
  - the snapshot projection.
- `sessions.dfy` (module `Sessions`) holds the `Server` class. Its fields are:
  - `rooms`, a map;
  - `order`, the insertion order of the map's keys, which is the order `for (const id in rooms)`
    visits them;
  - `socketRoom`.

  The class also holds `findRoom` and the three socket handlers. `Valid()` is the invariant every
  handler keeps. Every registered room:
  - is keyed by its own id;
  - is running;
  - has at most 8 players, each inside [20, 1240] × [20, 700] with health in [0, 100].

  In addition, `order` lists each key once, and every binding names a registered room.
- `scenarios.dfy` (module `Scenarios`) holds scenarios that start from an empty server: joins, a
  full room, input, contact damage and a repeated disconnect.

### Behaviour of the source worth knowing

- Contact damage is decided by `nd`, the distance measured in the scan before the NPC's step; the
  step does not update it (server.js:64-72).
- A room's only state is whether `tickInterval` is set (server.js:37-44), so a stopped room looks
  exactly like one never started and can be started again.
- A socket that sends `join_request` twice gets a second player, and its binding names the room of
  the second join (server.js:88-91).
  - When the two joins land in different rooms, the first player stays behind in the first room:
    `disconnect` only looks at the current binding (server.js:112-115).
  - When both land in the same room, the usual case, `input` moves only the first of the two
    players, because `find` returns the first match (server.js:100). `disconnect` removes both,
    because `filter` matches on the socket id (server.js:115).

  `Sessions.Server.Join`, `Sessions.Server.Input` and `Sessions.Server.Disconnect` state exactly
  this.
- `Date.now()` ids can collide. A new room whose id is already registered replaces the registered
  room, and the key keeps its place in iteration order (server.js:24-25). `FindRoom` and `Join`
  state this. The replaced room is never stopped (see "Left out").
- Room keys always start with `room_`. JavaScript therefore never treats them as array indices,
  and `for … in` visits them in insertion order, which is what `order` records.

## Model

| member | source | states |
|---|---|---|
| World.Spawn | server.js:89 | a joining player stands at the spawn point (400, 300) with full health 100 and an empty inventory, inside the world |
| World.StepIsSpeedPerTick | server.js:102-106 | one input message moves a player by the speed 160 divided by the tick rate 20, which is 8 |
| World.Clamp | server.js:105-106 | `Math.max(lo, Math.min(hi, v))` lies in [lo, hi]; it is v when v is in range, lo below it and hi above it |
| World.Axis | server.js:103-104 | the velocity of an axis is 0 exactly when both keys or neither are pressed, +1 exactly when only the positive key is pressed, and -1 exactly when only the negative key is pressed |
| World.Moved | server.js:102-106 | input changes only the position; the new position is inside the world; each axis becomes the clamp of the old coordinate plus 8 times the velocity; a player inside the world moves at most 8 per axis; opposite keys leave that axis unchanged |
| World.Damaged | server.js:72-74 | contact damage takes 6 health off, never goes below 0, and strictly lowers positive health |
| Npcs.ScanFindsNearest | server.js:62-66 | after visiting the first i players, the scan holds the nearest of them under the independent definition, paired with its distance, or (none, 1e9) |
| Npcs.NearestIsNearest | server.js:62-66 | the player the scan selects is the first player with the strictly smallest distance below 1e9, or none when no player is that close |
| Npcs.NearestUnique | server.js:62-66 | that definition admits exactly one choice, so it holds of a choice if and only if the scan makes it |
| Npcs.FindNearest | server.js:62-66 | the loop returns the nearest player under the independent definition, and the distance it reports is that player's distance |
| Npcs.NpcTurnEffect | server.js:67-75 | with no nearest player nothing changes; an NPC's turn changes only the NPC's position and players' health; a player changes only if it is the nearest and was within 28 before the step, and then it takes contact damage |
| Npcs.TakeTurn | server.js:61-75 | the loop body for one NPC computes exactly that turn and keeps the number of players |
| Npcs.TickOne | server.js:60-76 | a tick of a room with one NPC is exactly that NPC's turn |
| Npcs.TickKeeps | server.js:60-76 | a whole tick keeps the players and NPCs in number and order; it changes only players' health, which never rises and never drops below 0, so health stays in [0, 100] and positions stay in the world; NPCs change only position |
| Rooms.SeedPickupIdsDistinct | server.js:47-50 | the six pickup ids `p_0`..`p_5` are distinct, so the pickup map holds six entries |
| Rooms.SeedNpcIdsDistinct | server.js:51-54 | the five NPC ids `z_0`..`z_4` are distinct, so the NPC map holds five entries |
| Rooms.SeedLayout | server.js:47-54 | seeded pickups and NPCs lie inside the world, pickup types cycle wood, scrap, food, and every NPC is a walker with 30 health |
| Rooms.Project | server.js:78 | the snapshot lists every player as `{id, x, y, hp, inv}`, in the same order |
| Rooms.Room.constructor | server.js:30-56 | a new room has no players, is not running, and holds exactly the seeded pickups (150 + 80i, 150 + 40(i mod 3)) and NPCs (200 + 60i, 200 + 90(i mod 2)) in insertion order |
| Rooms.Room.Start | server.js:39-43 | `start` leaves the room running and arms a timer only when none was armed, so a second call re-arms nothing |
| Rooms.Room.Stop | server.js:44 | `stop` always leaves the room not running and clears a timer exactly when one was armed |
| Rooms.Room.SnapshotOf | server.js:78 | the snapshot shows each player's id, position, health and inventory in order, and the NPCs and pickups as they are |
| Rooms.TickRoom | server.js:58-83 | the in-place tick leaves players and NPCs exactly as the sequential NPC pass `TickSpec` computes, keeps the room invariant, and returns the snapshot of the new state |
| Sessions.WithoutSound | server.js:115 | every player the filter keeps was in the room and belongs to another socket |
| Sessions.WithoutComplete | server.js:115 | every player of another socket is kept |
| Sessions.WithoutNoop | server.js:115 | when no player has that socket, the filter returns the list unchanged |
| Sessions.WithoutKeeps | server.js:115 | the filter keeps exactly the players of other sockets and removes nothing when no player has that socket |
| Sessions.WithoutAppend | server.js:115 | the filter keeps the order and multiplicity of the remaining players: filtering a concatenation is the concatenation of the filtered parts |
| Sessions.WithoutSingle | server.js:115 | a single player survives the filter exactly when it belongs to another socket; with `WithoutAppend` this determines the result on every list |
| Sessions.WithoutIdempotent | server.js:111-117 | filtering the same socket out twice equals filtering it out once |
| Sessions.FirstWith | server.js:100 | `find` returns the first player of the socket, and is undefined exactly when the socket has no player in the room |
| Sessions.ApplyInput | server.js:100-106 | only the socket's first player moves, and it moves by `Moved`; without such a player nothing changes; every player stays well-formed |
| Sessions.SnapshotAfterDisconnect | server.js:115 | after the filter the snapshot shows no player of the departed socket, and every player of another socket is still shown |
| Sessions.Server.constructor | server.js:17-18 | the process starts with no rooms and no bindings, and the invariant holds |
| Sessions.Server.OpenFrom | server.js:20-23 | the scan from position i picks a position at or after i, within the registry, whose room has a free place |
| Sessions.Server.OpenFromIsFirstOpen | server.js:20-23 | the scan from the start picks the first room, in registry order, with fewer than 8 players, and finds none exactly when every room is full |
| Sessions.Server.FindRoom | server.js:20-28 | with a room that has a free place, `findRoom` returns the first such room and changes nothing. Only when every room is full does it register, under `room_<stamp>`, a new seeded room with no players and start it; other registered rooms stay as they were |
| Sessions.Server.AddRoom | server.js:24-27 | the new room is seeded, started and registered under its id, replacing a registered room with that id; the key is appended to the iteration order only if it is new |
| Sessions.Server.Join | server.js:87-95 | the player is appended at the spawn point to the room `findRoom` picks; the socket is bound to that room; the ack carries the room id and `player_<stamp>`; every other room keeps its players; the invariant holds, so no room exceeds 8 players |
| Sessions.Server.Admit | server.js:90-91 | appending the player and binding the socket keeps the invariant and leaves every other room's players unchanged |
| Sessions.Server.Input | server.js:96-107 | an unbound socket changes nothing; otherwise only the socket's room changes, as `ApplyInput` says; the invariant holds, so positions stay in the world |
| Sessions.Server.Disconnect | server.js:111-119 | a bound socket's players are removed from its room and its binding is deleted; nothing else changes; an unbound socket changes nothing, so a second disconnect is a no-op |
| Sessions.Server.OnTick | server.js:41 | a timer firing runs `tickRoom` on a registered room and keeps the server invariant, health in [0, 100] included |
| Scenarios.TwoJoined | server.js:87-95 | the first two joins on a fresh server share one new room `room_1`, in join order |
| Scenarios.FullRoom | server.js:20-23 | eight joins fill `room_1` and create no other room |
| Scenarios.NinthJoinGetsNewRoom | server.js:20-28 | with `room_1` full, the ninth join gets the new room `room_2` as its only player |
| Scenarios.InputAfterJoin | server.js:96-107 | after two joins, `up` moves the first player to (400, 292); left and right together leave it at (400, 300); right and down move it to (408, 308); the other player stays put |
| Scenarios.ContactClampsAtZero | server.js:58-76 | a player with 4 health 10 units from an NPC ends the tick with 0 health |
| Scenarios.DisconnectTwice | server.js:111-119 | disconnecting `s1` leaves only `s2`'s player, and disconnecting `s1` again changes nothing |

## Left out

- `client/src/main.js` is not part of this model. It holds rendering, the keyboard, asset loading and the client socket.
- Express static serving and `server.listen` are left out: they are HTTP plumbing (server.js:8-15, server.js:122).
- Socket.IO is left out: `socket.join`, the `emit` loop over room members and the ack callback (server.js:79-82, server.js:92, server.js:94). `TickRoom` returns the snapshot it would broadcast, and `Join` returns the ack's room id and player id.
- Timer scheduling is left out (server.js:41, server.js:44). `setInterval` and `clearInterval` become the `running` flag. A timer firing is the `OnTick` method, invoked when the caller chooses.
- Npcs.NpcTurn: the NPC's step (`atan2`, `cos`, `sin`; server.js:68-71) is the abstract parameter `move`. Nothing is claimed about the NPC's new coordinates, including that they stay in the world.
- Npcs.Dist2: distances are exact squared reals. `Math.hypot` in floating point can round two nearly equal distances differently, which may change the tie-break in rare cases.
- Sessions.Server.Join: `Date.now()` is two parameters, `roomStamp` and `playerStamp`. Nothing in the model requires them to be unique, and the overwrite on a colliding room id is stated.
- The `action` handler is left out because it is empty (server.js:108-110). The `missions` field is left out because it is never used (server.js:36). `console.log` calls are left out as output only.
- The `input` message's extra fields, such as a timestamp, are ignored by the server and are not modelled.
- JavaScript's handling of non-boolean key flags (truthiness) is not modelled: `Keys` holds four booleans.
- Sessions.Server.Input: the crash that `rooms[rid]` would cause for a binding to an unregistered room is not modelled. The invariant `Valid()` shows that such a binding cannot arise.
- Sessions.Server.OnTick: a room replaced by a colliding id keeps ticking, but the model cannot express that. The source never stops the replaced room, and its `setInterval` closure (server.js:41) keeps calling `tickRoom` on it, unregistered. Its players' sockets stay bound to the id, which now names the new room, so their input finds no player (server.js:100-101) and their disconnect filters the new room (server.js:115). The model requires a ticking room to be the registered one, and the replaced room's players are simply no longer reachable from `rooms`.
- Every player object belongs to exactly one room's array, so players are values in a sequence. The in-place writes to `nearest.hp`, `player.x` and `player.y` are modelled as replacing that sequence element.
