/**
 * A room (server.js:30-83): its players, the NPCs and pickups it is seeded with, its tick timer
 * as a running flag, one tick of the simulation and the snapshot that tick broadcasts.
 */
module Rooms {
  import opened World
  import opened Npcs

  /** A pickup: id, position and type tag; never changed after the room is created. */
  datatype Pickup = Pickup(id: string, x: int, y: int, kind: string)

  /** A player as a snapshot shows it: everything but the socket id. */
  datatype PlayerView = PlayerView(id: string, x: int, y: int, hp: int, inv: seq<string>)

  /**
   * The `state_update` payload (server.js:78).  The NPC and pickup dictionaries are given as their
   * entries in insertion order; each entry's id is its key.
   */
  datatype Snapshot = Snapshot(players: seq<PlayerView>, npcs: seq<Npc>, pickups: seq<Pickup>)

  const PickupCount: nat := 6
  const NpcCount: nat := 5
  const PickupKinds: seq<string> := ["wood", "scrap", "food"]

  /** The decimal numeral of a one-digit number. */
  function Digit(i: nat): (s: string)
    requires i < 10
    ensures |s| == 1 && '0' <= s[0] <= '9'
  {
    [(48 + i) as char]
  }

  /** Pickup `p_i` of a new room (server.js:47-50). */
  function SeedPickup(i: nat): Pickup
    requires i < PickupCount
  {
    Pickup("p_" + Digit(i), 150 + i * 80, 150 + (i % 3) * 40, PickupKinds[i % 3])
  }

  /** NPC `z_i` of a new room (server.js:51-54). */
  function SeedNpc(i: nat): Npc
    requires i < NpcCount
  {
    Npc("z_" + Digit(i), (200 + i * 60) as real, (200 + (i % 2) * 90) as real, 30, "walker")
  }

  function SeedPickups(): seq<Pickup> {
    seq(PickupCount, i requires 0 <= i < PickupCount => SeedPickup(i))
  }

  function SeedNpcs(): seq<Npc> {
    seq(NpcCount, i requires 0 <= i < NpcCount => SeedNpc(i))
  }

  /** The seeded pickups are keyed by distinct ids, so `room.pickups` really holds six entries. */
  lemma SeedPickupIdsDistinct(i: nat, j: nat)
    requires i < j < PickupCount
    ensures SeedPickup(i).id != SeedPickup(j).id
  {
    assert SeedPickup(i).id[2] != SeedPickup(j).id[2];
  }

  /** The seeded NPCs are keyed by distinct ids, so `room.npcs` really holds five entries. */
  lemma SeedNpcIdsDistinct(i: nat, j: nat)
    requires i < j < NpcCount
    ensures SeedNpc(i).id != SeedNpc(j).id
  {
    assert SeedNpc(i).id[2] != SeedNpc(j).id[2];
  }

  /**
   * Every seeded pickup and NPC lies inside the world, every NPC is a walker with 30 health, and
   * the pickup types cycle wood, scrap, food.
   */
  lemma SeedLayout(i: nat)
    ensures i < PickupCount ==> InWorld(SeedPickup(i).x, SeedPickup(i).y)
    ensures i < PickupCount ==> SeedPickup(i).kind == PickupKinds[i % 3]
    ensures i < NpcCount ==> SeedNpc(i).hp == 30 && SeedNpc(i).kind == "walker"
    ensures i < NpcCount ==>
      MinX as real <= SeedNpc(i).x <= MaxX as real && MinY as real <= SeedNpc(i).y <= MaxY as real
  {
  }

  function View(p: Player): PlayerView {
    PlayerView(p.id, p.x, p.y, p.hp, p.inv)
  }

  /** `room.players.map(p => ({id, x, y, hp, inv}))` (server.js:78). */
  function Project(ps: seq<Player>): (vs: seq<PlayerView>)
    ensures |vs| == |ps|
    ensures forall i :: 0 <= i < |ps| ==> vs[i] == View(ps[i])
  {
    if ps == [] then [] else [View(ps[0])] + Project(ps[1..])
  }

  class Room {
    const id: string
    /** `room.players`, in join order. */
    var players: seq<Player>
    /** `room.npcs`, in insertion order. */
    var npcs: seq<Npc>
    /** `room.pickups`, in insertion order. */
    var pickups: seq<Pickup>
    /** Whether `tickInterval` holds an armed timer. */
    var running: bool

    /** Capacity, bounds and health hold for every room at every step. */
    ghost predicate Valid()
      reads this
    {
      |players| <= Capacity && forall i :: 0 <= i < |players| ==> WellFormed(players[i])
    }

    /** `createRoom(id)` (server.js:30-56): no players, not running, seeded pickups and NPCs. */
    constructor (id: string)
      ensures Valid() && this.id == id && players == [] && !running
      ensures pickups == SeedPickups() && npcs == SeedNpcs()
    {
      var ps: seq<Pickup> := [];
      for i := 0 to PickupCount
        invariant ps == SeedPickups()[..i]
      {
        ps := ps + [SeedPickup(i)];
      }
      var ns: seq<Npc> := [];
      for i := 0 to NpcCount
        invariant ns == SeedNpcs()[..i]
      {
        ns := ns + [SeedNpc(i)];
      }
      this.id := id;
      players := [];
      npcs := ns;
      pickups := ps;
      running := false;
    }

    /**
     * `start` (server.js:39-43): arms the tick timer unless one is armed already; `armed` says
     * whether a new timer was armed.
     */
    method Start() returns (armed: bool)
      modifies this`running
      ensures running
      ensures armed == !old(running)
    {
      if running {
        return false;
      }
      running := true;
      armed := true;
    }

    /** `stop` (server.js:44): clears the timer if one is armed and leaves the room stopped. */
    method Stop() returns (cleared: bool)
      modifies this`running
      ensures !running
      ensures cleared == old(running)
    {
      cleared := running;
      running := false;
    }

    /** The snapshot of the room's current state (server.js:78). */
    function SnapshotOf(): (s: Snapshot)
      reads this
      ensures |s.players| == |players|
      ensures forall i :: 0 <= i < |players| ==>
        s.players[i].id == players[i].id && s.players[i].hp == players[i].hp
        && s.players[i].x == players[i].x && s.players[i].y == players[i].y
        && s.players[i].inv == players[i].inv
      ensures s.npcs == npcs && s.pickups == pickups
    {
      Snapshot(Project(players), npcs, pickups)
    }
  }

  /**
   * One iteration of the loop of TickRoom: if `cur` holds the NPCs after the turns of ns[..i]
   * followed by the untouched ns[i..], then the turn of ns[i] extends both the players and the
   * finished prefix by one NPC.
   */
  lemma TickStep(ps: seq<Player>, ns: seq<Npc>, i: nat, move: Mover, cur: seq<Npc>)
    requires i < |ns| == |cur|
    requires cur[..i] == TickSpec(ps, ns[..i], move).1
    requires forall j :: i <= j < |ns| ==> cur[j] == ns[j]
    ensures var turn := NpcTurn(TickSpec(ps, ns[..i], move).0, ns[i], move);
      var next := cur[i := turn.1];
      turn.0 == TickSpec(ps, ns[..i + 1], move).0
      && next[..i + 1] == TickSpec(ps, ns[..i + 1], move).1
      && forall j :: i + 1 <= j < |ns| ==> next[j] == ns[j]
  {
    assert ns[..i + 1][..i] == ns[..i];
    var turn := NpcTurn(TickSpec(ps, ns[..i], move).0, ns[i], move);
    assert cur[i := turn.1][..i + 1] == cur[..i] + [turn.1];
  }

  /**
   * `tickRoom` (server.js:58-83), run by the armed timer: every NPC takes its turn in order,
   * updating NPCs and players in place, and the resulting snapshot is returned for broadcast.
   */
  method TickRoom(room: Room, move: Mover) returns (snap: Snapshot)
    requires room.Valid() && room.running
    modifies room`players, room`npcs
    ensures room.Valid()
    ensures (room.players, room.npcs) == TickSpec(old(room.players), old(room.npcs), move)
    ensures snap == room.SnapshotOf()
  {
    ghost var ps0, ns0 := room.players, room.npcs;
    var i := 0;
    while i < |room.npcs|
      invariant |room.npcs| == |ns0| && i <= |ns0|
      invariant room.players == TickSpec(ps0, ns0[..i], move).0
      invariant room.npcs[..i] == TickSpec(ps0, ns0[..i], move).1
      invariant forall j :: i <= j < |ns0| ==> room.npcs[j] == ns0[j]
    {
      TickStep(ps0, ns0, i, move, room.npcs);
      var players, n := TakeTurn(room.players, room.npcs[i], move);
      room.players, room.npcs := players, room.npcs[i := n];
      i := i + 1;
    }
    assert room.npcs[..i] == room.npcs && ns0[..i] == ns0;
    TickKeeps(ps0, ns0, move);
    snap := room.SnapshotOf();
  }
}
