/**
 * Scenarios of the server model on a fresh process state: matchmaking across a full room,
 * input arithmetic, contact damage and repeated disconnects.
 */
module Scenarios {
  import opened World
  import opened Npcs
  import opened Rooms
  import opened Sessions

  /** A fresh server after `s1` and then `s2` have joined: both share the one new room. */
  method TwoJoined() returns (s: Server, r: Room)
    ensures fresh(s) && fresh(r) && s.Valid()
    ensures s.rooms == map["room_1" := r] && s.order == ["room_1"]
    ensures s.socketRoom == map["s1" := "room_1", "s2" := "room_1"]
    ensures r.players == [Spawn("s1", "player_1"), Spawn("s2", "player_2")]
  {
    s := new Server();
    var rid, pid := s.Join("s1", "1", "1");
    assert rid == "room_1" && pid == "player_1";
    r := s.rooms[rid];
    assert s.Open(0);
    rid, pid := s.Join("s2", "1", "2");
    assert pid == "player_2";
  }

  /** Six more joins after those two fill the room to its capacity of 8. */
  method FullRoom() returns (s: Server, r: Room)
    ensures fresh(s) && fresh(r) && s.Valid()
    ensures s.rooms == map["room_1" := r] && s.order == ["room_1"] && |r.players| == Capacity
  {
    s, r := TwoJoined();
    var k := 2;
    while k < Capacity
      invariant 2 <= k <= Capacity
      invariant fresh(r) && s.Valid()
      invariant s.rooms == map["room_1" := r] && s.order == ["room_1"] && |r.players| == k
    {
      assert s.Open(0);
      var rid, pid := s.Join("s" + Digit(k + 1), "1", Digit(k + 1));
      k := k + 1;
    }
  }

  /**
   * With the only room full, the ninth join gets a new room, registered after the first, and is
   * its only player.
   */
  method NinthJoinGetsNewRoom() returns (ninth: string, players: seq<Player>)
    ensures ninth == "room_2" && ninth != "room_1"
    ensures players == [Spawn("s9", "player_9")]
  {
    var s, r := FullRoom();
    assert s.OpenFrom(0) == None by {
      assert !s.Open(0);
    }
    var pid;
    ninth, pid := s.Join("s9", "2", "9");
    assert ninth == "room_2" && ninth[5] != "room_1"[5] && pid == "player_9";
    players := s.rooms[ninth].players;
  }

  /**
   * One input message from `s1` right after the two joins: only `s1`'s player moves, 8 units per
   * pressed direction without normalising diagonals, and opposite keys cancel.
   */
  method InputAfterJoin(keys: Keys) returns (mover: Player, other: Player)
    ensures mover == Moved(Spawn("s1", "player_1"), keys)
    ensures other == Spawn("s2", "player_2")
    ensures keys == Keys(false, false, true, false) ==> (mover.x, mover.y) == (400, 292)
    ensures keys == Keys(true, true, false, false) ==> (mover.x, mover.y) == (400, 300)
    ensures keys == Keys(false, true, false, true) ==> (mover.x, mover.y) == (408, 308)
  {
    var s, r := TwoJoined();
    ghost var ps := r.players;
    assert FirstWith(ps, "s1") == Some(0);
    s.Input("s1", keys);
    assert s.rooms["room_1"] == r && s.socketRoom["s1"] == "room_1";
    assert r.players == ApplyInput(ps, "s1", keys);
    mover, other := r.players[0], r.players[1];
  }

  /**
   * A player with 4 health standing 10 units from an NPC is damaged in that tick and ends at 0,
   * never below.
   */
  method ContactClampsAtZero(move: Mover) returns (hp: int)
    ensures hp == 0
  {
    var room := new Room("room_1");
    var armed := room.Start();
    var p := Player("s1", "player_1", 210, 200, 4, []);
    var n := Npc("z_0", 200.0, 200.0, 30, "walker");
    room.players := [p];
    room.npcs := [n];
    assert Dist2(p, n) == 100.0;
    assert Scan([p], n, 1) == (Some(0), 100.0);
    TickOne([p], n, move);
    var snap := TickRoom(room, move);
    hp := snap.players[0].hp;
  }

  /**
   * Disconnecting a socket removes its player and no other, and disconnecting it again changes
   * nothing.
   */
  method DisconnectTwice() returns (once: seq<Player>, twice: seq<Player>)
    ensures once == [Spawn("s2", "player_2")]
    ensures twice == once
  {
    var s, r := TwoJoined();
    var a, b := r.players[0], r.players[1];
    assert Without([a, b], "s1") == [b] by {
      assert [a, b][1..] == [b];
      assert Without([b], "s1") == [b];
    }
    assert s.Bound("s1") && s.socketRoom["s1"] == "room_1" && s.rooms["room_1"] == r;
    s.Disconnect("s1");
    assert s.rooms["room_1"] == r && r.players == Without([a, b], "s1");
    once := r.players;
    assert !s.Bound("s1");
    s.Disconnect("s1");
    assert s.rooms["room_1"] == r;
    twice := r.players;
  }
}
