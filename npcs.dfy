/**
 * The discrete part of the per-tick NPC policy (server.js:58-76): each NPC in turn picks the
 * nearest player and, when that player was within the contact radius, damages it.  How far and
 * in which direction the NPC steps is floating-point trigonometry and is a parameter here.
 */
module Npcs {
  import opened World

  /** An NPC: id, position (fractional once it has moved), health and type tag. */
  datatype Npc = Npc(id: string, x: real, y: real, hp: int, kind: string)

  /**
   * The new position of an NPC that steps towards the given player (server.js:68-71, which
   * moves 30 / 20 units along the bearing computed with atan2, cos and sin).
   */
  type Mover = (Npc, Player) -> (real, real)

  /** The initial `nd = 1e9` of the scan, squared: only players closer than it are considered. */
  const Far2: real := 1000000000.0 * 1000000000.0
  /** The contact radius 28, squared. */
  const Contact2: real := 28.0 * 28.0

  /** Squared Euclidean distance between a player and an NPC (`Math.hypot`, squared). */
  function Dist2(p: Player, n: Npc): real {
    (p.x as real - n.x) * (p.x as real - n.x) + (p.y as real - n.y) * (p.y as real - n.y)
  }

  /**
   * The nearest player of n by the independent definition: the first player among those with the
   * strictly smallest distance, provided it is closer than 1e9; None when no player is.
   */
  ghost predicate IsNearest(ps: seq<Player>, n: Npc, k: Option<nat>) {
    match k
    case None => forall j :: 0 <= j < |ps| ==> Far2 <= Dist2(ps[j], n)
    case Some(i) =>
      i < |ps| && Dist2(ps[i], n) < Far2
      && (forall j :: 0 <= j < |ps| ==> Dist2(ps[i], n) <= Dist2(ps[j], n))
      && (forall j :: 0 <= j < i ==> Dist2(ps[i], n) < Dist2(ps[j], n))
  }

  /** The pair (nearest, nd) that the loop at server.js:63-66 holds after visiting ps[..i]. */
  function Scan(ps: seq<Player>, n: Npc, i: nat): (r: (Option<nat>, real))
    requires i <= |ps|
    ensures r.0.Some? ==> r.0.value < i
  {
    if i == 0 then (None, Far2)
    else
      var (k, d) := Scan(ps, n, i - 1);
      if Dist2(ps[i - 1], n) < d then (Some(i - 1), Dist2(ps[i - 1], n)) else (k, d)
  }

  /** The player the scan of server.js:62-66 selects. */
  function Nearest(ps: seq<Player>, n: Npc): (k: Option<nat>)
    ensures k.Some? ==> k.value < |ps|
  {
    Scan(ps, n, |ps|).0
  }

  /** After visiting ps[..i], the scan holds the nearest player of that prefix and its distance. */
  lemma {:induction false} ScanFindsNearest(ps: seq<Player>, n: Npc, i: nat)
    requires i <= |ps|
    ensures IsNearest(ps[..i], n, Scan(ps, n, i).0)
    ensures Scan(ps, n, i).1 == match Scan(ps, n, i).0 case None => Far2 case Some(k) => Dist2(ps[k], n)
  {
    if i > 0 {
      ScanFindsNearest(ps, n, i - 1);
      var pre := ps[..i - 1];
      assert forall j :: 0 <= j < i - 1 ==> ps[..i][j] == pre[j];
      assert ps[..i][i - 1] == ps[i - 1];
    }
  }

  /** The scan's choice satisfies the independent definition ... */
  lemma NearestIsNearest(ps: seq<Player>, n: Npc)
    ensures IsNearest(ps, n, Nearest(ps, n))
  {
    ScanFindsNearest(ps, n, |ps|);
    assert ps[..|ps|] == ps;
  }

  /** ... and that definition admits exactly one choice, so the two agree on every input. */
  lemma NearestUnique(ps: seq<Player>, n: Npc, k: Option<nat>)
    ensures IsNearest(ps, n, k) <==> k == Nearest(ps, n)
  {
    NearestIsNearest(ps, n);
  }

  /**
   * The loop at server.js:62-66: returns the nearest player of n and its squared distance
   * (`nearest` and `nd`).
   */
  method FindNearest(ps: seq<Player>, n: Npc) returns (nearest: Option<nat>, nd: real)
    ensures IsNearest(ps, n, nearest)
    ensures nearest == Nearest(ps, n)
    ensures nearest.Some? ==> nd == Dist2(ps[nearest.value], n)
  {
    nearest, nd := None, Far2;
    for i := 0 to |ps|
      invariant (nearest, nd) == Scan(ps, n, i)
    {
      var d := Dist2(ps[i], n);
      if d < nd {
        nd := d;
        nearest := Some(i);
      }
    }
    ScanFindsNearest(ps, n, |ps|);
    NearestIsNearest(ps, n);
  }

  /**
   * One NPC's turn of a tick (server.js:60-75): with no nearest player nothing changes;
   * otherwise the NPC moves (its new position comes from `move`) and, if the distance measured
   * before the move is under 28, the nearest player loses 6 health, clamped at 0.
   */
  function NpcTurn(ps: seq<Player>, n: Npc, move: Mover): (r: (seq<Player>, Npc))
  {
    match Nearest(ps, n)
    case None => (ps, n)
    case Some(k) =>
      var (x, y) := move(n, ps[k]);
      var ps' := if Dist2(ps[k], n) < Contact2 then ps[k := ps[k].(hp := Damaged(ps[k].hp))] else ps;
      (ps', n.(x := x, y := y))
  }

  /**
   * The effect of one NPC's turn: with no nearest player nothing changes; only the NPC's position
   * and the players' health can change; a player is damaged only if it is the nearest one and
   * was within the contact radius, and then it is damaged.
   */
  lemma NpcTurnEffect(ps: seq<Player>, n: Npc, move: Mover)
    ensures var r := NpcTurn(ps, n, move);
      |r.0| == |ps|
      && (Nearest(ps, n) == None ==> r == (ps, n))
      && r.1 == n.(x := r.1.x, y := r.1.y)
      && (forall j :: 0 <= j < |ps| ==> r.0[j] == ps[j].(hp := r.0[j].hp))
      && (forall j :: 0 <= j < |ps| && r.0[j] != ps[j] ==>
            IsNearest(ps, n, Some(j)) && Dist2(ps[j], n) < Contact2 && r.0[j].hp == Damaged(ps[j].hp))
      && (forall j :: 0 <= j < |ps| && IsNearest(ps, n, Some(j)) && Dist2(ps[j], n) < Contact2 ==>
            r.0[j].hp == Damaged(ps[j].hp))
  {
    NearestIsNearest(ps, n);
    forall k: Option<nat> ensures IsNearest(ps, n, k) <==> k == Nearest(ps, n) {
      NearestUnique(ps, n, k);
    }
  }

  /**
   * The body of the loop at server.js:60-76 for one NPC: find the nearest player, step towards it
   * and damage it if the distance measured before the step was under 28.
   */
  method TakeTurn(ps: seq<Player>, n: Npc, move: Mover) returns (ps': seq<Player>, n': Npc)
    ensures (ps', n') == NpcTurn(ps, n, move)
    ensures |ps'| == |ps|
  {
    ps', n' := ps, n;
    var nearest, nd := FindNearest(ps, n);
    if nearest.Some? {
      var k := nearest.value;
      var (x, y) := move(n, ps[k]);
      n' := n.(x := x, y := y);
      if nd < Contact2 {
        ps' := ps[k := ps[k].(hp := Damaged(ps[k].hp))];
      }
    }
  }

  /**
   * A whole tick's NPC pass (server.js:60-76): the NPCs take their turns in order, each seeing the
   * players as the previous turns left them.  Returns the players and the moved NPCs.
   */
  function TickSpec(ps: seq<Player>, ns: seq<Npc>, move: Mover): (r: (seq<Player>, seq<Npc>))
    decreases |ns|
  {
    if ns == [] then (ps, [])
    else
      var (ps1, done) := TickSpec(ps, ns[..|ns| - 1], move);
      var (ps2, n') := NpcTurn(ps1, ns[|ns| - 1], move);
      (ps2, done + [n'])
  }

  /** A tick of a room with a single NPC is exactly that NPC's turn. */
  lemma TickOne(ps: seq<Player>, n: Npc, move: Mover)
    ensures TickSpec(ps, [n], move) == (NpcTurn(ps, n, move).0, [NpcTurn(ps, n, move).1])
  {
    var ns := [n];
    assert ns[..|ns| - 1] == [];
    var r := NpcTurn(ps, n, move);
    assert TickSpec(ps, ns, move) == (r.0, [] + [r.1]);
    assert [] + [r.1] == [r.1];
  }

  /**
   * A tick keeps the players (same order, ids, sockets, positions and inventories) and the NPCs
   * (same ids, health and types) and only lowers health, never below 0: a room whose players all
   * had health in [0, 100] still has.
   */
  lemma {:induction false} TickKeeps(ps: seq<Player>, ns: seq<Npc>, move: Mover)
    decreases |ns|
    ensures var r := TickSpec(ps, ns, move);
      |r.0| == |ps| && |r.1| == |ns|
      && (forall j :: 0 <= j < |ps| ==> r.0[j] == ps[j].(hp := r.0[j].hp))
      && (forall j :: 0 <= j < |ps| && 0 <= ps[j].hp ==> 0 <= r.0[j].hp <= ps[j].hp)
      && (forall j :: 0 <= j < |ps| && WellFormed(ps[j]) ==> WellFormed(r.0[j]))
      && (forall i :: 0 <= i < |ns| ==> r.1[i] == ns[i].(x := r.1[i].x, y := r.1[i].y))
  {
    if ns != [] {
      var front := ns[..|ns| - 1];
      TickKeeps(ps, front, move);
      var (ps1, done) := TickSpec(ps, front, move);
      var (ps2, n') := NpcTurn(ps1, ns[|ns| - 1], move);
      NpcTurnEffect(ps1, ns[|ns| - 1], move);
      assert TickSpec(ps, ns, move) == (ps2, done + [n']);
      forall i | 0 <= i < |ns| ensures (done + [n'])[i] == ns[i].(x := (done + [n'])[i].x, y := (done + [n'])[i].y) {
        if i < |ns| - 1 {
          assert front[i] == ns[i];
        }
      }
    }
  }
}
