/** Constants, player values and the arithmetic of one `input` message (server.js). */
module World {

  datatype Option<T> = None | Some(value: T)

  /** Most players a room accepts (server.js:22). */
  const Capacity: nat := 8
  /** Ticks per second of every room (server.js:38). */
  const TickRate: nat := 20
  /** Player speed in world units per second (server.js:102). */
  const PlayerSpeed: int := 160
  /** Units one `input` message moves a player along an axis: PlayerSpeed * (1 / TickRate), exactly 8. */
  const Step: int := 8

  /** World bounds that every position update clamps to (server.js:105-106). */
  const MinX: int := 20
  const MaxX: int := 1240
  const MinY: int := 20
  const MaxY: int := 700

  /** One `input` message lasts one tick: the step is the speed divided by the tick rate. */
  lemma StepIsSpeedPerTick()
    ensures Step == PlayerSpeed / TickRate && Step * TickRate == PlayerSpeed
  {
  }

  /** Spawn position and starting health of a joining player (server.js:89). */
  const SpawnX: int := 400
  const SpawnY: int := 300
  const MaxHp: int := 100

  /** Health an NPC takes off the player it touches (server.js:73). */
  const ContactDamage: int := 6

  /** A player: the socket it belongs to, its domain id, position, health and inventory. */
  datatype Player = Player(socketId: string, id: string, x: int, y: int, hp: int, inv: seq<string>)

  /** The four direction flags of an `input` message. */
  datatype Keys = Keys(left: bool, right: bool, up: bool, down: bool)

  predicate InWorld(x: int, y: int) {
    MinX <= x <= MaxX && MinY <= y <= MaxY
  }

  /** What every player in a room satisfies: inside the world, health in [0, MaxHp]. */
  predicate WellFormed(p: Player) {
    InWorld(p.x, p.y) && 0 <= p.hp <= MaxHp
  }

  /** The player that `join_request` appends (server.js:89). */
  function Spawn(socketId: string, id: string): (p: Player)
    ensures p.x == SpawnX && p.y == SpawnY
    ensures WellFormed(p) && p.hp == MaxHp && p.inv == []
    ensures p.socketId == socketId && p.id == id
  {
    Player(socketId, id, SpawnX, SpawnY, MaxHp, [])
  }

  function Min(a: int, b: int): int { if a < b then a else b }
  function Max(a: int, b: int): int { if a < b then b else a }

  /** `Math.max(lo, Math.min(hi, v))`: the point of [lo, hi] nearest to v. */
  function Clamp(v: int, lo: int, hi: int): (r: int)
    requires lo <= hi
    ensures lo <= r <= hi
    ensures lo <= v <= hi ==> r == v
    ensures v < lo ==> r == lo
    ensures hi < v ==> r == hi
  {
    Max(lo, Min(hi, v))
  }

  /** One axis of an input's velocity: the positive key counts +1, the negative key -1. */
  function Axis(negative: bool, positive: bool): (v: int)
    ensures v == 0 <==> negative == positive
    ensures v == 1 <==> positive && !negative
    ensures v == -1 <==> negative && !positive
  {
    (if positive then 1 else 0) + (if negative then -1 else 0)
  }

  /**
   * The player after one `input` message (server.js:102-106): each axis moves by Step times the
   * axis velocity, without normalising diagonals, and the result is clamped to the world.
   */
  function Moved(p: Player, k: Keys): (q: Player)
    ensures q == p.(x := q.x, y := q.y)
    ensures InWorld(q.x, q.y)
    ensures WellFormed(p) ==> WellFormed(q)
    ensures var tx := p.x + Axis(k.left, k.right) * Step;
      (MinX <= tx <= MaxX ==> q.x == tx) && (tx < MinX ==> q.x == MinX) && (MaxX < tx ==> q.x == MaxX)
    ensures var ty := p.y + Axis(k.up, k.down) * Step;
      (MinY <= ty <= MaxY ==> q.y == ty) && (ty < MinY ==> q.y == MinY) && (MaxY < ty ==> q.y == MaxY)
    ensures InWorld(p.x, p.y) ==> -Step <= q.x - p.x <= Step && -Step <= q.y - p.y <= Step
    ensures InWorld(p.x, p.y) && k.left == k.right ==> q.x == p.x
    ensures InWorld(p.x, p.y) && k.up == k.down ==> q.y == p.y
  {
    var vx := Axis(k.left, k.right);
    var vy := Axis(k.up, k.down);
    p.(x := Clamp(p.x + vx * Step, MinX, MaxX), y := Clamp(p.y + vy * Step, MinY, MaxY))
  }

  /** Contact damage `Math.max(0, hp - 6)` (server.js:73). */
  function Damaged(hp: int): (r: int)
    ensures 0 <= r
    ensures ContactDamage <= hp ==> r == hp - ContactDamage
    ensures hp < ContactDamage ==> r == 0
    ensures 0 <= hp ==> r <= hp && (0 < hp ==> r < hp)
  {
    Max(0, hp - ContactDamage)
  }
}
