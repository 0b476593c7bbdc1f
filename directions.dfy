/** The four facing directions, their unit vectors and their keys. */
module Directions {
  import opened Geometry

  datatype Direction = Up | Right | Down | Left

  /** The keys the game reads (the engine's `KeyCode`, restricted to the
      keys the game uses). */
  datatype KeyCode = UpKey | RightKey | DownKey | LeftKey | Space | Escape

  /** The directions in iteration order, each exactly once. */
  function Iter(): (ds: seq<Direction>)
    ensures |ds| == 4
    ensures forall d: Direction :: ds[Rank(d)] == d
    ensures forall i, j :: 0 <= i < j < |ds| ==> ds[i] != ds[j]
  {
    [Up, Right, Down, Left]
  }

  /** Position of `d` in `Iter()`. */
  function Rank(d: Direction): (r: nat)
    ensures r < 4
  {
    match d
    case Up => 0
    case Right => 1
    case Down => 2
    case Left => 3
  }

  /** The unit vector of a direction, in screen coordinates (y grows downwards). */
  function Vector(d: Direction): (v: Vec2)
    ensures (v.x == 0.0 && (v.y == 1.0 || v.y == -1.0)) || (v.y == 0.0 && (v.x == 1.0 || v.x == -1.0))
    ensures d == Up <==> v.y < 0.0
  {
    match d
    case Up => Vec2(0.0, -1.0)
    case Right => Vec2(1.0, 0.0)
    case Down => Vec2(0.0, 1.0)
    case Left => Vec2(-1.0, 0.0)
  }

  /** The arrow key of a direction. */
  function Key(d: Direction): (k: KeyCode)
    ensures k != Space && k != Escape
    ensures (k == UpKey <==> d == Up) && (k == RightKey <==> d == Right)
    ensures (k == DownKey <==> d == Down) && (k == LeftKey <==> d == Left)
  {
    match d
    case Up => UpKey
    case Right => RightKey
    case Down => DownKey
    case Left => LeftKey
  }

  /** The key table the player's steering reads: every direction with its
      key, in iteration order. */
  function DirectionKeys(): (pairs: seq<(KeyCode, Direction)>)
    ensures |pairs| == |Iter()|
    ensures forall i :: 0 <= i < |pairs| ==> pairs[i] == (Key(Iter()[i]), Iter()[i])
  {
    [(UpKey, Up), (RightKey, Right), (DownKey, Down), (LeftKey, Left)]
  }

  /** Opposite directions have opposite vectors. */
  lemma OppositeVectors()
    ensures Vector(Up) == Scale(Vector(Down), -1.0)
    ensures Vector(Left) == Scale(Vector(Right), -1.0)
  {
  }

  /** Different directions have different vectors and different keys. */
  lemma Injective(a: Direction, b: Direction)
    ensures Vector(a) == Vector(b) <==> a == b
    ensures Key(a) == Key(b) <==> a == b
  {
  }
}
