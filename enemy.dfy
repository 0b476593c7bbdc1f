/** Enemies: they enter at the middle of a screen edge, facing inwards,
    and walk straight ahead. */
module Enemies {
  import opened Constants
  import opened Directions
  import opened Sprites
  import opened Characters
  import opened Resources

  /** One row of the spawn table: facing, spawn point and walking animation. */
  datatype Spawn = Spawn(direction: Direction, x: real, y: real, animation: Animation)

  /** The four ways an enemy can enter: from the top, the bottom, the right
      and the left edge, each at the middle of its edge. */
  function SpawnTable(animations: Animations): (t: seq<Spawn>)
    ensures |t| == 4
  {
    [ Spawn(Down, GameWidth / 2.0, 0.0, animations.enemyBottom),
      Spawn(Up, GameWidth / 2.0, GameHeight, animations.enemyUp),
      Spawn(Left, GameWidth, GameHeight / 2.0, animations.enemyLeft),
      Spawn(Right, 0.0, GameHeight / 2.0, animations.enemyRight) ]
  }

  /** Every row of the spawn table is the middle of a screen edge, facing
      the playfield centre; the four rows face four different ways, and
      each carries the walking animation of its own facing. */
  lemma SpawnTableSpec(animations: Animations)
    ensures var t := SpawnTable(animations);
            && (forall i :: 0 <= i < |t| ==> OnEdge(t[i]) && FacesCentre(t[i]))
            && (forall i, j :: 0 <= i < j < |t| ==> t[i].direction != t[j].direction)
            && (forall i :: 0 <= i < |t| ==> t[i].animation == EnemyAnimation(animations, t[i].direction))
  {
  }

  /** The walking animation of an enemy facing `direction`. */
  function EnemyAnimation(animations: Animations, direction: Direction): Animation {
    match direction
    case Up => animations.enemyUp
    case Down => animations.enemyBottom
    case Left => animations.enemyLeft
    case Right => animations.enemyRight
  }

  /** The spawn point is the middle of one edge of the playfield. */
  predicate OnEdge(s: Spawn) {
    || (s.y == 0.0 && s.x == GameWidth / 2.0)
    || (s.y == GameHeight && s.x == GameWidth / 2.0)
    || (s.x == 0.0 && s.y == GameHeight / 2.0)
    || (s.x == GameWidth && s.y == GameHeight / 2.0)
  }

  /** The facing vector points from the spawn point at the playfield centre:
      it is parallel to the way to the centre and has a positive component
      along it. */
  predicate FacesCentre(s: Spawn) {
    var v := Vector(s.direction);
    var dx := GameWidth / 2.0 - s.x;
    var dy := GameHeight / 2.0 - s.y;
    dx * v.y == dy * v.x && dx * v.x + dy * v.y > 0.0
  }

  class Enemy {
    const character: Character
    const animation: Animation
    var alive: bool

    /** The objects an enemy owns. */
    function Repr(): set<object> {
      {this, character, animation, animation.frameTimer}
    }

    /** This enemy and `other` share none of their objects. */
    predicate Separate(other: Enemy) {
      && this != other
      && character != other.character
      && animation != other.animation
      && animation.frameTimer != other.animation.frameTimer
    }

    /** An enemy of size `w` by `h` entering by row `choice` of the spawn
        table (the engine's random choice, passed in), walking with a copy
        of that row's animation. */
    constructor NewRandom(w: real, h: real, animations: Animations, choice: nat)
      requires choice < 4
      ensures var s := SpawnTable(animations)[choice];
              && character.body == CenteredBody(s.x, s.y, w, h)
              && character.direction == s.direction
              && animation.SameAs(s.animation)
      ensures alive
      ensures fresh(character) && fresh(animation) && fresh(animation.frameTimer)
    {
      var s := SpawnTable(animations)[choice];
      character := new Character(s.x, s.y, w, h, s.direction);
      var walking := s.animation.Clone();
      animation := walking;
      alive := true;
    }

    /** Walks for one frame of `frameTime` seconds and ticks the animation. */
    method Update(now: real, frameTime: real)
      modifies character, animation, animation.frameTimer
      ensures Moved(character, frameTime, EnemySpeed)
      ensures Ticked(animation, now)
      ensures alive == old(alive)
    {
      character.MoveBody(EnemySpeed, frameTime);
      animation.Tick(now);
    }
  }
}
