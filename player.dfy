/** The player: a character in the middle of the screen that turns with
    the arrow keys and slashes in front of itself. */
module Players {
  import opened Wrappers
  import opened Geometry
  import opened Constants
  import opened Directions
  import opened Sprites
  import opened Characters
  import opened Resources
  import opened Enemies

  /** A slash attack: the area it sweeps. */
  datatype Slash = Slash(area: Rect) {

    /** Whether the slash kills `enemy`: the area overlaps its body, which
        is the same as the body overlapping the area. */
    predicate Kill(enemy: Enemy): (r: bool)
      reads enemy.character
      ensures r <==> enemy.character.body.Overlaps(area)
    {
      area.Overlaps(enemy.character.body)
    }
  }

  /** Index of the first pair in `pairs` whose key is held, or `|pairs|`
      when none is. */
  function FirstHeld(pairs: seq<(KeyCode, Direction)>, held: set<KeyCode>): (i: nat)
    ensures i <= |pairs|
    ensures forall j :: 0 <= j < i ==> pairs[j].0 !in held
    ensures i < |pairs| ==> pairs[i].0 in held
  {
    if |pairs| == 0 then 0
    else if pairs[0].0 in held then 0
    else 1 + FirstHeld(pairs[1..], held)
  }

  /** The direction the player faces after reading the keys: the direction
      of the first held key of the steering table, or `current` when none
      is held. */
  function Steer(current: Direction, held: set<KeyCode>): Direction {
    var pairs := DirectionKeys();
    var i := FirstHeld(pairs, held);
    if i < |pairs| then pairs[i].1 else current
  }

  /** `Steer` picks the first direction in iteration order whose arrow key
      is held, and keeps `current` when no arrow key is held. */
  lemma SteerSpec(current: Direction, held: set<KeyCode>)
    ensures (forall d: Direction :: Key(d) !in held) ==> Steer(current, held) == current
    ensures (exists d: Direction :: Key(d) in held) ==>
              var r := Steer(current, held);
              Key(r) in held && forall d: Direction :: Rank(d) < Rank(r) ==> Key(d) !in held
  {
    var pairs := DirectionKeys();
    assert forall d: Direction :: pairs[Rank(d)] == (Key(d), d);
  }

  /** The area swept by a slash: the body moved one body-size forward. */
  function SlashArea(body: Rect, direction: Direction): (r: Rect)
    ensures r.w == body.w && r.h == body.h
    ensures direction == Up ==> r.x == body.x && r.y == body.y - body.h
    ensures direction == Down ==> r.x == body.x && r.y == body.y + body.h
    ensures direction == Left ==> r.y == body.y && r.x == body.x - body.w
    ensures direction == Right ==> r.y == body.y && r.x == body.x + body.w
  {
    body.Offset(Mul(Vector(direction), body.Size()))
  }

  /** The attack animation for a facing direction. */
  function AttackAnimation(animations: Animations, direction: Direction): (a: Animation)
    ensures direction == Up ==> a == animations.attackUp
    ensures direction == Down ==> a == animations.attackBottom
    ensures direction == Left ==> a == animations.attackLeft
    ensures direction == Right ==> a == animations.attackRight
  {
    match direction
    case Up => animations.attackUp
    case Down => animations.attackBottom
    case Left => animations.attackLeft
    case Right => animations.attackRight
  }

  class Player {
    const character: Character
    /** The attack animation being played, if any. */
    var attacking: Option<Animation>

    /** The objects of the attack animation being played. */
    function AttackingObjects(): set<object>
      reads this
    {
      if attacking.Some? then {attacking.value, attacking.value.frameTimer} else {}
    }

    /** A `w` by `h` player in the middle of the playfield, facing down,
        not attacking. */
    constructor (w: real, h: real)
      ensures character.body == CenteredBody(GameWidth / 2.0, GameHeight / 2.0, w, h)
      ensures character.direction == Down
      ensures attacking == None
      ensures fresh(character)
    {
      character := new Character(GameWidth / 2.0, GameHeight / 2.0, w, h, Down);
      attacking := None;
    }

    /** The player shares no object with `enemy`. */
    predicate Spares(enemy: Enemy)
      reads this
    {
      && character != enemy.character
      && (attacking.Some? ==>
            attacking.value != enemy.animation && attacking.value.frameTimer != enemy.animation.frameTimer)
    }

    /** Faces the first held arrow key; keeps the direction when none is held. */
    method UpdateDirection(held: set<KeyCode>)
      modifies character
      ensures character.direction == Steer(old(character.direction), held)
      ensures character.body == old(character.body)
    {
      var pairs := DirectionKeys();
      var i := FirstHeld(pairs, held);
      if i < |pairs| {
        character.direction := pairs[i].1;
      }
    }

    /** Plays the attack animation, if any, for one tick and drops it once
        it is finished. */
    method UpdateAnimation(now: real)
      modifies this, AttackingObjects()
      ensures old(attacking).None? ==> attacking == None
      ensures old(attacking).Some? ==>
                var a := old(attacking).value;
                && Ticked(a, now)
                && attacking == (if a.IsFinished() then None else Some(a))
    {
      if attacking.Some? {
        var a := attacking.value;
        a.Tick(now);
        if a.IsFinished() {
          attacking := None;
        }
      }
    }

    /** Starts the attack animation of the facing direction from its first
        frame, timed from `now`, and returns the slash it sweeps. Neither the
        body nor the direction changes. */
    method SlashAttack(animations: Animations, now: real) returns (slash: Slash)
      modifies this
      ensures slash == Slash(SlashArea(character.body, character.direction))
      ensures attacking.Some? && fresh(attacking.value) && fresh(attacking.value.frameTimer)
      ensures Restarted(attacking.value, AttackAnimation(animations, character.direction), now)
    {
      var template := AttackAnimation(animations, character.direction);
      var a := template.Clone();
      a.Restart(now);
      attacking := Some(a);
      slash := Slash(SlashArea(character.body, character.direction));
    }
  }

  /** `a` is `template` restarted at `now`: same frames and frame delay, at
      its first frame, with its timer reset to `now`. */
  predicate Restarted(a: Animation, template: Animation, now: real)
    reads a, a.frameTimer
  {
    && a.atlas == template.atlas
    && a.tileIndexes == template.tileIndexes
    && a.repeating == template.repeating
    && a.currentFrame == 0
    && a.frameTimer.time == now
    && a.frameTimer.delay == template.frameTimer.delay
  }
}
