/** A character: a rectangular body (its hit-box) and the direction it faces. */
module Characters {
  import opened Geometry
  import opened Directions

  /** The `w` by `h` body whose centre is `(x, y)`. */
  function CenteredBody(x: real, y: real, w: real, h: real): (r: Rect)
    ensures r.w == w && r.h == h
    ensures r.x + r.w / 2.0 == x && r.y + r.h / 2.0 == y
  {
    Rect(x - w / 2.0, y - h / 2.0, w, h)
  }

  /** `body` after one frame of `frameTime` seconds at `speed` units per
      second towards `direction`: same size, moved `frameTime * speed`
      along the facing axis only (the y axis grows downwards). */
  function MovedBody(body: Rect, direction: Direction, frameTime: real, speed: real): (r: Rect)
    ensures r.w == body.w && r.h == body.h
    ensures speed == 0.0 || frameTime == 0.0 ==> r == body
  {
    var d := frameTime * speed;
    match direction
    case Up => Rect(body.x, body.y - d, body.w, body.h)
    case Down => Rect(body.x, body.y + d, body.w, body.h)
    case Left => Rect(body.x - d, body.y, body.w, body.h)
    case Right => Rect(body.x + d, body.y, body.w, body.h)
  }

  /** `MovedBody` is the displacement the game computes: the body offset by
      the facing direction's unit vector scaled by `frameTime`, then by
      `speed`. */
  lemma MovedBodyIsVectorOffset(body: Rect, direction: Direction, frameTime: real, speed: real)
    ensures MovedBody(body, direction, frameTime, speed) == body.Offset(Scale(Scale(Vector(direction), frameTime), speed))
  {
  }

  class Character {
    var body: Rect
    var direction: Direction

    /** A character of size `w` by `h` centred on `(x, y)`. */
    constructor (x: real, y: real, w: real, h: real, direction: Direction)
      ensures body == CenteredBody(x, y, w, h) && this.direction == direction
    {
      body := CenteredBody(x, y, w, h);
      this.direction := direction;
    }

    /** Moves the body for one frame of `frameTime` seconds at `speed`. */
    method MoveBody(speed: real, frameTime: real)
      modifies this
      ensures Moved(this, frameTime, speed)
    {
      body := body.Offset(Scale(Scale(Vector(direction), frameTime), speed));
    }

    /** Whether the two bodies overlap; it does not matter which of the
        two asks. */
    predicate Collide(other: Character): (r: bool)
      reads this, other
      ensures r <==> other.body.Overlaps(body)
    {
      body.Overlaps(other.body)
    }
  }

  /** What one `MoveBody(speed, frameTime)` does to `c`: the body moves by
      `MovedBody` and the direction is kept. */
  twostate predicate Moved(c: Character, frameTime: real, speed: real)
    reads c
  {
    c.body == MovedBody(old(c.body), old(c.direction), frameTime, speed) && c.direction == old(c.direction)
  }
}
