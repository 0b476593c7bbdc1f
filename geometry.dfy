/** The plain-value geometry the game takes from its engine: 2-D vectors and
    axis-aligned rectangles given by their top-left corner and their size.
    Coordinates are exact reals; the engine's f32 rounding is not modelled.
    `Offset` and `Overlaps` are the engine's definitions, written out here
    as an assumption about the engine. */
module Geometry {

  datatype Vec2 = Vec2(x: real, y: real)

  /** Component-wise product, the engine's `Vec2 * Vec2`. */
  function Mul(a: Vec2, b: Vec2): Vec2 {
    Vec2(a.x * b.x, a.y * b.y)
  }

  /** The engine's `Vec2 * f32`. */
  function Scale(v: Vec2, s: real): Vec2 {
    Vec2(v.x * s, v.y * s)
  }

  datatype Rect = Rect(x: real, y: real, w: real, h: real) {

    function Size(): Vec2 {
      Vec2(w, h)
    }

    /** The same rectangle moved by `v` (the engine's `Rect::offset`). */
    function Offset(v: Vec2): Rect {
      Rect(x + v.x, y + v.y, w, h)
    }

    /** The engine's `Rect::overlaps`: edges are compared inclusively. */
    predicate Overlaps(other: Rect) {
      && x <= other.x + other.w
      && x + w >= other.x
      && y <= other.y + other.h
      && y + h >= other.y
    }
  }
}
