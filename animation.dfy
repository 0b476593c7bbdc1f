/** Sprite sheets cut into a grid of tiles, and frame-by-frame animations
    over those tiles driven by a timer. Drawing itself is left to the
    engine; what is kept is which tile is drawn and where. */
module Sprites {
  import opened Wrappers
  import opened Geometry
  import opened Timers

  /** The tiles of a sprite sheet; the texture handle itself is not modelled. */
  datatype TextureAtlas = TextureAtlas(tiles: seq<Rect>)

  /** Why `FromGrid` refuses a grid (the game panics with these messages). */
  datatype GridError = TooManyColumns | TooManyRows

  /** The tiles of grid row `y`, left to right. */
  function GridRow(y: nat, columns: nat, w: real, h: real): seq<Rect> {
    seq(columns, x => Rect(x as real * w, y as real * h, w, h))
  }

  /** The tiles of the first `rows` rows of a grid, row after row. */
  function GridTiles(columns: nat, rows: nat, w: real, h: real): seq<Rect>
    decreases rows
  {
    if rows == 0 then [] else GridTiles(columns, rows - 1, w, h) + GridRow(rows - 1, columns, w, h)
  }

  /** Row-major layout: the grid has `rows * columns` tiles, and tile
      `y * columns + x` is the `w` by `h` cell at `(x * w, y * h)`. */
  lemma {:induction false} GridTileAt(columns: nat, rows: nat, w: real, h: real, x: nat, y: nat)
    requires x < columns && y < rows
    ensures |GridTiles(columns, rows, w, h)| == rows * columns
    ensures y * columns + x < rows * columns
    ensures GridTiles(columns, rows, w, h)[y * columns + x] == Rect(x as real * w, y as real * h, w, h)
  {
    GridSize(columns, rows, w, h);
    var prefix := GridTiles(columns, rows - 1, w, h);
    GridSize(columns, rows - 1, w, h);
    if y < rows - 1 {
      GridTileAt(columns, rows - 1, w, h, x, y);
      assert y * columns + x < (rows - 1) * columns;
    } else {
      assert y * columns + x == |prefix| + x;
    }
  }

  lemma {:induction false} GridSize(columns: nat, rows: nat, w: real, h: real)
    ensures |GridTiles(columns, rows, w, h)| == rows * columns
  {
    if rows > 0 {
      GridSize(columns, rows - 1, w, h);
    }
  }

  /** Cuts a `width` by `height` sheet into `columns` by `rows` tiles of size
      `w` by `h`, refusing a grid that does not fit the sheet. */
  method FromGrid(width: real, height: real, w: real, h: real, columns: nat, rows: nat)
    returns (r: Result<TextureAtlas, GridError>)
    ensures !(columns as real * w <= width) ==> r == Failure(TooManyColumns)
    ensures columns as real * w <= width && !(rows as real * h <= height) ==> r == Failure(TooManyRows)
    ensures columns as real * w <= width && rows as real * h <= height ==>
              r == Success(TextureAtlas(GridTiles(columns, rows, w, h)))
  {
    if !(columns as real * w <= width) {
      return Failure(TooManyColumns);
    }
    if !(rows as real * h <= height) {
      return Failure(TooManyRows);
    }
    var tiles: seq<Rect> := [];
    for y := 0 to rows
      invariant tiles == GridTiles(columns, y, w, h)
    {
      for x := 0 to columns
        invariant tiles == GridTiles(columns, y, w, h) + GridRow(y, columns, w, h)[..x]
      {
        assert GridRow(y, columns, w, h)[..x + 1] == GridRow(y, columns, w, h)[..x] + [GridRow(y, columns, w, h)[x]];
        assert GridRow(y, columns, w, h)[x] == Rect(x as real * w, y as real * h, w, h);
        tiles := tiles + [Rect(x as real * w, y as real * h, w, h)];
      }
    }
    return Success(TextureAtlas(tiles));
  }

  /** Where the engine draws one tile: the source rectangle in the sheet and
      the top-left corner on screen. */
  datatype TileDraw = TileDraw(source: Rect, x: real, y: real)

  /** Draws tile `index` centred on `(x, y)`; `None` is the game's
      "Tile not found" panic. */
  function DrawTileCentered(atlas: TextureAtlas, index: nat, x: real, y: real): (r: Option<TileDraw>)
    ensures r.None? <==> index >= |atlas.tiles|
    ensures r.Some? ==> r.value.source == atlas.tiles[index]
    ensures r.Some? ==> r.value.x + r.value.source.w / 2.0 == x && r.value.y + r.value.source.h / 2.0 == y
  {
    if index < |atlas.tiles| then
      var tile := atlas.tiles[index];
      Some(TileDraw(tile, x - tile.w / 2.0, y - tile.h / 2.0))
    else
      None
  }

  /** The frame cursor after one tick of an animation with `len` frames:
      one frame further when the timer `fired`, back to the first frame
      when a repeating animation runs past its end. */
  function NextFrame(frame: nat, len: nat, repeating: bool, fired: bool): (r: nat)
    ensures !fired ==> r == frame
    ensures fired && !repeating ==> r == frame + 1
    ensures fired && repeating ==> r == frame + 1 || r == 0
    ensures fired && repeating && frame + 1 < len ==> r == frame + 1
    ensures fired && repeating && frame + 1 >= len ==> r == 0
    ensures fired && repeating && len > 0 ==> r < len
  {
    if !fired then frame
    else if repeating && frame + 1 >= len then 0
    else frame + 1
  }

  /** The frame cursor after `k` ticks that all fired. */
  function Advance(frame: nat, len: nat, repeating: bool, k: nat): nat
    decreases k
  {
    if k == 0 then frame else Advance(NextFrame(frame, len, repeating, true), len, repeating, k - 1)
  }

  /** A non-repeating animation is `k` frames further after `k` firings:
      from a restart it is finished after exactly `len` firings and stays
      finished afterwards. */
  lemma {:induction false} NonRepeatingAdvance(frame: nat, len: nat, k: nat)
    ensures Advance(frame, len, false, k) == frame + k
    ensures frame == 0 ==> (Advance(frame, len, false, k) >= len <==> k >= len)
    decreases k
  {
    if k > 0 {
      NonRepeatingAdvance(frame + 1, len, k - 1);
    }
  }

  /** A repeating animation that is not finished never becomes finished,
      however many times its timer fires. */
  lemma {:induction false} RepeatingNeverFinishes(frame: nat, len: nat, k: nat)
    requires frame < len
    ensures Advance(frame, len, true, k) < len
    decreases k
  {
    if k > 0 {
      RepeatingNeverFinishes(NextFrame(frame, len, true, true), len, k - 1);
    }
  }

  class Animation {
    /** The sheet the frames are cut from (shared, never modified). */
    const atlas: TextureAtlas
    /** Tile of each frame, in playing order. */
    const tileIndexes: seq<nat>
    /** Index of the current frame; `|tileIndexes|` and beyond is finished. */
    var currentFrame: nat
    /** Times the frames. */
    const frameTimer: Timer
    /** Whether the animation starts over when it runs past its last frame. */
    const repeating: bool

    /** A new animation at its first frame, timed from `now`. */
    constructor (atlas: TextureAtlas, tileIndexes: seq<nat>, frameSeconds: real, repeating: bool, now: real)
      ensures this.atlas == atlas && this.tileIndexes == tileIndexes && this.repeating == repeating
      ensures currentFrame == 0
      ensures fresh(frameTimer) && frameTimer.time == now && frameTimer.delay == frameSeconds
    {
      this.atlas := atlas;
      this.tileIndexes := tileIndexes;
      this.repeating := repeating;
      frameTimer := new Timer.FromSeconds(frameSeconds, now);
      currentFrame := 0;
    }

    /** Whether the cursor is past the last frame. An animation without
        frames is always finished; one at its first frame is finished only
        when it has no frames. */
    predicate IsFinished(): (r: bool)
      reads this
      ensures |tileIndexes| == 0 ==> r
      ensures currentFrame == 0 ==> (r <==> |tileIndexes| == 0)
    {
      currentFrame >= |tileIndexes|
    }

    /** Draws the current frame centred on `(x, y)`. The game refuses to
        draw a finished animation, which keeps the frame lookup in bounds. */
    function DrawCurrentCentered(x: real, y: real): (r: Option<TileDraw>)
      reads this
      requires !IsFinished()
      ensures currentFrame < |tileIndexes|
      ensures r.None? <==> tileIndexes[currentFrame] >= |atlas.tiles|
      ensures r.Some? ==> r.value.source == atlas.tiles[tileIndexes[currentFrame]]
    {
      DrawTileCentered(atlas, tileIndexes[currentFrame], x, y)
    }

    /** A copy with its own timer (`#[derive(Clone)]`). */
    method Clone() returns (c: Animation)
      ensures fresh(c) && fresh(c.frameTimer)
      ensures c.SameAs(this)
    {
      c := new Animation(atlas, tileIndexes, frameTimer.delay, repeating, frameTimer.time);
      c.currentFrame := currentFrame;
    }

    /** Whether this animation is in the same state as `other`. */
    predicate SameAs(other: Animation)
      reads this, other, frameTimer, other.frameTimer
    {
      && atlas == other.atlas
      && tileIndexes == other.tileIndexes
      && currentFrame == other.currentFrame
      && repeating == other.repeating
      && frameTimer.time == other.frameTimer.time
      && frameTimer.delay == other.frameTimer.delay
    }

    /** Advances the cursor when the frame timer fires at `now`. */
    method Tick(now: real)
      modifies this, frameTimer
      ensures Ticked(this, now)
    {
      var fired := frameTimer.TickAndFinished(now);
      if fired {
        currentFrame := currentFrame + 1;
        if repeating && IsFinished() {
          Restart(now);
        }
      }
    }

    /** Back to the first frame, with the frame timer restarted at `now`. */
    method Restart(now: real)
      modifies this, frameTimer
      ensures currentFrame == 0
      ensures frameTimer.time == now
    {
      currentFrame := 0;
      frameTimer.Restart(now);
    }
  }

  /** What one `Tick(now)` does to `a`: the cursor moves by `NextFrame` when
      the timer fires, and the timer is reset then. */
  twostate predicate Ticked(a: Animation, now: real)
    reads a, a.frameTimer
  {
    var fired := Fires(old(a.frameTimer.time), a.frameTimer.delay, now);
    && a.currentFrame == NextFrame(old(a.currentFrame), |a.tileIndexes|, a.repeating, fired)
    && a.frameTimer.time == (if fired then now else old(a.frameTimer.time))
  }

  /** `a` is a copy of `template` as it was in the old state, ticked once
      at `now`: what `Clone` followed by `Tick(now)` makes of it. */
  twostate predicate TickedCopy(new a: Animation, template: Animation, now: real)
    reads a, a.frameTimer
  {
    var fired := Fires(old(template.frameTimer.time), template.frameTimer.delay, now);
    && a.atlas == template.atlas
    && a.tileIndexes == template.tileIndexes
    && a.repeating == template.repeating
    && a.frameTimer.delay == template.frameTimer.delay
    && a.currentFrame == NextFrame(old(template.currentFrame), |template.tileIndexes|, template.repeating, fired)
    && a.frameTimer.time == (if fired then now else old(template.frameTimer.time))
  }
}
