# Arcade Knight — a Dafny model of the game simulation

Arcade Knight is a small arcade game. A knight stands in the middle of a
250 by 250 playfield and turns with the arrow keys. Holding Space makes it
slash the square in front of it. Enemies enter from the middle of one of
the four screen edges and walk straight towards the centre. An enemy
caught by a slash is killed and scores 10 points. An enemy that touches
the knight costs one of its three lives. Escape ends the game.

This project models the per-frame simulation of the game without its
engine:

- the frame timer;
- sprite animations and the tile grid of a sprite sheet;
- directions, characters, the player and the enemies;
- the life bar;
- the body of the main loop, including the collision pass that decides
  which enemies are killed, which hurt the player and which survive.

The engine's services become parameters:

- the clock (`now`), the frame time and the keys held are a `FrameInput`;
- the spawner's firing and the random row of the spawn table are a boolean
  and an index.

Modules, one per source file:

- `Timers` (src/timers.rs)
- `Sprites` (src/animation.rs)
- `Directions` (src/direction.rs)
- `Characters` (src/character.rs)
- `Players` (src/player.rs)
- `Enemies` (src/enemy.rs)
- `LifeBars` (src/life_bar.rs)
- `ArcadeKnight` (the main loop of src/main.rs)

Supporting modules:

- `Collisions` states the collision pass on plain values.
- `Geometry` holds the engine's rectangles and vectors.
- `Resources` holds the set of template animations.
- `Constants` holds the game constants.
- `Wrappers` holds `Option` and `Result`.

Objects that the game changes in place are classes:

- `Timer`, `Animation`, `Character`, `Player`, `Enemy` and `LifeBar`;
- `Game`, which holds the main loop's local state: score, life bar, player
  and enemy list.

An object that Rust owns by value, and never replaces, is a `const` field.
So a `Game` owns its player, its life bar and, through the enemy list,
every enemy's character, animation and timer. `Game.Valid()` states that
these objects belong to the game and that no two enemies share any of them.

The interfaces between the game's modules take one fixed shape in the
model:

- a character is a body rectangle plus a `Direction`, built from a centre,
  a size and a direction, as `Player::new` and `Enemy::new_random` build
  it;
- the player is built from its size, and `slash_attack` takes the
  animations;
- a timer is `time` and `delay`, and `Animation::restart` restarts its
  frame timer by setting `time` to the current clock reading.

Kills and hits are modelled with `Rect::overlaps`, so two bodies whose
edges only touch do overlap.

## Model

| member | source | states |
|---|---|---|
| `Timers.Timer.FromSeconds` | src/timers.rs:9-14 | a new timer records the current clock reading and the given delay |
| `Timers.Timer.TickAndFinished` | src/timers.rs:17-25 | returns true exactly when strictly more than `delay` has passed since `time`; if so `time` becomes `now`, otherwise nothing changes; `delay` is a constant |
| `Timers.NoCatchUp` | src/timers.rs:19-23 | with a non-negative delay, a second tick at the same instant after a firing does not fire, however late the first one was |
| `Timers.AtMostOncePerInterval` | src/timers.rs:19-23 | after a firing, no tick fires again until more than `delay` has passed |
| `Timers.Timer.Restart` | src/animation.rs:107-110 | the restart that `Animation::restart` calls: the new interval starts at `now` |
| `Sprites.FromGrid` | src/animation.rs:14-34 | refuses a grid whose columns (first) or rows do not fit the sheet, with the game's two panic cases as errors; otherwise builds exactly the row-major tile table `GridTiles`, through the nested loops |
| `Sprites.GridTileAt` | src/animation.rs:25-31 | the tile table has `rows * columns` tiles, and tile `y * columns + x` is the `w` by `h` cell at `(x * w, y * h)` |
| `Sprites.GridSize` | src/animation.rs:25-31 | the tile table has `rows * columns` tiles |
| `Sprites.DrawTileCentered` | src/animation.rs:37-42 | the lookup fails exactly when the index is out of range ("Tile not found"); otherwise it draws that tile with its centre at `(x, y)` |
| `Sprites.Animation.constructor` | src/animation.rs:66-79 | a new animation is at frame 0 with the given tiles, repeat flag and frame delay, and its timer starts now |
| `Sprites.Animation.DrawCurrentCentered` | src/animation.rs:82-87 | only an unfinished animation may be drawn, which puts the frame lookup in bounds; it draws the current frame's tile, and fails only when that tile is not in the sheet |
| `Sprites.NextFrame` | src/animation.rs:90-99 | one tick: no change when the timer does not fire; one frame more when it fires, except that a repeating animation that runs past its end is back at frame 0, so it is never left finished |
| `Sprites.Animation.Tick` | src/animation.rs:90-99 | the cursor moves as `NextFrame` says, and the timer behaves as `TickAndFinished` says; tiles and repeat flag are constants |
| `Sprites.NonRepeatingAdvance` | src/animation.rs:90-104 | a non-repeating animation is `k` frames further after `k` firings; from frame 0 it is finished after exactly `len` firings and stays finished |
| `Sprites.RepeatingNeverFinishes` | src/animation.rs:94-96 | an unfinished repeating animation stays unfinished after any number of firings |
| `Sprites.Animation.Restart` | src/animation.rs:107-110 | back to frame 0, with the frame timer restarted at `now` |
| `Sprites.Animation.Clone` | src/animation.rs:52 | a clone is a new animation, with its own timer, in the same state as the original |
| `Sprites.Animation.IsFinished` | src/animation.rs:102-104 | an animation without frames is always finished, and one at its first frame is finished only when it has no frames |
| `Directions.Iter` | src/direction.rs:15-17 | four directions in the order Up, Right, Down, Left, each exactly once |
| `Directions.Vector` | src/direction.rs:20-31 | every vector has one zero component and the other equal to ±1; only Up points towards negative y (screen-up) |
| `Directions.Key` | src/direction.rs:33-42 | each direction maps to the arrow key of the same name, and each arrow key belongs to that direction only; never Space or Escape |
| `Directions.DirectionKeys` | src/direction.rs:33-42 | the steering key table pairs each direction with its key, in iteration order |
| `Directions.OppositeVectors` | src/direction.rs:22-27 | Up and Down, and Left and Right, have opposite vectors |
| `Directions.Injective` | src/direction.rs:20-42 | the vector table and the key table are both injective |
| `Characters.CenteredBody` | src/character.rs:11-23 | the body has the requested size and its centre is the given point |
| `Characters.Character.constructor` | src/character.rs:11-23 | a new character has the centred body and the given direction |
| `Characters.MovedBody` | src/character.rs:36-38 | moving keeps the body's size; zero speed or zero frame time leaves the body where it is |
| `Characters.MovedBodyIsVectorOffset` | src/character.rs:37 | the move is the body offset by the direction's vector times the frame time times the speed |
| `Characters.Character.MoveBody` | src/character.rs:36-38 | the body moves by `MovedBody` and the direction is kept |
| `Characters.Character.Collide` | src/main.rs:89 | two characters collide exactly when their bodies overlap, whichever of the two asks |
| `Players.Player.constructor` | src/player.rs:19-24 | the player starts centred on the playfield, facing down, not attacking |
| `Players.FirstHeld` | src/player.rs:27-34 | the index of the first held key in the table: no earlier key is held, and the one found is held |
| `Players.SteerSpec` | src/player.rs:27-34 | `Steer` keeps the direction when no arrow key is held; otherwise the new direction's key is held and no direction earlier in iteration order has its key held |
| `Players.Player.UpdateDirection` | src/player.rs:27-34 | the direction becomes `Steer` of the old one and the body does not move |
| `Players.Player.UpdateAnimation` | src/player.rs:37-43 | without an attack nothing happens; with one, it ticks once and is dropped exactly when it is then finished |
| `Players.SlashArea` | src/player.rs:60 | the slash is the body's size, moved one body width or height in the facing direction |
| `Players.AttackAnimation` | src/player.rs:51-56 | the attack template of the facing side: Up→`attack_up`, Down→`attack_bottom`, Left→`attack_left`, Right→`attack_right` |
| `Players.Slash.Kill` | src/player.rs:79-81 | a slash kills an enemy exactly when its area and the enemy's body overlap, whichever of the two is asked |
| `Players.Player.SlashAttack` | src/player.rs:46-61 | the slash is `SlashArea` of the body; the attack becomes a new copy of the facing side's attack animation, restarted at frame 0 with its timer at `now` |
| `Enemies.SpawnTableSpec` | src/enemy.rs:20-25 | four rows, each in the middle of a screen edge, facing the playfield centre, all four facings different, each carrying the walking animation of its own facing (Down→`enemy_bottom`, Up→`enemy_up`, Left→`enemy_left`, Right→`enemy_right`) |
| `Enemies.Enemy.NewRandom` | src/enemy.rs:19-34 | the chosen row decides the new enemy: it has the requested size centred on the spawn point, the row's facing, a copy of the row's animation, and it is alive |
| `Enemies.Enemy.Update` | src/enemy.rs:37-40 | the enemy moves once at the enemy speed and its animation ticks once; `alive` and the direction do not change |
| `LifeBars.LifeBar.constructor` | src/life_bar.rs:11-18 | a new bar has all its lives |
| `LifeBars.Decremented` | src/life_bar.rs:35-37 | a saturating decrement: one less when there are lives left, and zero stays zero |
| `LifeBars.LifeBar.Decrement` | src/life_bar.rs:35-37 | `lives` becomes `Decremented(lives)` and never exceeds `maxLives` |
| `LifeBars.LivesAfter` | src/life_bar.rs:35-37 | after `hits` decrements the bar has `lives - hits` lives, or zero when `hits` is larger |
| `LifeBars.EmptyAfterMaxLivesHits` | src/life_bar.rs:35-41 | a full bar is empty exactly once it has taken at least `maxLives` hits |
| `LifeBars.LifeBar.Hearts` | src/life_bar.rs:21-33 | the bar draws `maxLives` hearts; heart `i` is full exactly when `i < lives` |
| `LifeBars.LifeBar.IsEmpty` | src/life_bar.rs:39-41 | the bar is empty exactly when one more hit would not change it |
| `Collisions.FateOf` | src/main.rs:84-94 | an enemy is killed exactly when the frame's slash overlaps it; it hurts the player exactly when it is not killed and touches the player; kill takes precedence; without a slash nothing is killed |
| `Collisions.KeepSpec` | src/main.rs:84-94 | the survivors are exactly the enemies at the surviving positions, in their original order |
| `Collisions.SurvivorIndicesSpec` | src/main.rs:84-94 | the surviving positions are in range, strictly increasing, contain exactly the enemies whose fate is to survive, and there are as many as survivors |
| `Collisions.CountsAddUp` | src/main.rs:84-94 | every enemy meets exactly one fate: kills, hits and survivors add up to the number of enemies |
| `Collisions.CountZero` | src/main.rs:84-94 | no enemy meets a fate exactly when that fate's count is zero |
| `Collisions.NoAttackNoKills` | src/main.rs:75-88 | in a frame without a slash no enemy is killed, so the score does not change |
| `ArcadeKnight.AttackOf` | src/main.rs:75-79 | a frame has a slash exactly when Space is held, and it is the player's `SlashArea` |
| `ArcadeKnight.Game.constructor` | src/main.rs:59-64 | the game starts with score 0, `LIVES` lives, the player centred and facing down, no enemies, and a spawner built with the initial spawn delay |
| `ArcadeKnight.Game.Frame` | src/main.rs:73-94 | one pass of the loop: the player turns by `Steer`; an attack is started exactly when Space is held, and otherwise the attack animation in progress is untouched and the score does not change; a spawned enemy is appended after the existing ones, from its spawn-table row, has already taken its first step when the collision pass checks it, and its animation is a copy of the row's template ticked once; every enemy that was there before moves and ticks once; then the enemy list becomes the survivors in order, the score grows by 10 per kill, and the life bar loses one life per hit |
| `ArcadeKnight.Game.Step` | src/main.rs:68-94 | one turn of the loop: it quits exactly when Escape is held, and then nothing of the game changes; otherwise it does what `Frame` does; either way the score does not drop, it is unchanged when Space is not held, and no life comes back |
| `ArcadeKnight.Game.Prepare` | src/main.rs:73-81 | the first half of a pass: turn, attack if Space is held, append the spawned enemy with its row's position, facing and a copy of its row's animation; the enemies already there are untouched |
| `ArcadeKnight.Game.MoveAndResolve` | src/main.rs:82-94 | the second half: every enemy moves and ticks, then the collision pass runs over the moved bodies; the player is untouched |
| `ArcadeKnight.Game.Attack` | src/main.rs:75-79 | the slash of the player's `SlashAttack`, with the attack animation now part of the game |
| `ArcadeKnight.Game.SpawnEnemy` | src/main.rs:81 | the new enemy from `NewRandom` joins the end of the list, alive, centred on its row's spawn point, with the row's facing and a copy of the row's animation in the same state; the game owns its objects |
| `ArcadeKnight.Game.UpdateEnemies` | src/main.rs:82 | every enemy, in order, moves and ticks exactly once, through a loop; nothing of the player or the life bar changes |
| `ArcadeKnight.Game.ResolveCollisions` | src/main.rs:84-94 | the enemy list becomes `Keep` of the fates; the score grows by 10 times the kills; the lives drop by the hits, saturating |
| `ArcadeKnight.Game.ResolveEach` | src/main.rs:84-94 | the loop behind `retain`: the enemies kept, the score and the lives match the fates of all enemies, one enemy at a time |
| `ArcadeKnight.Game.ResolveOne` | src/main.rs:85-93 | one enemy: a kill scores 10, otherwise touching the player costs a life, and the enemy stays only when neither happens |
| `ArcadeKnight.Game.Run` | src/main.rs:68-94 | the loop plays one `Step` per input and stops at the first frame with Escape held, or when the inputs run out; no frame before that one had Escape held; the player then faces as steering through every played frame's keys in turn leaves it (`Facing`); the score never decreases, and it is unchanged when no played frame held Space; lives are never regained |
| `ArcadeKnight.FirstHoldingSpec` | src/main.rs:68-71 | the frame where the loop stops is the first input, from a given one on, with the key held: no input before it holds the key, and it holds the key unless the inputs ran out |

## Left out

- Drawing is not modelled: textures, the render target, `draw` methods, the score text and the window configuration. The model keeps only which tile is drawn and where, and the precondition of `draw_current_centered`.
- `ScreenDrawer`, the texture loading of `Textures::load` and the inline `load_scalable_texture` calls, and `load_text_params` are not modelled. `Resources.Animations` is the set of eight template animations that `slash_attack` and `new_random` copy from. It is known only from those uses, and the model builds it from eight animations passed in.
- The `Spawner` type is not modelled. Whether it fires in a frame is a `FrameInput` field, and the random choice of the spawn row is an index below 4.
- `Spawner::new(INITIAL_SPAWN_DELAY)` is modelled only as the recorded delay `spawnDelay`, which nothing reads.
- The frame time and the key state come in as `FrameInput` fields. Seeding the random generator from the system clock is not modelled.
- The clock is one reading, `FrameInput.now`, for the whole frame. The engine's `get_time` reads the wall clock at each call, so the enemies' animation ticks and the attack's restart may see slightly different times within one frame. The model does not capture those differences.
- `Player::update_animation` is modelled as `Players.Player.UpdateAnimation`. The main loop does not call it, so `Frame` does not either.
- `DIRECTION_KEYS` is modelled as `Directions.DirectionKeys`: the directions in iteration order, each paired with its arrow key. `direction.side`, `direction.vector` and `direction.tile_index` are modelled as the `Direction` itself, as `Vector`, and not at all (the tile index is used only for drawing).
- `Character::position` is used only for drawing, so it is left out.
- `Characters.Character.Collide`: `Character::collide`, which the collision pass calls, is modelled as `Rect::overlaps` of the two bodies, edges included.
- The engine's `Rect::overlaps` and `Rect::offset` are written out in `Geometry`, as an assumption about the engine. The symmetry that the contracts of `Players.Slash.Kill` and `Characters.Character.Collide` state follows from that written-out definition. The game itself always tests in one fixed order.
- Coordinates and times are exact reals. f32 and f64 rounding is not modelled.
- `Game.score` is unbounded. The game's `u32` score could overflow after about 429 million kills, and the model does not capture that.
- `Timers.Timer`: `delay` is a constant. The field is public, but no code of the game writes it after construction.
- `Sprites.TextureAtlas`: the texture handle and its `Rc` sharing are not modelled. Only the tile table is kept.
- `Characters.Character.constructor` takes the size as numbers rather than reading it from a texture.
- `ArcadeKnight.Game.Frame`: the contract does not restate that the spawned enemy is alive, because nothing in the game reads `alive`. It also does not say that the removed enemies' objects leave the game's footprint. `Repr` keeps them, as unreachable objects.
- `ArcadeKnight.Game.Step`: when it does not quit, it restates `Frame`'s contract, with the same omissions.
