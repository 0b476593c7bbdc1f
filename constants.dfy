/** The game's tuning constants (the crate root's `pub const`s). */
module Constants {

  /** Width of the playfield, in logical units. */
  const GameWidth: real := 250.0
  /** Height of the playfield, in logical units. */
  const GameHeight: real := 250.0
  /** Movement speed of enemies, in units per second. */
  const EnemySpeed: real := 40.0
  /** Delay between two enemy spawns at the start of a game, in seconds. */
  const InitialSpawnDelay: real := 1.0
  /** Lives the player starts with. */
  const Lives: nat := 3
}
