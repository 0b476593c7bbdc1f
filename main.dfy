/** The game loop: one call of `Frame` is one pass of the game's main
    loop, with the engine's clock, keyboard, spawner and random choice
    passed in as a `FrameInput`. The loop's local state (score, life bar,
    player, enemies) is the state of a `Game`. */
module ArcadeKnight {
  import opened Wrappers
  import opened Geometry
  import opened Constants
  import opened Directions
  import opened Sprites
  import opened Characters
  import opened Resources
  import opened Enemies
  import opened Players
  import opened LifeBars
  import opened Collisions

  /** What the engine reports for one frame: the keys held down, the clock,
      the frame's duration, whether the spawner fires and which spawn-table
      row the random choice picks. */
  datatype FrameInput = FrameInput(held: set<KeyCode>, now: real, frameTime: real, spawns: bool, spawnChoice: nat)

  /** The slash of a frame: there is one exactly when Space is held, swept
      from the player's body in the player's direction. */
  function AttackOf(held: set<KeyCode>, body: Rect, direction: Direction): (a: Option<Slash>)
    ensures a.Some? <==> Space in held
    ensures a.Some? ==> a.value.area == SlashArea(body, direction)
  {
    if Space in held then Some(Slash(SlashArea(body, direction))) else None
  }

  /** The direction the player faces after steering through `inputs`,
      starting from `d`. */
  function Facing(d: Direction, inputs: seq<FrameInput>): Direction {
    if |inputs| == 0 then d else Steer(Facing(d, inputs[..|inputs| - 1]), inputs[|inputs| - 1].held)
  }

  /** The index of the first of `inputs`, from `from` on, in which `key` is
      held, or `|inputs|` when there is none. */
  function FirstHolding(key: KeyCode, inputs: seq<FrameInput>, from: nat): nat
    requires from <= |inputs|
    decreases |inputs| - from
  {
    if from == |inputs| || key in inputs[from].held then from else FirstHolding(key, inputs, from + 1)
  }

  /** `FirstHolding` finds the first input from `from` on that holds `key`. */
  lemma {:induction false} FirstHoldingSpec(key: KeyCode, inputs: seq<FrameInput>, from: nat)
    requires from <= |inputs|
    ensures from <= FirstHolding(key, inputs, from) <= |inputs|
    ensures forall i :: from <= i < FirstHolding(key, inputs, from) ==> key !in inputs[i].held
    ensures FirstHolding(key, inputs, from) < |inputs| ==> key in inputs[FirstHolding(key, inputs, from)].held
    decreases |inputs| - from
  {
    if from < |inputs| && key !in inputs[from].held {
      FirstHoldingSpec(key, inputs, from + 1);
    }
  }

  class Game {
    var score: nat
    const lifeBar: LifeBar
    const player: Player
    var enemies: seq<Enemy>
    /** The animations every attack and every enemy copies. */
    const animations: Animations
    /** The delay the spawner was built with. */
    const spawnDelay: real
    /** Size of an enemy (its texture's size). */
    const enemyWidth: real
    const enemyHeight: real

    /** The objects the game owns and a frame may change. */
    ghost var Repr: set<object>

    /** The game owns its life bar, its player and its enemies; the life bar
        is consistent; and every enemy owns its objects alone. */
    ghost predicate Valid()
      reads this, player, lifeBar
    {
      && {this, lifeBar, player, player.character} <= Repr
      && player.AttackingObjects() <= Repr
      && lifeBar.Valid()
      && (forall i :: 0 <= i < |enemies| ==> enemies[i].Repr() <= Repr)
      && (forall i, j :: 0 <= i < j < |enemies| ==> enemies[i].Separate(enemies[j]))
      && (forall i :: 0 <= i < |enemies| ==> player.Spares(enemies[i]))
    }

    /** The state before the first frame: no score, all lives, the player
        in the middle, no enemy, and a spawner with the initial delay. */
    constructor (animations: Animations, playerWidth: real, playerHeight: real, enemyWidth: real, enemyHeight: real)
      ensures Valid()
      ensures score == 0 && enemies == [] && spawnDelay == InitialSpawnDelay
      ensures lifeBar.maxLives == Lives && lifeBar.lives == Lives
      ensures player.character.body == CenteredBody(GameWidth / 2.0, GameHeight / 2.0, playerWidth, playerHeight)
      ensures player.character.direction == Down && player.attacking == None
      ensures this.animations == animations && this.enemyWidth == enemyWidth && this.enemyHeight == enemyHeight
      ensures fresh(lifeBar) && fresh(player) && fresh(player.character)
    {
      score := 0;
      lifeBar := new LifeBar(Lives);
      player := new Player(playerWidth, playerHeight);
      enemies := [];
      spawnDelay := InitialSpawnDelay;
      this.animations := animations;
      this.enemyWidth := enemyWidth;
      this.enemyHeight := enemyHeight;
      new;
      Repr := {this, lifeBar, player, player.character};
    }

    /** One pass of the main loop once Escape is found not held: the
        player turns, attacks when Space is held, a spawned enemy joins the
        end of the list, every enemy (the new one included) moves and
        animates, and then each enemy in turn is killed by the slash (10
        points), or costs a life when it touches the player, or survives, in
        its original order. `candidates` are the enemies the collision pass
        ran over and `bodies` their bodies. */
    method Frame(input: FrameInput) returns (ghost candidates: seq<Enemy>, ghost bodies: seq<Rect>)
      requires Valid()
      requires input.spawnChoice < 4
      modifies Repr
      ensures Valid() && fresh(Repr - old(Repr))
      ensures player.character.direction == Steer(old(player.character.direction), input.held)
      ensures player.character.body == old(player.character.body)
      ensures Space in input.held ==>
                && player.attacking.Some? && fresh(player.attacking.value)
                && Restarted(player.attacking.value, AttackAnimation(animations, player.character.direction), input.now)
      ensures Space !in input.held ==>
                && player.attacking == old(player.attacking)
                && (player.attacking.Some? ==> unchanged(player.attacking.value, player.attacking.value.frameTimer))
      ensures Space !in input.held ==> score == old(score)
      ensures |candidates| == |old(enemies)| + (if input.spawns then 1 else 0)
      ensures candidates[..|old(enemies)|] == old(enemies)
      ensures |bodies| == |candidates|
      ensures forall k :: 0 <= k < |candidates| ==> candidates[k].character.body == bodies[k]
      ensures forall k :: 0 <= k < |old(enemies)| ==>
                && Moved(old(enemies)[k].character, input.frameTime, EnemySpeed)
                && Ticked(old(enemies)[k].animation, input.now)
      ensures input.spawns ==>
                var e := candidates[|old(enemies)|];
                var s := SpawnTable(animations)[input.spawnChoice];
                && fresh(e)
                && e.character.direction == s.direction
                && e.character.body == MovedBody(CenteredBody(s.x, s.y, enemyWidth, enemyHeight), s.direction, input.frameTime, EnemySpeed)
                && TickedCopy(e.animation, s.animation, input.now)
      ensures var attack := AttackOf(input.held, player.character.body, player.character.direction);
              var fates := Fates(attack, player.character.body, bodies);
              && enemies == Keep(candidates, fates)
              && score == old(score) + 10 * Count(fates, Killed)
              && lifeBar.lives == LivesAfter(old(lifeBar.lives), Count(fates, Hurt))
    {
      var attack := Prepare(input);
      candidates := enemies;
      label prepared:
      bodies := MoveAndResolve(input.now, input.frameTime, attack);
      forall k | 0 <= k < |old(enemies)|
        ensures Moved(old(enemies)[k].character, input.frameTime, EnemySpeed)
        ensures Ticked(old(enemies)[k].animation, input.now)
      {
        var e := candidates[k];
        assert e == old(enemies)[k];
        assert Moved@prepared(e.character, input.frameTime, EnemySpeed);
        assert Ticked@prepared(e.animation, input.now);
      }
      if input.spawns {
        var e := candidates[|old(enemies)|];
        var s := SpawnTable(animations)[input.spawnChoice];
        assert old@prepared(e.character.body) == CenteredBody(s.x, s.y, enemyWidth, enemyHeight);
        assert old@prepared(e.character.direction) == s.direction;
        assert Moved@prepared(e.character, input.frameTime, EnemySpeed);
        assert e.character.body == MovedBody(CenteredBody(s.x, s.y, enemyWidth, enemyHeight), s.direction, input.frameTime, EnemySpeed);
        assert Ticked@prepared(e.animation, input.now);
        assert old@prepared(e.animation.SameAs(s.animation));
        assert TickedCopy(e.animation, s.animation, input.now);
      }
      if Space !in input.held {
        NoAttackNoKills(player.character.body, bodies);
      }
    }

    /** One turn of the main loop: when Escape is held the loop ends and
        nothing of the game changes; otherwise the pass is `Frame`. */
    method Step(input: FrameInput) returns (quit: bool, ghost candidates: seq<Enemy>, ghost bodies: seq<Rect>)
      requires Valid()
      requires input.spawnChoice < 4
      modifies Repr
      ensures Valid() && fresh(Repr - old(Repr))
      ensures quit == (Escape in input.held)
      ensures quit ==> Repr == old(Repr) && unchanged(Repr)
      ensures score >= old(score) && lifeBar.lives <= old(lifeBar.lives)
      ensures !quit ==> player.character.direction == Steer(old(player.character.direction), input.held)
      ensures !quit ==> player.character.body == old(player.character.body)
      ensures !quit && Space in input.held ==>
                && player.attacking.Some? && fresh(player.attacking.value)
                && Restarted(player.attacking.value, AttackAnimation(animations, player.character.direction), input.now)
      ensures !quit && Space !in input.held ==>
                && player.attacking == old(player.attacking)
                && (player.attacking.Some? ==> unchanged(player.attacking.value, player.attacking.value.frameTimer))
      ensures Space !in input.held ==> score == old(score)
      ensures !quit ==> |candidates| == |old(enemies)| + (if input.spawns then 1 else 0)
      ensures !quit ==> candidates[..|old(enemies)|] == old(enemies)
      ensures !quit ==> |bodies| == |candidates|
      ensures !quit ==> forall k :: 0 <= k < |candidates| ==> candidates[k].character.body == bodies[k]
      ensures !quit ==> forall k :: 0 <= k < |old(enemies)| ==>
                && Moved(old(enemies)[k].character, input.frameTime, EnemySpeed)
                && Ticked(old(enemies)[k].animation, input.now)
      ensures !quit && input.spawns ==>
                var e := candidates[|old(enemies)|];
                var s := SpawnTable(animations)[input.spawnChoice];
                && fresh(e)
                && e.character.direction == s.direction
                && e.character.body == MovedBody(CenteredBody(s.x, s.y, enemyWidth, enemyHeight), s.direction, input.frameTime, EnemySpeed)
                && TickedCopy(e.animation, s.animation, input.now)
      ensures !quit ==>
                var attack := AttackOf(input.held, player.character.body, player.character.direction);
                var fates := Fates(attack, player.character.body, bodies);
                && enemies == Keep(candidates, fates)
                && score == old(score) + 10 * Count(fates, Killed)
                && lifeBar.lives == LivesAfter(old(lifeBar.lives), Count(fates, Hurt))
    {
      if Escape in input.held {
        return true, [], [];
      }
      quit := false;
      candidates, bodies := Frame(input);
    }

    /** The first half of a pass: the player turns, slashes when Space is
        held, and a spawned enemy joins the end of the list. The enemies
        already there are untouched. */
    method Prepare(input: FrameInput) returns (attack: Option<Slash>)
      requires Valid()
      requires input.spawnChoice < 4
      modifies this`enemies, this`Repr, player, player.character
      ensures Valid() && fresh(Repr - old(Repr))
      ensures player.character.direction == Steer(old(player.character.direction), input.held)
      ensures player.character.body == old(player.character.body)
      ensures attack == AttackOf(input.held, player.character.body, player.character.direction)
      ensures Space in input.held ==>
                && player.attacking.Some? && fresh(player.attacking.value)
                && Restarted(player.attacking.value, AttackAnimation(animations, player.character.direction), input.now)
      ensures Space !in input.held ==> player.attacking == old(player.attacking)
      ensures |enemies| == |old(enemies)| + (if input.spawns then 1 else 0)
      ensures enemies[..|old(enemies)|] == old(enemies)
      ensures forall k :: 0 <= k < |old(enemies)| ==> unchanged(old(enemies)[k].character)
      ensures input.spawns ==>
                var e := enemies[|old(enemies)|];
                var s := SpawnTable(animations)[input.spawnChoice];
                && fresh(e.Repr()) && e.alive
                && e.character.direction == s.direction
                && e.character.body == CenteredBody(s.x, s.y, enemyWidth, enemyHeight)
                && e.animation.SameAs(s.animation)
    {
      player.UpdateDirection(input.held);
      attack := None;
      if Space in input.held {
        var slash := Attack(input.now);
        attack := Some(slash);
      }
      if input.spawns {
        SpawnEnemy(input.spawnChoice);
      }
    }

    /** The second half of a pass: every enemy moves and animates, and
        then the collision pass runs over the moved enemies, whose bodies
        are `bodies`. The player is untouched. */
    method MoveAndResolve(now: real, frameTime: real, attack: Option<Slash>) returns (ghost bodies: seq<Rect>)
      requires Valid()
      modifies Repr
      ensures Valid() && Repr == old(Repr)
      ensures unchanged(player, player.character)
      ensures player.attacking.Some? ==> unchanged(player.attacking.value, player.attacking.value.frameTimer)
      ensures |bodies| == |old(enemies)|
      ensures forall k :: 0 <= k < |old(enemies)| ==>
                && old(enemies)[k].character.body == bodies[k]
                && Moved(old(enemies)[k].character, frameTime, EnemySpeed)
                && Ticked(old(enemies)[k].animation, now)
      ensures var fates := Fates(attack, player.character.body, bodies);
              && enemies == Keep(old(enemies), fates)
              && score == old(score) + 10 * Count(fates, Killed)
              && lifeBar.lives == LivesAfter(old(lifeBar.lives), Count(fates, Hurt))
    {
      UpdateEnemies(now, frameTime);
      label resolving:
      var es := enemies;
      bodies := seq(|es|, k requires 0 <= k < |es| reads if 0 <= k < |es| then {es[k].character} else {} => es[k].character.body);
      ResolveCollisions(attack, bodies);
      assert forall k :: 0 <= k < |es| ==>
               unchanged@resolving(es[k].character, es[k].animation, es[k].animation.frameTimer);
    }

    /** The player slashes; the new attack animation belongs to the game. */
    method Attack(now: real) returns (slash: Slash)
      requires Valid()
      modifies this`Repr, player
      ensures Valid() && Repr == old(Repr) + player.AttackingObjects()
      ensures fresh(player.AttackingObjects())
      ensures slash == Slash(SlashArea(player.character.body, player.character.direction))
      ensures player.attacking.Some? && fresh(player.attacking.value)
      ensures Restarted(player.attacking.value, AttackAnimation(animations, player.character.direction), now)
    {
      slash := player.SlashAttack(animations, now);
      Repr := Repr + player.AttackingObjects();
    }

    /** Appends a new enemy from spawn-table row `choice`. */
    method SpawnEnemy(choice: nat)
      requires Valid()
      requires choice < 4
      modifies this`enemies, this`Repr
      ensures Valid()
      ensures |enemies| == |old(enemies)| + 1 && enemies[..|old(enemies)|] == old(enemies)
      ensures var e := enemies[|old(enemies)|];
              && Repr == old(Repr) + e.Repr()
              && fresh(e.Repr())
              && var s := SpawnTable(animations)[choice];
              && e.alive
              && e.character.body == CenteredBody(s.x, s.y, enemyWidth, enemyHeight)
              && e.character.direction == s.direction
              && e.animation.SameAs(s.animation)
    {
      var e := new Enemy.NewRandom(enemyWidth, enemyHeight, animations, choice);
      enemies := enemies + [e];
      Repr := Repr + e.Repr();
    }

    /** Moves and animates every enemy, in order. */
    method UpdateEnemies(now: real, frameTime: real)
      requires Valid()
      modifies Repr
      ensures Valid()
      ensures unchanged(this, lifeBar, player, player.character)
      ensures player.attacking.Some? ==> unchanged(player.attacking.value, player.attacking.value.frameTimer)
      ensures forall k :: 0 <= k < |enemies| ==>
                && Moved(enemies[k].character, frameTime, EnemySpeed)
                && Ticked(enemies[k].animation, now)
                && enemies[k].alive == old(enemies[k].alive)
    {
      for i := 0 to |enemies|
        invariant unchanged(this, lifeBar, player, player.character)
        invariant player.attacking.Some? ==> unchanged(player.attacking.value, player.attacking.value.frameTimer)
        invariant forall k :: 0 <= k < i ==>
                    && Moved(enemies[k].character, frameTime, EnemySpeed)
                    && Ticked(enemies[k].animation, now)
        invariant forall k :: i <= k < |enemies| ==>
                    unchanged(enemies[k].character, enemies[k].animation, enemies[k].animation.frameTimer)
        invariant forall k :: 0 <= k < |enemies| ==> enemies[k].alive == old(enemies[k].alive)
      {
        var enemy := enemies[i];
        assert enemy.Repr() <= Repr;
        assert forall k :: 0 <= k < i ==> enemies[k].Separate(enemy);
        assert forall k :: i < k < |enemies| ==> enemy.Separate(enemies[k]);
        enemy.Update(now, frameTime);
      }
    }

    /** The collision pass: each enemy, in order, is killed by the slash
        (10 points), or else costs a life if it touches the player, or else
        stays, in its original order. */
    method ResolveCollisions(attack: Option<Slash>, ghost bodies: seq<Rect>)
      requires Valid()
      requires |bodies| == |enemies| && forall k :: 0 <= k < |enemies| ==> enemies[k].character.body == bodies[k]
      modifies this`score, this`enemies, lifeBar
      ensures Valid()
      ensures var fates := Fates(attack, player.character.body, bodies);
              && enemies == Keep(old(enemies), fates)
              && score == old(score) + 10 * Count(fates, Killed)
              && lifeBar.lives == LivesAfter(old(lifeBar.lives), Count(fates, Hurt))
    {
      var all := enemies;
      var kept := ResolveEach(all, attack, bodies);
      ghost var fates := Fates(attack, player.character.body, bodies);
      ResolvedStateIsValid(all, fates, kept);
      enemies := kept;
    }

    /** Applies `ResolveOne` to each of `all` in order and returns the
        enemies it keeps; `bodies` are their bodies. */
    method ResolveEach(all: seq<Enemy>, attack: Option<Slash>, ghost bodies: seq<Rect>) returns (kept: seq<Enemy>)
      requires lifeBar.Valid()
      requires |bodies| == |all| && forall k :: 0 <= k < |all| ==> all[k].character.body == bodies[k]
      modifies this`score, lifeBar
      ensures lifeBar.Valid()
      ensures var fates := Fates(attack, player.character.body, bodies);
              && kept == Keep(all, fates)
              && score == old(score) + 10 * Count(fates, Killed)
              && lifeBar.lives == LivesAfter(old(lifeBar.lives), Count(fates, Hurt))
    {
      ghost var body := player.character.body;
      ghost var fates := Fates(attack, body, bodies);
      kept := [];
      for i := 0 to |all|
        invariant kept == Keep(all[..i], fates[..i])
        invariant score == old(score) + 10 * Count(fates[..i], Killed)
        invariant lifeBar.Valid()
        invariant lifeBar.lives == LivesAfter(old(lifeBar.lives), Count(fates[..i], Hurt))
      {
        var enemy := all[i];
        assert enemy.character.body == bodies[i] && player.character.body == body;
        assert fates[i] == FateOf(attack, body, bodies[i]);
        KeepExtend(all, fates, i);
        CountExtend(fates, i, Killed);
        CountExtend(fates, i, Hurt);
        ghost var hits := Count(fates[..i], Hurt);
        assert LivesAfter(old(lifeBar.lives), hits + 1) == Decremented(LivesAfter(old(lifeBar.lives), hits));
        var keep := ResolveOne(enemy, attack);
        if keep {
          kept := kept + [enemy];
        }
      }
      assert all[..|all|] == all && fates[..|all|] == fates;
      assert player.character.body == body;
    }

    /** The test the pass applies to one enemy: a kill scores 10, otherwise
        touching the player costs a life; the enemy stays only when neither
        happens. */
    method ResolveOne(enemy: Enemy, attack: Option<Slash>) returns (keep: bool)
      requires lifeBar.Valid()
      modifies this`score, lifeBar
      ensures lifeBar.Valid()
      ensures var fate := FateOf(attack, player.character.body, enemy.character.body);
              && keep == (fate == Survives)
              && score == old(score) + (if fate == Killed then 10 else 0)
              && lifeBar.lives == (if fate == Hurt then Decremented(old(lifeBar.lives)) else old(lifeBar.lives))
    {
      if attack.Some? && attack.value.Kill(enemy) {
        score := score + 10;
        return false;
      }
      if enemy.character.Collide(player.character) {
        lifeBar.Decrement();
        return false;
      }
      return true;
    }

    /** The survivors of a collision pass own their objects alone, as the
        enemies before it did. */
    lemma ResolvedStateIsValid(all: seq<Enemy>, fates: seq<Fate>, kept: seq<Enemy>)
      requires |all| == |fates| && kept == Keep(all, fates)
      requires forall i :: 0 <= i < |all| ==> all[i].Repr() <= Repr
      requires forall i, j :: 0 <= i < j < |all| ==> all[i].Separate(all[j])
      requires forall i :: 0 <= i < |all| ==> player.Spares(all[i])
      ensures forall i :: 0 <= i < |kept| ==> kept[i].Repr() <= Repr
      ensures forall i, j :: 0 <= i < j < |kept| ==> kept[i].Separate(kept[j])
      ensures forall i :: 0 <= i < |kept| ==> player.Spares(kept[i])
    {
      KeepSpec(all, fates);
      SurvivorIndicesSpec(fates);
      var indices := SurvivorIndices(fates);
      forall a, b | 0 <= a < b < |kept|
        ensures kept[a].Separate(kept[b])
      {
        assert kept[a] == all[indices[a]] && kept[b] == all[indices[b]] && indices[a] < indices[b];
      }
      forall a | 0 <= a < |kept|
        ensures kept[a].Repr() <= Repr
        ensures player.Spares(kept[a])
      {
        assert kept[a] == all[indices[a]];
      }
    }

    /** The main loop over a sequence of frame inputs, one `Step` each: it
        stops at the first frame with Escape held, which changes nothing,
        or when the inputs run out, and returns how many frames were
        played. The score never decreases and lives are never
        regained. */
    method Run(inputs: seq<FrameInput>) returns (played: nat)
      requires Valid()
      requires forall i :: 0 <= i < |inputs| ==> inputs[i].spawnChoice < 4
      modifies Repr
      ensures Valid() && fresh(Repr - old(Repr))
      ensures played <= |inputs|
      ensures played == FirstHolding(Escape, inputs, 0)
      ensures player.character.direction == Facing(old(player.character.direction), inputs[..played])
      ensures score >= old(score) && lifeBar.lives <= old(lifeBar.lives)
      ensures (forall i :: 0 <= i < played ==> Space !in inputs[i].held) ==> score == old(score)
    {
      played := 0;
      while played < |inputs|
        invariant Valid() && fresh(Repr - old(Repr))
        invariant played <= |inputs|
        invariant FirstHolding(Escape, inputs, 0) == FirstHolding(Escape, inputs, played)
        invariant player.character.direction == Facing(old(player.character.direction), inputs[..played])
        invariant score >= old(score) && lifeBar.lives <= old(lifeBar.lives)
        invariant (forall i :: 0 <= i < played ==> Space !in inputs[i].held) ==> score == old(score)
      {
        var quit;
        ghost var candidates, bodies;
        quit, candidates, bodies := Step(inputs[played]);
        if quit {
          return;
        }
        assert inputs[..played + 1][..played] == inputs[..played];
        played := played + 1;
      }
    }
  }
}
