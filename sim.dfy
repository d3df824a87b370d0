/** The step engine of src/game/sim.ts: one mutable game state advanced in
    place by `Step`, a state machine over the attract, playing, paused and
    game-over modes. Each helper of the engine is a method that changes only
    the fields it names, proved against the functions of module SimRules. */
module Sim {
  import opened Numeric
  import opened Types
  import opened Constants
  import opened Geometry
  import opened Spawn
  import opened SimRules

  /** Everything in the state but the mode: what a pausing step freezes. */
  datatype World = World(
    ship: Ship,
    bullets: seq<Bullet>,
    asteroids: seq<Asteroid>,
    score: int,
    highScore: int,
    lives: int,
    level: int,
    fireCooldownMs: real,
    beatTimerMs: real,
    totalAsteroidsAtLevelStart: int,
    nextId: int,
    rng: Rng)

  /** The events of a step that started a run. */
  const StartEvents := NoEvents.(started := true, modeChanged := Some(Playing))

  /** `GameState`, with the generator behind Math.random as the field `rng`
      and the transcendental Math functions as `math`. */
  class GameState {
    var mode: Mode
    const worldWidth: real
    const worldHeight: real
    var ship: Ship
    var bullets: seq<Bullet>
    var asteroids: seq<Asteroid>
    var score: int
    var highScore: int
    var lives: int
    var level: int
    var fireCooldownMs: real
    var beatTimerMs: real
    var totalAsteroidsAtLevelStart: int
    var nextId: int
    var rng: Rng
    const math: MathLib
    /** How many times each asteroid of the last wave laid out had its
        position redrawn. */
    ghost var waveTries: seq<nat>

    /** The state invariant: every entity inside the field and consistent,
        ids below `nextId`, the score never above the high score, the life
        count within the starting lives and zero exactly in game over, which
        is also exactly when the ship is dead, and both timers in range. */
    ghost predicate Valid()
      reads this
    {
      && worldWidth > 0.0 && worldHeight > 0.0
      && rng.Valid() && Sound(math)
      && ShipOk(ship, worldWidth, worldHeight)
      && BulletsOk(bullets, nextId, worldWidth, worldHeight)
      && AsteroidsOk(asteroids, nextId, worldWidth, worldHeight)
      && 0 <= score <= highScore
      && 0 <= lives <= STARTING_LIVES
      && level >= 1
      && (mode == GameOver <==> !ship.alive)
      && (mode == GameOver <==> lives == 0)
      && 0.0 <= fireCooldownMs <= FIRE_COOLDOWN_MS
      && 0.0 < beatTimerMs <= BEAT_INTERVAL_MAX_MS
      && totalAsteroidsAtLevelStart >= 0
    }

    ghost function View(): World
      reads this
    {
      World(ship, bullets, asteroids, score, highScore, lives, level, fireCooldownMs, beatTimerMs,
            totalAsteroidsAtLevelStart, nextId, rng)
    }

    /** The fields the bullet-asteroid pass works on, with two event fields. */
    ghost function ArenaOf(events: StepEvents): Arena
      reads this`bullets, this`asteroids, this`score, this`highScore, this`nextId, this`rng
    {
      Arena(bullets, asteroids, score, highScore, nextId, rng, events.explosions, events.highScoreUpdated)
    }

    /** A fresh run: playing, no score, full lives, level one, no bullets, the
        ship at rest in the centre and the four large asteroids of level one. */
    ghost predicate RunStarted()
      reads this
    {
      && mode == Playing && score == 0 && lives == STARTING_LIVES && level == 1 && bullets == []
      && fireCooldownMs == 0.0 && beatTimerMs == BEAT_INTERVAL_MAX_MS
      && ship == MakeShip(worldWidth * 0.5, worldHeight * 0.5)
      && |asteroids| == 4 && totalAsteroidsAtLevelStart == 4
      && (forall i :: 0 <= i < |asteroids| ==> asteroids[i].size == Large)
    }

    /** `createInitialState`: attract mode in a WORLD_WIDTH x WORLD_HEIGHT
        field, with level one's asteroids already placed away from the ship. */
    constructor (highScore: int, rng: Rng, math: MathLib)
      requires highScore >= 0 && rng.Valid() && Sound(math)
      ensures Valid()
      ensures mode == Attract && worldWidth == WORLD_WIDTH && worldHeight == WORLD_HEIGHT
      ensures ship == MakeShip(WORLD_WIDTH * 0.5, WORLD_HEIGHT * 0.5)
      ensures bullets == [] && score == 0 && this.highScore == highScore
      ensures lives == STARTING_LIVES && level == 1
      ensures fireCooldownMs == 0.0 && beatTimerMs == BEAT_INTERVAL_MAX_MS
      ensures |asteroids| == 4 && totalAsteroidsAtLevelStart == 4 && nextId == 5
      ensures forall i :: 0 <= i < 4 ==> asteroids[i].id == 1 + i && asteroids[i].size == Large
      ensures WaveAround(asteroids, 1, SpeedBandForLevel(1), waveTries, rng, this.rng,
                         WORLD_WIDTH * 0.5, WORLD_HEIGHT * 0.5, WORLD_WIDTH, WORLD_HEIGHT)
    {
      mode := Attract;
      worldWidth := WORLD_WIDTH;
      worldHeight := WORLD_HEIGHT;
      ship := MakeShip(WORLD_WIDTH * 0.5, WORLD_HEIGHT * 0.5);
      bullets := [];
      asteroids := [];
      score := 0;
      this.highScore := highScore;
      lives := STARTING_LIVES;
      level := 1;
      fireCooldownMs := 0.0;
      beatTimerMs := BEAT_INTERVAL_MAX_MS;
      totalAsteroidsAtLevelStart := 0;
      nextId := 1;
      this.rng := rng;
      this.math := math;
      waveTries := [];
      new;
      CreateLevelAsteroids(ship.x, ship.y);
    }

    /** `createLevelAsteroids`: replace the asteroids by the current level's
        opening wave, placed away from (safeX, safeY) when the rejection loop
        allows, and record its size. */
    method CreateLevelAsteroids(safeX: real, safeY: real)
      requires worldWidth > 0.0 && worldHeight > 0.0 && rng.Valid() && Sound(math)
      modifies this`asteroids, this`nextId, this`totalAsteroidsAtLevelStart, this`rng, this`waveTries
      ensures rng.Valid() && old(nextId) <= nextId
      ensures |asteroids| == (if AsteroidCountForLevel(level) > 0 then AsteroidCountForLevel(level) else 0)
      ensures totalAsteroidsAtLevelStart == |asteroids| && nextId == old(nextId) + |asteroids|
      ensures forall i :: 0 <= i < |asteroids| ==>
                LevelAsteroid(asteroids[i], old(nextId) + i, SpeedBandForLevel(level), worldWidth, worldHeight)
      ensures AsteroidsOk(asteroids, nextId, worldWidth, worldHeight)
      ensures WaveAround(asteroids, old(nextId), SpeedBandForLevel(level), waveTries, old(rng), rng,
                         safeX, safeY, worldWidth, worldHeight)
    {
      var spawned, spawnedNextId, afterSpawn, tries := SpawnLevelAsteroids(
        level, nextId, worldWidth, worldHeight, safeX, safeY, rng, math);
      asteroids := spawned;
      nextId := spawnedNextId;
      rng := afterSpawn;
      totalAsteroidsAtLevelStart := |spawned|;
      waveTries := tries;
      WaveFacts(spawned, old(nextId), SpeedBandForLevel(level), tries, old(rng), afterSpawn,
                safeX, safeY, worldWidth, worldHeight);
    }

    /** `beginRun`: reset the run and lay out level one around the centre;
        the high score survives. */
    method BeginRun()
      requires worldWidth > 0.0 && worldHeight > 0.0 && rng.Valid() && Sound(math) && highScore >= 0
      modifies this
      ensures Valid() && RunStarted()
      ensures highScore == old(highScore) && nextId == old(nextId) + 4
      ensures WaveAround(asteroids, old(nextId), SpeedBandForLevel(1), waveTries, old(rng), rng,
                         worldWidth * 0.5, worldHeight * 0.5, worldWidth, worldHeight)
    {
      ResetRun();
      CreateLevelAsteroids(worldWidth * 0.5, worldHeight * 0.5);
    }

    /** The resets of `beginRun` before the wave is laid out. */
    method ResetRun()
      modifies this`mode, this`score, this`lives, this`level, this`bullets, this`fireCooldownMs,
               this`beatTimerMs, this`ship
      ensures mode == Playing && score == 0 && lives == STARTING_LIVES && level == 1 && bullets == []
      ensures fireCooldownMs == 0.0 && beatTimerMs == BEAT_INTERVAL_MAX_MS
      ensures ship == MakeShip(worldWidth * 0.5, worldHeight * 0.5)
    {
      mode := Playing;
      score := 0;
      lives := STARTING_LIVES;
      level := 1;
      bullets := [];
      fireCooldownMs := 0.0;
      beatTimerMs := BEAT_INTERVAL_MAX_MS;
      ship := MakeShip(worldWidth * 0.5, worldHeight * 0.5);
    }

    /** `maybeUpdateHighScore`: the high score becomes the score when the
        score beats it, and the event says so. */
    method MaybeUpdateHighScore(events: StepEvents) returns (events': StepEvents)
      modifies this`highScore
      ensures highScore == (if score > old(highScore) then score else old(highScore))
      ensures events' == events.(highScoreUpdated := events.highScoreUpdated || score > old(highScore))
    {
      events' := events;
      if score > highScore {
        highScore := score;
        events' := events'.(highScoreUpdated := true);
      }
    }

    /** `applyShipControl`: turn, thrust, cap the speed, move with wrap and run
        down the invulnerability, as ControlledShip describes; holding thrust
        raises the thrusting event. */
    method ApplyShipControl(input: InputState, dtSeconds: real, events: StepEvents) returns (events': StepEvents)
      requires Valid()
      modifies this`ship
      ensures Valid()
      ensures ship == ControlledShip(old(ship), input, dtSeconds, worldWidth, worldHeight, math)
      ensures events' == events.(thrusting := events.thrusting || input.thrust)
    {
      events' := events;
      if input.thrust {
        events' := events'.(thrusting := true);
      }
      ship := ControlledShip(ship, input, dtSeconds, worldWidth, worldHeight, math);
    }

    /** `maybeFireBullet`: the cooldown first runs down by one fixed step,
        floored at zero; then exactly one bullet is appended, with id
        `nextId`, precisely when fire is held, the cooldown is spent and the
        ship is alive, and that restarts the cooldown. */
    method MaybeFireBullet(input: InputState, events: StepEvents) returns (events': StepEvents)
      requires Valid()
      modifies this`fireCooldownMs, this`bullets, this`nextId
      ensures Valid()
      ensures var cooled := Max(0.0, old(fireCooldownMs) - FIXED_STEP_MS);
              var fires := input.fire && cooled <= 0.0 && ship.alive;
              && (fires ==>
                    && bullets == old(bullets) + [FiredBullet(ship, old(nextId), worldWidth, worldHeight, math)]
                    && nextId == old(nextId) + 1
                    && fireCooldownMs == FIRE_COOLDOWN_MS
                    && events' == events.(fired := true))
              && (!fires ==>
                    && bullets == old(bullets) && nextId == old(nextId)
                    && fireCooldownMs == cooled && events' == events)
    {
      events' := events;
      fireCooldownMs := Max(0.0, fireCooldownMs - FIXED_STEP_MS);

      if !(input.fire && fireCooldownMs <= 0.0 && ship.alive) {
        return;
      }

      bullets := bullets + [FiredBullet(ship, nextId, worldWidth, worldHeight, math)];
      nextId := nextId + 1;
      fireCooldownMs := FIRE_COOLDOWN_MS;
      events' := events'.(fired := true);
    }

    /** `updateBullets`: move every bullet in place, then keep those with
        time left. */
    method UpdateBullets(dtSeconds: real)
      requires Valid()
      modifies this`bullets
      ensures Valid()
      ensures bullets == LiveBullets(AdvanceAll(old(bullets), dtSeconds, worldWidth, worldHeight))
    {
      for i := 0 to |bullets|
        invariant |bullets| == |old(bullets)|
        invariant forall j :: 0 <= j < i ==>
                    bullets[j] == AdvanceBullet(old(bullets)[j], dtSeconds, worldWidth, worldHeight)
        invariant forall j :: i <= j < |bullets| ==> bullets[j] == old(bullets)[j]
      {
        var bullet := bullets[i];
        bullet := bullet.(x := WrapValue(bullet.x + bullet.vx * dtSeconds, worldWidth),
                          y := WrapValue(bullet.y + bullet.vy * dtSeconds, worldHeight),
                          ttlMs := bullet.ttlMs - dtSeconds * 1000.0);
        bullets := bullets[i := bullet];
      }
      assert bullets == AdvanceAll(old(bullets), dtSeconds, worldWidth, worldHeight);

      UpdatedBulletsOk(old(bullets), nextId, dtSeconds, worldWidth, worldHeight);
      bullets := LiveBullets(bullets);
    }

    /** `updateAsteroids`: move and spin every asteroid in place. */
    method UpdateAsteroids(dtSeconds: real)
      requires Valid()
      modifies this`asteroids
      ensures Valid()
      ensures |asteroids| == |old(asteroids)|
      ensures forall i :: 0 <= i < |asteroids| ==>
                asteroids[i] == DriftAsteroid(old(asteroids)[i], dtSeconds, worldWidth, worldHeight)
    {
      for i := 0 to |asteroids|
        invariant |asteroids| == |old(asteroids)|
        invariant forall j :: 0 <= j < i ==>
                    asteroids[j] == DriftAsteroid(old(asteroids)[j], dtSeconds, worldWidth, worldHeight)
        invariant forall j :: i <= j < |asteroids| ==> asteroids[j] == old(asteroids)[j]
      {
        asteroids := asteroids[i := DriftAsteroid(asteroids[i], dtSeconds, worldWidth, worldHeight)];
      }
    }

    /** `resolveBulletAsteroidCollisions`: bullets from the last to the first,
        each scanned against the asteroids by ResolveBullet. The result is the
        pass ResolveFrom describes. */
    method ResolveBulletAsteroidCollisions(events: StepEvents) returns (events': StepEvents)
      requires worldWidth > 0.0 && worldHeight > 0.0 && rng.Valid() && Sound(math)
      modifies this`bullets, this`asteroids, this`score, this`highScore, this`nextId, this`rng
      ensures ArenaOf(events') == ResolveFrom(old(ArenaOf(events)), |old(bullets)|, worldWidth, worldHeight, math)
      ensures events' == events.(explosions := events'.explosions, highScoreUpdated := events'.highScoreUpdated)
    {
      events' := events;
      ghost var outcome := ResolveFrom(ArenaOf(events), |bullets|, worldWidth, worldHeight, math);
      var bulletIndex := |bullets| - 1;

      while bulletIndex >= 0
        invariant -1 <= bulletIndex < |bullets|
        invariant rng.Valid()
        invariant events' == events.(explosions := events'.explosions, highScoreUpdated := events'.highScoreUpdated)
        invariant ResolveFrom(ArenaOf(events'), bulletIndex + 1, worldWidth, worldHeight, math) == outcome
        decreases bulletIndex
      {
        ghost var before := ArenaOf(events');
        events' := ResolveBullet(bulletIndex, events');
        assert ResolveFrom(before, bulletIndex + 1, worldWidth, worldHeight, math)
               == ResolveFrom(ArenaOf(events'), bulletIndex, worldWidth, worldHeight, math);
        bulletIndex := bulletIndex - 1;
      }
    }

    /** The bullet-asteroid pass keeps the state invariant (valid entities
        with ids below `nextId`, the high score at least the score); every
        explosion it counts consumed one bullet. */
    method ShootAsteroids(events: StepEvents) returns (events': StepEvents)
      requires Valid()
      modifies this`bullets, this`asteroids, this`score, this`highScore, this`nextId, this`rng
      ensures Valid()
      ensures events' == events.(explosions := events'.explosions, highScoreUpdated := events'.highScoreUpdated)
      ensures |old(bullets)| - |bullets| == events'.explosions - events.explosions
      ensures old(score) <= score && old(nextId) <= nextId
      ensures highScore == (if score > old(highScore) then score else old(highScore))
      ensures |old(asteroids)| == 0 ==> asteroids == []
    {
      ghost var r := ResolveFrom(ArenaOf(events), |bullets|, worldWidth, worldHeight, math);
      ResolveFromFacts(ArenaOf(events), |bullets|, worldWidth, worldHeight, math);
      if asteroids == [] {
        ResolveFromEmptyField(ArenaOf(events), |bullets|, worldWidth, worldHeight, math);
      }
      events' := ResolveBulletAsteroidCollisions(events);
      assert ArenaOf(events') == r;
      assert bullets == r.bullets && asteroids == r.asteroids && rng == r.rng;
    }

    /** The body of the outer loop of `resolveBulletAsteroidCollisions`: scan
        the asteroids from the last to the first for the first one the bullet
        overlaps; on a hit, shatter it and remove the bullet. */
    method ResolveBullet(bulletIndex: nat, events: StepEvents) returns (events': StepEvents)
      requires bulletIndex < |bullets| && rng.Valid() && Sound(math)
      modifies this`bullets, this`asteroids, this`score, this`highScore, this`nextId, this`rng
      ensures ArenaOf(events') == HitBullet(old(ArenaOf(events)), bulletIndex, worldWidth, worldHeight, math)
      ensures events' == events.(explosions := events'.explosions, highScoreUpdated := events'.highScoreUpdated)
    {
      ghost var before := ArenaOf(events);
      var bullet := bullets[bulletIndex];
      var asteroidIndex := |asteroids| - 1;

      while asteroidIndex >= 0
        invariant -1 <= asteroidIndex < |asteroids|
        invariant ArenaOf(events) == before
        invariant LastHit(bullet, asteroids, asteroidIndex + 1, worldWidth, worldHeight)
                  == LastHit(bullet, asteroids, |asteroids|, worldWidth, worldHeight)
        decreases asteroidIndex
      {
        if CirclesOverlapTorus(bullet.Circle(), asteroids[asteroidIndex].Circle(), worldWidth, worldHeight) {
          assert LastHit(bullet, asteroids, |asteroids|, worldWidth, worldHeight) == Some(asteroidIndex);
          events' := HitAt(bulletIndex, asteroidIndex, events);
          return;
        }
        asteroidIndex := asteroidIndex - 1;
      }
      events' := events;
    }

    /** A hit of bullet `bulletIndex` on asteroid `asteroidIndex`, the last
        asteroid it overlaps: shatter the asteroid, then remove the bullet. */
    method HitAt(bulletIndex: nat, asteroidIndex: nat, events: StepEvents) returns (events': StepEvents)
      requires bulletIndex < |bullets| && rng.Valid() && Sound(math)
      requires LastHit(bullets[bulletIndex], asteroids, |asteroids|, worldWidth, worldHeight) == Some(asteroidIndex)
      modifies this`bullets, this`asteroids, this`score, this`highScore, this`nextId, this`rng
      ensures ArenaOf(events') == HitBullet(old(ArenaOf(events)), bulletIndex, worldWidth, worldHeight, math)
      ensures events' == events.(explosions := events'.explosions, highScoreUpdated := events'.highScoreUpdated)
    {
      HitBulletOn(ArenaOf(events), bulletIndex, asteroidIndex, worldWidth, worldHeight, math);
      events' := ShatterAsteroid(asteroidIndex, events);
      bullets := Remove(bullets, bulletIndex);
    }

    /** What a hit does in `resolveBulletAsteroidCollisions`: remove the
        asteroid, add its score, count the explosion, append its fragments
        and raise the high score if the score beat it. */
    method ShatterAsteroid(asteroidIndex: nat, events: StepEvents) returns (events': StepEvents)
      requires asteroidIndex < |asteroids| && rng.Valid() && Sound(math)
      modifies this`asteroids, this`score, this`highScore, this`nextId, this`rng
      ensures var target := old(asteroids)[asteroidIndex];
              var split := Fragments(target, old(nextId), old(rng), math);
              && asteroids == Remove(old(asteroids), asteroidIndex) + split.0
              && score == old(score) + ScoreForSize(target.size)
              && nextId == split.1 && rng == split.2
              && highScore == (if score > old(highScore) then score else old(highScore))
              && events' == events.(explosions := events.explosions + 1,
                                    highScoreUpdated := events.highScoreUpdated || score > old(highScore))
    {
      var asteroid := asteroids[asteroidIndex];
      asteroids := Remove(asteroids, asteroidIndex);
      score := score + ScoreForSize(asteroid.size);
      events' := events.(explosions := events.explosions + 1);

      var fragments, fragmentsNextId, afterSplit := SplitAsteroid(asteroid, nextId, rng, math);
      ghost var split := Fragments(asteroid, nextId, rng, math);
      assert fragments == split.0 && fragmentsNextId == split.1 && afterSplit == split.2;
      nextId := fragmentsNextId;
      rng := afterSplit;
      asteroids := asteroids + fragments;
      events' := MaybeUpdateHighScore(events');
    }

    /** `handleShipCollision`: an alive ship that is not invulnerable and
        overlaps an asteroid loses a life; on the last life the run is over,
        otherwise the ship respawns at rest, invulnerable, at the centre or at
        a point safe from every asteroid. */
    method HandleShipCollision(events: StepEvents) returns (events': StepEvents)
      requires Valid()
      modifies this`ship, this`lives, this`mode, this`highScore, this`rng
      ensures Valid()
      ensures var collides := old(ship).invulnerableMs <= 0.0 && old(ship).alive
                              && ShipCollides(old(ship), asteroids, worldWidth, worldHeight);
              && (!collides ==>
                    && ship == old(ship) && lives == old(lives) && mode == old(mode)
                    && highScore == old(highScore) && rng == old(rng) && events' == events)
              && (collides ==> lives == old(lives) - 1)
              && (collides && lives == 0 ==>
                    && mode == GameOver && ship == old(ship).(alive := false) && rng == old(rng)
                    && highScore == (if score > old(highScore) then score else old(highScore))
                    && events' == events.(explosions := events.explosions + 1)
                                        .(gameOver := true, modeChanged := Some(GameOver),
                                          highScoreUpdated := events.highScoreUpdated || score > old(highScore)))
              && (collides && lives > 0 ==>
                    && mode == old(mode) && highScore == old(highScore)
                    && ship == MakeShip(ship.x, ship.y)
                    && ((ship.x, ship.y) == (worldWidth * 0.5, worldHeight * 0.5)
                        || IsSafeFromAsteroids(ship.x, ship.y, asteroids, worldWidth, worldHeight))
                    && rng.draw == old(rng).draw && old(rng).pos <= rng.pos <= old(rng).pos + 240
                    && events' == events.(explosions := events.explosions + 1))
    {
      events' := events;
      if ship.invulnerableMs > 0.0 || !ship.alive {
        return;
      }

      var collided := exists i :: 0 <= i < |asteroids|
                        && CirclesOverlapTorus(ship.Circle(), asteroids[i].Circle(), worldWidth, worldHeight);
      if !collided {
        return;
      }

      lives := lives - 1;
      if lives <= 0 {
        events' := EndRun(events);
        return;
      }

      events' := events.(explosions := events.explosions + 1);
      var draws := RespawnShip();
    }

    /** The last life lost in `handleShipCollision`: the explosion counted,
        game over, the ship dead, and the high score raised to the score if
        beaten. */
    method EndRun(events: StepEvents) returns (events': StepEvents)
      modifies this`mode, this`ship, this`highScore
      ensures mode == GameOver && ship == old(ship).(alive := false)
      ensures highScore == (if score > old(highScore) then score else old(highScore))
      ensures events' == events.(explosions := events.explosions + 1)
                               .(gameOver := true, modeChanged := Some(GameOver),
                                 highScoreUpdated := events.highScoreUpdated || score > old(highScore))
    {
      mode := GameOver;
      ship := ship.(alive := false);
      events' := events.(explosions := events.explosions + 1);
      events' := events'.(gameOver := true, modeChanged := Some(GameOver));
      events' := MaybeUpdateHighScore(events');
    }

    /** A life lost with lives to spare in `handleShipCollision`: the ship
        respawns at rest, nose up, invulnerable, at the centre when that is
        clear of asteroids and otherwise at a safe random point if one is
        found within the attempt budget. */
    method RespawnShip() returns (ghost draws: nat)
      requires worldWidth > 0.0 && worldHeight > 0.0 && rng.Valid()
      modifies this`ship, this`rng
      ensures rng.Valid() && rng.draw == old(rng).draw && old(rng).pos <= rng.pos <= old(rng).pos + 240
      ensures SpawnSearched(asteroids, worldWidth, worldHeight, old(rng), Point(ship.x, ship.y), rng, draws)
      ensures ship == old(ship).(x := ship.x, y := ship.y, vx := 0.0, vy := 0.0, angle := -PI * 0.5,
                                 invulnerableMs := SHIP_RESPAWN_INVULNERABLE_MS)
      ensures InWorld(ship.x, ship.y, worldWidth, worldHeight)
      ensures (ship.x, ship.y) == (worldWidth * 0.5, worldHeight * 0.5)
              || IsSafeFromAsteroids(ship.x, ship.y, asteroids, worldWidth, worldHeight)
    {
      var spawn, afterSpawn;
      spawn, afterSpawn, draws := FindSafeShipSpawn(asteroids, worldWidth, worldHeight, rng);
      rng := afterSpawn;
      ship := ship.(x := spawn.x, y := spawn.y);
      ship := ship.(vx := 0.0, vy := 0.0);
      ship := ship.(angle := -PI * 0.5);
      ship := ship.(invulnerableMs := SHIP_RESPAWN_INVULNERABLE_MS);
    }

    /** `maybeAdvanceLevel`: once the field is empty, move to the next level,
        lay out its wave around the ship and restart the heartbeat. */
    method MaybeAdvanceLevel(events: StepEvents) returns (events': StepEvents)
      requires Valid()
      modifies this`level, this`asteroids, this`nextId, this`totalAsteroidsAtLevelStart, this`rng, this`beatTimerMs,
               this`waveTries
      ensures Valid()
      ensures |old(asteroids)| > 0 ==>
                && level == old(level) && asteroids == old(asteroids) && nextId == old(nextId)
                && totalAsteroidsAtLevelStart == old(totalAsteroidsAtLevelStart) && rng == old(rng)
                && beatTimerMs == old(beatTimerMs) && waveTries == old(waveTries) && events' == events
      ensures |old(asteroids)| == 0 ==>
                && level == old(level) + 1 && events' == events.(levelUp := true)
                && |asteroids| == AsteroidCountForLevel(level) && |asteroids| > 0
                && totalAsteroidsAtLevelStart == |asteroids| && nextId == old(nextId) + |asteroids|
                && beatTimerMs == BEAT_INTERVAL_MAX_MS
                && WaveAround(asteroids, old(nextId), SpeedBandForLevel(level), waveTries, old(rng), rng,
                              ship.x, ship.y, worldWidth, worldHeight)
    {
      events' := events;
      if |asteroids| > 0 {
        return;
      }

      level := level + 1;
      events' := events'.(levelUp := true);
      CreateLevelAsteroids(ship.x, ship.y);
      beatTimerMs := BEAT_INTERVAL_MAX_MS;
    }

    /** `updateBeat`: run the heartbeat down by one fixed step; when it runs
        out, a beat sounds and the timer is wound up again by the interval
        for the share of the wave still on the field. */
    method UpdateBeat(events: StepEvents) returns (events': StepEvents)
      requires Valid()
      modifies this`beatTimerMs
      ensures Valid()
      ensures var t := old(beatTimerMs) - FIXED_STEP_MS;
              && (t <= 0.0 ==>
                    && beatTimerMs == t + BeatInterval(|asteroids|, totalAsteroidsAtLevelStart)
                    && events' == events.(beat := true))
              && (t > 0.0 ==> beatTimerMs == t && events' == events)
    {
      events' := events;
      var interval := BeatInterval(|asteroids|, totalAsteroidsAtLevelStart);

      beatTimerMs := beatTimerMs - FIXED_STEP_MS;
      if beatTimerMs <= 0.0 {
        beatTimerMs := beatTimerMs + interval;
        events' := events'.(beat := true);
      }
    }

    /** `stepSimulation`: one tick of the mode state machine. Attract and
        game over wait for a key and then start a run; the pause edge toggles
        between playing and paused, and a tick that pauses moves nothing; a
        playing tick (including the one that resumes) runs the physics. */
    method Step(input: InputState, dtMs: real) returns (events: StepEvents)
      requires Valid()
      modifies this
      ensures Valid()
      ensures old(mode) == Attract ==>
                if input.anyKeyPressed then RunStarted() && highScore == old(highScore) && events == StartEvents
                else unchanged(this) && events == NoEvents
      ensures old(mode) == GameOver ==>
                if input.restartPressed || input.anyKeyPressed
                then RunStarted() && highScore == old(highScore) && events == StartEvents
                else unchanged(this) && events == NoEvents
      ensures old(mode) == Paused && !input.pausePressed ==> unchanged(this) && events == NoEvents
      ensures old(mode) == Playing && input.pausePressed ==>
                mode == Paused && View() == old(View()) && events == NoEvents.(modeChanged := Some(Paused))
      ensures (old(mode) == Playing && !input.pausePressed) || (old(mode) == Paused && input.pausePressed) ==>
                && (mode == Playing || mode == GameOver)
                && (mode == GameOver <==> events.gameOver)
                && events.modeChanged == (if events.gameOver then Some(GameOver)
                                          else if input.pausePressed then Some(Playing) else None)
                && !events.started && events.thrusting == input.thrust
                && (lives == old(lives) || lives == old(lives) - 1)
                && level == old(level) + (if events.levelUp then 1 else 0)
                && (events.gameOver ==> && lives == 0 && !ship.alive && !events.levelUp && !events.beat
                                         && beatTimerMs == old(beatTimerMs))
                && (mode == Playing ==> |asteroids| > 0)
                && old(score) <= score
                && highScore == (if score > old(highScore) then score else old(highScore))
                && old(nextId) <= nextId
      ensures (old(mode) == Playing && !input.pausePressed) || (old(mode) == Paused && input.pausePressed) ==>
                |old(asteroids)| == 0 ==> events.levelUp && level == old(level) + 1 && lives == old(lives)
    {
      events := NoEvents;

      if mode == Attract {
        if input.anyKeyPressed {
          BeginRun();
          events := events.(started := true, modeChanged := Some(Playing));
        }
        return;
      }

      if mode == GameOver {
        if input.restartPressed || input.anyKeyPressed {
          BeginRun();
          events := events.(started := true, modeChanged := Some(Playing));
        }
        return;
      }

      if input.pausePressed {
        mode := if mode == Paused then Playing else Paused;
        events := events.(modeChanged := Some(mode));
        if mode == Paused {
          return;
        }
      }

      if mode != Playing {
        return;
      }

      events := Tick(input, dtMs, events);
    }

    /** The playing part of `stepSimulation`: control, fire, motion,
        collisions, and then, unless the ship was lost for good, the level
        check and the heartbeat. */
    method Tick(input: InputState, dtMs: real, events: StepEvents) returns (events': StepEvents)
      requires Valid() && mode == Playing
      requires events == NoEvents.(modeChanged := events.modeChanged)
      modifies this
      ensures Valid()
      ensures (mode == Playing || mode == GameOver) && (mode == GameOver <==> events'.gameOver)
      ensures events'.modeChanged == (if events'.gameOver then Some(GameOver) else events.modeChanged)
      ensures !events'.started && events'.thrusting == input.thrust
      ensures lives == old(lives) || lives == old(lives) - 1
      ensures level == old(level) + (if events'.levelUp then 1 else 0)
      ensures events'.gameOver ==> && lives == 0 && !ship.alive && !events'.levelUp && !events'.beat
                                   && beatTimerMs == old(beatTimerMs)
      ensures mode == Playing ==> |asteroids| > 0
      ensures old(score) <= score
      ensures highScore == (if score > old(highScore) then score else old(highScore))
      ensures old(nextId) <= nextId
      ensures |old(asteroids)| == 0 ==> events'.levelUp && level == old(level) + 1 && lives == old(lives)
    {
      var dtSeconds := dtMs / 1000.0;
      events' := ControlAndMove(input, dtSeconds, events);
      events' := Collide(events');

      if mode != Playing {
        return;
      }

      events' := Progress(events');
    }

    /** The collision half of a playing tick: bullets against asteroids, then
        the ship against asteroids. The run either goes on or is over, at
        most one life is lost, and the score, the high score and the ids move
        only forward. */
    method Collide(events: StepEvents) returns (events': StepEvents)
      requires Valid() && mode == Playing && !events.gameOver
      modifies this`bullets, this`asteroids, this`score, this`highScore, this`nextId, this`rng,
               this`ship, this`lives, this`mode
      ensures Valid()
      ensures mode == (if events'.gameOver then GameOver else Playing)
      ensures events' == events.(explosions := events'.explosions, highScoreUpdated := events'.highScoreUpdated,
                                 gameOver := events'.gameOver, modeChanged := events'.modeChanged)
      ensures events'.modeChanged == (if events'.gameOver then Some(GameOver) else events.modeChanged)
      ensures lives == old(lives) || lives == old(lives) - 1
      ensures old(score) <= score && old(nextId) <= nextId
      ensures highScore == (if score > old(highScore) then score else old(highScore))
      ensures |old(asteroids)| == 0 ==> asteroids == [] && !events'.gameOver && lives == old(lives)
    {
      events' := ShootAsteroids(events);
      events' := HandleShipCollision(events');
    }

    /** The end of a playing tick that did not end the run: the level check,
        then the heartbeat. The field is never left empty. */
    method Progress(events: StepEvents) returns (events': StepEvents)
      requires Valid() && mode == Playing && !events.levelUp && !events.beat
      modifies this`level, this`asteroids, this`nextId, this`totalAsteroidsAtLevelStart, this`rng, this`beatTimerMs,
               this`waveTries
      ensures Valid()
      ensures events' == events.(levelUp := events'.levelUp, beat := events'.beat)
      ensures level == old(level) + (if events'.levelUp then 1 else 0)
      ensures |asteroids| > 0 && old(nextId) <= nextId
      ensures |old(asteroids)| == 0 ==> events'.levelUp
    {
      events' := MaybeAdvanceLevel(events);
      events' := UpdateBeat(events');
    }

    /** The motion half of a playing tick: ship control, firing, bullet and
        asteroid motion. Scores, lives, level, mode and timers other than the
        fire cooldown are left alone; only firing hands out an id. */
    method ControlAndMove(input: InputState, dtSeconds: real, events: StepEvents) returns (events': StepEvents)
      requires Valid()
      modifies this`ship, this`fireCooldownMs, this`bullets, this`nextId, this`asteroids
      ensures Valid()
      ensures old(nextId) <= nextId && ship.alive == old(ship).alive
      ensures |asteroids| == |old(asteroids)|
      ensures events' == events.(thrusting := events.thrusting || input.thrust, fired := events'.fired)
    {
      events' := ApplyShipControl(input, dtSeconds, events);
      events' := MaybeFireBullet(input, events');
      UpdateBullets(dtSeconds);
      UpdateAsteroids(dtSeconds);
    }
  }
}
