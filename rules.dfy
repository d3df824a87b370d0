/** The value-level rules of the step engine (src/game/sim.ts): input edge
    stripping, the ship record, the speed cap, bullet and asteroid motion, the
    bullet time-to-live filter, the bullet-asteroid collision pass as a
    function on an `Arena` of the state it touches, ship collision and the
    heartbeat interval. The class in module Sim performs these updates in
    place and is proved against the functions here. */
module SimRules {
  import opened Numeric
  import opened Types
  import opened Constants
  import opened Geometry
  import opened Spawn

  /** `stripEdgeInputs`: keep the held controls and drop every one-shot edge,
      as the frame loop does for every tick of a frame after the first. */
  function StripEdgeInputs(input: InputState): (r: InputState)
    ensures r.rotateLeft == input.rotateLeft && r.rotateRight == input.rotateRight
    ensures r.thrust == input.thrust && r.fire == input.fire
    ensures !r.pausePressed && !r.restartPressed && !r.fullscreenPressed && !r.anyKeyPressed
  {
    input.(pausePressed := false, restartPressed := false, fullscreenPressed := false, anyKeyPressed := false)
  }

  /** Stripping an input that has no edges changes nothing, so stripping
      twice is stripping once. */
  lemma StripEdgeInputsIdempotent(input: InputState)
    ensures StripEdgeInputs(StripEdgeInputs(input)) == StripEdgeInputs(input)
    ensures !input.pausePressed && !input.restartPressed && !input.fullscreenPressed && !input.anyKeyPressed
            ==> StripEdgeInputs(input) == input
  {
  }

  /** The ship invariant: inside the field, of the ship radius, never
      negatively invulnerable and never faster than SHIP_MAX_SPEED. */
  predicate ShipOk(s: Ship, width: real, height: real)
  {
    && InWorld(s.x, s.y, width, height)
    && s.radius == SHIP_RADIUS
    && s.invulnerableMs >= 0.0
    && SpeedSquared(s.vx, s.vy) <= SHIP_MAX_SPEED * SHIP_MAX_SPEED
  }

  /** `makeShip`: at rest at (x, y), nose up the screen, alive, and
      invulnerable for SHIP_RESPAWN_INVULNERABLE_MS. */
  function MakeShip(x: real, y: real): (s: Ship)
    ensures s.x == x && s.y == y && s.vx == 0.0 && s.vy == 0.0
    ensures s.alive && s.invulnerableMs == SHIP_RESPAWN_INVULNERABLE_MS
    ensures forall width: real, height: real :: InWorld(x, y, width, height) ==> ShipOk(s, width, height)
  {
    Ship(x, y, 0.0, 0.0, -PI * 0.5, SHIP_RADIUS, SHIP_RESPAWN_INVULNERABLE_MS, true)
  }

  /** Scaling (vx, vy), of length h > 0, by len / h gives length len. */
  lemma ScaleToLength(vx: real, vy: real, h: real, len: real, ratio: real)
    requires h > 0.0 && h * h == SpeedSquared(vx, vy) && ratio == len / h
    ensures SpeedSquared(vx * ratio, vy * ratio) == len * len
  {
    assert ratio * h == len;
    calc {
      SpeedSquared(vx * ratio, vy * ratio);
      (ratio * ratio) * SpeedSquared(vx, vy);
      (ratio * ratio) * (h * h);
      (ratio * h) * (ratio * h);
    }
  }

  /** The speed-cap step of `applyShipControl`: a velocity faster than
      SHIP_MAX_SPEED is scaled down to exactly that speed, keeping its
      direction; a slower one is kept as it is. */
  function CapVelocity(vx: real, vy: real, m: MathLib): (r: (real, real))
    requires Sound(m)
    ensures SpeedSquared(r.0, r.1) <= SHIP_MAX_SPEED * SHIP_MAX_SPEED
    ensures SpeedSquared(vx, vy) <= SHIP_MAX_SPEED * SHIP_MAX_SPEED ==> r == (vx, vy)
    ensures SpeedSquared(vx, vy) > SHIP_MAX_SPEED * SHIP_MAX_SPEED ==>
              && SpeedSquared(r.0, r.1) == SHIP_MAX_SPEED * SHIP_MAX_SPEED
              && r.0 * vy == r.1 * vx
              && r.0 * vx + r.1 * vy > 0.0
  {
    var speed := m.hypot(vx, vy);
    if speed > SHIP_MAX_SPEED then
      var ratio := SHIP_MAX_SPEED / speed;
      SquareStrictMonotone(SHIP_MAX_SPEED, speed);
      ScaleToLength(vx, vy, speed, SHIP_MAX_SPEED, ratio);
      SameDirection(vx, vy, ratio);
      (vx * ratio, vy * ratio)
    else
      SquareMonotone(speed, SHIP_MAX_SPEED);
      (vx, vy)
  }

  /** A positive multiple of a non-zero vector stays on its line and points
      the same way. */
  lemma SameDirection(vx: real, vy: real, ratio: real)
    requires ratio > 0.0 && SpeedSquared(vx, vy) > 0.0
    ensures (vx * ratio) * vy == (vy * ratio) * vx
    ensures (vx * ratio) * vx + (vy * ratio) * vy > 0.0
  {
    PosMul(ratio, SpeedSquared(vx, vy));
    assert (vx * ratio) * vx + (vy * ratio) * vy == ratio * SpeedSquared(vx, vy);
  }

  /** What `applyShipControl` does to the ship over `dt` seconds: turn, then
      thrust along the new heading, then cap the speed, then move and wrap,
      then count down invulnerability. */
  function ControlledShip(ship: Ship, input: InputState, dt: real, width: real, height: real, m: MathLib): (r: Ship)
    requires width > 0.0 && height > 0.0 && Sound(m)
    ensures InWorld(r.x, r.y, width, height)
    ensures SpeedSquared(r.vx, r.vy) <= SHIP_MAX_SPEED * SHIP_MAX_SPEED
    ensures r.invulnerableMs >= 0.0
    ensures dt >= 0.0 ==> r.invulnerableMs <= Max(ship.invulnerableMs, 0.0)
    ensures ship.invulnerableMs <= dt * 1000.0 ==> r.invulnerableMs == 0.0
    ensures r.radius == ship.radius && r.alive == ship.alive
    ensures input.rotateLeft == input.rotateRight ==> r.angle == ship.angle
    ensures !input.thrust && SpeedSquared(ship.vx, ship.vy) <= SHIP_MAX_SPEED * SHIP_MAX_SPEED ==>
              r.vx == ship.vx && r.vy == ship.vy
    ensures ShipOk(ship, width, height) ==> ShipOk(r, width, height)
  {
    var turnedLeft := if input.rotateLeft then ship.angle - SHIP_TURN_SPEED * dt else ship.angle;
    var angle := if input.rotateRight then turnedLeft + SHIP_TURN_SPEED * dt else turnedLeft;
    var vx := if input.thrust then ship.vx + m.cos(angle) * SHIP_THRUST * dt else ship.vx;
    var vy := if input.thrust then ship.vy + m.sin(angle) * SHIP_THRUST * dt else ship.vy;
    var capped := CapVelocity(vx, vy, m);
    Ship(WrapValue(ship.x + capped.0 * dt, width), WrapValue(ship.y + capped.1 * dt, height),
         capped.0, capped.1, angle, ship.radius,
         Max(0.0, ship.invulnerableMs - dt * 1000.0), ship.alive)
  }

  /** The bullet invariant: inside the field, of the bullet radius, still
      alive, with an id already handed out. */
  predicate BulletOk(b: Bullet, nextId: int, width: real, height: real)
  {
    InWorld(b.x, b.y, width, height) && b.radius == BULLET_RADIUS && b.ttlMs > 0.0 && b.id < nextId
  }

  predicate BulletsOk(bullets: seq<Bullet>, nextId: int, width: real, height: real)
  {
    forall i :: 0 <= i < |bullets| ==> BulletOk(bullets[i], nextId, width, height)
  }

  /** The asteroid invariant: inside the field, with the radius of its size
      class and an id already handed out. */
  predicate AsteroidOk(a: Asteroid, nextId: int, width: real, height: real)
  {
    InWorld(a.x, a.y, width, height) && a.radius == AsteroidRadius(a.size) && a.id < nextId
  }

  predicate AsteroidsOk(asteroids: seq<Asteroid>, nextId: int, width: real, height: real)
  {
    forall i :: 0 <= i < |asteroids| ==> AsteroidOk(asteroids[i], nextId, width, height)
  }

  /** The bullet `maybeFireBullet` launches: id `id`, from ship.radius + 8
      ahead of the ship (wrapped), moving at BULLET_SPEED along the heading
      on top of a fifth of the ship's velocity, alive for BULLET_TTL_MS. */
  function FiredBullet(ship: Ship, id: int, width: real, height: real, m: MathLib): (b: Bullet)
    requires width > 0.0 && height > 0.0 && Sound(m)
    ensures b.id == id && b.radius == BULLET_RADIUS && b.ttlMs == BULLET_TTL_MS
    ensures InWorld(b.x, b.y, width, height)
    ensures SpeedSquared(b.vx - ship.vx * 0.2, b.vy - ship.vy * 0.2) == BULLET_SPEED * BULLET_SPEED
    ensures forall nextId :: nextId > id ==> BulletOk(b, nextId, width, height)
  {
    var spawnDistance := ship.radius + 8.0;
    var c := m.cos(ship.angle);
    var s := m.sin(ship.angle);
    var inherit := 0.2;
    UnitScale(c, s, BULLET_SPEED);
    Bullet(id,
           WrapValue(ship.x + c * spawnDistance, width),
           WrapValue(ship.y + s * spawnDistance, height),
           c * BULLET_SPEED + ship.vx * inherit,
           s * BULLET_SPEED + ship.vy * inherit,
           BULLET_RADIUS, BULLET_TTL_MS)
  }

  /** One tick of bullet motion in `updateBullets`: move, wrap, and lose
      dt * 1000 ms of life. */
  function AdvanceBullet(b: Bullet, dt: real, width: real, height: real): (r: Bullet)
    requires width > 0.0 && height > 0.0
    ensures InWorld(r.x, r.y, width, height)
    ensures r.id == b.id && r.vx == b.vx && r.vy == b.vy && r.radius == b.radius
    ensures r.ttlMs == b.ttlMs - dt * 1000.0
  {
    b.(x := WrapValue(b.x + b.vx * dt, width),
       y := WrapValue(b.y + b.vy * dt, height),
       ttlMs := b.ttlMs - dt * 1000.0)
  }

  function AdvanceAll(bullets: seq<Bullet>, dt: real, width: real, height: real): (r: seq<Bullet>)
    requires width > 0.0 && height > 0.0
    ensures |r| == |bullets|
    ensures forall i :: 0 <= i < |r| ==> r[i] == AdvanceBullet(bullets[i], dt, width, height)
  {
    if bullets == [] then []
    else [AdvanceBullet(bullets[0], dt, width, height)] + AdvanceAll(bullets[1..], dt, width, height)
  }

  /** The `filter` of `updateBullets`: exactly the bullets with time left,
      in their original order. */
  function LiveBullets(bullets: seq<Bullet>): (r: seq<Bullet>)
    ensures |r| <= |bullets|
    ensures forall b :: b in r <==> b in bullets && b.ttlMs > 0.0
    ensures (forall i :: 0 <= i < |bullets| ==> bullets[i].ttlMs > 0.0) ==> r == bullets
  {
    if bullets == [] then []
    else (if bullets[0].ttlMs > 0.0 then [bullets[0]] else []) + LiveBullets(bullets[1..])
  }

  /** The filter works bullet by bullet: one bullet survives exactly when it
      has time left. */
  lemma LiveBulletsOne(b: Bullet)
    ensures b.ttlMs > 0.0 ==> LiveBullets([b]) == [b]
    ensures b.ttlMs <= 0.0 ==> LiveBullets([b]) == []
  {
    assert [b][1..] == [];
  }

  /** The filter distributes over concatenation, so survivors keep their
      order and their multiplicity. */
  lemma {:induction false} LiveBulletsAppend(s: seq<Bullet>, t: seq<Bullet>)
    ensures LiveBullets(s + t) == LiveBullets(s) + LiveBullets(t)
    decreases |s|
  {
    if s == [] {
      assert s + t == t;
    } else {
      assert (s + t)[0] == s[0];
      assert (s + t)[1..] == s[1..] + t;
      LiveBulletsAppend(s[1..], t);
    }
  }

  /** The survivors are a sub-multiset of the bullets. */
  lemma {:induction false} LiveBulletsSubMultiset(bullets: seq<Bullet>)
    ensures multiset(LiveBullets(bullets)) <= multiset(bullets)
    decreases |bullets|
  {
    if bullets != [] {
      LiveBulletsSubMultiset(bullets[1..]);
      assert bullets == [bullets[0]] + bullets[1..];
    }
  }

  /** A tick of `updateBullets` keeps the bullet invariant: survivors are
      advanced bullets, and the filter removes every expired one. */
  lemma UpdatedBulletsOk(bullets: seq<Bullet>, nextId: int, dt: real, width: real, height: real)
    requires width > 0.0 && height > 0.0
    requires BulletsOk(bullets, nextId, width, height)
    ensures BulletsOk(LiveBullets(AdvanceAll(bullets, dt, width, height)), nextId, width, height)
  {
    var advanced := AdvanceAll(bullets, dt, width, height);
    var live := LiveBullets(advanced);
    forall i | 0 <= i < |live|
      ensures BulletOk(live[i], nextId, width, height)
    {
      assert live[i] in advanced;
      var j :| 0 <= j < |advanced| && advanced[j] == live[i];
      assert BulletOk(bullets[j], nextId, width, height);
    }
  }

  /** A bullet after `k` ticks of `updateBullets` at step `dt`. */
  function Aged(b: Bullet, k: nat, dt: real, width: real, height: real): Bullet
    requires width > 0.0 && height > 0.0
  {
    if k == 0 then b else AdvanceBullet(Aged(b, k - 1, dt, width, height), dt, width, height)
  }

  /** A bullet fired with BULLET_TTL_MS of life, ticked at FIXED_STEP_MS,
      still has time left after 77 updates and none after 78: it is filtered
      out by the 78th tick, well within 90. */
  lemma {:induction false} BulletLifetime(b: Bullet, k: nat, width: real, height: real)
    requires width > 0.0 && height > 0.0 && b.ttlMs == BULLET_TTL_MS
    ensures Aged(b, k, FIXED_STEP_MS / 1000.0, width, height).ttlMs == BULLET_TTL_MS - (k as real) * FIXED_STEP_MS
    ensures Aged(b, k, FIXED_STEP_MS / 1000.0, width, height).ttlMs > 0.0 <==> k < 78
  {
    if k > 0 {
      BulletLifetime(b, k - 1, width, height);
    }
  }

  /** One tick of asteroid motion in `updateAsteroids`: move, wrap and spin. */
  function DriftAsteroid(a: Asteroid, dt: real, width: real, height: real): (r: Asteroid)
    requires width > 0.0 && height > 0.0
    ensures InWorld(r.x, r.y, width, height)
    ensures r.id == a.id && r.size == a.size && r.radius == a.radius
    ensures r.vx == a.vx && r.vy == a.vy && r.spin == a.spin && r.shapeSeed == a.shapeSeed
    ensures r.rotation == a.rotation + a.spin * dt
    ensures forall nextId :: AsteroidOk(a, nextId, width, height) ==> AsteroidOk(r, nextId, width, height)
  {
    a.(x := WrapValue(a.x + a.vx * dt, width),
       y := WrapValue(a.y + a.vy * dt, height),
       rotation := a.rotation + a.spin * dt)
  }

  /** `splice(i, 1)`: the sequence without its element at `i`. */
  function Remove<T>(s: seq<T>, i: nat): (r: seq<T>)
    requires i < |s|
    ensures |r| == |s| - 1
    ensures multiset(r) + multiset{s[i]} == multiset(s)
    ensures forall k :: 0 <= k < |r| ==> r[k] == s[if k < i then k else k + 1]
  {
    assert s == s[..i] + [s[i]] + s[i + 1..];
    s[..i] + s[i + 1..]
  }

  /** A bullet hits an asteroid when their circles overlap on the torus. */
  predicate Hits(b: Bullet, a: Asteroid, width: real, height: real)
  {
    CirclesOverlapTorus(b.Circle(), a.Circle(), width, height)
  }

  /** The inner scan of `resolveBulletAsteroidCollisions` over asteroids
      [0, upTo), from the highest index down: the first one the bullet hits. */
  function LastHit(b: Bullet, asteroids: seq<Asteroid>, upTo: nat, width: real, height: real): (r: Option<nat>)
    requires upTo <= |asteroids|
    ensures r.Some? ==> && r.value < upTo && Hits(b, asteroids[r.value], width, height)
                        && forall k :: r.value < k < upTo ==> !Hits(b, asteroids[k], width, height)
    ensures r.None? ==> forall k :: 0 <= k < upTo ==> !Hits(b, asteroids[k], width, height)
  {
    if upTo == 0 then None
    else if Hits(b, asteroids[upTo - 1], width, height) then Some(upTo - 1)
    else LastHit(b, asteroids, upTo - 1, width, height)
  }

  /** The part of the game state the bullet-asteroid pass reads and writes,
      with the two event fields it touches. */
  datatype Arena = Arena(
    bullets: seq<Bullet>,
    asteroids: seq<Asteroid>,
    score: int,
    highScore: int,
    nextId: int,
    rng: Rng,
    explosions: nat,
    highScoreUpdated: bool)

  predicate ArenaOk(a: Arena, width: real, height: real)
  {
    BulletsOk(a.bullets, a.nextId, width, height) && AsteroidsOk(a.asteroids, a.nextId, width, height)
  }

  /** Fragments created from the arena's current id are valid asteroids once
      the ids they used are handed out. */
  lemma FragmentsOk(parent: Asteroid, nextId: int, rng: Rng, m: MathLib, width: real, height: real)
    requires rng.Valid() && Sound(m) && InWorld(parent.x, parent.y, width, height)
    ensures var (fragments, nextId', _) := Fragments(parent, nextId, rng, m);
            nextId <= nextId' && AsteroidsOk(fragments, nextId', width, height)
  {
    if parent.size != Small {
      FragmentsFly(parent, nextId, rng, m);
    }
  }

  /** One iteration of the outer loop of `resolveBulletAsteroidCollisions`,
      for the bullet at `bi`: when it hits an asteroid, that bullet and that
      asteroid are removed, the asteroid's fragments are appended, its score
      is added, the explosion is counted and the high score is raised to the
      score if beaten. */
  function HitBullet(a: Arena, bi: nat, width: real, height: real, m: MathLib): (r: Arena)
    requires bi < |a.bullets| && a.rng.Valid() && Sound(m)
    ensures r.rng.Valid() && bi <= |r.bullets|
  {
    var bullet := a.bullets[bi];
    match LastHit(bullet, a.asteroids, |a.asteroids|, width, height)
    case None => a
    case Some(j) =>
      var target := a.asteroids[j];
      var score := a.score + ScoreForSize(target.size);
      var (fragments, nextId, rng) := Fragments(target, a.nextId, a.rng, m);
      var beaten := score > a.highScore;
      Arena(Remove(a.bullets, bi), Remove(a.asteroids, j) + fragments, score,
            if beaten then score else a.highScore, nextId, rng,
            a.explosions + 1, a.highScoreUpdated || beaten)
  }

  /** What one bullet's scan does: a miss changes nothing; a hit removes the
      bullet and the asteroid, leaves two fragments in its place unless it
      was small, adds its score and counts one explosion. Ids and the score
      only grow, the high score follows the score, and the state invariants
      are kept. */
  lemma HitBulletFacts(a: Arena, bi: nat, width: real, height: real, m: MathLib)
    requires bi < |a.bullets| && a.rng.Valid() && Sound(m)
    ensures var r := HitBullet(a, bi, width, height, m);
            && (LastHit(a.bullets[bi], a.asteroids, |a.asteroids|, width, height).None? ==> r == a)
            && (LastHit(a.bullets[bi], a.asteroids, |a.asteroids|, width, height).Some? ==>
                  var target := a.asteroids[LastHit(a.bullets[bi], a.asteroids, |a.asteroids|, width, height).value];
                  && r.bullets == Remove(a.bullets, bi)
                  && |r.asteroids| == |a.asteroids| - 1 + (if target.size == Small then 0 else 2)
                  && r.score == a.score + ScoreForSize(target.size)
                  && r.explosions == a.explosions + 1)
            && a.nextId <= r.nextId && a.score <= r.score
            && (a.score <= a.highScore ==>
                  && r.highScore == (if r.score > a.highScore then r.score else a.highScore)
                  && r.highScoreUpdated == (a.highScoreUpdated || r.score > a.highScore))
            && (ArenaOk(a, width, height) ==> ArenaOk(r, width, height))
  {
    match LastHit(a.bullets[bi], a.asteroids, |a.asteroids|, width, height)
    case None =>
    case Some(j) =>
      HitKeepsArenaOk(a, bi, j, width, height, m);
  }

  /** A proof step only, not a property: HitBullet's hit branch unfolded for
      a scan that stops at asteroid `j`, for use by SplitScenario and
      GameState.HitAt. What a hit does is stated by HitSplitsTarget and
      HitBulletFacts. */
  lemma HitBulletOn(a: Arena, bi: nat, j: nat, width: real, height: real, m: MathLib)
    requires bi < |a.bullets| && a.rng.Valid() && Sound(m)
    requires LastHit(a.bullets[bi], a.asteroids, |a.asteroids|, width, height) == Some(j)
    ensures j < |a.asteroids|
    ensures var target := a.asteroids[j];
            var score := a.score + ScoreForSize(target.size);
            var split := Fragments(target, a.nextId, a.rng, m);
            HitBullet(a, bi, width, height, m)
              == Arena(Remove(a.bullets, bi), Remove(a.asteroids, j) + split.0, score,
                       if score > a.highScore then score else a.highScore, split.1, split.2,
                       a.explosions + 1, a.highScoreUpdated || score > a.highScore)
  {
  }

  /** Which asteroid a hit removes and what takes its place: every other
      asteroid stays, in order, and the target's fragments follow them, each
      of the next size, at the target's centre, with consecutive ids from
      `nextId`, on its own side of the target's heading and faster than the
      target. A small target leaves nothing in its place. */
  lemma HitSplitsTarget(a: Arena, bi: nat, j: nat, width: real, height: real, m: MathLib)
    requires bi < |a.bullets| && a.rng.Valid() && Sound(m)
    requires LastHit(a.bullets[bi], a.asteroids, |a.asteroids|, width, height) == Some(j)
    ensures j < |a.asteroids|
    ensures var target := a.asteroids[j];
            var r := HitBullet(a, bi, width, height, m);
            var n := |a.asteroids| - 1;
            && r.bullets == Remove(a.bullets, bi)
            && n <= |r.asteroids| && r.asteroids[..n] == Remove(a.asteroids, j)
            && (target.size == Small ==> |r.asteroids| == n && r.nextId == a.nextId)
            && (target.size != Small ==>
                  && |r.asteroids| == n + 2 && r.nextId == a.nextId + 2
                  && forall i :: 0 <= i < 2 ==>
                       && IsFragment(r.asteroids[n + i], target, NextSize(target.size).value,
                                     FragmentBaseSpeed(target, m), a.nextId + i, SIGNS[i], m)
                       && SpeedSquared(r.asteroids[n + i].vx, r.asteroids[n + i].vy)
                            > SpeedSquared(target.vx, target.vy))
  {
    HitBulletOn(a, bi, j, width, height, m);
    var target := a.asteroids[j];
    var r := HitBullet(a, bi, width, height, m);
    var n := |a.asteroids| - 1;
    assert r.asteroids == Remove(a.asteroids, j) + Fragments(target, a.nextId, a.rng, m).0;
    if target.size != Small {
      FragmentsFly(target, a.nextId, a.rng, m);
    }
  }

  lemma HitKeepsArenaOk(a: Arena, bi: nat, j: nat, width: real, height: real, m: MathLib)
    requires bi < |a.bullets| && j < |a.asteroids| && a.rng.Valid() && Sound(m)
    ensures ArenaOk(a, width, height) ==>
              var (fragments, nextId, _) := Fragments(a.asteroids[j], a.nextId, a.rng, m);
              && BulletsOk(Remove(a.bullets, bi), nextId, width, height)
              && AsteroidsOk(Remove(a.asteroids, j) + fragments, nextId, width, height)
  {
    if ArenaOk(a, width, height) {
      var target := a.asteroids[j];
      assert AsteroidOk(target, a.nextId, width, height);
      FragmentsOk(target, a.nextId, a.rng, m, width, height);
    }
  }

  /** `resolveBulletAsteroidCollisions` on the bullets [0, k), highest index
      first. */
  function ResolveFrom(a: Arena, k: nat, width: real, height: real, m: MathLib): (r: Arena)
    requires k <= |a.bullets| && a.rng.Valid() && Sound(m)
    ensures r.rng.Valid()
    decreases k
  {
    if k == 0 then a
    else ResolveFrom(HitBullet(a, k - 1, width, height, m), k - 1, width, height, m)
  }

  /** Over the whole pass, every explosion consumed exactly one bullet, ids
      and the score only grow, the high score ends as the larger of the old
      high score and the final score, and the state invariants are kept. */
  lemma {:induction false} ResolveFromFacts(a: Arena, k: nat, width: real, height: real, m: MathLib)
    requires k <= |a.bullets| && a.rng.Valid() && Sound(m)
    ensures var r := ResolveFrom(a, k, width, height, m);
            && |a.bullets| - |r.bullets| == r.explosions - a.explosions <= k
            && a.score <= r.score && a.nextId <= r.nextId
            && (a.score <= a.highScore ==>
                  && r.highScore == (if r.score > a.highScore then r.score else a.highScore)
                  && r.highScoreUpdated == (a.highScoreUpdated || r.score > a.highScore))
            && (ArenaOk(a, width, height) ==> ArenaOk(r, width, height))
    decreases k
  {
    if k > 0 {
      var h := HitBullet(a, k - 1, width, height, m);
      assert ResolveFrom(a, k, width, height, m) == ResolveFrom(h, k - 1, width, height, m);
      HitBulletFacts(a, k - 1, width, height, m);
      ResolveFromFacts(h, k - 1, width, height, m);
    }
  }

  /** With no asteroids on the field no bullet hits anything, so the whole
      pass changes nothing. */
  lemma {:induction false} ResolveFromEmptyField(a: Arena, k: nat, width: real, height: real, m: MathLib)
    requires k <= |a.bullets| && a.rng.Valid() && Sound(m) && a.asteroids == []
    ensures ResolveFrom(a, k, width, height, m) == a
    decreases k
  {
    if k > 0 {
      assert LastHit(a.bullets[k - 1], a.asteroids, 0, width, height).None?;
      assert HitBullet(a, k - 1, width, height, m) == a;
      ResolveFromEmptyField(a, k - 1, width, height, m);
    }
  }

  /** The unit-test scenario of a bullet sitting on a large asteroid: the
      pass scores 20, consumes the bullet and leaves two medium fragments. */
  lemma SplitScenario(bullet: Bullet, rock: Asteroid, score: int, nextId: int, rng: Rng, m: MathLib)
    requires rng.Valid() && Sound(m)
    requires bullet.x == rock.x && bullet.y == rock.y && bullet.radius >= 0.0 && rock.radius >= 0.0
    requires rock.size == Large
    ensures var r := ResolveFrom(Arena([bullet], [rock], score, score, nextId, rng, 0, false), 1,
                                 WORLD_WIDTH, WORLD_HEIGHT, m);
            && r.score == score + 20 && r.bullets == [] && r.explosions == 1
            && |r.asteroids| == 2 && forall i :: 0 <= i < 2 ==> r.asteroids[i].size == Medium
  {
    var a := Arena([bullet], [rock], score, score, nextId, rng, 0, false);
    SameCentreHits(bullet, rock);
    HitBulletOn(a, 0, 0, WORLD_WIDTH, WORLD_HEIGHT, m);
    var hit := HitBullet(a, 0, WORLD_WIDTH, WORLD_HEIGHT, m);
    assert ResolveFrom(a, 1, WORLD_WIDTH, WORLD_HEIGHT, m) == hit;
    var split := Fragments(rock, nextId, rng, m);
    FragmentsFly(rock, nextId, rng, m);
    assert hit.asteroids == Remove([rock], 0) + split.0 == split.0;
  }

  /** A bullet at an asteroid's centre hits it, and it is the last (only)
      asteroid the scan of a one-asteroid field finds. */
  lemma SameCentreHits(bullet: Bullet, rock: Asteroid)
    requires bullet.x == rock.x && bullet.y == rock.y && bullet.radius >= 0.0 && rock.radius >= 0.0
    ensures LastHit(bullet, [rock], 1, WORLD_WIDTH, WORLD_HEIGHT) == Some(0)
  {
    assert Hits(bullet, rock, WORLD_WIDTH, WORLD_HEIGHT);
  }

  /** The `some` of `handleShipCollision`: the ship overlaps an asteroid. */
  predicate ShipCollides(ship: Ship, asteroids: seq<Asteroid>, width: real, height: real)
  {
    exists i :: 0 <= i < |asteroids| && CirclesOverlapTorus(ship.Circle(), asteroids[i].Circle(), width, height)
  }

  /** A ship respawned at a point `findSafeShipSpawn` judged safe overlaps no
      asteroid. */
  lemma SafeRespawnCollidesWithNothing(ship: Ship, asteroids: seq<Asteroid>, width: real, height: real)
    requires ship.radius == SHIP_RADIUS
    requires forall i :: 0 <= i < |asteroids| ==> asteroids[i].radius >= 0.0
    requires IsSafeFromAsteroids(ship.x, ship.y, asteroids, width, height)
    ensures !ShipCollides(ship, asteroids, width, height)
  {
  }

  /** `updateBeat`'s interval: from BEAT_INTERVAL_MIN_MS with the field clear
      to BEAT_INTERVAL_MAX_MS with the level's full wave left, in proportion
      to the share of the wave still present. */
  function BeatInterval(remaining: nat, total: int): (interval: real)
    ensures BEAT_INTERVAL_MIN_MS <= interval <= BEAT_INTERVAL_MAX_MS
    ensures remaining == 0 ==> interval == BEAT_INTERVAL_MIN_MS
    ensures remaining >= total && remaining >= 1 ==> interval == BEAT_INTERVAL_MAX_MS
  {
    var divisor := if 1 >= total then 1 else total;
    var normalizedRemaining := Min(1.0, (remaining as real) / (divisor as real));
    ShareBounds(remaining, divisor);
    BEAT_INTERVAL_MIN_MS + (BEAT_INTERVAL_MAX_MS - BEAT_INTERVAL_MIN_MS) * normalizedRemaining
  }

  lemma ShareBounds(remaining: nat, divisor: int)
    requires divisor >= 1
    ensures (remaining as real) / (divisor as real) >= 0.0
    ensures remaining >= divisor ==> (remaining as real) / (divisor as real) >= 1.0
  {
    var q := (remaining as real) / (divisor as real);
    assert q * (divisor as real) == remaining as real;
    if q < 0.0 {
      PosMul(-q, divisor as real);
    }
    if remaining >= divisor && q < 1.0 {
      BelowOne(divisor as real, q);
    }
  }

  /** The heartbeat quickens as the field clears: fewer asteroids never give
      a longer interval. */
  lemma {:induction false} BeatQuickensAsFieldClears(fewer: nat, more: nat, total: int)
    requires fewer <= more
    ensures BeatInterval(fewer, total) <= BeatInterval(more, total)
  {
    var d := (if 1 >= total then 1 else total) as real;
    MulMonotone(1.0 / d, fewer as real, more as real);
    assert (fewer as real) / d == (1.0 / d) * (fewer as real);
    assert (more as real) / d == (1.0 / d) * (more as real);
  }
}
