/** Level population, asteroid creation, splitting and safe respawn search
    (src/game/spawn.ts). Every Math.random call reads the next draw of an
    injected `Rng`, and every result returns the advanced stream, so the number
    of draws each operation consumes is part of its contract. */
module Spawn {
  import opened Numeric
  import opened Types
  import opened Constants
  import opened Geometry

  /** The speed range of a level's asteroids. */
  datatype SpeedBand = SpeedBand(min: real, max: real)

  /** p = u * w for a draw u in [0, 1) lies in [0, w], strictly below w when
      w > 0. */
  lemma FractionOf(u: real, w: real, p: real)
    requires 0.0 <= u < 1.0 && p == u * w
    ensures w >= 0.0 ==> 0.0 <= p <= w
    ensures w > 0.0 ==> p < w
  {
    if w > 0.0 {
      NonNegMul(u, w);
      BelowOne(w, u);
    } else if w == 0.0 {
      assert u * w == 0.0;
    }
  }

  /** `randomBetween`: one draw, scaled into [lo, hi). */
  function RandomBetween(lo: real, hi: real, rng: Rng): (r: (real, Rng))
    requires rng.Valid()
    ensures r.1 == rng.Skip(1)
    ensures lo <= hi ==> lo <= r.0 <= hi
    ensures lo < hi ==> r.0 < hi
  {
    var (u, next) := rng.Next();
    var p := u * (hi - lo);
    FractionOf(u, hi - lo, p);
    (lo + p, next)
  }

  /** `randomAngle`: one draw, scaled into [0, 2 pi). */
  function RandomAngle(rng: Rng): (r: (real, Rng))
    requires rng.Valid()
    ensures r.1 == rng.Skip(1)
    ensures 0.0 <= r.0 < TAU
  {
    var (u, next) := rng.Next();
    FractionOf(u, PI, u * PI);
    (u * PI * 2.0, next)
  }

  /** `randomPoint`: two draws, x first, giving a point of the field. */
  function RandomPoint(width: real, height: real, rng: Rng): (r: (Point, Rng))
    requires rng.Valid()
    ensures r.1 == rng.Skip(2)
    ensures width > 0.0 && height > 0.0 ==> InWorld(r.0.x, r.0.y, width, height)
  {
    var (x, afterX) := RandomBetween(0.0, width, rng);
    var (y, afterY) := RandomBetween(0.0, height, afterX);
    (Point(x, y), afterY)
  }

  /** The point drawn by the `i`-th of a run of `randomPoint` calls on
      `rng` (calls 0, 1, ... use draws 2i and 2i + 1). */
  function DrawnPoint(width: real, height: real, rng: Rng, i: nat): (p: Point)
    requires rng.Valid()
    ensures width > 0.0 && height > 0.0 ==> InWorld(p.x, p.y, width, height)
  {
    RandomPoint(width, height, rng.Skip(2 * i)).0
  }

  /** `speedBandForLevel`: both ends rise with the level, the top faster than
      the bottom, so the band widens by 3 per level. */
  function SpeedBandForLevel(level: int): (band: SpeedBand)
    ensures band.max - band.min == (ASTEROID_SPEED_MAX - ASTEROID_SPEED_MIN) + 3.0 * (level as real)
    ensures band.min <= band.max <==> level >= -18
    ensures band.min >= 0.0 <==> level >= -5
    ensures level >= 0 ==> ASTEROID_SPEED_MIN <= band.min && ASTEROID_SPEED_MAX <= band.max
  {
    SpeedBand(ASTEROID_SPEED_MIN + (level as real) * 5.0, ASTEROID_SPEED_MAX + (level as real) * 8.0)
  }

  /** Later levels are never slower, at either end of the band. */
  lemma SpeedBandRisesWithLevel(lower: int, higher: int)
    requires lower <= higher
    ensures SpeedBandForLevel(lower).min <= SpeedBandForLevel(higher).min
    ensures SpeedBandForLevel(lower).max <= SpeedBandForLevel(higher).max
  {
  }

  /** `asteroidCountForLevel`: three more than the level, capped at fourteen. */
  function AsteroidCountForLevel(level: int): (n: int)
    ensures n <= 14 && n <= 3 + level
    ensures n == 14 || n == 3 + level
    ensures level >= 1 ==> 4 <= n
  {
    if 14 <= 3 + level then 14 else 3 + level
  }

  /** The size a fragment of `size` has; small asteroids do not split. */
  function NextSize(size: Size): (r: Option<Size>)
    ensures r.None? <==> size == Small
    ensures r.Some? ==> AsteroidRadius(r.value) < AsteroidRadius(size)
    ensures r.Some? ==> ScoreForSize(r.value) > ScoreForSize(size)
  {
    match size
    case Large => Some(Medium)
    case Medium => Some(Small)
    case Small => None
  }

  /** The velocity (vx, vy) points along `heading` with a speed in [lo, hi]:
      it is the heading's unit vector scaled by its own component along the
      heading, and that component lies in the band. */
  ghost predicate MovesAlong(vx: real, vy: real, heading: real, lo: real, hi: real, m: MathLib)
  {
    var s := vx * m.cos(heading) + vy * m.sin(heading);
    lo <= s <= hi && vx == m.cos(heading) * s && vy == m.sin(heading) * s
  }

  /** Scaling a unit vector (c, s) by k gives a vector of squared length k * k
      whose component along (c, s) is k. */
  lemma ScaledUnit(c: real, s: real, k: real)
    requires c * c + s * s == 1.0
    ensures SpeedSquared(c * k, s * k) == k * k
    ensures (c * k) * c + (s * k) * s == k
  {
    UnitScale(c, s, k);
    assert (c * k) * c + (s * k) * s == (c * c + s * s) * k;
  }

  lemma BandSquares(lo: real, v: real, hi: real)
    ensures 0.0 <= lo <= v <= hi ==> lo * lo <= v * v <= hi * hi
  {
    if 0.0 <= lo <= v <= hi {
      SquareMonotone(lo, v);
      SquareMonotone(v, hi);
    }
  }

  /** `createAsteroid`: a fresh asteroid of `size` at (x, y). Without a given
      heading one draw picks it; then one draw each for the speed, the
      rotation, the spin and the outline seed, in that order. */
  function CreateAsteroid(id: int, size: Size, x: real, y: real, speedMin: real, speedMax: real,
                          angle: Option<real>, rng: Rng, m: MathLib): (r: (Asteroid, Rng))
    requires rng.Valid()
    ensures r.0.id == id && r.0.size == size && r.0.x == x && r.0.y == y
    ensures r.0.radius == AsteroidRadius(size)
    ensures r.1 == rng.Skip(if angle.None? then 5 else 4)
  {
    var (vx, vy, afterSpeed) := Launch(speedMin, speedMax, angle, rng, m);
    var (rotation, afterRotation) := RandomAngle(afterSpeed);
    var (spin, afterSpin) := RandomBetween(-1.2, 1.2, afterRotation);
    var (u, afterSeed) := afterSpin.Next();
    (Asteroid(id, size, x, y, vx, vy, AsteroidRadius(size), rotation, spin, (u * 100000.0).Floor),
     afterSeed)
  }

  /** The first draws of `createAsteroid`: the heading unless it is given,
      then the speed, as a velocity. */
  function Launch(speedMin: real, speedMax: real, angle: Option<real>, rng: Rng, m: MathLib): (r: (real, real, Rng))
    requires rng.Valid()
    ensures r.2 == rng.Skip(if angle.None? then 2 else 1)
  {
    var (heading, afterAngle) := if angle.Some? then (angle.value, rng) else RandomAngle(rng);
    var (speed, afterSpeed) := RandomBetween(speedMin, speedMax, afterAngle);
    (m.cos(heading) * speed, m.sin(heading) * speed, afterSpeed)
  }

  /** A created asteroid moves along its heading at a speed inside
      [speedMin, speedMax]. */
  lemma CreateAsteroidMotion(id: int, size: Size, x: real, y: real, speedMin: real, speedMax: real,
                             angle: Option<real>, rng: Rng, m: MathLib)
    requires rng.Valid() && Sound(m)
    ensures var a := CreateAsteroid(id, size, x, y, speedMin, speedMax, angle, rng, m).0;
            && (0.0 <= speedMin <= speedMax ==>
                  speedMin * speedMin <= SpeedSquared(a.vx, a.vy) <= speedMax * speedMax)
            && (angle.Some? && speedMin <= speedMax ==>
                  MovesAlong(a.vx, a.vy, angle.value, speedMin, speedMax, m))
  {
    var a := CreateAsteroid(id, size, x, y, speedMin, speedMax, angle, rng, m).0;
    var launch := Launch(speedMin, speedMax, angle, rng, m);
    assert a.vx == launch.0 && a.vy == launch.1;
    LaunchMotion(speedMin, speedMax, angle, rng, m);
  }

  lemma LaunchMotion(speedMin: real, speedMax: real, angle: Option<real>, rng: Rng, m: MathLib)
    requires rng.Valid() && Sound(m)
    ensures var l := Launch(speedMin, speedMax, angle, rng, m);
            && (0.0 <= speedMin <= speedMax ==> speedMin * speedMin <= SpeedSquared(l.0, l.1) <= speedMax * speedMax)
            && (angle.Some? && speedMin <= speedMax ==> MovesAlong(l.0, l.1, angle.value, speedMin, speedMax, m))
  {
    var heading, afterAngle;
    if angle.Some? {
      heading, afterAngle := angle.value, rng;
    } else {
      heading, afterAngle := RandomAngle(rng).0, rng.Skip(1);
    }
    var speed := RandomBetween(speedMin, speedMax, afterAngle).0;
    var c, sn := m.cos(heading), m.sin(heading);
    var l := Launch(speedMin, speedMax, angle, rng, m);
    assert l.0 == c * speed && l.1 == sn * speed;
    assert SpeedSquared(l.0, l.1) == SpeedSquared(c * speed, sn * speed);
    ScaledBand(c, sn, speed, speedMin, speedMax);
  }

  /** The unit vector (c, s) scaled by a speed drawn from [lo, hi]: its
      squared length is within the squared band and its component along
      (c, s) is the speed. */
  lemma ScaledBand(c: real, s: real, speed: real, lo: real, hi: real)
    requires c * c + s * s == 1.0
    requires lo <= hi ==> lo <= speed <= hi
    ensures 0.0 <= lo <= hi ==> lo * lo <= SpeedSquared(c * speed, s * speed) <= hi * hi
    ensures lo <= hi ==> var along := (c * speed) * c + (s * speed) * s;
                         lo <= along <= hi && c * speed == c * along && s * speed == s * along
  {
    ScaledUnit(c, s, speed);
    BandSquares(lo, speed, hi);
  }

  /** A created asteroid's rotation, spin and outline seed lie in the ranges
      their draws are scaled to. */
  lemma CreateAsteroidSpin(id: int, size: Size, x: real, y: real, speedMin: real, speedMax: real,
                           angle: Option<real>, rng: Rng, m: MathLib)
    requires rng.Valid()
    ensures var a := CreateAsteroid(id, size, x, y, speedMin, speedMax, angle, rng, m).0;
            && 0.0 <= a.rotation < TAU
            && -1.2 <= a.spin < 1.2
            && 0 <= a.shapeSeed < 100000
  {
    var afterAngle := if angle.Some? then rng else rng.Skip(1);
    var (u, _) := afterAngle.Skip(3).Next();
    var a := CreateAsteroid(id, size, x, y, speedMin, speedMax, angle, rng, m).0;
    assert a.shapeSeed == (u * 100000.0).Floor;
    FractionOf(u, 100000.0, u * 100000.0);
  }

  /** Sum of a sequence of counts, added from the back. */
  function Total(s: seq<nat>): nat
  {
    if s == [] then 0 else Total(s[..|s| - 1]) + s[|s| - 1]
  }

  lemma TotalAppend(s: seq<nat>, t: nat)
    ensures Total(s + [t]) == Total(s) + t
  {
    assert (s + [t])[..|s|] == s;
  }

  /** A large asteroid of a level's opening wave: the id it was given, inside
      the field and, when the band is sensible (true from level -5 up), moving
      within the level's speed band. */
  ghost predicate LevelAsteroid(a: Asteroid, id: int, band: SpeedBand, width: real, height: real)
  {
    && a.id == id && a.size == Large && a.radius == AsteroidRadius(Large)
    && InWorld(a.x, a.y, width, height)
    && (0.0 <= band.min <= band.max ==>
          band.min * band.min <= SpeedSquared(a.vx, a.vy) <= band.max * band.max)
  }

  /** A candidate the search of `spawnLevelAsteroids` redraws: within
      RESPAWN_SAFE_RADIUS of the safe point. */
  predicate TooClose(p: Point, safeX: real, safeY: real, width: real, height: real)
  {
    TorusDistanceSquared(p.x, p.y, safeX, safeY, width, height) < RESPAWN_SAFE_RADIUS * RESPAWN_SAFE_RADIUS
  }

  /** An asteroid placed by a candidate search on `start` that took
      `attempts` redraws: it sits at the last point drawn, and every point
      drawn before it was too close to the safe point. */
  ghost predicate PlacedFrom(a: Asteroid, attempts: nat, start: Rng, safeX: real, safeY: real,
                             width: real, height: real)
  {
    && start.Valid()
    && a.x == DrawnPoint(width, height, start, attempts).x
    && a.y == DrawnPoint(width, height, start, attempts).y
    && forall i :: 0 <= i < attempts ==> TooClose(DrawnPoint(width, height, start, i), safeX, safeY, width, height)
  }

  /** Where the candidate search for asteroid `i` of the opening wave
      starts: after seven draws for each earlier asteroid and two for each of
      its redraws. */
  function StartOf(rng: Rng, tries: seq<nat>, i: nat): Rng
    requires i <= |tries|
  {
    rng.Skip(7 * i + 2 * Total(tries[..i]))
  }

  /** Asteroid `id` of an opening wave, placed by a candidate search that
      started on `start` and took `attempts` redraws: a level asteroid, at
      the last point drawn, every earlier point too close to the safe point,
      and itself clear of it unless all 40 redraws were spent. */
  ghost predicate WaveMember(a: Asteroid, id: int, band: SpeedBand, attempts: nat, start: Rng,
                             safeX: real, safeY: real, width: real, height: real)
  {
    && LevelAsteroid(a, id, band, width, height)
    && attempts <= 40
    && (attempts < 40 ==> !TooClose(Point(a.x, a.y), safeX, safeY, width, height))
    && PlacedFrom(a, attempts, start, safeX, safeY, width, height)
  }

  /** A wave laid out by `spawnLevelAsteroids` around (safeX, safeY), from
      stream `start` to stream `end`: asteroid i has id nextId + i and took
      tries[i] redraws, its search starting on the stream as the asteroids
      before it left it, and the stream ends after all their draws. */
  ghost predicate WaveAround(asteroids: seq<Asteroid>, nextId: int, band: SpeedBand, tries: seq<nat>,
                             start: Rng, end: Rng, safeX: real, safeY: real, width: real, height: real)
  {
    && |tries| == |asteroids|
    && (forall i :: 0 <= i < |asteroids| ==> WaveMemberAt(asteroids, nextId, band, tries, start, i, safeX, safeY, width, height))
    && end == start.Skip(7 * |asteroids| + 2 * Total(tries))
  }

  /** Every asteroid of a wave is a large asteroid of the level with the
      next id, inside the field and moving within the band, and it lies
      outside RESPAWN_SAFE_RADIUS of the safe point unless all 40 of its
      redraws were spent. */
  lemma WaveFacts(asteroids: seq<Asteroid>, nextId: int, band: SpeedBand, tries: seq<nat>,
                  start: Rng, end: Rng, safeX: real, safeY: real, width: real, height: real)
    requires WaveAround(asteroids, nextId, band, tries, start, end, safeX, safeY, width, height)
    ensures forall i :: 0 <= i < |asteroids| ==>
              && LevelAsteroid(asteroids[i], nextId + i, band, width, height)
              && tries[i] <= 40
              && (tries[i] < 40 ==> !TooClose(Point(asteroids[i].x, asteroids[i].y), safeX, safeY, width, height))
  {
    forall i | 0 <= i < |asteroids|
      ensures && LevelAsteroid(asteroids[i], nextId + i, band, width, height)
              && tries[i] <= 40
              && (tries[i] < 40 ==> !TooClose(Point(asteroids[i].x, asteroids[i].y), safeX, safeY, width, height))
    {
      assert WaveMemberAt(asteroids, nextId, band, tries, start, i, safeX, safeY, width, height);
    }
  }

  /** Asteroid i of such a wave. */
  ghost predicate WaveMemberAt(asteroids: seq<Asteroid>, nextId: int, band: SpeedBand, tries: seq<nat>,
                               start: Rng, i: nat, safeX: real, safeY: real, width: real, height: real)
  {
    && i < |asteroids| == |tries|
    && WaveMember(asteroids[i], nextId + i, band, tries[i], StartOf(start, tries, i), safeX, safeY, width, height)
  }

  lemma WaveAppend(asteroids: seq<Asteroid>, tries: seq<nat>, a: Asteroid, attempts: nat, nextId: int,
                   band: SpeedBand, rng: Rng, safeX: real, safeY: real, width: real, height: real)
    requires |tries| == |asteroids|
    requires forall i :: 0 <= i < |asteroids| ==>
               WaveMember(asteroids[i], nextId + i, band, tries[i], StartOf(rng, tries, i), safeX, safeY, width, height)
    requires WaveMember(a, nextId + |asteroids|, band, attempts, StartOf(rng, tries, |tries|),
                        safeX, safeY, width, height)
    ensures forall i :: 0 <= i < |asteroids| + 1 ==>
              WaveMember((asteroids + [a])[i], nextId + i, band, (tries + [attempts])[i],
                         StartOf(rng, tries + [attempts], i), safeX, safeY, width, height)
  {
    forall i | 0 <= i <= |tries|
      ensures StartOf(rng, tries + [attempts], i) == StartOf(rng, tries, i)
    {
      assert (tries + [attempts])[..i] == tries[..i];
    }
  }

  /** The candidate search inside `spawnLevelAsteroids`: draw a point, and
      redraw it while it lies within RESPAWN_SAFE_RADIUS of the safe point, at
      most 40 times. */
  method PickSpawnPoint(width: real, height: real, safeX: real, safeY: real, rng: Rng)
    returns (candidate: Point, attempts: nat, rng': Rng)
    requires rng.Valid() && width > 0.0 && height > 0.0
    ensures InWorld(candidate.x, candidate.y, width, height)
    ensures attempts <= 40
    ensures attempts < 40 ==>
              TorusDistanceSquared(candidate.x, candidate.y, safeX, safeY, width, height)
                >= RESPAWN_SAFE_RADIUS * RESPAWN_SAFE_RADIUS
    ensures rng' == rng.Skip(2 + 2 * attempts)
    ensures candidate == DrawnPoint(width, height, rng, attempts)
    ensures forall i :: 0 <= i < attempts ==> TooClose(DrawnPoint(width, height, rng, i), safeX, safeY, width, height)
  {
    var (first, afterFirst) := RandomPoint(width, height, rng);
    candidate := first;
    rng' := afterFirst;
    attempts := 0;

    while TooClose(candidate, safeX, safeY, width, height) && attempts < 40
      invariant attempts <= 40
      invariant InWorld(candidate.x, candidate.y, width, height)
      invariant rng' == rng.Skip(2 + 2 * attempts)
      invariant candidate == DrawnPoint(width, height, rng, attempts)
      invariant forall i :: 0 <= i < attempts ==> TooClose(DrawnPoint(width, height, rng, i), safeX, safeY, width, height)
      decreases 40 - attempts
    {
      var (next, afterNext) := RandomPoint(width, height, rng');
      candidate := next;
      rng' := afterNext;
      attempts := attempts + 1;
    }
  }

  /** One pass of the loop of `spawnLevelAsteroids`: a large asteroid with id
      `id` at a point picked by PickSpawnPoint, moving within the level's
      speed band; seven draws plus two per redraw. */
  method PlaceLevelAsteroid(id: int, band: SpeedBand, width: real, height: real,
                            safeX: real, safeY: real, rng: Rng, m: MathLib)
    returns (asteroid: Asteroid, attempts: nat, rng': Rng)
    requires rng.Valid() && Sound(m) && width > 0.0 && height > 0.0
    ensures LevelAsteroid(asteroid, id, band, width, height)
    ensures attempts <= 40
    ensures attempts < 40 ==>
              TorusDistanceSquared(asteroid.x, asteroid.y, safeX, safeY, width, height)
                >= RESPAWN_SAFE_RADIUS * RESPAWN_SAFE_RADIUS
    ensures rng' == rng.Skip(7 + 2 * attempts)
    ensures PlacedFrom(asteroid, attempts, rng, safeX, safeY, width, height)
  {
    var candidate, afterCandidate;
    candidate, attempts, afterCandidate := PickSpawnPoint(width, height, safeX, safeY, rng);
    var created := CreateAsteroid(id, Large, candidate.x, candidate.y, band.min, band.max, None, afterCandidate, m);
    asteroid, rng' := created.0, created.1;
    CreateAsteroidMotion(id, Large, candidate.x, candidate.y, band.min, band.max, None, afterCandidate, m);
  }

  /** `spawnLevelAsteroids`: the opening wave of `level`. Each asteroid's
      position is redrawn while it lies within RESPAWN_SAFE_RADIUS of the safe
      point, at most 40 times; `tries` records how many redraws each one took,
      and an asteroid that needed fewer than 40 is outside that radius. */
  method SpawnLevelAsteroids(level: int, nextId: int, width: real, height: real,
                             safeX: real, safeY: real, rng: Rng, m: MathLib)
    returns (asteroids: seq<Asteroid>, nextId': int, rng': Rng, ghost tries: seq<nat>)
    requires rng.Valid() && Sound(m) && width > 0.0 && height > 0.0
    ensures |asteroids| == (if AsteroidCountForLevel(level) > 0 then AsteroidCountForLevel(level) else 0)
    ensures nextId' == nextId + |asteroids|
    ensures WaveAround(asteroids, nextId, SpeedBandForLevel(level), tries, rng, rng', safeX, safeY, width, height)
    ensures rng.pos + 7 * |asteroids| <= rng'.pos <= rng.pos + 87 * |asteroids|
  {
    asteroids := [];
    nextId' := nextId;
    rng' := rng;
    tries := [];
    var count := AsteroidCountForLevel(level);
    var speedBand := SpeedBandForLevel(level);

    while |asteroids| < count
      invariant rng'.Valid()
      invariant |asteroids| <= (if count > 0 then count else 0)
      invariant nextId' == nextId + |asteroids|
      invariant |tries| == |asteroids|
      invariant forall i :: 0 <= i < |asteroids| ==>
                  WaveMember(asteroids[i], nextId + i, speedBand, tries[i], StartOf(rng, tries, i),
                             safeX, safeY, width, height)
      invariant Total(tries) <= 40 * |tries|
      invariant rng'.draw == rng.draw && rng'.pos == rng.pos + 7 * |asteroids| + 2 * Total(tries)
      decreases count - |asteroids|
    {
      var asteroid, attempts, afterPlace := PlaceLevelAsteroid(nextId', speedBand, width, height, safeX, safeY, rng', m);
      assert tries[..|tries|] == tries;
      assert rng' == StartOf(rng, tries, |tries|);
      WaveAppend(asteroids, tries, asteroid, attempts, nextId, speedBand, rng, safeX, safeY, width, height);
      TotalAppend(tries, attempts);
      asteroids := asteroids + [asteroid];
      tries := tries + [attempts];
      rng' := afterPlace;
      nextId' := nextId' + 1;
    }
  }

  /** `Math.max(currentSpeed * 1.18, ASTEROID_SPEED_MIN * 1.4)`: the slowest a
      fragment of `parent` may move. It is at least 1.18 times the parent's
      speed, hence strictly faster than the parent. */
  function FragmentBaseSpeed(parent: Asteroid, m: MathLib): (base: real)
    requires Sound(m)
    ensures base >= ASTEROID_SPEED_MIN * 1.4
    ensures base * base >= 1.3924 * SpeedSquared(parent.vx, parent.vy)
    ensures base * base > SpeedSquared(parent.vx, parent.vy)
  {
    var currentSpeed := m.hypot(parent.vx, parent.vy);
    var base := Max(currentSpeed * 1.18, ASTEROID_SPEED_MIN * 1.4);
    FasterThan(currentSpeed, base);
    base
  }

  lemma FasterThan(h: real, base: real)
    requires h >= 0.0 && base >= h * 1.18 && base >= ASTEROID_SPEED_MIN * 1.4
    ensures base * base >= 1.3924 * (h * h)
    ensures base * base > h * h
  {
    SquareMonotone(h * 1.18, base);
    assert (h * 1.18) * (h * 1.18) == 1.3924 * (h * h);
    SquareStrictMonotone(h, base);
  }

  /** The two fragment headings, one each side of the parent's. */
  const SIGNS: seq<real> := [-1.0, 1.0]

  /** A fragment of `parent`: the next size down, at the parent's centre,
      moving at a speed in [base, base + 26] along the parent's heading turned
      by `sign` times 0.65 radians. */
  ghost predicate IsFragment(f: Asteroid, parent: Asteroid, size: Size, base: real, id: int, sign: real, m: MathLib)
  {
    && f.id == id && f.size == size && f.x == parent.x && f.y == parent.y
    && f.radius == AsteroidRadius(size)
    && base * base <= SpeedSquared(f.vx, f.vy) <= (base + 26.0) * (base + 26.0)
    && MovesAlong(f.vx, f.vy, m.atan2(parent.vy, parent.vx) + sign * 0.65, base, base + 26.0, m)
  }

  /** The first `k` fragments of the split, created in the order of SIGNS,
      four draws each. */
  function FragmentRun(parent: Asteroid, size: Size, base: real, nextId: int, rng: Rng, m: MathLib, k: nat)
    : (r: (seq<Asteroid>, int, Rng))
    requires rng.Valid() && k <= |SIGNS|
    ensures |r.0| == k && r.1 == nextId + k && r.2 == rng.Skip(4 * k)
  {
    if k == 0 then ([], nextId, rng)
    else
      var (previous, id, afterPrevious) := FragmentRun(parent, size, base, nextId, rng, m, k - 1);
      var heading := m.atan2(parent.vy, parent.vx) + SIGNS[k - 1] * 0.65;
      var (f, afterFragment) := CreateAsteroid(id, size, parent.x, parent.y, base, base + 26.0,
                                               Some(heading), afterPrevious, m);
      (previous + [f], id + 1, afterFragment)
  }

  /** Every member of a run is a fragment of the parent, with consecutive ids
      and the heading of its place in SIGNS. */
  lemma {:induction false} FragmentRunShape(parent: Asteroid, size: Size, base: real, nextId: int, rng: Rng,
                                            m: MathLib, k: nat)
    requires rng.Valid() && Sound(m) && base >= 0.0 && k <= |SIGNS|
    ensures var r := FragmentRun(parent, size, base, nextId, rng, m, k);
            forall i :: 0 <= i < k ==> IsFragment(r.0[i], parent, size, base, nextId + i, SIGNS[i], m)
  {
    if k > 0 {
      FragmentRunShape(parent, size, base, nextId, rng, m, k - 1);
      var (_, id, afterPrevious) := FragmentRun(parent, size, base, nextId, rng, m, k - 1);
      var heading := m.atan2(parent.vy, parent.vx) + SIGNS[k - 1] * 0.65;
      CreateAsteroidMotion(id, size, parent.x, parent.y, base, base + 26.0, Some(heading), afterPrevious, m);
    }
  }

  /** What `splitAsteroid` produces: nothing for a small asteroid; otherwise
      two fragments, consuming eight draws. */
  function Fragments(parent: Asteroid, nextId: int, rng: Rng, m: MathLib): (r: (seq<Asteroid>, int, Rng))
    requires rng.Valid() && Sound(m)
    ensures parent.size == Small ==> r == ([], nextId, rng)
    ensures parent.size != Small ==> |r.0| == 2 && r.1 == nextId + 2 && r.2 == rng.Skip(8)
  {
    match NextSize(parent.size)
    case None => ([], nextId, rng)
    case Some(size) => FragmentRun(parent, size, FragmentBaseSpeed(parent, m), nextId, rng, m, 2)
  }

  /** The two fragments of a large or medium asteroid are of the next size,
      at its centre, with ids `nextId` and `nextId + 1`, and fly off on
      either side of its heading, 0.65 radians away, each at a speed in
      [base, base + 26] and so strictly faster than the parent. */
  lemma FragmentsFly(parent: Asteroid, nextId: int, rng: Rng, m: MathLib)
    requires rng.Valid() && Sound(m) && parent.size != Small
    ensures var r := Fragments(parent, nextId, rng, m);
            forall i :: 0 <= i < 2 ==>
              && IsFragment(r.0[i], parent, NextSize(parent.size).value,
                            FragmentBaseSpeed(parent, m), nextId + i, SIGNS[i], m)
              && SpeedSquared(r.0[i].vx, r.0[i].vy) > SpeedSquared(parent.vx, parent.vy)
  {
    var size := NextSize(parent.size).value;
    var base := FragmentBaseSpeed(parent, m);
    assert Fragments(parent, nextId, rng, m) == FragmentRun(parent, size, base, nextId, rng, m, 2);
    FragmentRunShape(parent, size, base, nextId, rng, m, 2);
    var fragments := FragmentRun(parent, size, base, nextId, rng, m, 2).0;
    FragmentFaster(fragments[0], parent, size, base, nextId, SIGNS[0], m);
    FragmentFaster(fragments[1], parent, size, base, nextId + 1, SIGNS[1], m);
  }

  /** A fragment flies at least at the base speed, so faster than its
      parent. */
  lemma FragmentFaster(f: Asteroid, parent: Asteroid, size: Size, base: real, id: int, sign: real, m: MathLib)
    requires Sound(m) && base == FragmentBaseSpeed(parent, m)
    requires IsFragment(f, parent, size, base, id, sign, m)
    ensures SpeedSquared(f.vx, f.vy) > SpeedSquared(parent.vx, parent.vy)
  {
  }

  /** A run one longer is the run with the next fragment appended. */
  lemma FragmentRunNext(parent: Asteroid, size: Size, base: real, nextId: int, rng: Rng, m: MathLib, k: nat)
    requires rng.Valid() && k < |SIGNS|
    ensures var run := FragmentRun(parent, size, base, nextId, rng, m, k);
            var heading := m.atan2(parent.vy, parent.vx) + SIGNS[k] * 0.65;
            var created := CreateAsteroid(run.1, size, parent.x, parent.y, base, base + 26.0, Some(heading), run.2, m);
            FragmentRun(parent, size, base, nextId, rng, m, k + 1) == (run.0 + [created.0], run.1 + 1, created.1)
  {
  }

  /** `splitAsteroid`, with its loop over the two headings. */
  method SplitAsteroid(asteroid: Asteroid, nextId: int, rng: Rng, m: MathLib)
    returns (fragments: seq<Asteroid>, nextId': int, rng': Rng)
    requires rng.Valid() && Sound(m)
    ensures (fragments, nextId', rng') == Fragments(asteroid, nextId, rng, m)
  {
    var nextSize: Option<Size> := None;
    if asteroid.size == Large {
      nextSize := Some(Medium);
    } else if asteroid.size == Medium {
      nextSize := Some(Small);
    }

    if nextSize.None? {
      return [], nextId, rng;
    }

    var currentSpeed := m.hypot(asteroid.vx, asteroid.vy);
    var baseSpeed := Max(currentSpeed * 1.18, ASTEROID_SPEED_MIN * 1.4);
    assert nextSize == NextSize(asteroid.size) && baseSpeed == FragmentBaseSpeed(asteroid, m);
    fragments := [];
    nextId' := nextId;
    rng' := rng;

    for i := 0 to |SIGNS|
      invariant fragments == FragmentRun(asteroid, nextSize.value, baseSpeed, nextId, rng, m, i).0
      invariant nextId' == FragmentRun(asteroid, nextSize.value, baseSpeed, nextId, rng, m, i).1
      invariant rng' == FragmentRun(asteroid, nextSize.value, baseSpeed, nextId, rng, m, i).2
    {
      var angle := m.atan2(asteroid.vy, asteroid.vx) + SIGNS[i] * 0.65;
      var created := CreateAsteroid(nextId', nextSize.value, asteroid.x, asteroid.y,
                                    baseSpeed, baseSpeed + 26.0, Some(angle), rng', m);
      FragmentRunNext(asteroid, nextSize.value, baseSpeed, nextId, rng, m, i);
      fragments := fragments + [created.0];
      rng' := created.1;
      nextId' := nextId' + 1;
    }
  }

  /** An asteroid leaves (x, y) clear when their wrapped distance exceeds its
      radius plus the ship radius plus a margin of 34. */
  predicate ClearOf(x: real, y: real, asteroid: Asteroid, width: real, height: real)
  {
    var clearance := asteroid.radius + SHIP_RADIUS + 34.0;
    TorusDistanceSquared(x, y, asteroid.x, asteroid.y, width, height) > clearance * clearance
  }

  /** `isSafeFromAsteroids`: every asteroid leaves (x, y) clear. A ship
      placed at a safe point overlaps none of them. */
  function IsSafeFromAsteroids(x: real, y: real, asteroids: seq<Asteroid>, width: real, height: real): (safe: bool)
    ensures asteroids == [] ==> safe
    ensures safe ==> forall i :: 0 <= i < |asteroids| && asteroids[i].radius >= 0.0 ==>
              !CirclesOverlapTorus(Circle(x, y, SHIP_RADIUS), asteroids[i].Circle(), width, height)
  {
    SafeSpotIsClear(x, y, asteroids, width, height);
    forall i :: 0 <= i < |asteroids| ==> ClearOf(x, y, asteroids[i], width, height)
  }

  lemma SafeSpotIsClear(x: real, y: real, asteroids: seq<Asteroid>, width: real, height: real)
    ensures (forall i :: 0 <= i < |asteroids| ==> ClearOf(x, y, asteroids[i], width, height)) ==>
            forall i :: 0 <= i < |asteroids| && asteroids[i].radius >= 0.0 ==>
              !CirclesOverlapTorus(Circle(x, y, SHIP_RADIUS), asteroids[i].Circle(), width, height)
  {
    forall i | 0 <= i < |asteroids| && asteroids[i].radius >= 0.0 && ClearOf(x, y, asteroids[i], width, height)
      ensures !CirclesOverlapTorus(Circle(x, y, SHIP_RADIUS), asteroids[i].Circle(), width, height)
    {
      var a := asteroids[i];
      ClearOfOverlap(Circle(x, y, SHIP_RADIUS), a.Circle(), width, height, a.radius + SHIP_RADIUS + 34.0);
    }
  }

  /** The outcome of a respawn search on `rng` that drew `draws` points and
      left the stream at `rng'`: the centre, with no draws, when it is safe;
      otherwise the points drawn in turn, two draws each, all unsafe but the
      last, which is the result when it is safe; when even the 120th is
      unsafe, the centre. */
  ghost predicate SpawnSearched(asteroids: seq<Asteroid>, width: real, height: real, rng: Rng,
                                spawn: Point, rng': Rng, draws: nat)
    requires rng.Valid()
  {
    var centre := Point(width * 0.5, height * 0.5);
    && (IsSafeFromAsteroids(centre.x, centre.y, asteroids, width, height) ==>
          spawn == centre && rng' == rng && draws == 0)
    && (!IsSafeFromAsteroids(centre.x, centre.y, asteroids, width, height) ==>
          && 1 <= draws <= 120 && rng' == rng.Skip(2 * draws)
          && (forall i :: 0 <= i < draws - 1 ==>
                !IsSafeFromAsteroids(DrawnPoint(width, height, rng, i).x, DrawnPoint(width, height, rng, i).y,
                                     asteroids, width, height))
          && (var last := DrawnPoint(width, height, rng, draws - 1);
              if IsSafeFromAsteroids(last.x, last.y, asteroids, width, height) then spawn == last
              else draws == 120 && spawn == centre))
  }

  /** `findSafeShipSpawn`: the field centre when it is safe (no draws);
      otherwise the first of up to 120 random points that is safe; otherwise,
      after all 240 draws, the centre anyway. `draws` counts the points
      drawn. */
  method FindSafeShipSpawn(asteroids: seq<Asteroid>, width: real, height: real, rng: Rng)
    returns (spawn: Point, rng': Rng, ghost draws: nat)
    requires rng.Valid() && width > 0.0 && height > 0.0
    ensures InWorld(spawn.x, spawn.y, width, height)
    ensures SpawnSearched(asteroids, width, height, rng, spawn, rng', draws)
    ensures spawn == Point(width * 0.5, height * 0.5)
            || IsSafeFromAsteroids(spawn.x, spawn.y, asteroids, width, height)
    ensures !IsSafeFromAsteroids(spawn.x, spawn.y, asteroids, width, height) ==> rng' == rng.Skip(240)
    ensures rng'.draw == rng.draw && rng.pos <= rng'.pos <= rng.pos + 240
  {
    var center := Point(width * 0.5, height * 0.5);
    if IsSafeFromAsteroids(center.x, center.y, asteroids, width, height) {
      return center, rng, 0;
    }

    rng' := rng;
    for i := 0 to 120
      invariant rng' == rng.Skip(2 * i)
      invariant forall k :: 0 <= k < i ==>
                  !IsSafeFromAsteroids(DrawnPoint(width, height, rng, k).x, DrawnPoint(width, height, rng, k).y,
                                       asteroids, width, height)
    {
      var (candidate, afterCandidate) := RandomPoint(width, height, rng');
      assert candidate == DrawnPoint(width, height, rng, i);
      rng' := afterCandidate;
      if IsSafeFromAsteroids(candidate.x, candidate.y, asteroids, width, height) {
        return candidate, rng', i + 1;
      }
    }

    assert !IsSafeFromAsteroids(DrawnPoint(width, height, rng, 119).x, DrawnPoint(width, height, rng, 119).y,
                                asteroids, width, height);
    return center, rng', 120;
  }
}
