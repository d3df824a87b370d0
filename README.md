# Torus Asteroids: the step engine, in Dafny

A model of the game engine of Torus Asteroids, an Asteroids clone played on a
wraparound field: whatever leaves one edge comes back at the opposite edge,
so the field is the surface of a torus. The model covers:

- **The fixed-step simulation** (`src/game/sim.ts`): one mutable `GameState`
  advanced in place by `stepSimulation`. This is a state machine over the
  attract, playing, paused and game-over modes. A playing tick does these
  steps in order: ship control, firing, bullet and asteroid motion, the
  bullet–asteroid collision pass with splitting and scoring, ship death and
  respawn, the level advance, and the heartbeat.
- **The spawner** (`src/game/spawn.ts`): per-level asteroid counts and speed
  bands, the opening wave with its bounded rejection loop, the
  large → medium → small split rule, and the safe respawn search.
- **The torus geometry** (`src/game/collision.ts`): wrapped distance and
  circle overlap.
- **Three helpers**: the keyboard latch (`src/input/keyboard.ts`), the
  overlay text table (`src/ui/overlay.ts`), and the ship-to-texture mapping
  of the 3D view (`computeTorusTextureLock` in `src/render/torus3d.ts`).

Modules follow the source files:

| module | file | source |
|---|---|---|
| `Numeric` | numeric.dfy | JavaScript's `%`, `wrapValue`, `Math.PI`, the Math functions as an oracle, `Math.random` as a stream |
| `Types` | types.dfy | `src/game/types.ts` |
| `Constants` | constants.dfy | `src/game/constants.ts` |
| `Geometry` | collision.dfy | `src/game/collision.ts` |
| `Spawn` | spawn.dfy | `src/game/spawn.ts` |
| `SimRules` | rules.dfy | the value-level rules of `src/game/sim.ts` |
| `Sim` | sim.dfy | `src/game/sim.ts` as the class `GameState` |
| `Keyboard` | keyboard.dfy | `src/input/keyboard.ts` as the class `KeyboardInput` |
| `Overlay` | overlay.dfy | `src/ui/overlay.ts` |
| `TorusTexture` | torus_texture.dfy | the arithmetic part of `src/render/torus3d.ts` |

How the model is built:

- **Numbers are exact reals.** JavaScript's `%` is written out as a
  remainder truncated toward zero (`JsRem`). `wrapValue` adds one extent to
  a negative remainder, exactly as the source does, and is proved equal to
  the floored remainder `v - e * floor(v / e)`. Both copies of `wrapValue`
  (in `sim.ts` and `torus3d.ts`) are the same function `Numeric.WrapValue`.
- **Math functions are an oracle.** `Math.cos`, `Math.sin`, `Math.atan2`
  and `Math.hypot` are fields of a `MathLib` value. The only facts assumed
  about them are the predicate `Sound`: cos² + sin² = 1, and hypot is the
  non-negative square root of x² + y².
- **`Math.random` is a stream.** It is an `Rng`: a stream of draws in
  [0, 1) plus a position. Every operation that draws returns the advanced
  stream, so how many draws an operation uses is part of its contract. The
  game state keeps its stream in the field `rng`.
- **In-place updates are methods.** The state-changing parts of `sim.ts`
  are methods of the class `Sim.GameState`, with `modifies` frames for the
  fields they touch. Each method is proved against a function of
  `SimRules` or `Spawn`, and they all keep the invariant `Valid()`:
  - every entity is inside the field, with the radius of its class;
  - every id is below `nextId`;
  - 0 ≤ score ≤ highScore;
  - lives are within `STARTING_LIVES` and are zero exactly in game over,
    which is also exactly when the ship is dead;
  - both timers are in range.
- **Loops are kept.** The loops of the source appear as loops with
  invariants:
  - the nested reverse-index loops of `resolveBulletAsteroidCollisions`;
  - the rejection loops of `spawnLevelAsteroids`;
  - the two-heading loop of `splitAsteroid`;
  - the 120-try loop of `findSafeShipSpawn`;
  - the per-bullet and per-asteroid update loops.

Two consequences of the code's order are modelled as they are:

- **Fragments can be hit in the same tick.** A hit's fragments are appended
  to the asteroid list that the remaining bullets (those at lower indices)
  still scan (`src/game/sim.ts:234-240`). So a later bullet in the same tick
  can hit a fresh fragment. `SimRules.HitBullet` and `SimRules.ResolveFrom`
  model exactly that.
- **Order of evaluation.** Bullets are taken from the last to the first,
  and for each bullet the asteroids from the last to the first; the first
  overlap found is the one that is hit. Which asteroid a bullet destroys can
  therefore depend on this order, and the model keeps it.

## Model

| member | source | states |
|---|---|---|
| Numeric.JsRem | src/game/sim.ts:62 | JavaScript's `v % e`: strictly inside (-e, e), with the sign of `v`, and `v` minus it is exactly `e` times the quotient `v / e` truncated toward zero |
| Numeric.WrapValue | src/game/sim.ts:61-67 | the wrapped coordinate lies in [0, extent), equals the floored remainder `v - extent * floor(v / extent)`, and is `v` itself when `v` is already in range |
| Numeric.WrapShift | src/game/sim.ts:61-67 | shifting by any whole number of extents does not change the wrapped position |
| Numeric.WrapIdempotent | src/game/sim.ts:61-67 | wrapping twice is wrapping once |
| Geometry.TorusAxisDistance | src/game/collision.ts:7-10 | the shorter of the direct separation and the way round; never more than the direct separation; within [0, extent/2] for two points inside the extent; zero between equal points |
| Geometry.TorusAxisDistanceSymmetric | src/game/collision.ts:7-10 | the axis distance is symmetric in its two points |
| Geometry.TorusDistanceSquared | src/game/collision.ts:12-23 | never negative; zero from a point to itself |
| Geometry.TorusDistanceSquaredSymmetric | src/game/collision.ts:12-23 | unchanged when the two points are swapped |
| Geometry.CirclesOverlapTorus | src/game/collision.ts:25-33 | two circles with the same centre and non-negative radii overlap |
| Geometry.CirclesOverlapTorusSymmetric | src/game/collision.ts:25-33 | overlap of a with b is overlap of b with a |
| Geometry.ClearOfOverlap | src/game/collision.ts:25-33 | circles further apart than a clearance at least the sum of their radii do not overlap |
| Spawn.RandomBetween | src/game/spawn.ts:11-13 | uses one draw; the value lies in [min, max], below max when min < max |
| Spawn.RandomAngle | src/game/spawn.ts:15-17 | uses one draw; the angle lies in [0, 2π) |
| Spawn.RandomPoint | src/game/spawn.ts:53-58 | uses two draws, x first; the point lies inside the field |
| Spawn.DrawnPoint | src/game/spawn.ts:53-58 | the point drawn by the i-th of a run of `randomPoint` calls lies inside the field |
| Spawn.SpeedBandForLevel | src/game/spawn.ts:19-23 | the band is 54 + 3·level wide; min ≤ max exactly from level -18 up; min ≥ 0 exactly from level -5 up; from level 0 up both ends are at least ASTEROID_SPEED_MIN and ASTEROID_SPEED_MAX |
| Spawn.SpeedBandRisesWithLevel | src/game/spawn.ts:19-23 | a higher level never lowers either end of the band |
| Spawn.AsteroidCountForLevel | src/game/spawn.ts:25-27 | the count is 14 or 3 + level, whichever is smaller; never above 14; at least 4 from level 1 up |
| Spawn.NextSize | src/game/spawn.ts:105-114 | no next size exactly for small; a fragment size has a smaller radius and a higher score |
| Spawn.CreateAsteroid | src/game/spawn.ts:29-51 | keeps id, size and position; the radius is that of the size; uses five draws, or four when the heading is given |
| Spawn.Launch | src/game/spawn.ts:38-45 | the heading (drawn unless given) and then the speed: one draw with a given heading, two otherwise |
| Spawn.LaunchMotion | src/game/spawn.ts:38-45 | the launch velocity's squared speed lies in [speedMin², speedMax²]; with a given heading, it moves along that heading at a speed inside [speedMin, speedMax] |
| Spawn.CreateAsteroidMotion | src/game/spawn.ts:38-45 | the squared speed lies in [speedMin², speedMax²]; with a given heading, the asteroid moves along that heading at a speed inside [speedMin, speedMax] |
| Spawn.CreateAsteroidSpin | src/game/spawn.ts:47-49 | rotation in [0, 2π), spin in [-1.2, 1.2), outline seed a whole number in [0, 100000) |
| Spawn.PickSpawnPoint | src/game/spawn.ts:73-83 | the candidate is the last point drawn from the stream, and every point drawn before it lies within RESPAWN_SAFE_RADIUS of the safe point; it lies inside the field; there are at most 40 redraws; when the budget was not exhausted, it is at least RESPAWN_SAFE_RADIUS from the safe point; it uses 2 + 2·redraws draws |
| Spawn.PlaceLevelAsteroid | src/game/spawn.ts:72-95 | one pass of the outer loop: a large asteroid with the given id, inside the field, with its speed in the level band; it sits at the last point its candidate search drew, every earlier point having been too close to the safe point; it keeps the rejection-loop guarantees and uses 7 + 2·redraws draws |
| Spawn.SpawnLevelAsteroids | src/game/spawn.ts:60-99 | exactly AsteroidCountForLevel(level) asteroids, all large, inside the field, moving within the level's band; ids are consecutive from `nextId`, and `nextId + count` is returned; asteroid i is placed at the point its own search drew last from the stream as left by the asteroids before it, after at most 40 redraws of points too close to the safe point, and lies outside the safe radius unless it used all 40; it uses 7 + 2·redraws draws per asteroid, between 7 and 87 |
| Spawn.WaveFacts | src/game/spawn.ts:60-99 | every asteroid of a wave laid out around a safe point is a large asteroid of the level with the next id, inside the field, moving within the band, redrawn at most 40 times, and outside RESPAWN_SAFE_RADIUS of the safe point unless all 40 redraws were spent |
| Spawn.FragmentBaseSpeed | src/game/spawn.ts:116-117 | the base speed is at least ASTEROID_SPEED_MIN·1.4 and at least 1.18 times the parent's speed, so it is strictly faster than the parent |
| Spawn.FragmentRun | src/game/spawn.ts:118-134 | the first k fragments: k of them, with ids from `nextId`, using four draws each |
| Spawn.FragmentRunShape | src/game/spawn.ts:118-134 | each fragment of the run is the next size, at the parent's centre, with consecutive ids, heading off the parent's heading by sign·0.65 rad, at a speed in [base, base + 26] |
| Spawn.Fragments | src/game/spawn.ts:101-137 | small gives no fragments, the same `nextId` and no draws; large and medium give two fragments, `nextId + 2` and eight draws |
| Spawn.FragmentsFly | src/game/spawn.ts:105-134 | both fragments of a large or medium asteroid are the next size, at its centre, with ids `nextId` and `nextId + 1`, on either side of its heading at ±0.65 rad, and strictly faster than the parent |
| Spawn.SplitAsteroid | src/game/spawn.ts:101-137 | the loop over the two headings produces exactly the fragments, next id and stream of `Fragments` |
| Spawn.IsSafeFromAsteroids | src/game/spawn.ts:139-153 | true for an empty field; at a safe point a ship of SHIP_RADIUS overlaps no asteroid |
| Spawn.FindSafeShipSpawn | src/game/spawn.ts:155-173 | a safe centre is returned with no draws. Otherwise the points are drawn in turn from the stream, two draws each: the result is the first drawn point that is safe, every point before it being unsafe; when none of the 120 is safe, the result is the centre after 240 draws. The point lies inside the field |
| SimRules.StripEdgeInputs | src/game/sim.ts:69-77 | keeps the four held controls and clears all four edges |
| SimRules.StripEdgeInputsIdempotent | src/game/sim.ts:69-77 | stripping twice is stripping once, and an input without edges is unchanged |
| SimRules.MakeShip | src/game/sim.ts:34-45 | at rest at the given point, alive, fully invulnerable, and satisfying the ship invariant in any field that contains the point |
| SimRules.CapVelocity | src/game/sim.ts:153-158 | the speed never exceeds SHIP_MAX_SPEED; a velocity within the cap is kept; a faster one is scaled to exactly the cap, on the same line and pointing the same way |
| SimRules.ControlledShip | src/game/sim.ts:137-164 | the ship ends inside the field and within the speed cap; invulnerability is never negative, never grows and runs out once dt covers it; without a net turn the heading is kept; without thrust an in-cap velocity is kept; the ship invariant is preserved |
| SimRules.FiredBullet | src/game/sim.ts:173-186 | the new bullet has the given id, BULLET_RADIUS and BULLET_TTL_MS; it starts inside the field; it moves at exactly BULLET_SPEED relative to a fifth of the ship's velocity |
| SimRules.AdvanceBullet | src/game/sim.ts:195-197 | the bullet is moved and wrapped into the field and loses exactly dt·1000 ms of life; its id, velocity and radius are kept |
| SimRules.AdvanceAll | src/game/sim.ts:194-198 | every bullet is advanced, in order |
| SimRules.LiveBullets | src/game/sim.ts:200 | keeps exactly the bullets with time left and no others; with no expired bullet it is the identity |
| SimRules.LiveBulletsOne | src/game/sim.ts:200 | a single bullet is kept exactly when it has time left |
| SimRules.LiveBulletsAppend | src/game/sim.ts:200 | filtering a concatenation is concatenating the filtered parts, so the survivors keep their order |
| SimRules.LiveBulletsSubMultiset | src/game/sim.ts:200 | the survivors are a sub-multiset of the bullets: no bullet is duplicated or invented |
| SimRules.UpdatedBulletsOk | src/game/sim.ts:193-201 | one bullet update keeps the bullet invariant: survivors are advanced bullets, inside the field, with time left |
| SimRules.BulletLifetime | tests/sim.test.ts:44-55 | after k fixed steps a fired bullet has 1300 − k·(1000/60) ms left; it has time left exactly for k < 78, so it is gone well within the 90 steps of the test |
| SimRules.DriftAsteroid | src/game/sim.ts:204-208 | the asteroid is moved and wrapped into the field, and its rotation advances by spin·dt; everything else is kept, and so is the asteroid invariant |
| SimRules.Remove | src/game/sim.ts:234 | `splice(i, 1)`: one element shorter, the same multiset less the removed element, and the others kept in order |
| SimRules.LastHit | src/game/sim.ts:216-243 | the inner scan finds the highest-index asteroid below the bound that the bullet overlaps, and none above it overlaps; when it finds nothing, no asteroid overlaps |
| SimRules.FragmentsOk | src/game/sim.ts:238-240 | fragments of an asteroid inside the field satisfy the asteroid invariant, and the id counter only grows |
| SimRules.HitBullet | src/game/sim.ts:212-247 | one bullet's turn keeps the random stream valid and the bullet index in range (its effect is stated by HitBulletFacts and HitSplitsTarget) |
| SimRules.HitBulletFacts | src/game/sim.ts:212-247 | a miss changes nothing; a hit removes that bullet, leaves one asteroid fewer plus two more unless the asteroid hit was small, adds that asteroid's score and counts one explosion; ids and the score never fall; the high score becomes the larger of itself and the score, flagged when beaten; the invariants on bullets and asteroids are kept |
| SimRules.HitSplitsTarget | src/game/sim.ts:233-241 | a hit on asteroid j removes the bullet and exactly asteroid j, keeping the others in order; a small target leaves nothing behind and `nextId` unchanged; otherwise two fragments follow, each of the next size at the target's centre with ids `nextId` and `nextId + 1`, headed at ∓0.65 rad off the target's heading, strictly faster than the target, and `nextId` rises by 2 |
| SimRules.HitKeepsArenaOk | src/game/sim.ts:233-246 | after a hit, the remaining bullets and the asteroids with the fragments still satisfy their invariants under the new `nextId` |
| SimRules.ResolveFrom | src/game/sim.ts:211-249 | the whole pass keeps the random stream valid (its effect is stated by ResolveFromFacts) |
| SimRules.ResolveFromFacts | src/game/sim.ts:211-249 | over the whole pass, every counted explosion removed exactly one bullet, with at most one per bullet; the score and ids never fall; the high score ends as the larger of the old high score and the final score; the bullet and asteroid invariants are kept |
| SimRules.ResolveFromEmptyField | src/game/sim.ts:211-249 | with no asteroids on the field the pass changes nothing |
| SimRules.SplitScenario | tests/sim.test.ts:57-92 | a bullet on the centre of a large asteroid scores 20, is consumed, and leaves exactly two medium asteroids after one pass |
| SimRules.SameCentreHits | src/game/sim.ts:216-232 | a bullet at an asteroid's centre is found by the scan of a one-asteroid field |
| SimRules.SafeRespawnCollidesWithNothing | src/game/sim.ts:276-282 | a ship placed at a point judged safe collides with no asteroid |
| SimRules.BeatInterval | src/game/sim.ts:297-301 | the interval lies between BEAT_INTERVAL_MIN_MS and BEAT_INTERVAL_MAX_MS; it is the minimum on a clear field and the maximum while the whole wave remains |
| SimRules.BeatQuickensAsFieldClears | src/game/sim.ts:297-301 | fewer asteroids never give a longer interval |
| Sim.GameState.constructor | src/game/sim.ts:79-100 | attract mode in a WORLD_WIDTH × WORLD_HEIGHT field, with the ship at rest in the centre, no bullets, score 0, full lives and level 1; the four large asteroids of level one have ids 1 to 4 and `nextId` is 5; the invariant holds; the wave is laid out around the centre from the given stream, as WaveAround states |
| Sim.GameState.CreateLevelAsteroids | src/game/sim.ts:47-59 | the asteroids become the level's opening wave of AsteroidCountForLevel(level) large asteroids with ids from the old `nextId`, inside the field and moving within the level's band; the wave is laid out around (safeX, safeY) from the old stream (WaveAround): each asteroid sits at the last point its search drew and lies outside RESPAWN_SAFE_RADIUS of (safeX, safeY) unless all 40 redraws were spent; the stream advances by exactly the draws the searches used; `nextId` and the wave size are updated to match |
| Sim.GameState.BeginRun | src/game/sim.ts:102-114 | a fresh run: playing, score 0, full lives, level 1, no bullets, a new ship in the centre and four large asteroids; the high score is kept; the invariant holds; the wave is laid out around the centre from the old stream, as WaveAround states |
| Sim.GameState.MaybeUpdateHighScore | src/game/sim.ts:116-121 | the high score becomes the larger of itself and the score, and the event is raised exactly when the score beat it |
| Sim.GameState.ApplyShipControl | src/game/sim.ts:137-164 | the ship becomes ControlledShip of the old ship; the thrusting event is raised exactly when thrust is held; the invariant is kept |
| Sim.GameState.MaybeFireBullet | src/game/sim.ts:166-191 | the cooldown drops by one fixed step, floored at 0. Exactly one bullet with id `nextId` is appended, `nextId` rises by one, the cooldown restarts and `fired` is raised, if and only if fire is held, the cooldown is spent and the ship is alive. Otherwise bullets, `nextId` and events are unchanged |
| Sim.GameState.UpdateBullets | src/game/sim.ts:193-201 | the bullets become the live ones among the advanced bullets, so every survivor has time left and lost exactly dt of it; the invariant is kept |
| Sim.GameState.UpdateAsteroids | src/game/sim.ts:203-209 | every asteroid is drifted in place, in order; the invariant is kept |
| Sim.GameState.ResolveBulletAsteroidCollisions | src/game/sim.ts:211-249 | the nested reverse loops leave exactly the state and event counts of ResolveFrom over all bullets; other events are untouched |
| Sim.GameState.ShootAsteroids | src/game/sim.ts:211-249 | the collision pass keeps the invariant; each explosion consumed one bullet; score and ids never fall; the high score ends as the larger of the old high score and the score; an empty field stays empty |
| Sim.GameState.ResolveBullet | src/game/sim.ts:213-247 | the inner reverse scan for one bullet leaves exactly the state HitBullet describes |
| Sim.GameState.HitAt | src/game/sim.ts:233-246 | a hit shatters the asteroid and then removes the bullet, as HitBullet describes |
| Sim.GameState.ShatterAsteroid | src/game/sim.ts:233-241 | the asteroid is removed and its fragments appended; its score is added; one explosion is counted; `nextId` and the stream advance as Fragments says; the high score is raised if beaten |
| Sim.GameState.HandleShipCollision | src/game/sim.ts:251-283 | nothing happens while the ship is invulnerable, dead or clear of asteroids. A collision costs exactly one life and counts an explosion. On the last life: game over, the ship dead, `gameOver` and the mode change raised, the high score updated. Otherwise the ship respawns at rest, nose up and fully invulnerable, at the centre or at a safe point. The invariant is kept. A respawn keeps the draw function and uses at most 240 draws |
| Sim.GameState.EndRun | src/game/sim.ts:264-273 | game over: the mode, the dead ship, the explosion, `gameOver`, the mode-change event and the high-score update |
| Sim.GameState.RespawnShip | src/game/sim.ts:276-282 | the ship is moved to the centre or to a safe point inside the field, at rest, nose up, with full invulnerability; nothing else about it changes; the new position and stream are exactly those of the respawn search on the old stream (SpawnSearched): the centre when safe, else the first safe point drawn, else the centre after 240 draws; the draw function is kept and at most 240 draws are used |
| Sim.GameState.MaybeAdvanceLevel | src/game/sim.ts:285-294 | a non-empty field changes nothing. An empty field moves to the next level, raises `levelUp`, lays out a non-empty wave of AsteroidCountForLevel(level) asteroids and rewinds the heartbeat. The invariant is kept. The new wave is laid out around the ship's position from the old stream, as WaveAround states |
| Sim.GameState.UpdateBeat | src/game/sim.ts:296-308 | the heartbeat drops by one fixed step. When it runs out, it is rewound by the interval for the share of the wave left and a beat is raised; otherwise nothing else changes. The invariant is kept |
| Sim.GameState.Step | src/game/sim.ts:310-362 | see the note under the table |
| Sim.GameState.Tick | src/game/sim.ts:347-361 | a playing tick ends playing or in game over, the latter exactly when `gameOver` is raised. At most one life is lost, and the level rises exactly with `levelUp`. A run lost in the tick has no level-up, no beat and an unchanged heartbeat. A run still playing has a non-empty field. A tick that starts on an empty field raises `levelUp`, moves to the next level and loses no life. Score and ids never fall, and the high score follows the score |
| Sim.GameState.Collide | src/game/sim.ts:352-353 | the two collision passes keep the invariant; the run ends exactly when `gameOver` is raised; at most one life is lost; score and ids never fall; the high score follows the score; on an empty field nothing is hit and no life is lost |
| Sim.GameState.Progress | src/game/sim.ts:359-360 | the level check and then the heartbeat: the level rises exactly with `levelUp`, which an empty field always raises; the field is left non-empty, and ids never fall |
| Sim.GameState.ControlAndMove | src/game/sim.ts:347-351 | ship control, firing and motion keep the invariant and the ship's life; ids never fall; the number of asteroids is kept; only the `thrusting` and `fired` events change |
| Keyboard.KeyDown | src/input/keyboard.ts:25-40 | the any-key edge is raised exactly by a fresh press (not a repeat, no meta, ctrl or alt); a non-control key changes neither set; a control key becomes held; it is latched as an edge unless the event is a repeat; a repeat changes neither edge |
| Keyboard.KeyUp | src/input/keyboard.ts:42-49 | a released control key is no longer held; other keys change nothing; latched edges stay |
| Keyboard.Report | src/input/keyboard.ts:51-61 | each held control is reported exactly when its key is held; each edge is reported exactly when its key is latched; the any-key edge as latched |
| Keyboard.Cleared | src/input/keyboard.ts:63-64 | consuming keeps the held keys and clears every edge |
| Keyboard.ConsumeTwice | src/input/keyboard.ts:51-66 | a second consume with no events in between reports no edges and the same held controls |
| Keyboard.TapBetweenConsumes | src/input/keyboard.ts:25-66 | a control key pressed and released between two consumes is reported once as an edge, no longer reads as held, and is not reported again |
| Keyboard.KeyboardInput.constructor | src/input/keyboard.ts:13-23 | nothing held, nothing latched |
| Keyboard.KeyboardInput.OnKeyDown | src/input/keyboard.ts:25-40 | the fields change as KeyDown says; only control keys are ever held or latched |
| Keyboard.KeyboardInput.OnKeyUp | src/input/keyboard.ts:42-49 | the fields change as KeyUp says; the latch invariant is kept |
| Keyboard.KeyboardInput.Consume | src/input/keyboard.ts:51-66 | returns Report of the old latch and leaves Cleared of it |
| Keyboard.ConsumeAgain | src/input/keyboard.ts:51-66 | on a live keyboard, the second of two consumes reports no edges and the same held controls |
| Overlay.OverlayLines | src/ui/overlay.ts:8-33 | no overlay exactly while playing. Attract has 4 lines, opening with "TORUS ASTEROIDS" at 44. Paused has 2, opening with "PAUSED" at 40. Game over has 2, opening with "GAME OVER" at 44. Every line has text and a positive size |
| Overlay.TitleIsLargest | src/ui/overlay.ts:8-33 | on every card the title is drawn larger than any other line |
| TorusTexture.WrapUnit | src/render/torus3d.ts:35-41 | the value lies in [0, 1) and is WrapValue with extent 1 |
| TorusTexture.WrapUnitNear | src/render/torus3d.ts:35-41 | for a value in [-1, 1]: a negative value moves up one turn, 1 becomes 0, and anything else is kept |
| TorusTexture.ComputeTorusTextureLock | src/render/torus3d.ts:43-64 | shipU lies in [0, 1) and shipV in (0, 1], both from the wrapped ship position, with v running upwards. offsetX and offsetY lie in [0, 1): offsetX is shipU − 0.25 moved up one turn when negative, and offsetY is shipV with 1 mapped to 0. The locked point (0.25, 0) and the mesh rotation (π/2, 0) are the same for every input |
| TorusTexture.LockIgnoresWholeTurns | src/render/torus3d.ts:43-64 | moving the ship by whole world widths and heights gives the same lock |
| TorusTexture.OriginExample | tests/mapping.test.ts:5-14 | the ship at (0, 0) in 1024 × 768 gives shipU 0, shipV 1, offsetX 0.75 and offsetY 0 |
| TorusTexture.WrappedExample | tests/mapping.test.ts:16-21 | the ship at (1034, −10) is wrapped first: shipU = 10/1024 and shipV = 1 − 758/768 |
| TorusTexture.CentreExample | tests/mapping.test.ts:23-30 | the ship at (512, 384) gives shipU = shipV = 0.5, offsetX 0.25 and offsetY 0.5 |

`Sim.GameState.Step` states the whole mode machine:

- **Attract.** The any-key edge starts a run, which runs no physics that
  tick and raises `started` and the mode change. Without the edge the state
  is unchanged and the events are the defaults.
- **Game over.** The same, for either restart or any key.
- **Paused without a pause edge.** Nothing changes.
- **Playing with a pause edge.** The mode becomes paused, with the world
  frozen.
- **A playing tick or an unpausing tick.** Physics runs in the same tick,
  with all the guarantees listed for `Tick`. In particular, such a tick
  that starts with no asteroids raises `levelUp`, moves to the next level
  and loses no life.
- **Every step** keeps the invariant.

## Left out

- The DOM layer of `src/input/keyboard.ts` is not modelled. That covers the
  listener registration in the constructor, `destroy` and
  `event.preventDefault`. Key events are plain values (`KeyEvent`) passed
  to the handlers.
- Other files not modelled:
  - `src/main.ts`: the animation-frame loop, `localStorage` high scores,
    fullscreen. The only rule it adds, that ticks after the first in a
    frame see no edges, is what `StripEdgeInputs` supports.
  - `src/render/canvas2d.ts`: drawing, and its cosmetic random generator.
  - `src/audio/synth.ts`: sound.
  - `src/testing/hooks.ts`: test export.
  - `createTorusRenderer`: the three.js scene, together with its torus
    radius constants.
- `getOverlayLines` reads only `state.mode`, so `OverlayLines` takes the
  mode alone.
- Floating point is left out. All arithmetic is exact real arithmetic, so
  rounding, NaN and infinities do not arise. For example, a tiny negative
  value that IEEE rounding wraps to `extent` is not modelled.
- `Math.cos`, `Math.sin`, `Math.atan2` and `Math.hypot` are supplied by a
  `MathLib` value. Only the facts in `Sound` are assumed; nothing is
  assumed about `atan2`.
- `Math.random` is an injected stream of draws in [0, 1). Nothing about the
  distribution of the draws is claimed.
- Asteroid and bullet ids are proved to be below `nextId`, and `nextId`
  never falls. That they are pairwise distinct is not proved.
- `createEvents` and `EMPTY_INPUT` are the constants `NoEvents` and
  `EmptyInput`.
- The playing branch of `stepSimulation` is split into `Tick`,
  `ControlAndMove`, `Collide` and `Progress`, in the source's order. The
  bullet–asteroid pass is wrapped by `ShootAsteroids` to state the
  invariants it keeps. These are not separate functions in the source.
- `worldWidth` and `worldHeight` are `const` fields. The source never
  reassigns them after creation.
- Sim.GameState.Step: takes `dtMs` as an explicit parameter. In the source
  it defaults to FIXED_STEP_MS (`src/game/sim.ts:313`); Dafny methods have
  no default arguments, so callers pass FIXED_STEP_MS themselves.
- Sim.GameState.constructor: takes `highScore` as an explicit parameter.
  In the source it defaults to 0 (`src/game/sim.ts:79`).
- Sim.GameState.constructor: requires a non-negative `highScore`, which the
  source does not check. The invariant `0 <= score <= highScore` needs it.
- Sim.GameState.Step: requires the state invariant `Valid()`, which every
  state built by the constructor and advanced by `Step` satisfies. The
  source does not check it for states edited from outside, as its unit
  tests do. The same holds for the other `GameState` methods that require
  `Valid()`.
- TorusTexture.ComputeTorusTextureLock: requires positive world
  dimensions. With a zero dimension the source divides by zero and yields
  NaN.
- SimRules.HitBullet: its own contract states only that the stream stays
  valid. What one bullet's turn does is stated by `HitBulletFacts` and
  `HitSplitsTarget`.
- SimRules.ResolveFrom: its own contract states only that the stream stays
  valid. What the whole pass does is stated by `ResolveFromFacts`, and
  `ResolveBulletAsteroidCollisions` is proved equal to it.
- Spawn.CreateAsteroid: speeds are stated through squared lengths (the
  model has no square root), plus a component along the heading when the
  heading is given. A random heading's direction is not characterised.
- Spawn.SpawnLevelAsteroids: the speed-band claim holds for bands with
  0 ≤ min ≤ max, which is every level from -5 up.
