/** The tuning constants of src/game/constants.ts. */
module Constants {
  import opened Numeric
  import opened Types

  const TAU: real := PI * 2.0

  const WORLD_WIDTH: real := 1024.0
  const WORLD_HEIGHT: real := 768.0
  const FIXED_STEP_MS: real := 1000.0 / 60.0

  const STARTING_LIVES: int := 3

  const SHIP_RADIUS: real := 14.0
  const SHIP_TURN_SPEED: real := PI * 1.85
  const SHIP_THRUST: real := 330.0
  const SHIP_MAX_SPEED: real := 430.0
  const SHIP_RESPAWN_INVULNERABLE_MS: real := 1800.0

  const BULLET_RADIUS: real := 2.5
  const BULLET_SPEED: real := 590.0
  const BULLET_TTL_MS: real := 1300.0
  const FIRE_COOLDOWN_MS: real := 190.0

  const ASTEROID_SPEED_MIN: real := 28.0
  const ASTEROID_SPEED_MAX: real := 82.0

  const BEAT_INTERVAL_MAX_MS: real := 950.0
  const BEAT_INTERVAL_MIN_MS: real := 290.0

  const RESPAWN_SAFE_RADIUS: real := 190.0

  /** `ASTEROID_RADIUS`: the collision radius of each size class. */
  function AsteroidRadius(size: Size): real
  {
    match size
    case Large => 48.0
    case Medium => 28.0
    case Small => 16.0
  }

  /** `SCORE_FOR_SIZE`: the points awarded for destroying each size class. */
  function ScoreForSize(size: Size): int
  {
    match size
    case Large => 20
    case Medium => 50
    case Small => 100
  }
}
