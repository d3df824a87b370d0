/** The records of src/game/types.ts: game modes, the three entity kinds, the
    per-tick input snapshot and the per-tick event record. */
module Types {
  import Geometry

  datatype Option<T> = None | Some(value: T)

  datatype Mode = Attract | Playing | Paused | GameOver

  /** Asteroid size classes, large > medium > small. */
  datatype Size = Large | Medium | Small

  datatype Ship = Ship(
    x: real, y: real,
    vx: real, vy: real,
    angle: real,
    radius: real,
    invulnerableMs: real,
    alive: bool)
  {
    function Circle(): Geometry.Circle { Geometry.Circle(x, y, radius) }
  }

  datatype Bullet = Bullet(
    id: int,
    x: real, y: real,
    vx: real, vy: real,
    radius: real,
    ttlMs: real)
  {
    function Circle(): Geometry.Circle { Geometry.Circle(x, y, radius) }
  }

  /** `shapeSeed` only drives the outline the renderer draws. */
  datatype Asteroid = Asteroid(
    id: int,
    size: Size,
    x: real, y: real,
    vx: real, vy: real,
    radius: real,
    rotation: real,
    spin: real,
    shapeSeed: int)
  {
    function Circle(): Geometry.Circle { Geometry.Circle(x, y, radius) }
  }

  /** Held controls (rotate, thrust, fire) and one-shot edges (pause,
      restart, fullscreen, any key) for one tick. */
  datatype InputState = InputState(
    rotateLeft: bool,
    rotateRight: bool,
    thrust: bool,
    fire: bool,
    pausePressed: bool,
    restartPressed: bool,
    fullscreenPressed: bool,
    anyKeyPressed: bool)

  /** What one tick did, for the audio and persistence collaborators. */
  datatype StepEvents = StepEvents(
    fired: bool,
    explosions: nat,
    beat: bool,
    thrusting: bool,
    started: bool,
    gameOver: bool,
    highScoreUpdated: bool,
    modeChanged: Option<Mode>,
    levelUp: bool)

  /** `EMPTY_INPUT`: nothing held, nothing pressed. */
  const EmptyInput := InputState(false, false, false, false, false, false, false, false)

  /** `createEvents()`: the record of a tick in which nothing happened. */
  const NoEvents := StepEvents(false, 0, false, false, false, false, false, None, false)
}
