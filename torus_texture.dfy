/** The part of src/render/torus3d.ts that is plain arithmetic: where the
    ship sits on the torus texture, and the texture offset that keeps it at a
    fixed spot of the mesh. The three.js renderer itself is not modelled. */
module TorusTexture {
  import opened Numeric

  /** The texture coordinates the ship is held at. */
  const LOCKED_SHIP_U: real := 0.25
  const LOCKED_SHIP_V: real := 0.0
  /** The mesh's fixed orientation. */
  const FIXED_TORUS_ROTATION_X: real := PI * 0.5
  const FIXED_TORUS_ROTATION_Y: real := 0.0

  /** `TorusTextureLock`. */
  datatype TextureLock = TextureLock(
    shipU: real,
    shipV: real,
    lockedU: real,
    lockedV: real,
    offsetX: real,
    offsetY: real,
    meshRotationX: real,
    meshRotationY: real)

  /** `wrapUnit`: the position of `v` on a circle of circumference one, by
      the same truncate-then-add rule as WrapValue. */
  function WrapUnit(v: real): (r: real)
    ensures 0.0 <= r < 1.0
    ensures r == WrapValue(v, 1.0)
  {
    var wrapped := JsRem(v, 1.0);
    if wrapped < 0.0 then wrapped + 1.0 else wrapped
  }

  /** A wrapped coordinate over its extent is a fraction in [0, 1). */
  lemma UnitFraction(a: real, e: real)
    requires 0.0 <= a < e
    ensures 0.0 <= a / e < 1.0 && (a / e) * e == a
  {
    var q := a / e;
    assert q * e == a;
    if q < 0.0 {
      PosMul(-q, e);
    }
    if q >= 1.0 {
      MulMonotone(e, 1.0, q);
    }
  }

  /** A wrapped coordinate as a fraction of its extent. */
  function Fraction(a: real, e: real): (q: real)
    requires 0.0 <= a < e
    ensures 0.0 <= q < 1.0 && q * e == a
  {
    UnitFraction(a, e);
    a / e
  }

  /** Wrapping a number in [-1, 1] onto the unit circle: it is moved up by
      one turn when negative, down by one turn when it is 1, and otherwise
      kept. */
  lemma WrapUnitNear(v: real)
    requires -1.0 <= v <= 1.0
    ensures WrapUnit(v) == (if v < 0.0 then v + 1.0 else if v == 1.0 then 0.0 else v)
  {
    if v < 0.0 {
      WrapShift(v + 1.0, 1.0, -1);
    } else if v == 1.0 {
      WrapShift(0.0, 1.0, 1);
    }
  }

  /** `computeTorusTextureLock`: the ship's wrapped position as texture
      coordinates (v runs upwards, so it lies in (0, 1]), and the offsets,
      wrapped into [0, 1), that move the ship's texel to the locked spot. The
      locked spot and the mesh rotation are the same for every input. */
  function ComputeTorusTextureLock(shipX: real, shipY: real, worldWidth: real, worldHeight: real)
    : (lock: TextureLock)
    requires worldWidth > 0.0 && worldHeight > 0.0
    ensures 0.0 <= lock.shipU < 1.0 && 0.0 < lock.shipV <= 1.0
    ensures lock.shipU == WrapValue(shipX, worldWidth) / worldWidth
    ensures lock.shipV == 1.0 - WrapValue(shipY, worldHeight) / worldHeight
    ensures 0.0 <= lock.offsetX < 1.0 && 0.0 <= lock.offsetY < 1.0
    ensures lock.offsetX == (if lock.shipU < LOCKED_SHIP_U then lock.shipU + 0.75 else lock.shipU - LOCKED_SHIP_U)
    ensures lock.offsetY == (if lock.shipV == 1.0 then 0.0 else lock.shipV)
    ensures lock.lockedU == 0.25 && lock.lockedV == 0.0
    ensures lock.meshRotationX == PI * 0.5 && lock.meshRotationY == 0.0
  {
    var shipU := Fraction(WrapValue(shipX, worldWidth), worldWidth);
    var shipV := 1.0 - Fraction(WrapValue(shipY, worldHeight), worldHeight);
    WrapUnitNear(shipU - LOCKED_SHIP_U);
    WrapUnitNear(shipV - LOCKED_SHIP_V);
    TextureLock(shipU, shipV, LOCKED_SHIP_U, LOCKED_SHIP_V,
                WrapUnit(shipU - LOCKED_SHIP_U), WrapUnit(shipV - LOCKED_SHIP_V),
                FIXED_TORUS_ROTATION_X, FIXED_TORUS_ROTATION_Y)
  }

  /** The lock depends only on where the ship is on the torus: moving it by
      whole world widths and heights changes nothing. */
  lemma {:induction false} LockIgnoresWholeTurns(shipX: real, shipY: real, worldWidth: real, worldHeight: real,
                                                 turnsX: int, turnsY: int)
    requires worldWidth > 0.0 && worldHeight > 0.0
    ensures ComputeTorusTextureLock(shipX + (turnsX as real) * worldWidth, shipY + (turnsY as real) * worldHeight,
                                    worldWidth, worldHeight)
            == ComputeTorusTextureLock(shipX, shipY, worldWidth, worldHeight)
  {
    WrapShift(shipX, worldWidth, turnsX);
    WrapShift(shipY, worldHeight, turnsY);
  }

  /** The ship at the origin of a 1024 x 768 world sits at u = 0, v = 1, and
      the texture is offset by three quarters across and not at all up. */
  lemma OriginExample()
    ensures var lock := ComputeTorusTextureLock(0.0, 0.0, 1024.0, 768.0);
            lock.shipU == 0.0 && lock.shipV == 1.0 && lock.offsetX == 0.75 && lock.offsetY == 0.0
  {
  }

  /** A ship outside the world is wrapped first: (1034, -10) is (10, 758). */
  lemma WrappedExample()
    ensures var lock := ComputeTorusTextureLock(1034.0, -10.0, 1024.0, 768.0);
            lock.shipU == 10.0 / 1024.0 && lock.shipV == 1.0 - 758.0 / 768.0
  {
    WrapShift(10.0, 1024.0, 1);
    WrapShift(758.0, 768.0, -1);
  }

  /** The ship at the centre sits at u = v = 0.5, with offsets 0.25 and 0.5. */
  lemma CentreExample()
    ensures var lock := ComputeTorusTextureLock(512.0, 384.0, 1024.0, 768.0);
            lock.shipU == 0.5 && lock.shipV == 0.5 && lock.offsetX == 0.25 && lock.offsetY == 0.5
  {
  }
}
