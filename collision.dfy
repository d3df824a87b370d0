/** Distances and circle overlap on the wraparound field (src/game/collision.ts):
    each axis is a circle, so two points are as far apart as the shorter way
    round on each axis. */
module Geometry {
  import opened Numeric

  datatype Circle = Circle(x: real, y: real, radius: real)

  datatype Point = Point(x: real, y: real)

  /** The field invariant: a position lies in [0, width) x [0, height). */
  predicate InWorld(x: real, y: real, width: real, height: real)
  {
    0.0 <= x < width && 0.0 <= y < height
  }

  function Abs(x: real): real { if x < 0.0 then -x else x }

  /** The squared length of a velocity (vx, vy). */
  function SpeedSquared(vx: real, vy: real): real { vx * vx + vy * vy }

  /** `torusAxisDistance`: the direct separation, or the way round the other
      side when that is shorter. */
  function TorusAxisDistance(a: real, b: real, extent: real): (d: real)
    ensures d == Min(Abs(a - b), extent - Abs(a - b))
    ensures d <= Abs(a - b)
    ensures 0.0 <= a < extent && 0.0 <= b < extent ==> 0.0 <= d <= extent / 2.0
    ensures a == b && extent >= 0.0 ==> d == 0.0
  {
    var raw := Abs(a - b);
    if raw > extent / 2.0 then extent - raw else raw
  }

  lemma TorusAxisDistanceSymmetric(a: real, b: real, extent: real)
    ensures TorusAxisDistance(a, b, extent) == TorusAxisDistance(b, a, extent)
  {
  }

  /** `torusDistanceSquared`: the squared length of the shortest wrapped
      displacement from (x1, y1) to (x2, y2). */
  function TorusDistanceSquared(x1: real, y1: real, x2: real, y2: real, width: real, height: real): (r: real)
    ensures r >= 0.0
    ensures x1 == x2 && y1 == y2 && width >= 0.0 && height >= 0.0 ==> r == 0.0
  {
    var dx := TorusAxisDistance(x1, x2, width);
    var dy := TorusAxisDistance(y1, y2, height);
    SquareNonNegative(dx);
    SquareNonNegative(dy);
    dx * dx + dy * dy
  }

  lemma SquareNonNegative(x: real)
    ensures x * x >= 0.0
  {
    if x < 0.0 {
      PosMul(-x, -x);
    } else {
      NonNegMul(x, x);
    }
  }

  lemma TorusDistanceSquaredSymmetric(x1: real, y1: real, x2: real, y2: real, width: real, height: real)
    ensures TorusDistanceSquared(x1, y1, x2, y2, width, height) == TorusDistanceSquared(x2, y2, x1, y1, width, height)
  {
    TorusAxisDistanceSymmetric(x1, x2, width);
    TorusAxisDistanceSymmetric(y1, y2, height);
  }

  /** `circlesOverlapTorus`: the circles touch or overlap somewhere on the
      torus. */
  function CirclesOverlapTorus(a: Circle, b: Circle, width: real, height: real): (r: bool)
    ensures (a.x == b.x && a.y == b.y && a.radius >= 0.0 && b.radius >= 0.0
             && width >= 0.0 && height >= 0.0) ==> r
  {
    var minDistance := a.radius + b.radius;
    SquareNonNegative(minDistance);
    TorusDistanceSquared(a.x, a.y, b.x, b.y, width, height) <= minDistance * minDistance
  }

  lemma CirclesOverlapTorusSymmetric(a: Circle, b: Circle, width: real, height: real)
    ensures CirclesOverlapTorus(a, b, width, height) == CirclesOverlapTorus(b, a, width, height)
  {
    TorusDistanceSquaredSymmetric(a.x, a.y, b.x, b.y, width, height);
    assert a.radius + b.radius == b.radius + a.radius;
  }

  /** Circles whose centres are further apart than `clearance`, which is at
      least the sum of their radii, do not overlap. */
  lemma ClearOfOverlap(a: Circle, b: Circle, width: real, height: real, clearance: real)
    requires 0.0 <= a.radius + b.radius <= clearance
    requires TorusDistanceSquared(a.x, a.y, b.x, b.y, width, height) > clearance * clearance
    ensures !CirclesOverlapTorus(a, b, width, height)
  {
    SquareMonotone(a.radius + b.radius, clearance);
  }
}
