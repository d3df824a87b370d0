/** The pieces of JavaScript's number library that the game relies on, in exact
    real arithmetic: the truncating remainder `%`, the wrap of a coordinate
    into [0, extent), Math.PI, the transcendental Math functions (as an injected
    oracle) and Math.random (as an injected stream of draws). */
module Numeric {

  /** Math.PI, as the decimal literal JavaScript prints for it. */
  const PI: real := 3.141592653589793

  function Max(a: real, b: real): real { if a >= b then a else b }

  function Min(a: real, b: real): real { if a <= b then a else b }

  /** The integer part of `q`, rounding toward zero. */
  function Trunc(q: real): int
  {
    if q >= 0.0 then q.Floor else -((-q).Floor)
  }

  /** JavaScript's `v % e` on numbers: the remainder of the division truncated
      toward zero, so it has the sign of the dividend. */
  function JsRem(v: real, e: real): (r: real)
    requires e > 0.0
    ensures -e < r < e
    ensures v >= 0.0 ==> 0.0 <= r
    ensures v < 0.0 ==> r <= 0.0
    ensures v - r == e * (Trunc(v / e) as real)
  {
    var t := Trunc(v / e);
    FractionBounds(v, e, v / e, t);
    v - e * (t as real)
  }

  /** Truncation drops less than one whole unit, toward zero. */
  lemma TruncBounds(q: real)
    ensures -1.0 < q - Trunc(q) as real < 1.0
    ensures q >= 0.0 ==> q - Trunc(q) as real >= 0.0
    ensures q < 0.0 ==> q - Trunc(q) as real <= 0.0
  {
  }

  /** The part of `v = e * q` that truncating `q` drops stays inside (-e, e)
      and keeps the sign of `v`. */
  lemma FractionBounds(v: real, e: real, q: real, t: int)
    requires e > 0.0 && v == e * q && t == Trunc(q)
    ensures -e < v - e * (t as real) < e
    ensures v >= 0.0 ==> 0.0 <= v - e * (t as real)
    ensures v < 0.0 ==> v - e * (t as real) <= 0.0
  {
    var d := q - t as real;
    TruncBounds(q);
    ScaledFraction(e, d, v - e * (t as real));
    if q < 0.0 {
      PosMul(e, -q);
    } else {
      NonNegMul(e, q);
    }
  }

  lemma ScaledFraction(e: real, d: real, p: real)
    requires e > 0.0 && -1.0 < d < 1.0 && p == e * d
    ensures -e < p < e
    ensures d >= 0.0 ==> p >= 0.0
    ensures d <= 0.0 ==> p <= 0.0
  {
    AboveMinusOne(e, d);
    BelowOne(e, d);
    MulSign(e, d);
  }

  lemma MulSign(e: real, d: real)
    requires e > 0.0
    ensures d >= 0.0 ==> e * d >= 0.0
    ensures d <= 0.0 ==> e * d <= 0.0
  {
    if d > 0.0 {
      PosMul(e, d);
    } else if d < 0.0 {
      PosMul(e, -d);
    }
  }

  lemma AboveMinusOne(e: real, d: real)
    requires e > 0.0 && -1.0 < d
    ensures e * d > -e
  {
    PosMul(e, d + 1.0);
  }

  lemma BelowOne(e: real, d: real)
    requires e > 0.0 && d < 1.0
    ensures e * d < e
  {
    PosMul(e, 1.0 - d);
  }

  lemma PosMul(x: real, y: real)
    requires x > 0.0 && y > 0.0
    ensures x * y > 0.0
  {
  }

  lemma NonNegMul(x: real, y: real)
    requires x >= 0.0 && y >= 0.0
    ensures x * y >= 0.0
  {
    if x > 0.0 && y > 0.0 {
      PosMul(x, y);
    }
  }

  lemma MulMonotone(k: real, a: real, b: real)
    requires k > 0.0 && a <= b
    ensures k * a <= k * b
    ensures a < b ==> k * a < k * b
  {
    NonNegMul(k, b - a);
    if a < b {
      PosMul(k, b - a);
    }
    assert k * (b - a) == k * b - k * a;
  }

  /** `wrapValue` (src/game/sim.ts and src/render/torus3d.ts): the remainder,
      moved up by one extent when it is negative, is the position of `v` on a
      circle of circumference `extent`. */
  function WrapValue(v: real, extent: real): (r: real)
    requires extent > 0.0
    ensures 0.0 <= r < extent
    ensures r == v - extent * ((v / extent).Floor as real)
    ensures 0.0 <= v < extent ==> r == v
  {
    var wrapped := JsRem(v, extent);
    WrapIsFloorRemainder(v, extent, wrapped);
    FloorOfFraction(v, extent);
    if wrapped < 0.0 then wrapped + extent else wrapped
  }

  /** The truncate-then-add-extent remainder equals the floored remainder
      `v - e * floor(v / e)`. */
  lemma WrapIsFloorRemainder(v: real, e: real, rem: real)
    requires e > 0.0 && rem == JsRem(v, e)
    ensures (if rem < 0.0 then rem + e else rem) == v - e * ((v / e).Floor as real)
  {
    var q := v / e;
    assert v == e * q;
    var t := Trunc(q);
    var f := q.Floor;
    assert rem == v - e * (t as real);
    if q >= 0.0 {
      assert t == f;
    } else if rem < 0.0 {
      // q is not a whole number, so floor(q) is one below the truncation
      assert (t as real) != q;
      assert f == t - 1;
      assert rem + e == v - e * ((t - 1) as real);
    } else {
      assert rem == 0.0;
      assert e * q == e * (t as real);
      assert q == t as real;
      assert f == t;
    }
  }

  lemma FloorOfFraction(v: real, e: real)
    requires e > 0.0
    ensures 0.0 <= v < e ==> (v / e).Floor == 0
  {
    if 0.0 <= v < e {
      if v / e >= 1.0 {
        MulMonotone(e, 1.0, v / e);
        assert false;
      }
    }
  }

  /** Wrapping forgets whole turns: shifting by any whole number of extents
      lands on the same wrapped position. */
  lemma {:induction false} WrapShift(v: real, e: real, k: int)
    requires e > 0.0
    ensures WrapValue(v + (k as real) * e, e) == WrapValue(v, e)
  {
    FloorShift(v, e, k);
    ShiftedRemainder(v, e, k, (v / e).Floor);
  }

  /** Adding k extents adds exactly k to the quotient's floor. */
  lemma FloorShift(v: real, e: real, k: int)
    requires e > 0.0
    ensures ((v + (k as real) * e) / e).Floor == (v / e).Floor + k
  {
    assert (v + (k as real) * e) / e == v / e + k as real;
  }

  /** Taking k more whole extents off a value shifted by k extents. */
  lemma ShiftedRemainder(v: real, e: real, k: int, f: int)
    ensures v + (k as real) * e - e * ((f + k) as real) == v - e * (f as real)
  {
  }

  /** Wrapping twice is wrapping once. */
  lemma WrapIdempotent(v: real, e: real)
    requires e > 0.0
    ensures WrapValue(WrapValue(v, e), e) == WrapValue(v, e)
  {
  }

  /** The transcendental functions of JavaScript's Math object, which exact
      arithmetic cannot compute, supplied from outside. */
  datatype MathLib = MathLib(
    cos: real -> real,
    sin: real -> real,
    atan2: (real, real) -> real,
    hypot: (real, real) -> real)

  /** The only facts about those functions the game's guarantees rest on:
      cos and sin lie on the unit circle, and hypot is the non-negative
      Euclidean length. */
  ghost predicate Sound(m: MathLib)
  {
    && (forall a :: m.cos(a) * m.cos(a) + m.sin(a) * m.sin(a) == 1.0)
    && (forall x, y :: 0.0 <= m.hypot(x, y) && m.hypot(x, y) * m.hypot(x, y) == x * x + y * y)
  }

  /** Math.random as a stream of draws in [0, 1) and the position of the next
      one; a caller that wants reproducible runs supplies the stream. */
  datatype Rng = Rng(draw: nat -> real, pos: nat)
  {
    ghost predicate Valid()
    {
      forall i: nat :: 0.0 <= draw(i) < 1.0
    }

    /** The stream after `n` more calls. */
    function Skip(n: nat): Rng
    {
      this.(pos := pos + n)
    }

    /** One call of Math.random: the next draw and the advanced stream. */
    function Next(): (r: (real, Rng))
      ensures r.1 == Skip(1)
      ensures Valid() ==> 0.0 <= r.0 < 1.0
    {
      (draw(pos), this.(pos := pos + 1))
    }
  }

  /** A product with a factor of length one keeps the length of the other. */
  lemma UnitScale(c: real, s: real, k: real)
    requires c * c + s * s == 1.0
    ensures (c * k) * (c * k) + (s * k) * (s * k) == k * k
  {
    calc {
      (c * k) * (c * k) + (s * k) * (s * k);
      (c * c + s * s) * (k * k);
      k * k;
    }
  }

  lemma SquareMonotone(a: real, b: real)
    requires 0.0 <= a <= b
    ensures a * a <= b * b
  {
    NonNegMul(b - a, b + a);
    assert (b - a) * (b + a) == b * b - a * a;
  }

  lemma SquareStrictMonotone(a: real, b: real)
    requires 0.0 <= a < b
    ensures a * a < b * b
  {
    PosMul(b - a, b + a);
    assert (b - a) * (b + a) == b * b - a * a;
  }
}
