/** Plane vectors standing for Godot's `Vector2`, over exact reals. */
module Geometry {

  datatype Vec2 = Vec2(x: real, y: real)

  function Add(a: Vec2, b: Vec2): Vec2 {
    Vec2(a.x + b.x, a.y + b.y)
  }

  function Sub(a: Vec2, b: Vec2): Vec2 {
    Vec2(a.x - b.x, a.y - b.y)
  }

  function Scale(a: Vec2, k: real): Vec2 {
    Vec2(a.x * k, a.y * k)
  }

  function LengthSq(a: Vec2): real {
    a.x * a.x + a.y * a.y
  }

  /** Squared Euclidean distance; never negative, and zero between equal points. */
  function DistSq(a: Vec2, b: Vec2): (d: real)
    ensures d >= 0.0
    ensures a == b ==> d == 0.0
  {
    var v := Sub(b, a);
    SquareNonNegative(v.x);
    SquareNonNegative(v.y);
    assert a == b ==> v == Vec2(0.0, 0.0) && LengthSq(v) == 0.0 * 0.0 + 0.0 * 0.0;
    LengthSq(v)
  }

  /** A nonzero real has a positive square. */
  lemma SquarePositive(d: real)
    requires d != 0.0
    ensures d * d > 0.0
  {
    if d > 0.0 {
      assert d * d > 0.0 * d;
    } else {
      var e := -d;
      assert e * e > 0.0 * e;
      assert d * d == e * e;
    }
  }

  /** A real square is never negative. */
  lemma SquareNonNegative(d: real)
    ensures d * d >= 0.0
  {
    if d != 0.0 {
      SquarePositive(d);
    } else {
      assert d * d == 0.0 * 0.0;
    }
  }

  /** `a.DistanceTo(b)`, with the square root supplied by the caller. */
  function Distance(a: Vec2, b: Vec2, sqrt: real -> real): real {
    sqrt(DistSq(a, b))
  }

  /** `v.Normalized()`: the zero vector stays zero, any other vector is divided
      by its length. */
  function Normalized(v: Vec2, sqrt: real -> real): Vec2 {
    var lsq := LengthSq(v);
    if lsq == 0.0 then Vec2(0.0, 0.0)
    else
      var len := sqrt(lsq);
      if len == 0.0 then Vec2(0.0, 0.0) else Vec2(v.x / len, v.y / len)
  }

  /** The product of two positive reals is positive. */
  lemma ProductPositive(a: real, b: real)
    requires a > 0.0 && b > 0.0
    ensures a * b > 0.0
  {
  }

  /** Squaring is strictly increasing on the non-negative reals. */
  lemma SquareMonotone(a: real, b: real)
    requires 0.0 <= a < b
    ensures a * a < b * b
  {
    if a == 0.0 {
      SquarePositive(b);
      calc {
        a * a;
        0.0;
      <
        b * b;
      }
    } else {
      var d := b - a;
      ProductPositive(b, d);
      ProductPositive(a, d);
      assert b * b - a * b == b * d;
      assert a * b - a * a == a * d;
    }
  }

  /** Dividing a vector by `len` and then scaling by `md` is scaling by
      `md / len`. */
  lemma DivideThenScale(v: Vec2, len: real, md: real)
    requires len != 0.0
    ensures Scale(Vec2(v.x / len, v.y / len), md) == Scale(v, md / len)
  {
  }

  /** A scaled vector's squared length, written through a length `len`. */
  lemma ScaledLength(v: Vec2, t: real, len: real)
    requires len * len == LengthSq(v)
    ensures LengthSq(Scale(v, t)) == (t * len) * (t * len)
  {
    assert LengthSq(Scale(v, t)) == (t * t) * LengthSq(v);
  }
}
