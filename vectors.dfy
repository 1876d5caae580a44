/** Plain numeric records shared by every part of the simulation: 2- and 3-vectors,
    the trigonometric oracle that stands for `Math.cos`/`Math.sin` (and Rust's
    `f32::cos`/`f32::sin`), and the range of one `Math.random()` draw. */
module Vectors {

  datatype Vec2 = Vec2(x: real, y: real)

  datatype Vec3 = Vec3(x: real, y: real, z: real)
  {
    function Plus(v: Vec3): Vec3 {
      Vec3(x + v.x, y + v.y, z + v.z)
    }

    function Scale(k: real): Vec3 {
      Vec3(x * k, y * k, z * k)
    }
  }

  /** The value of one `Math.random()` call: a real in [0, 1). */
  predicate Unit(u: real) {
    0.0 <= u < 1.0
  }

  /** `Math.PI` */
  const PI: real := 3.141592653589793

  /** Cosine and sine are not computed by the model; they are supplied as two
      functions that obey the bounds and the Pythagorean identity. */
  datatype Trig = Trig(cos: real -> real, sin: real -> real)

  ghost predicate ValidTrig(t: Trig) {
    forall a: real ::
      && -1.0 <= t.cos(a) <= 1.0
      && -1.0 <= t.sin(a) <= 1.0
      && t.cos(a) * t.cos(a) + t.sin(a) * t.sin(a) == 1.0
  }

  /** Scaling by a non-negative factor keeps the order of two reals. */
  lemma MulMonotone(a: real, b: real, c: real)
    requires a <= b && c >= 0.0
    ensures a * c <= b * c
  {
    assert b * c - a * c == (b - a) * c;
  }

  /** Scaling by a positive factor keeps a strict order. */
  lemma MulStrictMonotone(a: real, b: real, c: real)
    requires a < b && c > 0.0
    ensures a * c < b * c
  {
    assert b * c - a * c == (b - a) * c;
  }

  /** A factor in [-1, 1] shrinks a non-negative real. */
  lemma ScaleWithinUnit(c: real, x: real)
    requires -1.0 <= c <= 1.0 && x >= 0.0
    ensures -x <= c * x <= x
  {
    MulMonotone(c, 1.0, x);
    MulMonotone(-1.0, c, x);
    assert 1.0 * x == x && -1.0 * x == -x;
  }

  /** Dividing by a positive real keeps the order. */
  lemma DivMonotone(a: real, b: real, c: real)
    requires a <= b && c > 0.0
    ensures a / c <= b / c
  {
    assert b / c - a / c == (b - a) / c;
  }

  function Abs(x: real): (r: real)
    ensures r >= 0.0 && (r == x || r == -x)
  {
    if x < 0.0 then -x else x
  }
}
