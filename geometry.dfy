/**
 * Two-dimensional vectors of the working plane: the `Vn` helper of
 * facesvg/svg.rb, restricted to the two coordinates `V2d` keeps.
 */
module Geometry {

  datatype Vec = Vec(x: real, y: real)

  /**
   * The floating-point library functions the source calls (`Math.cos`,
   * `Math.sin`, `Math.atan`, `Math.atan2` and the square root behind `**0.5`).
   * They are passed in, so the model states nothing about their values.
   */
  datatype FloatMath = FloatMath(
    cos: real -> real,
    sin: real -> real,
    atan: real -> real,
    atan2: (real, real) -> real,
    sqrt: real -> real)

  /** `Math::PI` as a double. */
  const PI: real := 3.141592653589793

  /** `Vn#+`: componentwise sum. */
  function Add(a: Vec, b: Vec): Vec {
    Vec(a.x + b.x, a.y + b.y)
  }

  /** `Vn#-`: componentwise difference. */
  function Sub(a: Vec, b: Vec): Vec {
    Vec(a.x - b.x, a.y - b.y)
  }

  /** `Vn#*`: multiplication by a scalar. */
  function Scale(a: Vec, k: real): Vec {
    Vec(a.x * k, a.y * k)
  }

  /** `Vn#%`: the dot product. */
  function Dot(a: Vec, b: Vec): real {
    a.x * b.x + a.y * b.y
  }

  /** The square of `Vn#abs`; `abs` itself is `Abs`. */
  function AbsSq(a: Vec): (r: real)
    ensures r >= 0.0
  {
    Dot(a, a)
  }

  /** `Vn#abs`: the Euclidean length, through the supplied square root. */
  function Abs(a: Vec, m: FloatMath): real {
    m.sqrt(AbsSq(a))
  }

  /** The tolerance of `Vn#==`, and its square. */
  const NEAR: real := 0.0005
  const NEAR_SQ: real := 0.00000025

  /**
   * `Vn#==`: the difference is shorter than NEAR. Both sides of
   * `(a - b).abs < 0.0005` are non-negative, so the test is made on squares.
   */
  predicate Near(a: Vec, b: Vec) {
    AbsSq(Sub(a, b)) < NEAR_SQ
  }

  /** The two-dimensional cross product, the reference for `CwNormal` and `sweep`. */
  function Cross(a: Vec, b: Vec): real {
    a.x * b.y - a.y * b.x
  }

  /** `cw_normal`: `v` turned a quarter turn, `(-v.y, v.x)`. */
  function CwNormal(v: Vec): (n: Vec)
    ensures Dot(v, n) == 0.0
    ensures AbsSq(n) == AbsSq(v)
    ensures forall w :: Dot(w, n) == Cross(v, w)
  {
    Vec(-v.y, v.x)
  }

  lemma AddSubInverse(a: Vec, b: Vec)
    ensures Sub(Add(a, b), b) == a
    ensures Add(Sub(a, b), b) == a
  {
  }

  lemma NearReflexiveSymmetric(a: Vec, b: Vec)
    ensures NEAR_SQ == NEAR * NEAR
    ensures Near(a, a)
    ensures Near(a, b) <==> Near(b, a)
  {
    assert Sub(b, a) == Scale(Sub(a, b), -1.0);
  }
}
