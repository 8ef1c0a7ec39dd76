/** Two-dimensional vectors over the reals: the part of kivy's `Vector` the
    physics uses (component-wise `+` and `-`, multiplication and division by
    a scalar, and `length()`). */
module Vectors {

  datatype Vec = Vec(x: real, y: real)

  const Zero: Vec := Vec(0.0, 0.0)

  function Add(u: Vec, v: Vec): (w: Vec) {
    Vec(u.x + v.x, u.y + v.y)
  }

  function Sub(u: Vec, v: Vec): (w: Vec) {
    Vec(u.x - v.x, u.y - v.y)
  }

  function Neg(v: Vec): (w: Vec) {
    Vec(-v.x, -v.y)
  }

  /** `k * v` (and `v * k`) for a scalar `k`. */
  function Scale(k: real, v: Vec): (w: Vec) {
    Vec(k * v.x, k * v.y)
  }

  /** `v / k` for a non-zero scalar `k`. */
  function Div(v: Vec, k: real): (w: Vec)
    requires k != 0.0
  {
    Vec(v.x / k, v.y / k)
  }

  /** The z-component of the 3D cross product: zero exactly when `u` and `v`
      are parallel. */
  function Cross(u: Vec, v: Vec): (c: real) {
    u.x * v.y - u.y * v.x
  }

  lemma NegNeg(v: Vec)
    ensures Neg(Neg(v)) == v
  {
  }

  lemma ScaleOfNeg(k: real, v: Vec)
    ensures Scale(k, Neg(v)) == Neg(Scale(k, v))
  {
    assert k * -v.x == -(k * v.x);
    assert k * -v.y == -(k * v.y);
  }

  function Sign(a: real): (s: int) {
    if a > 0.0 then 1 else if a < 0.0 then -1 else 0
  }

  /** `f` is a positive multiple of `d`: parallel to it, and each of its
      components has the sign of the matching component of `d`. */
  predicate PointsAlong(f: Vec, d: Vec) {
    && Cross(f, d) == 0.0
    && Sign(f.x) == Sign(d.x)
    && Sign(f.y) == Sign(d.y)
  }

  /** Scaling by a positive factor keeps the direction. */
  lemma ScalePointsAlong(k: real, d: Vec)
    ensures k > 0.0 ==> PointsAlong(Scale(k, d), d)
  {
    if k > 0.0 {
      var f := Scale(k, d);
      assert Cross(f, d) == 0.0 by {
        assert (k * d.x) * d.y == (k * d.y) * d.x;
      }
      if d.x > 0.0 { assert k * d.x > 0.0; } else if d.x < 0.0 { assert k * d.x < 0.0; }
      if d.y > 0.0 { assert k * d.y > 0.0; } else if d.y < 0.0 { assert k * d.y < 0.0; }
    }
  }

  /** What the model assumes of the length `Vector.length()` computes
      (`sqrt(x*x + y*y)`): it is strictly positive on every non-zero vector,
      the fact every division by a length relies on, and reversing a vector
      does not change it. Dafny has no square root, so the length is a
      parameter of the model constrained by this predicate. */
  ghost predicate IsLength(len: Vec -> real) {
    && (forall v :: v != Zero ==> 0.0 < len(v))
    && (forall v :: len(Neg(v)) == len(v))
  }

}
