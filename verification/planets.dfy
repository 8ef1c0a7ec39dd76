/** One simulated body (`Planet` in main.py) and its two physics operations:
    `gravity`, which adds the pull of another body to the accumulated force,
    and `update`, one semi-implicit Euler step that consumes that force. */
module Planets {

  import opened Vectors

  /** Newton's gravitational constant in m^3 kg^-1 s^-2 (`GRAVITY`). */
  const GRAVITY: real := 6.67430e-11

  /** A body: position (m), speed (m/s), mass (kg), name, radius (m, used only
      for drawing) and the force (N) accumulated since the last update. */
  datatype Planet = Planet(
    pos: Vec,
    speed: Vec,
    mass: real,
    name: string,
    radius: real,
    force: Vec)

  /** `p` and `q` agree on everything the physics never writes. */
  predicate SameBody(p: Planet, q: Planet) {
    p.mass == q.mass && p.name == q.name && p.radius == q.radius
  }

  /** The scalar `GRAVITY * m_a * m_b / |d|^3` that multiplies the
      displacement `d` from `a` to `b`. */
  function PullFactor(len: Vec -> real, a: Planet, b: Planet): (k: real)
    requires IsLength(len)
    requires a.pos != b.pos
    ensures a.mass * b.mass > 0.0 ==> k > 0.0
    ensures a.mass * b.mass == 0.0 ==> k == 0.0
  {
    var d := Sub(b.pos, a.pos);
    var l := len(d);
    assert l > 0.0;
    var cube := l * l * l;
    assert cube > 0.0 by { CubePositive(l); }
    GRAVITY * a.mass * b.mass / cube
  }

  lemma CubePositive(l: real)
    requires l > 0.0
    ensures l * l * l > 0.0
  {
  }

  /** The force `b` exerts on `a`: `PullFactor * (b.pos - a.pos)`. */
  function Pull(len: Vec -> real, a: Planet, b: Planet): (f: Vec)
    requires IsLength(len)
    requires a.pos != b.pos
    ensures a.mass * b.mass > 0.0 ==> PointsAlong(f, Sub(b.pos, a.pos))
    ensures a.mass * b.mass == 0.0 ==> f == Zero
  {
    var k := PullFactor(len, a, b);
    var d := Sub(b.pos, a.pos);
    ScalePointsAlong(k, d);
    Scale(k, d)
  }

  /** The pull depends on the positions and masses of the two bodies alone. */
  lemma PullReadsOnlyPositionAndMass(len: Vec -> real, a: Planet, b: Planet, a': Planet, b': Planet)
    requires IsLength(len)
    requires a.pos != b.pos
    requires a'.pos == a.pos && a'.mass == a.mass
    requires b'.pos == b.pos && b'.mass == b.mass
    ensures Pull(len, a, b) == Pull(len, a', b')
  {
  }

  /** `a.gravity(b)`: adds the pull of `b` to the force of `a`. Only the force
      changes. main.py has no guard against coincident positions and
      divides by zero there, so they are excluded here. */
  function Gravity(len: Vec -> real, a: Planet, b: Planet): (r: Planet)
    requires IsLength(len)
    requires a.pos != b.pos
    ensures r.pos == a.pos && r.speed == a.speed && SameBody(r, a)
    ensures Sub(r.force, a.force) == Pull(len, a, b)
  {
    a.(force := Add(a.force, Pull(len, a, b)))
  }

  /** `p.update(dt)`: the speed takes the kick `force * dt / mass` first, the
      position then moves with the NEW speed, and the force is cleared. The
      Python program divides by the mass, so a zero mass is excluded. */
  function Update(p: Planet, dt: real): (r: Planet)
    requires p.mass != 0.0
    ensures r.force == Zero
    ensures SameBody(r, p)
    ensures Scale(p.mass, r.speed) == Add(Scale(p.mass, p.speed), Scale(dt, p.force))
    ensures r.pos == Add(p.pos, Scale(dt, r.speed))
  {
    var a := Div(Scale(dt, p.force), p.mass);
    var v := Add(p.speed, a);
    p.(speed := v, pos := Add(p.pos, Scale(dt, v)), force := Zero)
  }

  /** Newton's third law: the pull of `b` on `a` is exactly the reverse of
      the pull of `a` on `b`, because the displacement flips sign while its
      length and the product of the masses do not change. */
  lemma NewtonThirdLaw(len: Vec -> real, a: Planet, b: Planet)
    requires IsLength(len)
    requires a.pos != b.pos
    ensures Pull(len, a, b) == Neg(Pull(len, b, a))
  {
    var d := Sub(b.pos, a.pos);
    assert Sub(a.pos, b.pos) == Neg(d);
    var k := PullFactor(len, a, b);
    assert k == PullFactor(len, b, a) by {
      var l := len(d);
      var cube := l * l * l;
      assert cube > 0.0 by { CubePositive(l); }
      ProductOrderIrrelevant(GRAVITY, a.mass, b.mass, cube);
    }
    var f := Pull(len, a, b);
    assert f == Scale(k, d);
    assert Pull(len, b, a) == Scale(k, Neg(d));
    ScaleOfNeg(k, d);
    NegNeg(f);
  }

  lemma ProductOrderIrrelevant(g: real, m1: real, m2: real, c: real)
    requires c != 0.0
    ensures g * m1 * m2 / c == g * m2 * m1 / c
  {
    assert g * m1 * m2 == g * m2 * m1;
  }

  /** The step is the semi-implicit scheme and not the explicit one: the new
      position is the old-speed Euler position plus `dt * (dt / mass) * force`. */
  lemma UpdateMovesWithNewSpeed(p: Planet, dt: real)
    requires p.mass != 0.0
    ensures Update(p, dt).pos
         == Add(Add(p.pos, Scale(dt, p.speed)), Scale(dt, Scale(dt / p.mass, p.force)))
  {
    var r := Update(p, dt);
    var k := dt / p.mass;
    assert (dt * p.force.x) / p.mass == k * p.force.x;
    assert (dt * p.force.y) / p.mass == k * p.force.y;
    assert r.speed == Add(p.speed, Scale(k, p.force));
  }

  /** Hence, whenever a force acts over a non-zero step, `update` lands
      somewhere else than `pos + speed * dt` would. */
  lemma UpdateIsNotExplicitEuler(p: Planet, dt: real)
    requires p.mass != 0.0
    requires dt != 0.0 && p.force != Zero
    ensures Update(p, dt).pos != Add(p.pos, Scale(dt, p.speed))
  {
    UpdateMovesWithNewSpeed(p, dt);
    var k := dt / p.mass;
    QuotientNonZero(dt, p.mass);
    ScaleNonZero(k, p.force);
    ScaleNonZero(dt, Scale(k, p.force));
    AddNonZero(Add(p.pos, Scale(dt, p.speed)), Scale(dt, Scale(k, p.force)));
  }

  lemma QuotientNonZero(x: real, m: real)
    requires x != 0.0 && m != 0.0
    ensures x / m != 0.0
  {
  }

  lemma ScaleNonZero(c: real, v: Vec)
    requires c != 0.0 && v != Zero
    ensures Scale(c, v) != Zero
  {
    if v.x != 0.0 {
      assert c * v.x != 0.0;
    } else {
      assert c * v.y != 0.0;
    }
  }

  lemma AddNonZero(u: Vec, v: Vec)
    requires v != Zero
    ensures Add(u, v) != u
  {
  }

  /** A body with no force in flight that takes the pull of one other body
      and is updated is kicked towards that body: each component of its
      speed changes with the sign of the displacement towards the other body. */
  lemma KickTowards(len: Vec -> real, p: Planet, q: Planet, dt: real)
    requires IsLength(len)
    requires p.pos != q.pos
    requires p.mass > 0.0 && q.mass > 0.0 && dt > 0.0
    requires p.force == Zero
    ensures
      var r := Update(Gravity(len, p, q), dt);
      && Sign(r.speed.x - p.speed.x) == Sign(q.pos.x - p.pos.x)
      && Sign(r.speed.y - p.speed.y) == Sign(q.pos.y - p.pos.y)
  {
    var f := Pull(len, p, q);
    assert p.mass * q.mass > 0.0;
    var a := Gravity(len, p, q);
    assert a.force == f;
    var r := Update(a, dt);
    var m := p.mass;
    assert r.speed.x - p.speed.x == (dt * f.x) / m;
    assert r.speed.y - p.speed.y == (dt * f.y) / m;
    KickSign(dt, f.x, m);
    KickSign(dt, f.y, m);
  }

  /** The same for a body level with the other one: its speed along y and
      hence its motion along y are as if no force acted, and its speed along x
      changes towards the other body, so it ends up nearer to it along x than
      it would have without the pull. */
  lemma KickAlongX(len: Vec -> real, p: Planet, q: Planet, dt: real)
    requires IsLength(len)
    requires p.pos != q.pos && p.pos.y == q.pos.y
    requires p.mass > 0.0 && q.mass > 0.0 && dt > 0.0
    requires p.force == Zero
    ensures
      var r := Update(Gravity(len, p, q), dt);
      && r.speed.y == p.speed.y
      && r.pos.y == p.pos.y + dt * p.speed.y
      && (q.pos.x < p.pos.x ==> r.speed.x < p.speed.x && r.pos.x < p.pos.x + dt * p.speed.x)
      && (q.pos.x > p.pos.x ==> r.speed.x > p.speed.x && r.pos.x > p.pos.x + dt * p.speed.x)
  {
    KickTowards(len, p, q, dt);
    var r := Update(Gravity(len, p, q), dt);
    assert r.pos.x == p.pos.x + dt * r.speed.x;
    if q.pos.x < p.pos.x {
      ScaleMonotone(dt, p.speed.x, r.speed.x);
    } else if q.pos.x > p.pos.x {
      ScaleMonotone(dt, r.speed.x, p.speed.x);
    }
  }

  lemma ScaleMonotone(dt: real, u: real, v: real)
    requires dt > 0.0 && u > v
    ensures dt * u > dt * v
  {
    var w := u - v;
    assert dt * w > 0.0;
    assert dt * u == dt * v + dt * w;
  }

  lemma KickSign(dt: real, f: real, m: real)
    requires dt > 0.0 && m > 0.0
    ensures Sign((dt * f) / m) == Sign(f)
  {
    if f > 0.0 {
      assert dt * f > 0.0;
    } else if f < 0.0 {
      assert dt * f < 0.0;
    }
  }

}
