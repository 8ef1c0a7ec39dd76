/** `evolve`: one step of the whole system, in two phases. First every body
    accumulates the pull of every other body, while no position changes; only
    then is every body updated. `Advance` repeats the step, as the 200-fold
    loop of `Eggplant.update` does. */
module Evolution {

  import opened Vectors
  import opened Planets
  import opened Results

  /** Why a step raises. Both are a `ZeroDivisionError` in main.py: the
      first from `gravity` (`|d| ** 3` is zero), the second from `update`
      (division by the mass). */
  datatype StepError = CoincidentBodies | ZeroMass

  /** No two bodies at different list positions share a position. */
  predicate Apart(ps: seq<Planet>) {
    forall i, j :: 0 <= i < |ps| && 0 <= j < |ps| && i != j ==> ps[i].pos != ps[j].pos
  }

  /** Body `i` shares its position with none of the other bodies among the
      first `j`. */
  predicate ApartFrom(ps: seq<Planet>, i: nat, j: nat)
    requires i < |ps| && j <= |ps|
  {
    forall k :: 0 <= k < j && k != i ==> ps[k].pos != ps[i].pos
  }

  /** Every body has a non-zero mass. */
  predicate Massive(ps: seq<Planet>) {
    forall i :: 0 <= i < |ps| ==> ps[i].mass != 0.0
  }

  /** The sum, in list order, of the pulls on body `i` from the other bodies
      among the first `j`, all taken at the positions in `ps`. */
  function NetPull(len: Vec -> real, ps: seq<Planet>, i: nat, j: nat): (f: Vec)
    requires IsLength(len)
    requires i < |ps| && j <= |ps|
    requires ApartFrom(ps, i, j)
    decreases j
  {
    if j == 0 then Zero
    else if j - 1 == i then NetPull(len, ps, i, j - 1)
    else Add(NetPull(len, ps, i, j - 1), Pull(len, ps[i], ps[j - 1]))
  }

  /** Body `i` as the first phase leaves it: its force has grown by the net
      pull of all other bodies, everything else is as in `ps`. */
  function Accumulated(len: Vec -> real, ps: seq<Planet>, i: nat): (a: Planet)
    requires IsLength(len)
    requires i < |ps| && ApartFrom(ps, i, |ps|)
  {
    ps[i].(force := Add(ps[i].force, NetPull(len, ps, i, |ps|)))
  }

  /** The first phase on the snapshot `ps`. */
  function Gathered(len: Vec -> real, ps: seq<Planet>): (g: seq<Planet>)
    requires IsLength(len)
    requires Apart(ps)
    ensures |g| == |ps|
    ensures forall i :: 0 <= i < |ps| ==> g[i] == Accumulated(len, ps, i)
    ensures SamePlaces(g, ps)
    ensures forall i :: 0 <= i < |ps| ==>
      && g[i].speed == ps[i].speed
      && SameBody(g[i], ps[i])
      && Sub(g[i].force, ps[i].force) == NetPull(len, ps, i, |ps|)
  {
    seq(|ps|, i requires 0 <= i < |ps| => Accumulated(len, ps, i))
  }

  /** The second phase: every body takes one `update`. */
  function UpdatedAll(ps: seq<Planet>, dt: real): (u: seq<Planet>)
    requires Massive(ps)
    ensures |u| == |ps|
    ensures forall i :: 0 <= i < |ps| ==> u[i] == Update(ps[i], dt)
    ensures forall i :: 0 <= i < |ps| ==> u[i].force == Zero && SameBody(u[i], ps[i])
  {
    seq(|ps|, i requires 0 <= i < |ps| => Update(ps[i], dt))
  }

  /** Reference definition of one step, stated on the snapshot `ps`: fail as
      main.py raises, otherwise update every body with the force it
      accumulated from the pre-step positions of all the others. */
  function Step(len: Vec -> real, ps: seq<Planet>, dt: real): (r: Result<seq<Planet>, StepError>)
    requires IsLength(len)
    ensures r == Failure(CoincidentBodies) <==> !Apart(ps)
    ensures r == Failure(ZeroMass) <==> Apart(ps) && !Massive(ps)
    ensures r.Success? ==>
      && |r.value| == |ps|
      && forall i :: 0 <= i < |ps| ==>
           && SameBody(r.value[i], ps[i])
           && r.value[i].force == Zero
  {
    if !Apart(ps) then Failure(CoincidentBodies)
    else if !Massive(ps) then Failure(ZeroMass)
    else
      var g := Gathered(len, ps);
      assert Massive(g);
      Success(UpdatedAll(g, dt))
  }

  /** `bodies` and `ps` hold the same bodies at the same places; at most the
      accumulated forces differ. */
  predicate SamePlaces(bodies: seq<Planet>, ps: seq<Planet>) {
    && |bodies| == |ps|
    && forall k :: 0 <= k < |ps| ==>
         bodies[k].pos == ps[k].pos && bodies[k].mass == ps[k].mass
  }

  /** The first phase reads nothing a body's force could have changed: the
      net pull computed mid-phase equals the one on the snapshot. */
  lemma {:induction false} NetPullOnSamePlaces(len: Vec -> real, bodies: seq<Planet>, ps: seq<Planet>, i: nat, j: nat)
    requires IsLength(len)
    requires SamePlaces(bodies, ps)
    requires i < |ps| && j <= |ps|
    ensures ApartFrom(bodies, i, j) <==> ApartFrom(ps, i, j)
    ensures ApartFrom(ps, i, j) ==> NetPull(len, bodies, i, j) == NetPull(len, ps, i, j)
    decreases j
  {
    if j > 0 {
      NetPullOnSamePlaces(len, bodies, ps, i, j - 1);
      if ApartFrom(ps, i, j) && j - 1 != i {
        PullReadsOnlyPositionAndMass(len, ps[i], ps[j - 1], bodies[i], bodies[j - 1]);
      }
    }
  }

  /** The inner loop of `evolve` for body `i`: `bodies[i].gravity(b)` for
      every other `b`, in list order, failing at the first body found at the
      same position. */
  method GatherFor(len: Vec -> real, bodies: seq<Planet>, i: nat) returns (r: Result<Planet, StepError>)
    requires IsLength(len)
    requires i < |bodies|
    ensures r.Success? <==> ApartFrom(bodies, i, |bodies|)
    ensures r.Failure? ==> r.error == CoincidentBodies
    ensures r.Success? ==>
      r.value == bodies[i].(force := Add(bodies[i].force, NetPull(len, bodies, i, |bodies|)))
  {
    var a := bodies[i];
    for j := 0 to |bodies|
      invariant ApartFrom(bodies, i, j)
      invariant a == bodies[i].(force := Add(bodies[i].force, NetPull(len, bodies, i, j)))
    {
      if i != j {
        if a.pos == bodies[j].pos {
          assert !ApartFrom(bodies, i, |bodies|) by {
            assert bodies[j].pos == bodies[i].pos;
          }
          return Failure(CoincidentBodies);
        }
        PullReadsOnlyPositionAndMass(len, bodies[i], bodies[j], a, bodies[j]);
        ghost var before := NetPull(len, bodies, i, j);
        assert NetPull(len, bodies, i, j + 1) == Add(before, Pull(len, bodies[i], bodies[j]));
        a := Gravity(len, a, bodies[j]);
      }
    }
    r := Success(a);
  }

  /** The second loop of `evolve`: `a.update(dt)` for every body in order,
      failing at the first body of zero mass. */
  method UpdateEach(bodies: seq<Planet>, dt: real) returns (r: Result<seq<Planet>, StepError>)
    ensures r.Success? <==> Massive(bodies)
    ensures r.Failure? ==> r.error == ZeroMass
    ensures r.Success? ==> r.value == UpdatedAll(bodies, dt)
  {
    var cur := bodies;
    for i := 0 to |bodies|
      invariant |cur| == |bodies|
      invariant forall k :: 0 <= k < i ==> bodies[k].mass != 0.0 && cur[k] == Update(bodies[k], dt)
      invariant forall k :: i <= k < |bodies| ==> cur[k] == bodies[k]
    {
      if cur[i].mass == 0.0 {
        return Failure(ZeroMass);
      }
      cur := cur[i := Update(cur[i], dt)];
    }
    r := Success(cur);
  }

  /** `evolve(objects, dt)` as written: the first loop lets each body gather
      gravity from every other one (`a is not b` is the index test `i != j`)
      while earlier bodies already carry their new forces; the second loop
      updates each body. */
  method Evolve(len: Vec -> real, ps: seq<Planet>, dt: real) returns (r: Result<seq<Planet>, StepError>)
    requires IsLength(len)
    ensures r == Step(len, ps, dt)
    ensures r.Success? ==> forall i :: 0 <= i < |ps| ==>
      r.value[i] == Update(ps[i].(force := Add(ps[i].force, NetPull(len, ps, i, |ps|))), dt)
  {
    var cur := ps;
    for i := 0 to |ps|
      invariant SamePlaces(cur, ps)
      invariant forall k :: 0 <= k < i ==> ApartFrom(ps, k, |ps|) && cur[k] == Accumulated(len, ps, k)
      invariant forall k :: i <= k < |ps| ==> cur[k] == ps[k]
    {
      NetPullOnSamePlaces(len, cur, ps, i, |ps|);
      var g := GatherFor(len, cur, i);
      if g.Failure? {
        return Failure(CoincidentBodies);
      }
      cur := cur[i := g.value];
    }
    assert Apart(ps);
    assert cur == Gathered(len, ps);
    r := UpdateEach(cur, dt);
  }

  /** `n` calls of `evolve` in a row (`Eggplant.update` makes 200 per
      tick), stopping at the first one that raises. */
  function Advance(len: Vec -> real, ps: seq<Planet>, dt: real, n: nat): (r: Result<seq<Planet>, StepError>)
    requires IsLength(len)
    ensures r.Failure? ==> n > 0
    ensures r.Success? ==>
      && |r.value| == |ps|
      && forall i :: 0 <= i < |ps| ==> SameBody(r.value[i], ps[i])
    ensures r.Success? && n > 0 ==> forall i :: 0 <= i < |ps| ==> r.value[i].force == Zero
    decreases n
  {
    if n == 0 then Success(ps)
    else
      match Step(len, ps, dt)
      case Failure(e) => Failure(e)
      case Success(qs) => Advance(len, qs, dt, n - 1)
  }

  /** Advancing by `m + n` steps is advancing by `m` and then by `n`. */
  lemma {:induction false} AdvanceSplits(len: Vec -> real, ps: seq<Planet>, dt: real, m: nat, n: nat)
    requires IsLength(len)
    ensures Advance(len, ps, dt, m + n)
         == match Advance(len, ps, dt, m)
            case Failure(e) => Failure(e)
            case Success(qs) => Advance(len, qs, dt, n)
    decreases m
  {
    if m > 0 {
      match Step(len, ps, dt)
      case Failure(e) =>
      case Success(qs) =>
        assert Advance(len, ps, dt, m + n) == Advance(len, qs, dt, m - 1 + n);
        AdvanceSplits(len, qs, dt, m - 1, n);
    }
  }

  /** With no other body to pull it, a body coasts: its position moves by
      `speed * dt`, its speed stays, and its force stays zero. */
  lemma LoneBodyCoasts(len: Vec -> real, p: Planet, dt: real)
    requires IsLength(len)
    requires p.mass != 0.0 && p.force == Zero
    ensures Step(len, [p], dt) == Success([p.(pos := Add(p.pos, Scale(dt, p.speed)))])
  {
    var ps := [p];
    assert Apart(ps);
    assert Massive(ps);
    assert NetPull(len, ps, 0, 1) == Zero;
    assert Accumulated(len, ps, 0) == p;
    var g := Gathered(len, ps);
    assert g == ps;
    var q := Update(p, dt);
    assert q.speed == p.speed by {
      assert Scale(dt, p.force) == Zero;
      assert Div(Zero, p.mass) == Zero;
    }
    assert UpdatedAll(g, dt) == [q];
  }

  /** A lone body at rest is a fixed point of any number of steps. */
  lemma {:induction false} LoneBodyAtRestStays(len: Vec -> real, p: Planet, dt: real, n: nat)
    requires IsLength(len)
    requires p.mass != 0.0 && p.force == Zero && p.speed == Zero
    ensures Advance(len, [p], dt, n) == Success([p])
    decreases n
  {
    if n > 0 {
      LoneBodyCoasts(len, p, dt);
      assert Add(p.pos, Scale(dt, p.speed)) == p.pos;
      LoneBodyAtRestStays(len, p, dt, n - 1);
    }
  }

  /** For two bodies at different places, one step applies to each the pull
      of the other and updates both. */
  lemma TwoBodyStep(len: Vec -> real, a: Planet, b: Planet, dt: real)
    requires IsLength(len)
    requires a.pos != b.pos
    requires a.mass != 0.0 && b.mass != 0.0
    ensures Step(len, [a, b], dt)
         == Success([Update(Gravity(len, a, b), dt), Update(Gravity(len, b, a), dt)])
  {
    var ps := [a, b];
    assert Apart(ps);
    assert Massive(ps);
    assert NetPull(len, ps, 0, 2) == Add(Zero, Pull(len, a, b));
    assert NetPull(len, ps, 1, 2) == Add(Zero, Pull(len, b, a));
    var g := Gathered(len, ps);
    assert g[0] == Gravity(len, a, b);
    assert g[1] == Gravity(len, b, a);
    var u := UpdatedAll(g, dt);
    assert u == [Update(g[0], dt), Update(g[1], dt)];
  }

}
