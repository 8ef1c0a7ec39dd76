/** Conservation of linear momentum. Because every pair of bodies pulls on
    each other with opposite forces computed from the same snapshot, the
    forces the first phase of `evolve` accumulates sum to zero, so the
    semi-implicit step leaves the total momentum unchanged. */
module Momentum {

  import opened Vectors
  import opened Planets
  import opened Evolution
  import opened Results

  /** The momentum `mass * speed` summed over the first `m` bodies. */
  function TotalMomentum(ps: seq<Planet>, m: nat): (p: Vec)
    requires m <= |ps|
    decreases m
  {
    if m == 0 then Zero
    else Add(TotalMomentum(ps, m - 1), Scale(ps[m - 1].mass, ps[m - 1].speed))
  }

  lemma ApartFromAll(ps: seq<Planet>, i: nat, j: nat)
    requires Apart(ps) && i < |ps| && j <= |ps|
    ensures ApartFrom(ps, i, j)
  {
  }

  // Sums over a pairwise interaction `s(i, k)`, the effect of body `k` on
  // body `i`, taken over the first few bodies and never pairing a body with
  // itself.

  /** `s(i, k)` summed over `k < j`, `k != i`. */
  function Row(s: (nat, nat) -> Vec, i: nat, j: nat): (r: Vec)
    decreases j
  {
    if j == 0 then Zero
    else if j - 1 == i then Row(s, i, j - 1)
    else Add(Row(s, i, j - 1), s(i, j - 1))
  }

  /** `s(k, c)` summed over `k < m`, `k != c`. */
  function Column(s: (nat, nat) -> Vec, c: nat, m: nat): (r: Vec)
    decreases m
  {
    if m == 0 then Zero
    else if m - 1 == c then Column(s, c, m - 1)
    else Add(Column(s, c, m - 1), s(m - 1, c))
  }

  /** `Row(s, i, c)` summed over `i < m`. */
  function Rows(s: (nat, nat) -> Vec, m: nat, c: nat): (r: Vec)
    decreases m
  {
    if m == 0 then Zero
    else Add(Rows(s, m - 1, c), Row(s, m - 1, c))
  }

  /** Among the first `n` bodies, the effect of `j` on `i` is the reverse of
      the effect of `i` on `j`. */
  ghost predicate Antisymmetric(s: (nat, nat) -> Vec, n: nat) {
    forall i: nat, j: nat :: i < n && j < n && i != j ==> s(i, j) == Neg(s(j, i))
  }

  /** Letting body `c` act adds its column to the rows. */
  lemma {:induction false} RowsGrow(s: (nat, nat) -> Vec, m: nat, c: nat)
    ensures Rows(s, m, c + 1) == Add(Rows(s, m, c), Column(s, c, m))
    decreases m
  {
    if m > 0 {
      var k := m - 1;
      RowsGrow(s, k, c);
      if k == c {
        assert Row(s, k, c + 1) == Row(s, k, c);
        assert Column(s, c, m) == Column(s, c, k);
      } else {
        assert Row(s, k, c + 1) == Add(Row(s, k, c), s(k, c));
        assert Column(s, c, m) == Add(Column(s, c, k), s(k, c));
      }
    }
  }

  /** What body `r` feels from the first `j` bodies is the reverse of what it
      makes them feel. */
  lemma {:induction false} RowIsReversedColumn(s: (nat, nat) -> Vec, n: nat, r: nat, j: nat)
    requires Antisymmetric(s, n)
    requires r < n && j <= n
    ensures Row(s, r, j) == Neg(Column(s, r, j))
    decreases j
  {
    if j > 0 {
      RowIsReversedColumn(s, n, r, j - 1);
    }
  }

  /** Under an antisymmetric interaction, the total effect the first `m`
      bodies have on one another is zero. */
  lemma {:induction false} PairsCancel(s: (nat, nat) -> Vec, n: nat, m: nat)
    requires Antisymmetric(s, n)
    requires m <= n
    ensures Rows(s, m, m) == Zero
    decreases m
  {
    if m > 0 {
      var k := m - 1;
      PairsCancel(s, n, k);
      RowsGrow(s, k, k);
      RowIsReversedColumn(s, n, k, k);
      assert Row(s, k, m) == Row(s, k, k);
    }
  }

  /** The pull of body `k` on body `i`, as a pairwise interaction. */
  function Pulls(len: Vec -> real, ps: seq<Planet>): (nat, nat) -> Vec
    requires IsLength(len)
  {
    (i: nat, k: nat) =>
      if i < |ps| && k < |ps| && ps[i].pos != ps[k].pos then Pull(len, ps[i], ps[k]) else Zero
  }

  lemma PullsAreAntisymmetric(len: Vec -> real, ps: seq<Planet>)
    requires IsLength(len) && Apart(ps)
    ensures Antisymmetric(Pulls(len, ps), |ps|)
  {
    forall i: nat, j: nat | i < |ps| && j < |ps| && i != j
      ensures Pulls(len, ps)(i, j) == Neg(Pulls(len, ps)(j, i))
    {
      PullsOfPair(len, ps, i, j);
    }
  }

  lemma PullsOfPair(len: Vec -> real, ps: seq<Planet>, i: nat, j: nat)
    requires IsLength(len)
    requires i < |ps| && j < |ps| && ps[i].pos != ps[j].pos
    ensures Pulls(len, ps)(i, j) == Neg(Pulls(len, ps)(j, i))
  {
    var s := Pulls(len, ps);
    assert s(i, j) == Pull(len, ps[i], ps[j]);
    assert s(j, i) == Pull(len, ps[j], ps[i]);
    NewtonThirdLaw(len, ps[i], ps[j]);
  }

  /** `NetPull` is the row sum of the pairwise pulls. */
  lemma {:induction false} NetPullIsRow(len: Vec -> real, ps: seq<Planet>, i: nat, j: nat)
    requires IsLength(len) && Apart(ps)
    requires i < |ps| && j <= |ps|
    ensures ApartFrom(ps, i, j)
    ensures NetPull(len, ps, i, j) == Row(Pulls(len, ps), i, j)
    decreases j
  {
    ApartFromAll(ps, i, j);
    if j > 0 {
      NetPullIsRow(len, ps, i, j - 1);
    }
  }

  /** `(b + dt*r) + (p + dt*f) == (b + p) + dt*(r + f)`. */
  lemma Regroup(b: Vec, r: Vec, p: Vec, f: Vec, dt: real)
    ensures Add(Add(b, Scale(dt, r)), Add(p, Scale(dt, f)))
         == Add(Add(b, p), Scale(dt, Add(r, f)))
  {
    assert dt * (r.x + f.x) == dt * r.x + dt * f.x;
    assert dt * (r.y + f.y) == dt * r.y + dt * f.y;
  }

  /** `f(k)` summed over `k < m`. */
  function Total(f: nat -> Vec, m: nat): (t: Vec)
    decreases m
  {
    if m == 0 then Zero else Add(Total(f, m - 1), f(m - 1))
  }

  lemma {:induction false} RowsAreTotal(s: (nat, nat) -> Vec, m: nat, c: nat)
    ensures Rows(s, m, c) == Total((k: nat) => Row(s, k, c), m)
    decreases m
  {
    if m > 0 {
      RowsAreTotal(s, m - 1, c);
    }
  }

  /** If every body of `qs` is the matching body of `ps` after an impulse
      `dt * f(k)`, the total momentum grows by `dt` times the summed force. */
  lemma {:induction false} MomentumGrowsByImpulse(ps: seq<Planet>, qs: seq<Planet>, dt: real, f: nat -> Vec, m: nat)
    requires |qs| == |ps| && m <= |ps|
    requires forall k :: 0 <= k < |ps| ==>
      && qs[k].mass == ps[k].mass
      && Scale(ps[k].mass, qs[k].speed) == Add(Scale(ps[k].mass, ps[k].speed), Scale(dt, f(k)))
    ensures TotalMomentum(qs, m) == Add(TotalMomentum(ps, m), Scale(dt, Total(f, m)))
    decreases m
  {
    if m > 0 {
      var k := m - 1;
      MomentumGrowsByImpulse(ps, qs, dt, f, k);
      var before := Scale(ps[k].mass, ps[k].speed);
      var after := Scale(qs[k].mass, qs[k].speed);
      assert after == Add(before, Scale(dt, f(k)));
      assert TotalMomentum(qs, m) == Add(TotalMomentum(qs, k), after);
      assert TotalMomentum(ps, m) == Add(TotalMomentum(ps, k), before);
      assert Total(f, m) == Add(Total(f, k), f(k));
      Regroup(TotalMomentum(ps, k), Total(f, k), before, f(k), dt);
    } else {
      assert Scale(dt, Zero) == Zero;
    }
  }

  /** The second phase applies to body `k` the impulse `dt` times its net
      pull. */
  lemma UpdatesAreImpulses(len: Vec -> real, ps: seq<Planet>, dt: real)
    requires IsLength(len) && Apart(ps) && Massive(ps)
    requires forall i :: 0 <= i < |ps| ==> ps[i].force == Zero
    ensures Massive(Gathered(len, ps))
    ensures forall k :: 0 <= k < |ps| ==>
      var u := UpdatedAll(Gathered(len, ps), dt);
      && u[k].mass == ps[k].mass
      && Scale(ps[k].mass, u[k].speed)
         == Add(Scale(ps[k].mass, ps[k].speed), Scale(dt, Row(Pulls(len, ps), k, |ps|)))
  {
    var g := Gathered(len, ps);
    assert Massive(g);
    var u := UpdatedAll(g, dt);
    forall k | 0 <= k < |ps|
      ensures u[k].mass == ps[k].mass
      ensures Scale(ps[k].mass, u[k].speed)
           == Add(Scale(ps[k].mass, ps[k].speed), Scale(dt, Row(Pulls(len, ps), k, |ps|)))
    {
      NetPullIsRow(len, ps, k, |ps|);
      assert g[k].force == Row(Pulls(len, ps), k, |ps|);
      assert u[k] == Update(g[k], dt);
    }
  }

  /** One step conserves the total momentum, provided no force is in flight
      before it (as is the case between steps). */
  lemma StepConservesMomentum(len: Vec -> real, ps: seq<Planet>, dt: real)
    requires IsLength(len)
    requires forall i :: 0 <= i < |ps| ==> ps[i].force == Zero
    requires Step(len, ps, dt).Success?
    ensures TotalMomentum(Step(len, ps, dt).value, |ps|) == TotalMomentum(ps, |ps|)
  {
    var s := Pulls(len, ps);
    UpdatesAreImpulses(len, ps, dt);
    var f := (k: nat) => Row(s, k, |ps|);
    MomentumGrowsByImpulse(ps, Step(len, ps, dt).value, dt, f, |ps|);
    RowsAreTotal(s, |ps|, |ps|);
    PullsAreAntisymmetric(len, ps);
    PairsCancel(s, |ps|, |ps|);
    assert Scale(dt, Zero) == Zero;
  }

  /** Hence so does any number of steps. */
  lemma {:induction false} AdvanceConservesMomentum(len: Vec -> real, ps: seq<Planet>, dt: real, n: nat)
    requires IsLength(len)
    requires forall i :: 0 <= i < |ps| ==> ps[i].force == Zero
    requires Advance(len, ps, dt, n).Success?
    ensures TotalMomentum(Advance(len, ps, dt, n).value, |ps|) == TotalMomentum(ps, |ps|)
    decreases n
  {
    if n > 0 {
      var qs := Step(len, ps, dt).value;
      StepConservesMomentum(len, ps, dt);
      AdvanceConservesMomentum(len, qs, dt, n - 1);
    }
  }

}
