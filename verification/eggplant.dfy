/** The simulation owner (`Eggplant` in main.py): lookup of a body by name,
    and one timer tick, which advances the physics by 200 substeps and then
    lets every body's widget record a trail snapshot. */
module Eggplant {

  import opened Vectors
  import opened Planets
  import opened Evolution
  import opened Trail
  import opened Momentum
  import opened Results

  /** Substeps per tick (`range(200)` in `Eggplant.update`). */
  const SUBSTEPS: nat := 200

  /** The default substep in seconds (`dt = NumericProperty(60)`). */
  const DEFAULT_DT: real := 60.0

  /** Metres per screen pixel (`SCALE`). */
  const SCALE: real := 2_000_000.0

  /** `ValueError("No such planet")`. */
  datatype LookupError = NoSuchPlanet

  /** Body `k` is the first in list order whose name is `name`. */
  predicate IsFirstNamed(planets: seq<Planet>, name: string, k: int) {
    && 0 <= k < |planets|
    && planets[k].name == name
    && forall j :: 0 <= j < k ==> planets[j].name != name
  }

  /** `get_planet(name)` as a value: the first body in list order with that
      name, or `NoSuchPlanet` when there is none. */
  function FirstNamed(planets: seq<Planet>, name: string): (r: Result<Planet, LookupError>)
    ensures r.Failure? <==> forall k :: 0 <= k < |planets| ==> planets[k].name != name
    ensures r.Failure? ==> r.error == NoSuchPlanet
    ensures r.Success? ==> exists k :: IsFirstNamed(planets, name, k) && planets[k] == r.value
    decreases |planets|
  {
    if |planets| == 0 then Failure(NoSuchPlanet)
    else if planets[0].name == name then
      assert IsFirstNamed(planets, name, 0);
      Success(planets[0])
    else
      var r := FirstNamed(planets[1..], name);
      if r.Success? then
        var k :| IsFirstNamed(planets[1..], name, k) && planets[1..][k] == r.value;
        assert IsFirstNamed(planets, name, k + 1);
        r
      else
        r
  }

  /** `get_planet(name)`: the loop over the bodies in list order. */
  method GetPlanet(planets: seq<Planet>, name: string) returns (r: Result<Planet, LookupError>)
    ensures r == FirstNamed(planets, name)
    ensures r.Failure? <==> forall k :: 0 <= k < |planets| ==> planets[k].name != name
    ensures r.Success? ==> exists k :: IsFirstNamed(planets, name, k) && planets[k] == r.value
  {
    for k := 0 to |planets|
      invariant forall j :: 0 <= j < k ==> planets[j].name != name
      invariant FirstNamed(planets, name) == FirstNamed(planets[k..], name)
    {
      if planets[k].name == name {
        return Success(planets[k]);
      }
      assert planets[k..][1..] == planets[k + 1..];
    }
    return Failure(NoSuchPlanet);
  }

  /** `PlanetWidget.to_screen`: a position relative to the Earth, in
      pixels, around the centre `center` of the simulation widget. */
  function ToScreen(pos: Vec, earth: Vec, center: Vec): (r: Vec) {
    Add(Div(Sub(pos, earth), SCALE), center)
  }

  /** What `update_pos` appends to the trail of body `p`: the screen
      position for the body named "Moon", the position in space otherwise. */
  function TrailEntry(p: Planet, earth: Planet, center: Vec): (e: Vec) {
    if p.name == "Moon" then ToScreen(p.pos, earth.pos, center) else p.pos
  }

  /** Only one body can be the first with a given name. */
  lemma FirstNamedIsUnique(planets: seq<Planet>, name: string, k: int, k': int)
    requires IsFirstNamed(planets, name, k) && IsFirstNamed(planets, name, k')
    ensures k == k'
  {
  }

  /** The steps never rename a body. */
  lemma NamesKept(ps: seq<Planet>, qs: seq<Planet>, name: string)
    requires |qs| == |ps|
    requires forall i :: 0 <= i < |ps| ==> SameBody(qs[i], ps[i])
    ensures (forall k :: 0 <= k < |ps| ==> ps[k].name != name)
        <==> (forall k :: 0 <= k < |qs| ==> qs[k].name != name)
  {
    if exists k :: 0 <= k < |ps| && ps[k].name == name {
      var k :| 0 <= k < |ps| && ps[k].name == name;
      assert qs[k].name == name;
    }
  }

  /** Why a tick raises: a substep raised, or `to_screen` found no body
      named "Earth". */
  datatype TickError = StepFailed(reason: StepError) | EarthMissing

  /** The bodies and, for each, the trail its widget draws. */
  datatype Sky = Sky(planets: seq<Planet>, trails: seq<seq<Vec>>)

  /** The second loop of `Eggplant.update` on the bodies `ps` the substeps
      produced: `update_pos` of every widget. Each `update_pos` first calls
      `to_screen`, which looks up the Earth, so with at least one body and
      none named "Earth" it raises before any trail changes. `center` is
      the centre of the simulation widget on screen. */
  function Redraw(trails: seq<seq<Vec>>, ps: seq<Planet>, center: Vec): (r: Result<Sky, TickError>)
    requires |trails| == |ps|
    ensures r.Failure? <==> |ps| > 0 && forall k :: 0 <= k < |ps| ==> ps[k].name != "Earth"
    ensures r.Failure? ==> r.error == EarthMissing
    ensures r.Success? ==>
      && r.value.planets == ps
      && |r.value.trails| == |trails|
      && (forall i :: 0 <= i < |ps| && ps[i].name != "Moon" ==>
            r.value.trails[i] == Record(trails[i], ps[i].pos))
      && (forall i, k :: 0 <= i < |ps| && ps[i].name == "Moon" && IsFirstNamed(ps, "Earth", k) ==>
            r.value.trails[i] == Record(trails[i], ToScreen(ps[i].pos, ps[k].pos, center)))
      && forall i :: 0 <= i < |ps| && |trails[i]| <= TRAIL_LENGTH ==>
           |r.value.trails[i]| <= TRAIL_LENGTH
  {
    if |ps| == 0 then Success(Sky(ps, trails))
    else
      match FirstNamed(ps, "Earth")
      case Failure(_) => Failure(EarthMissing)
      case Success(earth) =>
        var k0 :| IsFirstNamed(ps, "Earth", k0) && ps[k0] == earth;
        assert forall k :: IsFirstNamed(ps, "Earth", k) ==> k == k0 by {
          forall k | IsFirstNamed(ps, "Earth", k) {
            FirstNamedIsUnique(ps, "Earth", k, k0);
          }
        }
        Success(Sky(ps, seq(|ps|, i requires 0 <= i < |ps| => Record(trails[i], TrailEntry(ps[i], earth, center)))))
  }

  /** `Eggplant.update`: `SUBSTEPS` calls of `evolve`, then `Redraw`. The
      Earth is looked up among the bodies the substeps produced, which carry
      the same names as before them. */
  function Tick(len: Vec -> real, sky: Sky, dt: real, center: Vec): (r: Result<Sky, TickError>)
    requires IsLength(len)
    requires |sky.trails| == |sky.planets|
    ensures r.Failure? && r.error.StepFailed? <==> Advance(len, sky.planets, dt, SUBSTEPS).Failure?
    ensures r.Failure? && r.error.StepFailed? ==>
      r.error.reason == Advance(len, sky.planets, dt, SUBSTEPS).error
    ensures r == Failure(EarthMissing) <==>
      && Advance(len, sky.planets, dt, SUBSTEPS).Success?
      && |sky.planets| > 0
      && forall k :: 0 <= k < |sky.planets| ==> sky.planets[k].name != "Earth"
    ensures r.Success? ==>
      && Advance(len, sky.planets, dt, SUBSTEPS).Success?
      && r == Redraw(sky.trails, Advance(len, sky.planets, dt, SUBSTEPS).value, center)
  {
    match Advance(len, sky.planets, dt, SUBSTEPS)
    case Failure(e) => Failure(StepFailed(e))
    case Success(ps) =>
      NamesKept(sky.planets, ps, "Earth");
      Redraw(sky.trails, ps, center)
  }

  /** Two successful ticks move the bodies on by `2 * SUBSTEPS` steps. */
  lemma TwoTicks(len: Vec -> real, sky: Sky, dt: real, center: Vec)
    requires IsLength(len)
    requires |sky.trails| == |sky.planets|
    requires Tick(len, sky, dt, center).Success?
    ensures |Tick(len, sky, dt, center).value.trails| == |Tick(len, sky, dt, center).value.planets|
    ensures
      var once := Tick(len, sky, dt, center).value;
      Tick(len, once, dt, center).Success? ==>
        Advance(len, sky.planets, dt, 2 * SUBSTEPS)
          == Success(Tick(len, once, dt, center).value.planets)
  {
    var first := Advance(len, sky.planets, dt, SUBSTEPS);
    assert first.Success?;
    var once := Tick(len, sky, dt, center).value;
    assert once == Redraw(sky.trails, first.value, center).value;
    assert once.planets == first.value;
    if Tick(len, once, dt, center).Success? {
      AdvanceSplits(len, sky.planets, dt, SUBSTEPS, SUBSTEPS);
      assert Advance(len, sky.planets, dt, 2 * SUBSTEPS) == Advance(len, first.value, dt, SUBSTEPS);
    }
  }

  /** A successful tick from a force-free state keeps the total momentum. */
  lemma TickConservesMomentum(len: Vec -> real, sky: Sky, dt: real, center: Vec)
    requires IsLength(len)
    requires |sky.trails| == |sky.planets|
    requires forall i :: 0 <= i < |sky.planets| ==> sky.planets[i].force == Zero
    requires Tick(len, sky, dt, center).Success?
    ensures TotalMomentum(Tick(len, sky, dt, center).value.planets, |sky.planets|)
         == TotalMomentum(sky.planets, |sky.planets|)
  {
    AdvanceConservesMomentum(len, sky.planets, dt, SUBSTEPS);
  }

  /** The Sun and the Earth as `EggplantApp.build` creates them. */
  const Sun: Planet := Planet(Vec(0.0, 0.0), Vec(0.0, 0.0), 1.98847e30, "Sun", 6.957e8, Zero)
  const Earth: Planet := Planet(Vec(149_598_023_000.0, 0.0), Vec(0.0, 28000.0), 5.9722e24, "Earth", 6_378_000.0, Zero)

  /** Two bodies on a horizontal line, `a` to the left of `b`, neither
      carrying a force: one step accelerates each towards the other along
      the line, so each lands nearer to the other along x than it would have
      coasting, and leaves the vertical motion alone. */
  lemma TwoBodiesOnALine(len: Vec -> real, a: Planet, b: Planet, dt: real)
    requires IsLength(len)
    requires a.pos.y == b.pos.y && a.pos.x < b.pos.x
    requires a.mass > 0.0 && b.mass > 0.0 && dt > 0.0
    requires a.force == Zero && b.force == Zero
    ensures Step(len, [a, b], dt).Success?
    ensures
      var ps := Step(len, [a, b], dt).value;
      && ps[0].speed.x > a.speed.x && ps[0].speed.y == a.speed.y
      && ps[0].pos.x > a.pos.x + dt * a.speed.x
      && ps[0].pos.y == a.pos.y + dt * a.speed.y
      && ps[1].speed.x < b.speed.x && ps[1].speed.y == b.speed.y
      && ps[1].pos.x < b.pos.x + dt * b.speed.x
      && ps[1].pos.y == b.pos.y + dt * b.speed.y
  {
    KickAlongX(len, a, b, dt);
    KickAlongX(len, b, a, dt);
    TwoBodyStep(len, a, b, dt);
  }

  /** One 60-second step of the Sun and the Earth alone: the Earth's speed
      gains a component towards the Sun while keeping its tangential 28000
      m/s, so it moves 28000 * 60 m along y and comes nearer to the Sun along
      x; the Sun starts to move towards the Earth. */
  lemma EarthFallsTowardsSun(len: Vec -> real)
    requires IsLength(len)
    ensures Step(len, [Sun, Earth], DEFAULT_DT).Success?
    ensures
      var ps := Step(len, [Sun, Earth], DEFAULT_DT).value;
      && ps[1].speed.x < 0.0
      && ps[1].speed.y == 28000.0
      && ps[1].pos.x < 149_598_023_000.0
      && ps[1].pos.y == 1_680_000.0
      && ps[0].speed.x > 0.0
      && ps[0].pos.x > 0.0
  {
    TwoBodiesOnALine(len, Sun, Earth, DEFAULT_DT);
  }

  /** The Sun alone: every substep succeeds, but drawing it needs the
      Earth, so the tick raises. */
  lemma LoneSunCannotBeDrawn(len: Vec -> real, center: Vec)
    requires IsLength(len)
    ensures Tick(len, Sky([Sun], [[]]), DEFAULT_DT, center) == Failure(EarthMissing)
  {
    LoneBodyAtRestStays(len, Sun, DEFAULT_DT, SUBSTEPS);
  }

}
