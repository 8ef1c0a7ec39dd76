# Eggplant gravity core in Dafny

Eggplant is a small Kivy application that simulates the Sun, the Earth and
the Moon under Newtonian gravity and draws their orbits. This project
models its physics core from `main.py`:

- the gravitational constant `GRAVITY`;
- the body (`Planet`) with its two operations: `gravity` adds the pull of
  another body to the accumulated force, and `update` is one semi-implicit
  Euler step that consumes that force;
- `evolve`, one step of the whole system, with two phases: first every body
  gathers the pull of every other body, and only then is every body updated;
- the 200-substep loop of `Eggplant.update`, followed by one trail snapshot
  per body;
- the bounded orbit trail of `PlanetWidget.update_pos`, which keeps at most
  400 entries;
- the lookup of a body by name, `Eggplant.get_planet`, and the screen
  position `PlanetWidget.to_screen` that the Moon's trail records.

The model is functional:

- Bodies are immutable `Planet` values.
- Each in-place mutation becomes a function that returns the new value.
- Each exception main.py raises becomes a `Result` failure:
  - `ZeroDivisionError` from coincident bodies is `CoincidentBodies`;
  - `ZeroDivisionError` from a zero mass is `ZeroMass`;
  - `ValueError("No such planet")` from `get_planet` is `NoSuchPlanet`;
  - the same `ValueError` from `to_screen` during a tick, when no body is
    named "Earth", is `EarthMissing`.
- Coordinates are real numbers.

The Euclidean length is a parameter `len` with two properties, given by
`Vectors.IsLength`:

- it is positive on every non-zero vector;
- it is unchanged by negation.

The Dafny files are:

- `vectors.dfy`: 2-D vectors and the length abstraction;
- `planets.dfy`: the body, `gravity` and `update`;
- `evolution.dfy`: `evolve`, both as the loops of main.py and as a reference step, plus repeated steps;
- `momentum.dfy`: conservation of the total momentum;
- `trail.dfy`: the trail;
- `eggplant.dfy`: the lookup, the screen position, the timer tick and the Sun–Earth set-up.

## Model

| member | source | states |
|---|---|---|
| Planets.PullFactor | main.py:18-48 | The magnitude factor `GRAVITY * m_a * m_b / \|d\|^3` is positive when the mass product is positive and zero when one mass is zero |
| Planets.Pull | main.py:46-49 | The pull on `a` points along the displacement towards `b`: zero cross product and the same sign in each component. A massless body feels and exerts no pull |
| Planets.Gravity | main.py:46-49 | `gravity` changes only the force; the force grows by exactly the pull of the other body; position, speed, mass, name and radius stay the same |
| Planets.PullReadsOnlyPositionAndMass | main.py:46-49 | The pull depends only on the two positions and masses, not on speeds or forces already accumulated |
| Planets.NewtonThirdLaw | main.py:46-49 | The pull of `b` on `a` is the exact negation of the pull of `a` on `b` |
| Planets.Update | main.py:51-57 | `update` clears the force; the momentum grows by the impulse `dt * force`; the new position is the old one moved by `dt` times the NEW speed; mass, name and radius stay the same |
| Planets.UpdateMovesWithNewSpeed | main.py:51-57 | The new position is the explicit-Euler position plus `dt * (dt / mass) * force` |
| Planets.UpdateIsNotExplicitEuler | main.py:54-55 | With a non-zero step and a non-zero force, the new position differs from the explicit-Euler one |
| Planets.KickTowards | main.py:46-57 | After `gravity` then `update`, each component of the speed change has the sign of the displacement towards the other body |
| Planets.KickAlongX | main.py:46-57 | For two bodies on a horizontal line, the step leaves the vertical speed and motion alone. It accelerates the body horizontally towards the other, so it lands nearer to it along x than coasting would |
| Evolution.Step | main.py:60-67 | Reference step. It fails with `CoincidentBodies` exactly when two bodies share a position. It fails with `ZeroMass` exactly when they are apart but some mass is zero. On success it keeps every body's identity and clears every force |
| Evolution.NetPullOnSamePlaces | main.py:61-64 | Forces written earlier in the first phase do not change what later bodies read: the net pull is the same as on the pre-step snapshot |
| Evolution.GatherFor | main.py:62-64 | The inner loop succeeds exactly when body `i` is apart from all others. It then adds the sum of their pulls, in list order, to the force |
| Evolution.UpdateEach | main.py:66-67 | The update loop succeeds exactly when every mass is non-zero and then equals the reference second phase |
| Evolution.Evolve | main.py:60-67 | The in-place two-loop `evolve` computes exactly the reference step. Each body is updated with the force from the PRE-step positions of all others |
| Evolution.Advance | main.py:128-130 | Repeated steps stop at the first failure, keep every body's identity and leave all forces zero |
| Evolution.AdvanceSplits | main.py:128-130 | `m + n` steps are `m` steps followed by `n` steps, with failures propagated |
| Evolution.LoneBodyCoasts | main.py:60-67 | A lone body with no force moves by `dt * speed` and keeps its speed |
| Evolution.LoneBodyAtRestStays | main.py:60-67 | A lone body at rest is a fixed point of any number of steps |
| Evolution.TwoBodyStep | main.py:60-67 | For two bodies, a step is `gravity` of each on the other followed by `update` of both |
| Momentum.PairsCancel | main.py:61-64 | Under any antisymmetric pairwise interaction, the pairwise contributions within the first `m` bodies sum to zero |
| Momentum.NetPullIsRow | main.py:61-64 | The net pull on a body is its row of the pairwise pull table |
| Momentum.MomentumGrowsByImpulse | main.py:51-57 | If each body receives an impulse, the total momentum grows by the summed impulse |
| Momentum.StepConservesMomentum | main.py:60-67 | A successful step from a force-free state conserves the total momentum |
| Momentum.AdvanceConservesMomentum | main.py:128-130 | Any number of successful steps conserves the total momentum |
| Trail.Newest | main.py:92-94 | The newest `n` entries of a sequence, in order |
| Trail.Record | main.py:92-94 | Appending one snapshot to a trail within bounds keeps the newest 400 entries. A full trail drops its oldest entry and gains the new one |
| Trail.NewestThenAppend | main.py:92-94 | Truncating then appending equals appending then truncating |
| Trail.RecordAllKeepsNewest | main.py:92-94 | After any number of snapshots, the trail is the newest `min(400, n + k)` entries of everything seen, in order, and never exceeds 400 |
| Eggplant.FirstNamed | main.py:122-126 | The lookup fails, with `NoSuchPlanet`, exactly when no body has the name. Otherwise it returns the first body in list order with that name |
| Eggplant.GetPlanet | main.py:122-126 | The loop over the bodies returns exactly what `FirstNamed` specifies: failure exactly when no body has the name, otherwise the first match |
| Eggplant.Redraw | main.py:84-98 | Redrawing fails exactly when there is at least one body and none is named "Earth", because `to_screen` looks the Earth up before any trail append. Otherwise the Moon's trail records its screen position relative to the first body named "Earth". Every other trail records its body's position. Every trail stays within 400 |
| Eggplant.Tick | main.py:128-133 | A tick fails with the substep's error exactly when one of its 200 substeps fails. It fails with `EarthMissing` exactly when the substeps succeed and there are bodies but none named "Earth". Otherwise it is the redraw of the bodies 200 steps on |
| Eggplant.TwoTicks | main.py:128-130 | Two successful ticks advance the bodies by exactly 400 steps |
| Eggplant.TickConservesMomentum | main.py:128-130 | A successful tick from a force-free state keeps the total momentum |
| Eggplant.LoneSunCannotBeDrawn | main.py:84-98 | The Sun alone passes all 200 substeps, yet the tick fails with `EarthMissing` |
| Eggplant.TwoBodiesOnALine | main.py:60-67 | Two bodies on a horizontal line, neither carrying a force: each accelerates towards the other along x and lands nearer to it than coasting would. Each keeps its vertical speed and vertical motion |
| Eggplant.EarthFallsTowardsSun | main.py:144-158 | For the Sun and the Earth as `build` creates them, one 60 s step succeeds. The Earth gains a speed component towards the Sun and moves towards it along x. It keeps 28000 m/s tangentially and moves 1 680 000 m along y. The Sun starts towards the Earth and moves off the origin towards it |

## Left out

- The Kivy user interface is not modelled: widgets, the clock scheduling at 100 Hz, drawing, colours, `__str__` and the app class. They produce no state the physics reads.
- `mult_to_screen` and the widget size are not modelled. They are drawing only. `to_screen` is modelled, because its lookup of the Earth can make a tick fail and because the Moon's trail records its result.
- The centre of the simulation widget on screen is a parameter `center`. Window layout is not modelled.
- Eggplant.Redraw: the Moon's very first trail entry is recorded as `to_screen`'s value. In main.py, line 85 resizes the widget after line 84 sets its centre, which shifts the first centre by half the size change. Later calls leave the size unchanged.
- Floating point is not modelled. Coordinates are exact reals, and rounding, overflow and `inf`/`nan` are out of scope.
- The square root is left abstract. `len` is any function that is positive on non-zero vectors and symmetric under negation.
- Planets.Pull: states the direction of the pull but not its inverse-square magnitude, because `len` is abstract.
- Partial mutation before an exception is not modelled. When `evolve` raises part-way, some bodies already carry new forces or new states; the model reports only the failure.
- `a is not b` is modelled as index inequality. This assumes every list element is a distinct object, as `build` creates them.
- Kivy `Vector` arithmetic is modelled as plain componentwise arithmetic on pairs of reals.
- Planets.Update: `self.speed += a` changes the existing speed `Vector` in place. Every other update in main.py assigns a new vector. Bodies that share one speed vector would change each other's speed. The model gives every body its own speed value, as `build` does.
- Three-body facts about the Moon are not stated. `EarthFallsTowardsSun` concerns the Sun and the Earth alone.
- `Planet` never validates its mass. The widget set-up (`on_planets` creating one `PlanetWidget` per body) evaluates `log(mass)`, which raises `ValueError` for a mass of zero or less before any tick. That set-up is not modelled. `ZeroMass` from `update` is reachable only when `evolve` is used without the widgets.
