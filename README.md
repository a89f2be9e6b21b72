# Hospital and ambulance placement on a grid

This project models the optimisation engine of the hospital/ambulance
placement system. The engine has two parts.

**The grid state** (`GraphicalHospitalOptimization`)
- It holds a rectangular grid and three lists of cell positions: houses, ambulances and hospitals.
- Its cost adds three weighted terms, each using the nearest Euclidean distance:
  - 1.0 for each house and its nearest hospital;
  - 2.0 for each ambulance and its nearest hospital;
  - 1.5 for each house and its nearest ambulance.
- Its neighbour copies the state and moves one hospital or one ambulance one axis-aligned step, staying on the grid.

**The two local searches**
- Hill climbing takes a neighbour only when it is strictly cheaper. It stops after `max_iterations` iterations, or after `max_no_improvement` rejections in a row.
- Simulated annealing always takes a cheaper neighbour. It takes any other neighbour when a uniform draw falls below `exp(-diff / temperature)`. It cools the temperature geometrically until it reaches the floor.

`grid.dfy` (module `Grid`) holds:
- the value `Config` of a grid state;
- the specification functions `Cost`, `NearestDistance`, `ValidMoves`, `NeighborPosition` and `Neighbor`;
- the class `GridState`. Its `TotalCost`, `GetValidNeighborPosition` and `GetNeighbor` methods are proved equal to `Cost`, `NeighborPosition` and `Neighbor`. Its constructor and `GenerateRandomPositions` are specified by the bounds and lengths they guarantee;
- lemmas on cost (never negative, zero exactly when every entity sits on its nearest target) and on moves (they are exactly the on-grid cells one unit step away; no move exists only on a 1×1 grid).

`search.dfy` (module `Search`) holds:
- each optimiser loop as a recursive function over the loop's variables (`ClimbFrom`, `AnnealFrom`);
- one step of each as a function (`ClimbStep`, `AnnealStep`);
- lemmas that hold whatever the random draws:
  - the returned state is never dearer than the initial one;
  - it keeps the grid, the houses and the entity counts;
  - hill climbing runs at most `max_iterations` iterations;
  - annealing runs exactly until the first cooling at or below the floor;
- the classes `HillClimbingOptimizer` and `SimulatedAnnealingOptimizer`. Their `Optimize` methods run the loops over `GridState` objects and are proved to return what the functions return, as a fresh object, without changing the initial state.

The program's library calls are parameters here:
- `math.sqrt` is `sqrt: nat -> real`. Properties that need it assume only `SqrtLaws`: never negative, and zero exactly at zero.
- `math.exp` is `exp: real -> real`. Properties about acceptance assume only `ExpLaws`: `exp(0) == 1` and monotone.
- The random draws of one neighbour are a `Pick(hospital, index, step)`. The entity index is reduced modulo the size of the chosen list, and the step modulo the number of valid moves.
- The searches take the draws of iteration `i` as `picks(i)`, and annealing's `random.random()` as `draws(i)`.
- Random placement draws each coordinate nondeterministically within its inclusive range.

With a patience `max_no_improvement` of 0 or less, one could expect a single neighbour to still be tried. It is not: the early-stop check comes before neighbour generation. The model follows the code, so no neighbour is generated and the initial state comes back (`ClimbWithoutPatience`).

## Model

| member | source | states |
|---|---|---|
| Grid.SquaredDistance | graphical_hospital_optimization.py:73-75 | the squared distance is a natural number, zero exactly when the two cells coincide |
| Grid.DistanceIsMetric | graphical_hospital_optimization.py:73-75 | under `SqrtLaws` the Euclidean distance (`Distance`, `math.sqrt` of `SquaredDistance`) is non-negative, symmetric, and zero exactly between equal cells |
| Grid.NearestDistanceIsMinimum | graphical_hospital_optimization.py:82-83 | the nearest distance `NearestDistance` (Python's `min` over the targets) is attained by some target and is no greater than the distance to any target |
| Grid.NearestDistanceZeroIff | graphical_hospital_optimization.py:82-83 | the nearest distance is non-negative, and zero exactly when the cell itself is one of the targets |
| Grid.WeightedNearestSumZeroIff | graphical_hospital_optimization.py:81-94 | a positively weighted sum of nearest distances is non-negative, and zero exactly when each summed cell is one of the targets |
| Grid.CostNonNegative | graphical_hospital_optimization.py:77-96 | the total cost `Cost` is never negative whenever the lists it takes a minimum over are non-empty |
| Grid.CostZeroIff | graphical_hospital_optimization.py:77-96 | the total cost is zero exactly when every house shares a cell with a hospital and with an ambulance, and every ambulance shares a cell with a hospital |
| Grid.SingleCellCostZero | graphical_hospital_optimization.py:77-96 | on a 1×1 grid the cost of any well-placed configuration is exactly 0 |
| Grid.GridState.TotalCost | graphical_hospital_optimization.py:77-96 | the three accumulation loops with weights 1.0, 2.0 and 1.5 compute `Cost`, the sum of the three weighted `WeightedNearestSum` terms; the precondition is exactly "no `min` over an empty list" |
| Grid.GridState.GenerateRandomPositions | graphical_hospital_optimization.py:64-71 | exactly `count` positions come back, each with `0 <= x < width` and `0 <= y < height` |
| Grid.GridState.constructor | graphical_hospital_optimization.py:9-21 | the new state keeps the given dimensions and counts (defaults 15, 15, 20, 4, 3), each list has its count, and every entity is on the grid |
| Grid.MovesWithinMembers | graphical_hospital_optimization.py:121-127 | the collected moves are exactly the on-grid cells that one of the tried steps leads to |
| Grid.ValidMovesExactly | graphical_hospital_optimization.py:118-127 | the valid moves are exactly the on-grid cells at Manhattan distance 1 |
| Grid.NoMoveOnlyOnSingleCell | graphical_hospital_optimization.py:118-129 | an on-grid entity has no valid move exactly when the grid is 1×1 |
| Grid.NeighborPosition | graphical_hospital_optimization.py:118-129 | with some valid move, the new cell is on the grid and one unit step away; with none, the cell is unchanged; an on-grid cell stays on the grid |
| Grid.GridState.GetValidNeighborPosition | graphical_hospital_optimization.py:118-129 | the loop over the four steps builds the valid moves and picks the one `NeighborPosition` names, or keeps `pos` |
| Grid.Neighbor | graphical_hospital_optimization.py:98-116 | dimensions and houses are unchanged; the class not chosen is unchanged; in each list at most one entity moves, by at most one step; an empty chosen class gives the configuration back unchanged; entities stay on the grid |
| Grid.NeighborMovesChosenEntity | graphical_hospital_optimization.py:98-116 | on a well-placed grid larger than 1×1, the entity at `index % n` of the chosen non-empty class moves to a cell exactly one step away, and every other entity of that class stays where it was |
| Grid.SingleCellNeighborUnchanged | graphical_hospital_optimization.py:98-116 | on a 1×1 grid every neighbour equals the configuration it came from |
| Grid.GridState.Copy | graphical_hospital_optimization.py:131-139 | the copy is a fresh object with the same dimensions, counts and positions, so the same cost |
| Grid.GridState.GetNeighbor | graphical_hospital_optimization.py:98-116 | returns a fresh state holding `Neighbor` of this one, with the same counts, and leaves this state unchanged |
| Search.NeighborFits | graphical_hospital_optimization.py:98-116 | a neighbour keeps the grid, the houses and both counts, stays on the grid, and keeps the cost defined |
| Search.ClimbStep | graphical_hill_climbing.py:33-44 | a neighbour is taken exactly when strictly cheaper, which resets the rejection count; otherwise the count grows by one and the current state stays; costs never rise; the best becomes the neighbour or stays; best equals current is preserved |
| Search.ClimbFromSound | graphical_hill_climbing.py:25-44 | from a state whose best equals its current state, the loop returns a best no dearer than the starting best, with its exact cost, that keeps the grid, houses and counts |
| Search.ClimbFromIterations | graphical_hill_climbing.py:25-28 | the loop stops at or after the iteration it starts from and, when it starts below `max_iterations`, never after it |
| Search.ClimbNeverWorse | graphical_hill_climbing.py:13-59 | hill climbing (`Climb`, the loop function `ClimbFrom` started from the initial state) returns a state no dearer than the initial one, reports its exact cost, keeps grid, houses and counts, and runs at most `max(max_iterations, 0)` iterations |
| Search.ClimbWithoutPatience | graphical_hill_climbing.py:25-28 | with a patience of 0 or less, or no iterations, the initial state comes back after zero iterations |
| Search.ClimbFromPlateau | graphical_hill_climbing.py:25-44 | if no drawn neighbour is strictly cheaper, the loop returns the starting state and stops at `min(max_iterations, max_no_improvement)` |
| Search.ClimbStopsOnPlateau | graphical_hill_climbing.py:25-44 | on a plateau, hill climbing returns the initial state, stopping early after `max_no_improvement` rejections unless `max_iterations` comes first |
| Search.HillClimbingOptimizer.constructor | graphical_hill_climbing.py:7-11 | the optimiser keeps its limits (defaults 1000 and 100) |
| Search.HillClimbingOptimizer.Consider | graphical_hill_climbing.py:33-44 | the branch on the neighbour's cost leaves the current and best states, their costs and the rejection count that `ClimbStep` gives; a new best is a fresh copy |
| Search.HillClimbingOptimizer.Optimize | graphical_hill_climbing.py:13-59 | returns a fresh state equal to `Climb`'s best, never dearer than the initial state, and leaves the initial state unchanged; its loop keeps the best state equal to the current one (`InSync`) |
| Search.AnnealStep | graphical_hill_climbing.py:85-100 | a cheaper neighbour is always taken; otherwise it is taken exactly when the draw is below `exp(-diff / temperature)`; the best changes only to a neighbour strictly cheaper than it; the best cost never rises; best no dearer than current is preserved |
| Search.AnnealStepConsistent | graphical_hill_climbing.py:85-100 | one step keeps the loop invariant: exact costs, best no dearer than current, matching shapes |
| Search.CoolingShortensHorizon | graphical_hill_climbing.py:102 | with `rate < 1` and a positive floor, one cooling above the floor strictly lowers the bound on the remaining coolings |
| Search.TemperatureShift | graphical_hill_climbing.py:102 | cooling first and then `k` times is the same as cooling `k + 1` times |
| Search.CoolingsIsFirstCold | graphical_hill_climbing.py:81-103 | the number of coolings the loop performs is the least `k` with `t0 * rate^k <= min_temperature` |
| Search.AnnealFromSound | graphical_hill_climbing.py:81-103 | from a consistent state, the loop returns a best no dearer than the starting best, with its exact cost, keeping grid, houses and counts |
| Search.NonPositiveRateCoolsOnce | graphical_hill_climbing.py:81-102 | with a positive floor below the initial temperature and a cooling rate of 0 or less, the schedule is admitted and the loop runs exactly one iteration |
| Search.AnnealFromIterations | graphical_hill_climbing.py:81-103 | the loop runs exactly `Coolings(temperature)` iterations from wherever it starts, whatever the draws |
| Search.AnnealNeverWorse | graphical_hill_climbing.py:68-109 | annealing (`Anneal`, the loop function `AnnealFrom` started from the initial state at `initial_temperature`) returns a state no dearer than the initial one, with its exact cost, keeping grid, houses and counts; it stops at the first iteration whose temperature `t0 * rate^k` is at or below the floor |
| Search.AnnealAlreadyCold | graphical_hill_climbing.py:75-81 | when `initial_temperature <= min_temperature`, the body never runs and the initial state comes back after zero iterations |
| Search.AcceptanceMonotone | graphical_hill_climbing.py:97-98 | a draw that accepts an uphill move also accepts any smaller one, at the same or a higher temperature |
| Search.EqualCostAccepted | graphical_hill_climbing.py:85-100 | a neighbour of equal cost is always taken, since `exp(0) == 1` exceeds every draw of `random.random()` |
| Search.SimulatedAnnealingOptimizer.constructor | graphical_hill_climbing.py:62-66 | the optimiser keeps its schedule (defaults 1000.0, 0.95, 0.1) |
| Search.SimulatedAnnealingOptimizer.Consider | graphical_hill_climbing.py:85-100 | the branch on the cost difference and the acceptance draw leave the current and best states that `AnnealStep` gives; a new best is a fresh copy |
| Search.SimulatedAnnealingOptimizer.Optimize | graphical_hill_climbing.py:68-109 | returns a fresh state equal to `Anneal`'s best, never dearer than the initial state, and leaves the initial state unchanged |

## Left out

- Image loading, generated images, drawing, `display` and `save_visualization` are not modelled. They are rendering with no effect on the search.
- The `print` calls inside both `optimize` methods are not modelled. They are output only.
- The `display_frequency` parameter and its modulo test are not modelled. That test is display-only, although a frequency of 0 would raise a division-by-zero error in the first iteration that generates a neighbour.
- Floating point is not modelled: costs and temperatures are exact reals. Rounding, overflow and underflow are out of scope.
- `math.sqrt` and `math.exp` are parameters. Only the laws stated in `SqrtLaws` and `ExpLaws` are assumed where a property needs them.
- Randomness is not modelled as a distribution. Each draw is an explicit parameter (`Pick`, `picks`, `draws`), and placement is a nondeterministic choice. `randint(0, n - 1)` and `random.choice` over `n` options become an arbitrary natural reduced modulo `n`, which reaches exactly the same values.
- Grid.GridState.constructor: requires a grid of positive width and height even when every count is 0, where the program would accept any grid. A state with entities on an empty grid cannot be built at all, since `randint(0, -1)` raises.
- Grid.GridState.constructor: the counts are natural numbers. A negative count, which the program turns into an empty list while keeping the negative number, is not modelled.
- Grid.GridState.Copy: like the program, the model re-runs the constructor, which places every entity with fresh draws, and then overwrites the three lists. The draws are nondeterministic here, so the model says nothing about reproducing seeded runs. The image reloading is not modelled.
- Search.SimulatedAnnealingOptimizer.Optimize: requires that the schedule reaches the floor. Either the initial temperature is already at or below it, or the floor is positive and `cooling_rate < 1`. A rate of 0 or less is admitted: it stops after one iteration (`NonPositiveRateCoolsOnce`). The excluded schedules start above the floor and have either a floor of 0 or less, or a rate of 1 or more. With a positive floor and a rate of 1 or more, the temperature never falls, so the loop never ends. A floor of 0 or less is excluded as a whole, whether or not the loop would end there. Over floats, a floor of exactly 0 is reached by underflow only at small rates (about 0.5 or less); at the default rate of 0.95 the temperature settles at a tiny subnormal value that rounding keeps above 0, so the loop never ends. A negative initial temperature with a rate above 1 ends after finitely many coolings.
- Search.SimulatedAnnealingOptimizer.Optimize: the loop keeps its temperature by repeated multiplication and does not restate `temperature == initial_temperature * cooling_rate^iteration` as a loop invariant. The schedule is characterised on the specification instead: `AnnealNeverWorse` and `CoolingsIsFirstCold` say the loop stops at the first `k` with `t0 * rate^k` at or below the floor.
- The search specifications use `GridCost`, which is 0.0 on configurations whose cost is undefined. Such configurations never arise from a valid start (`NeighborFits`), and the methods require a defined cost at the start.
- The acceptance branch of one iteration of each optimiser is factored into a `Consider` method, so that each loop body stays small. The branches are those of the program.
- `main.py`, `image_utils.py`, `main_graphical_optimization.py`, `example_usage.py` and `setup.py` are not part of this model. They are drivers, display helpers and scaffolding outside the optimisation engine.
