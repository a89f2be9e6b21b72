/**
  The two local-search optimisers that drive a grid state: hill climbing,
  which accepts only strictly cheaper neighbours and stops after a run of
  rejections, and simulated annealing, which also accepts dearer neighbours
  with probability `exp(-diff / temperature)` while the temperature decays
  geometrically to a floor.

  Each loop is specified by a recursive function over the loop's variables
  (`ClimbFrom`, `AnnealFrom`); the optimiser classes run the loop over
  `GridState` objects and are proved to return what those functions return.
  The optimisers see a state only through its cost and its neighbours, so the
  specifications take the cost as a function `cost` and the classes supply
  `GridCost`. The random draws of iteration `i` are `picks(i)` (the
  neighbour move) and `draws(i)` (the value of `random.random()`), and `exp`
  stands for `math.exp`.
*/
module Search {
  import opened Grid

  /** What a search returns: the best configuration, its cost, and the iteration at which the loop stopped. */
  datatype Outcome = Outcome(best: Config, bestCost: real, iterations: nat)

  /**
    The grid cost as a total function. The configurations it is undefined on
    never arise in a search that starts from one it is defined on, since
    neighbour moves keep the entity counts (`NeighborFits`).
  */
  function GridCost(sqrt: nat -> real): Config -> real {
    c => if CostDefined(c) then Cost(c, sqrt) else 0.0
  }

  /**
    `c` has the dimensions and houses of `ref`, as many ambulances and
    hospitals, and stays on the grid if `ref` does: what neighbour moves keep.
  */
  predicate Fits(ref: Config, c: Config) {
    && c.gridWidth == ref.gridWidth && c.gridHeight == ref.gridHeight
    && c.houses == ref.houses
    && |c.ambulances| == |ref.ambulances| && |c.hospitals| == |ref.hospitals|
    && (WellPlaced(ref) ==> WellPlaced(c))
  }

  lemma NeighborFits(c: Config, pick: Pick)
    ensures Fits(c, Neighbor(c, pick))
    ensures CostDefined(c) ==> CostDefined(Neighbor(c, pick))
  {
  }

  lemma FitsCostDefined(ref: Config, c: Config)
    requires Fits(ref, c) && CostDefined(ref)
    ensures CostDefined(c)
  {
  }

  function Min(a: int, b: int): int {
    if a <= b then a else b
  }

  // ---------------------------------------------------------------------------
  // Hill climbing
  // ---------------------------------------------------------------------------

  /** The variables of the hill-climbing loop. */
  datatype Climber = Climber(current: Config, currentCost: real, best: Config, bestCost: real, noImprovement: nat)

  /** The best state is the current one. */
  predicate InSync(s: Climber) {
    s.best == s.current && s.bestCost == s.currentCost
  }

  /**
    One iteration of hill climbing on a neighbour of cost `neighborCost`:
    a strictly cheaper neighbour becomes current (and best, when it beats the
    best) and resets the count of rejections; any other is rejected.
  */
  function ClimbStep(s: Climber, neighbor: Config, neighborCost: real): (r: Climber)
    ensures r.noImprovement == 0 <==> neighborCost < s.currentCost
    ensures neighborCost < s.currentCost ==> r.current == neighbor && r.currentCost == neighborCost
    ensures s.currentCost <= neighborCost ==>
      r.current == s.current && r.currentCost == s.currentCost && r.noImprovement == s.noImprovement + 1
    ensures r.bestCost <= s.bestCost && r.currentCost <= s.currentCost
    ensures r.best == s.best || (r.best == neighbor && r.bestCost == neighborCost)
    ensures InSync(s) ==> InSync(r)
  {
    if neighborCost < s.currentCost then
      var moved := s.(current := neighbor, currentCost := neighborCost, noImprovement := 0);
      if neighborCost < s.bestCost then moved.(best := neighbor, bestCost := neighborCost) else moved
    else
      s.(noImprovement := s.noImprovement + 1)
  }

  /**
    The hill-climbing loop from iteration `iteration` on: it stops once
    `maxIterations` iterations have run or once `maxNoImprovement` neighbours
    in a row were rejected, whichever is checked true first.
  */
  function ClimbFrom(maxIterations: int, maxNoImprovement: int, picks: nat -> Pick, cost: Config -> real,
                     iteration: nat, s: Climber): Outcome
    decreases maxIterations - iteration
  {
    if iteration >= maxIterations || s.noImprovement >= maxNoImprovement then
      Outcome(s.best, s.bestCost, iteration)
    else
      var neighbor := Neighbor(s.current, picks(iteration));
      ClimbFrom(maxIterations, maxNoImprovement, picks, cost, iteration + 1, ClimbStep(s, neighbor, cost(neighbor)))
  }

  /** Hill climbing from `initial`, which is both the current and the best state at the start. */
  function Climb(initial: Config, maxIterations: int, maxNoImprovement: int,
                 picks: nat -> Pick, cost: Config -> real): Outcome
  {
    ClimbFrom(maxIterations, maxNoImprovement, picks, cost, 0,
              Climber(initial, cost(initial), initial, cost(initial), 0))
  }

  lemma {:induction false} ClimbFromSound(maxIterations: int, maxNoImprovement: int, picks: nat -> Pick,
                                          cost: Config -> real, iteration: nat, s: Climber)
    requires s.currentCost == cost(s.current) && InSync(s)
    ensures var r := ClimbFrom(maxIterations, maxNoImprovement, picks, cost, iteration, s);
      r.bestCost <= s.bestCost && r.bestCost == cost(r.best) && Fits(s.current, r.best)
    decreases maxIterations - iteration
  {
    if !(iteration >= maxIterations || s.noImprovement >= maxNoImprovement) {
      var neighbor := Neighbor(s.current, picks(iteration));
      NeighborFits(s.current, picks(iteration));
      var next := ClimbStep(s, neighbor, cost(neighbor));
      ClimbFromSound(maxIterations, maxNoImprovement, picks, cost, iteration + 1, next);
    }
  }

  lemma {:induction false} ClimbFromIterations(maxIterations: int, maxNoImprovement: int, picks: nat -> Pick,
                                               cost: Config -> real, iteration: nat, s: Climber)
    ensures var n := ClimbFrom(maxIterations, maxNoImprovement, picks, cost, iteration, s).iterations;
      iteration <= n && (iteration < maxIterations ==> n <= maxIterations)
    decreases maxIterations - iteration
  {
    if !(iteration >= maxIterations || s.noImprovement >= maxNoImprovement) {
      var neighbor := Neighbor(s.current, picks(iteration));
      ClimbFromIterations(maxIterations, maxNoImprovement, picks, cost, iteration + 1,
                          ClimbStep(s, neighbor, cost(neighbor)));
    }
  }

  /**
    Hill climbing never returns a configuration dearer than the initial one,
    the cost it reports is the cost of what it returns, the result keeps the
    grid, the houses and the entity counts, and at most `maxIterations`
    iterations run.
  */
  lemma ClimbNeverWorse(initial: Config, maxIterations: int, maxNoImprovement: int,
                        picks: nat -> Pick, cost: Config -> real)
    ensures var r := Climb(initial, maxIterations, maxNoImprovement, picks, cost);
      && r.bestCost <= cost(initial)
      && r.bestCost == cost(r.best)
      && Fits(initial, r.best)
      && r.iterations <= if maxIterations < 0 then 0 else maxIterations
  {
    var s := Climber(initial, cost(initial), initial, cost(initial), 0);
    ClimbFromSound(maxIterations, maxNoImprovement, picks, cost, 0, s);
    ClimbFromIterations(maxIterations, maxNoImprovement, picks, cost, 0, s);
  }

  /**
    With a patience of zero or less (or no iterations at all) the loop stops
    before its first neighbour: the initial state comes back, after zero iterations.
  */
  lemma ClimbWithoutPatience(initial: Config, maxIterations: int, maxNoImprovement: int,
                             picks: nat -> Pick, cost: Config -> real)
    requires maxNoImprovement <= 0 || maxIterations <= 0
    ensures Climb(initial, maxIterations, maxNoImprovement, picks, cost) == Outcome(initial, cost(initial), 0)
  {
  }

  lemma {:induction false} ClimbFromPlateau(maxIterations: int, maxNoImprovement: int, picks: nat -> Pick,
                                            cost: Config -> real, iteration: nat, c: Config)
    requires forall i: nat :: cost(c) <= cost(Neighbor(c, picks(i)))
    ensures ClimbFrom(maxIterations, maxNoImprovement, picks, cost, iteration, Climber(c, cost(c), c, cost(c), iteration))
      == Outcome(c, cost(c), if iteration < maxIterations && iteration < maxNoImprovement
                             then Min(maxIterations, maxNoImprovement) else iteration)
    decreases maxIterations - iteration
  {
    if iteration < maxIterations && iteration < maxNoImprovement {
      var neighbor := Neighbor(c, picks(iteration));
      assert ClimbStep(Climber(c, cost(c), c, cost(c), iteration), neighbor, cost(neighbor))
          == Climber(c, cost(c), c, cost(c), iteration + 1);
      ClimbFromPlateau(maxIterations, maxNoImprovement, picks, cost, iteration + 1, c);
    }
  }

  /**
    When no neighbour the draws propose is strictly cheaper than the initial
    state, the initial state comes back and the loop stops early, after
    `maxNoImprovement` rejections, unless `maxIterations` comes first.
  */
  lemma ClimbStopsOnPlateau(initial: Config, maxIterations: int, maxNoImprovement: int,
                            picks: nat -> Pick, cost: Config -> real)
    requires forall i: nat :: cost(initial) <= cost(Neighbor(initial, picks(i)))
    ensures Climb(initial, maxIterations, maxNoImprovement, picks, cost)
      == Outcome(initial, cost(initial), if maxIterations <= 0 || maxNoImprovement <= 0 then 0
                                         else Min(maxIterations, maxNoImprovement))
  {
    ClimbFromPlateau(maxIterations, maxNoImprovement, picks, cost, 0, initial);
  }

  // ---------------------------------------------------------------------------
  // Simulated annealing
  // ---------------------------------------------------------------------------

  /** The variables of the annealing loop. */
  datatype Walker = Walker(current: Config, currentCost: real, best: Config, bestCost: real)

  /** `exp` is monotone and `exp(0) == 1`, as the exponential is. */
  ghost predicate ExpLaws(exp: real -> real) {
    && exp(0.0) == 1.0
    && forall x: real, y: real :: x <= y ==> exp(x) <= exp(y)
  }

  /** A draw `u` accepts a move that costs `diff` more at `temperature`. */
  predicate AcceptsUphill(diff: real, temperature: real, u: real, exp: real -> real)
    requires 0.0 < temperature
  {
    u < exp(-diff / temperature)
  }

  /**
    One iteration of annealing on a neighbour of cost `neighborCost`, with the
    draw `u`: a cheaper neighbour is always taken (and becomes best when it
    beats the best); any other is taken when the draw accepts it.
  */
  function AnnealStep(s: Walker, neighbor: Config, neighborCost: real, temperature: real,
                      u: real, exp: real -> real): (r: Walker)
    requires 0.0 < temperature
    ensures r == s || (r.current == neighbor && r.currentCost == neighborCost)
    ensures neighborCost < s.currentCost ==> r.current == neighbor && r.currentCost == neighborCost
    ensures s.currentCost <= neighborCost ==> r.best == s.best && r.bestCost == s.bestCost
    ensures s.currentCost <= neighborCost && AcceptsUphill(neighborCost - s.currentCost, temperature, u, exp) ==>
      r.current == neighbor && r.currentCost == neighborCost
    ensures s.currentCost <= neighborCost && !AcceptsUphill(neighborCost - s.currentCost, temperature, u, exp) ==>
      r == s
    ensures r.best == s.best || (r.best == neighbor && r.bestCost == neighborCost && neighborCost < s.bestCost)
    ensures r.bestCost <= s.bestCost
    ensures s.bestCost <= s.currentCost ==> r.bestCost <= r.currentCost
  {
    var diff := neighborCost - s.currentCost;
    if diff < 0.0 then
      var moved := s.(current := neighbor, currentCost := neighborCost);
      if neighborCost < s.bestCost then moved.(best := neighbor, bestCost := neighborCost) else moved
    else if AcceptsUphill(diff, temperature, u, exp) then
      s.(current := neighbor, currentCost := neighborCost)
    else
      s
  }

  /** The temperature after `k` coolings of `t0` by `rate`. */
  function Temperature(t0: real, rate: real, k: nat): real {
    if k == 0 then t0 else Temperature(t0, rate, k - 1) * rate
  }

  /**
    The schedule reaches the floor: either it starts at or below it, or the
    floor is positive and the rate below 1. A rate of 0 or less takes any
    temperature to 0 or below, hence below the floor, in one cooling.
  */
  predicate Cools(t0: real, rate: real, minTemperature: real) {
    t0 <= minTemperature || (0.0 < minTemperature && rate < 1.0)
  }

  /**
    A bound on the number of coolings from `temperature` down to the floor:
    each cooling above the floor lowers the temperature by at least
    `minTemperature * (1 - rate)`.
  */
  function Horizon(temperature: real, rate: real, minTemperature: real): nat
    requires Cools(temperature, rate, minTemperature)
  {
    if temperature <= minTemperature then 0
    else
      var q := (temperature - minTemperature) / (minTemperature * (1.0 - rate));
      assert 0.0 < q;
      q.Floor + 1
  }

  lemma ScaleStrict(x: real, y: real, b: real)
    requires x < y && 0.0 < b
    ensures x * b < y * b
  {
    assert y * b - x * b == (y - x) * b;
  }

  /** One cooling above the floor brings the horizon of the remaining schedule strictly closer. */
  lemma CoolingShortensHorizon(temperature: real, rate: real, minTemperature: real)
    requires Cools(temperature, rate, minTemperature) && minTemperature < temperature
    ensures Cools(temperature * rate, rate, minTemperature)
    ensures Horizon(temperature * rate, rate, minTemperature) < Horizon(temperature, rate, minTemperature)
  {
    var d := minTemperature * (1.0 - rate);
    var cooled := temperature * rate;
    if minTemperature < cooled {
      assert (temperature - minTemperature) - d - (cooled - minTemperature)
          == (temperature - minTemperature) * (1.0 - rate);
      ScaleStrict(0.0, temperature - minTemperature, 1.0 - rate);
      QuotientStep(cooled - minTemperature, temperature - minTemperature, d);
    }
  }

  lemma QuotientStep(a: real, b: real, d: real)
    requires 0.0 < d && a <= b - d
    ensures (a / d).Floor < (b / d).Floor
  {
    assert (b / d) * d == b;
    assert (b / d - 1.0) * d == b - d;
    DivideBothSides(b / d - 1.0, b - d, d);
    assert a / d <= (b - d) / d;
  }

  lemma DivideBothSides(x: real, y: real, d: real)
    requires d != 0.0 && x * d == y
    ensures x == y / d
  {
  }

  /**
    The annealing loop from iteration `iteration` at `temperature` on: while
    the temperature is above the floor, one step on the neighbour
    `picks(iteration)` with the draw `draws(iteration)`, then one cooling.
  */
  function AnnealFrom(rate: real, minTemperature: real, picks: nat -> Pick, draws: nat -> real,
                      exp: real -> real, cost: Config -> real, iteration: nat, temperature: real, s: Walker): Outcome
    requires Cools(temperature, rate, minTemperature)
    decreases Horizon(temperature, rate, minTemperature)
  {
    if temperature <= minTemperature then
      Outcome(s.best, s.bestCost, iteration)
    else
      CoolingShortensHorizon(temperature, rate, minTemperature);
      var neighbor := Neighbor(s.current, picks(iteration));
      AnnealFrom(rate, minTemperature, picks, draws, exp, cost, iteration + 1, temperature * rate,
                 AnnealStep(s, neighbor, cost(neighbor), temperature, draws(iteration), exp))
  }

  /** Simulated annealing from `initial`, which is both the current and the best state at the start. */
  function Anneal(initial: Config, t0: real, rate: real, minTemperature: real, picks: nat -> Pick,
                  draws: nat -> real, exp: real -> real, cost: Config -> real): Outcome
    requires Cools(t0, rate, minTemperature)
  {
    AnnealFrom(rate, minTemperature, picks, draws, exp, cost, 0, t0,
               Walker(initial, cost(initial), initial, cost(initial)))
  }

  /** The loop invariant of annealing: both costs are exact, the best is no dearer than the current state, and shapes agree. */
  predicate Consistent(s: Walker, cost: Config -> real) {
    && s.currentCost == cost(s.current) && s.bestCost == cost(s.best)
    && s.bestCost <= s.currentCost && Fits(s.best, s.current)
  }

  /** One annealing step keeps the loop invariant and never makes the best state dearer. */
  lemma AnnealStepConsistent(s: Walker, pick: Pick, temperature: real, u: real, exp: real -> real, cost: Config -> real)
    requires 0.0 < temperature && Consistent(s, cost)
    ensures var neighbor := Neighbor(s.current, pick);
      var r := AnnealStep(s, neighbor, cost(neighbor), temperature, u, exp);
      Consistent(r, cost) && r.bestCost <= s.bestCost && Fits(s.best, r.best)
  {
    NeighborFits(s.current, pick);
  }

  lemma {:induction false} AnnealFromSound(rate: real, minTemperature: real, picks: nat -> Pick,
                                           draws: nat -> real, exp: real -> real, cost: Config -> real,
                                           iteration: nat, temperature: real, s: Walker)
    requires Cools(temperature, rate, minTemperature) && Consistent(s, cost)
    ensures var r := AnnealFrom(rate, minTemperature, picks, draws, exp, cost, iteration, temperature, s);
      r.bestCost <= s.bestCost && r.bestCost == cost(r.best) && Fits(s.best, r.best)
    decreases Horizon(temperature, rate, minTemperature)
  {
    if minTemperature < temperature {
      CoolingShortensHorizon(temperature, rate, minTemperature);
      AnnealStepConsistent(s, picks(iteration), temperature, draws(iteration), exp, cost);
      var neighbor := Neighbor(s.current, picks(iteration));
      var next := AnnealStep(s, neighbor, cost(neighbor), temperature, draws(iteration), exp);
      AnnealFromSound(rate, minTemperature, picks, draws, exp, cost, iteration + 1, temperature * rate, next);
    }
  }

  /** How many coolings by `rate` take `temperature` to the floor or below. */
  function Coolings(temperature: real, rate: real, minTemperature: real): nat
    requires Cools(temperature, rate, minTemperature)
    decreases Horizon(temperature, rate, minTemperature)
  {
    if temperature <= minTemperature then 0
    else
      CoolingShortensHorizon(temperature, rate, minTemperature);
      1 + Coolings(temperature * rate, rate, minTemperature)
  }

  /** A rate of 0 or less takes any temperature above a positive floor below it in exactly one cooling. */
  lemma NonPositiveRateCoolsOnce(t0: real, rate: real, minTemperature: real)
    requires 0.0 < minTemperature < t0 && rate <= 0.0
    ensures Cools(t0, rate, minTemperature) && Coolings(t0, rate, minTemperature) == 1
  {
    assert t0 * rate <= 0.0 by {
      assert t0 * rate == -(t0 * -rate);
      assert 0.0 <= t0 * -rate;
    }
  }

  /** Cooling `t0` first is the same as cooling it one more time. */
  lemma {:induction false} TemperatureShift(t0: real, rate: real, k: nat)
    ensures Temperature(t0 * rate, rate, k) == Temperature(t0, rate, k + 1)
  {
    if k > 0 {
      TemperatureShift(t0, rate, k - 1);
    }
  }

  /** `Coolings(t0, ...)` is the least `k` at which `Temperature(t0, rate, k)` is at or below the floor. */
  lemma {:induction false} CoolingsIsFirstCold(t0: real, rate: real, minTemperature: real)
    requires Cools(t0, rate, minTemperature)
    ensures var n := Coolings(t0, rate, minTemperature);
      && Temperature(t0, rate, n) <= minTemperature
      && forall k :: 0 <= k < n ==> minTemperature < Temperature(t0, rate, k)
    decreases Horizon(t0, rate, minTemperature)
  {
    if minTemperature < t0 {
      CoolingShortensHorizon(t0, rate, minTemperature);
      CoolingsIsFirstCold(t0 * rate, rate, minTemperature);
      var n := Coolings(t0, rate, minTemperature);
      TemperatureShift(t0, rate, n - 1);
      forall k | 1 <= k < n
        ensures minTemperature < Temperature(t0, rate, k)
      {
        TemperatureShift(t0, rate, k - 1);
      }
    }
  }

  /** The annealing loop runs exactly `Coolings` iterations from wherever it starts, whatever the draws. */
  lemma {:induction false} AnnealFromIterations(rate: real, minTemperature: real, picks: nat -> Pick,
                                                draws: nat -> real, exp: real -> real, cost: Config -> real,
                                                iteration: nat, temperature: real, s: Walker)
    requires Cools(temperature, rate, minTemperature)
    ensures AnnealFrom(rate, minTemperature, picks, draws, exp, cost, iteration, temperature, s).iterations
         == iteration + Coolings(temperature, rate, minTemperature)
    decreases Horizon(temperature, rate, minTemperature)
  {
    if minTemperature < temperature {
      CoolingShortensHorizon(temperature, rate, minTemperature);
      var neighbor := Neighbor(s.current, picks(iteration));
      var next := AnnealStep(s, neighbor, cost(neighbor), temperature, draws(iteration), exp);
      AnnealFromIterations(rate, minTemperature, picks, draws, exp, cost, iteration + 1, temperature * rate, next);
    }
  }

  /**
    Simulated annealing never returns a configuration dearer than the initial
    one, the cost it reports is the cost of what it returns, the result keeps
    the grid, the houses and the entity counts, and the number of iterations
    is fixed by the schedule alone: the first `k` at which
    `Temperature(t0, rate, k)` is at or below the floor, whatever the draws.
  */
  lemma AnnealNeverWorse(initial: Config, t0: real, rate: real, minTemperature: real, picks: nat -> Pick,
                         draws: nat -> real, exp: real -> real, cost: Config -> real)
    requires Cools(t0, rate, minTemperature)
    ensures var r := Anneal(initial, t0, rate, minTemperature, picks, draws, exp, cost);
      && r.bestCost <= cost(initial)
      && r.bestCost == cost(r.best)
      && Fits(initial, r.best)
      && Temperature(t0, rate, r.iterations) <= minTemperature
      && forall k :: 0 <= k < r.iterations ==> minTemperature < Temperature(t0, rate, k)
  {
    var s := Walker(initial, cost(initial), initial, cost(initial));
    AnnealFromSound(rate, minTemperature, picks, draws, exp, cost, 0, t0, s);
    AnnealFromIterations(rate, minTemperature, picks, draws, exp, cost, 0, t0, s);
    CoolingsIsFirstCold(t0, rate, minTemperature);
  }

  /** Starting at or below the floor, the loop body never runs and the initial state comes back. */
  lemma AnnealAlreadyCold(initial: Config, t0: real, rate: real, minTemperature: real, picks: nat -> Pick,
                          draws: nat -> real, exp: real -> real, cost: Config -> real)
    requires t0 <= minTemperature
    ensures Anneal(initial, t0, rate, minTemperature, picks, draws, exp, cost) == Outcome(initial, cost(initial), 0)
  {
  }

  /**
    A draw that accepts an uphill move also accepts any smaller one, at the
    same or any higher temperature: dearer moves are taken less often, and
    less often as the system cools.
  */
  lemma AcceptanceMonotone(smaller: real, larger: real, hotter: real, colder: real, u: real, exp: real -> real)
    requires ExpLaws(exp) && 0.0 <= smaller <= larger && 0.0 < colder <= hotter
    requires AcceptsUphill(larger, colder, u, exp)
    ensures AcceptsUphill(smaller, hotter, u, exp)
  {
    assert smaller / hotter <= larger / hotter;
    assert larger / hotter <= larger / colder;
  }

  /** A neighbour of equal cost is always taken, since `exp(0) == 1` exceeds any draw of `random.random()`. */
  lemma EqualCostAccepted(s: Walker, neighbor: Config, temperature: real, u: real, exp: real -> real)
    requires ExpLaws(exp) && 0.0 < temperature && 0.0 <= u < 1.0
    ensures AnnealStep(s, neighbor, s.currentCost, temperature, u, exp).current == neighbor
  {
    assert -(s.currentCost - s.currentCost) / temperature == 0.0;
  }

  // ---------------------------------------------------------------------------
  // The optimiser objects
  // ---------------------------------------------------------------------------

  /** Hill climbing over grid states. */
  class HillClimbingOptimizer {
    const maxIterations: int
    const maxNoImprovement: int

    constructor (maxIterations: int := 1000, maxNoImprovement: int := 100)
      ensures this.maxIterations == maxIterations && this.maxNoImprovement == maxNoImprovement
    {
      this.maxIterations := maxIterations;
      this.maxNoImprovement := maxNoImprovement;
    }

    /**
      The acceptance rule of one hill-climbing iteration on an already
      generated neighbour and its cost: the new current and best states, their
      costs and the rejection count are those `ClimbStep` gives, the best being
      a fresh copy when it changes.
    */
    method Consider(current: GridState, currentCost: real, best: GridState, bestCost: real, noImprovement: nat,
                    neighbor: GridState, neighborCost: real)
      returns (current': GridState, currentCost': real, best': GridState, bestCost': real, noImprovement': nat)
      requires neighbor.Valid()
      ensures Climber(current'.View(), currentCost', best'.View(), bestCost', noImprovement')
           == ClimbStep(Climber(current.View(), currentCost, best.View(), bestCost, noImprovement),
                        neighbor.View(), neighborCost)
      ensures current' == current || current' == neighbor
      ensures best' == best || (fresh(best') && best'.Valid())
    {
      current', currentCost', best', bestCost', noImprovement' := current, currentCost, best, bestCost, noImprovement;
      if neighborCost < currentCost {
        current' := neighbor;
        currentCost' := neighborCost;
        noImprovement' := 0;
        if neighborCost < bestCost {
          best' := neighbor.Copy();
          bestCost' := neighborCost;
        }
      } else {
        noImprovement' := noImprovement + 1;
      }
    }

    /**
      Runs hill climbing from `initial`, which is left as it is, and returns a
      fresh copy of the best state met: the one `Climb` names, and never
      dearer than `initial`.
    */
    method Optimize(initial: GridState, picks: nat -> Pick, sqrt: nat -> real) returns (best: GridState)
      requires initial.Valid() && CostDefined(initial.View())
      ensures fresh(best) && best.Valid()
      ensures best.View() == Climb(initial.View(), maxIterations, maxNoImprovement, picks, GridCost(sqrt)).best
      ensures CostDefined(best.View()) && Cost(best.View(), sqrt) <= Cost(initial.View(), sqrt)
    {
      ghost var cost := GridCost(sqrt);
      var current := initial;
      var currentCost := current.TotalCost(sqrt);
      best := current.Copy();
      var bestCost := currentCost;
      var noImprovement: nat := 0;
      var iteration: nat := 0;
      while iteration < maxIterations
        invariant current.Valid() && best.Valid() && fresh(best)
        invariant CostDefined(current.View())
        invariant InSync(Climber(current.View(), currentCost, best.View(), bestCost, noImprovement))
        invariant ClimbFrom(maxIterations, maxNoImprovement, picks, cost, iteration,
                            Climber(current.View(), currentCost, best.View(), bestCost, noImprovement))
               == Climb(initial.View(), maxIterations, maxNoImprovement, picks, cost)
        decreases maxIterations - iteration
      {
        if noImprovement >= maxNoImprovement {
          break;
        }
        ghost var climber := Climber(current.View(), currentCost, best.View(), bestCost, noImprovement);
        var neighbor := current.GetNeighbor(picks(iteration));
        NeighborFits(current.View(), picks(iteration));
        var neighborCost := neighbor.TotalCost(sqrt);
        assert neighborCost == cost(neighbor.View());
        ghost var next := ClimbStep(climber, neighbor.View(), neighborCost);
        assert ClimbFrom(maxIterations, maxNoImprovement, picks, cost, iteration, climber)
            == ClimbFrom(maxIterations, maxNoImprovement, picks, cost, iteration + 1, next);
        current, currentCost, best, bestCost, noImprovement :=
          Consider(current, currentCost, best, bestCost, noImprovement, neighbor, neighborCost);
        assert Climber(current.View(), currentCost, best.View(), bestCost, noImprovement) == next;
        iteration := iteration + 1;
      }
      ClimbNeverWorse(initial.View(), maxIterations, maxNoImprovement, picks, cost);
      FitsCostDefined(initial.View(), best.View());
    }
  }

  /** Simulated annealing over grid states. */
  class SimulatedAnnealingOptimizer {
    const initialTemperature: real
    const coolingRate: real
    const minTemperature: real

    constructor (initialTemperature: real := 1000.0, coolingRate: real := 0.95, minTemperature: real := 0.1)
      ensures this.initialTemperature == initialTemperature && this.coolingRate == coolingRate
      ensures this.minTemperature == minTemperature
    {
      this.initialTemperature := initialTemperature;
      this.coolingRate := coolingRate;
      this.minTemperature := minTemperature;
    }

    /**
      The acceptance rule of one annealing iteration on an already generated
      neighbour and its cost: the new current and best states and their costs
      are those `AnnealStep` gives, the best being a fresh copy when it changes.
    */
    method Consider(current: GridState, currentCost: real, best: GridState, bestCost: real,
                    neighbor: GridState, neighborCost: real, temperature: real, u: real, exp: real -> real)
      returns (current': GridState, currentCost': real, best': GridState, bestCost': real)
      requires 0.0 < temperature && neighbor.Valid()
      ensures Walker(current'.View(), currentCost', best'.View(), bestCost')
           == AnnealStep(Walker(current.View(), currentCost, best.View(), bestCost), neighbor.View(), neighborCost,
                         temperature, u, exp)
      ensures current' == current || current' == neighbor
      ensures best' == best || (fresh(best') && best'.Valid())
    {
      current', currentCost', best', bestCost' := current, currentCost, best, bestCost;
      var costDiff := neighborCost - currentCost;
      if costDiff < 0.0 {
        current' := neighbor;
        currentCost' := neighborCost;
        if neighborCost < bestCost {
          best' := neighbor.Copy();
          bestCost' := neighborCost;
        }
      } else {
        var acceptanceProbability := exp(-costDiff / temperature);
        if u < acceptanceProbability {
          current' := neighbor;
          currentCost' := neighborCost;
        }
      }
    }

    /**
      Runs simulated annealing from `initial`, which is left as it is, and
      returns a fresh copy of the best state met: the one `Anneal` names, and
      never dearer than `initial`.
    */
    method Optimize(initial: GridState, picks: nat -> Pick, draws: nat -> real, exp: real -> real,
                    sqrt: nat -> real) returns (best: GridState)
      requires initial.Valid() && CostDefined(initial.View())
      requires Cools(initialTemperature, coolingRate, minTemperature)
      ensures fresh(best) && best.Valid()
      ensures best.View() == Anneal(initial.View(), initialTemperature, coolingRate, minTemperature,
                                    picks, draws, exp, GridCost(sqrt)).best
      ensures CostDefined(best.View()) && Cost(best.View(), sqrt) <= Cost(initial.View(), sqrt)
    {
      ghost var cost := GridCost(sqrt);
      var current := initial;
      var currentCost := current.TotalCost(sqrt);
      best := current.Copy();
      var bestCost := currentCost;
      var temperature := initialTemperature;
      var iteration: nat := 0;
      while temperature > minTemperature
        invariant Cools(temperature, coolingRate, minTemperature)
        invariant current.Valid() && best.Valid() && fresh(best)
        invariant CostDefined(current.View())
        invariant AnnealFrom(coolingRate, minTemperature, picks, draws, exp, cost, iteration, temperature,
                             Walker(current.View(), currentCost, best.View(), bestCost))
               == Anneal(initial.View(), initialTemperature, coolingRate, minTemperature, picks, draws, exp, cost)
        decreases Anneal(initial.View(), initialTemperature, coolingRate, minTemperature, picks, draws, exp, cost).iterations
                  - iteration
      {
        AnnealFromIterations(coolingRate, minTemperature, picks, draws, exp, cost, iteration, temperature,
                             Walker(current.View(), currentCost, best.View(), bestCost));
        var neighbor := current.GetNeighbor(picks(iteration));
        NeighborFits(current.View(), picks(iteration));
        var neighborCost := neighbor.TotalCost(sqrt);
        assert neighborCost == cost(neighbor.View());
        ghost var walker := Walker(current.View(), currentCost, best.View(), bestCost);
        ghost var next := AnnealStep(walker, neighbor.View(), neighborCost, temperature, draws(iteration), exp);
        assert AnnealFrom(coolingRate, minTemperature, picks, draws, exp, cost, iteration, temperature, walker)
            == AnnealFrom(coolingRate, minTemperature, picks, draws, exp, cost, iteration + 1, temperature * coolingRate, next);
        current, currentCost, best, bestCost :=
          Consider(current, currentCost, best, bestCost, neighbor, neighborCost, temperature, draws(iteration), exp);
        assert Walker(current.View(), currentCost, best.View(), bestCost) == next;
        temperature := temperature * coolingRate;
        iteration := iteration + 1;
      }
      AnnealNeverWorse(initial.View(), initialTemperature, coolingRate, minTemperature, picks, draws, exp, cost);
      FitsCostDefined(initial.View(), best.View());
    }
  }
}
