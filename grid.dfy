/**
  The placement problem of the hospital/ambulance optimiser: houses, ambulances
  and hospitals stand on the cells of a rectangular grid, a configuration costs
  the weighted sum of every house's and every ambulance's distance to the
  nearest hospital plus every house's distance to the nearest ambulance, and a
  neighbouring configuration moves one hospital or one ambulance by one step.

  `Config` is the value a grid state stands for; the class `GridState` is the
  mutable object the optimiser works on, and its methods are proved against
  the functions on `Config`.

  Two things the program takes from its libraries are parameters here:
  `math.sqrt` is `sqrt`, any function that obeys `SqrtLaws`, and the draws of the random source are explicit
  arguments or nondeterministic choices.
*/
module Grid {

  /** A grid cell `(x, y)`. Several entities may share a cell. */
  type Position = (int, int)

  /** The four axis-aligned unit steps, in the order the move generator tries them. */
  const Steps: seq<(int, int)> := [(0, 1), (1, 0), (0, -1), (-1, 0)]

  /** The value of a grid state: its dimensions and its three position lists. */
  datatype Config = Config(
    gridWidth: int,
    gridHeight: int,
    houses: seq<Position>,
    ambulances: seq<Position>,
    hospitals: seq<Position>)

  /**
    The random draws behind one neighbour move: which class moves (`hospital`
    or else ambulance), which entity of it (`index`, taken modulo the size of
    the class) and which of the valid steps (`step`, taken modulo their number).
  */
  datatype Pick = Pick(hospital: bool, index: nat, step: nat)

  predicate InBounds(p: Position, width: int, height: int) {
    0 <= p.0 < width && 0 <= p.1 < height
  }

  predicate AllInBounds(ps: seq<Position>, width: int, height: int) {
    forall i :: 0 <= i < |ps| ==> InBounds(ps[i], width, height)
  }

  /** A non-empty grid with every entity on it. */
  predicate WellPlaced(c: Config) {
    && 0 < c.gridWidth && 0 < c.gridHeight
    && AllInBounds(c.houses, c.gridWidth, c.gridHeight)
    && AllInBounds(c.ambulances, c.gridWidth, c.gridHeight)
    && AllInBounds(c.hospitals, c.gridWidth, c.gridHeight)
  }

  function Abs(n: int): nat {
    if n < 0 then -n else n
  }

  /** Number of unit steps between two cells. */
  function Manhattan(p: Position, q: Position): nat {
    Abs(p.0 - q.0) + Abs(p.1 - q.1)
  }

  // ---------------------------------------------------------------------------
  // Distance and cost
  // ---------------------------------------------------------------------------

  function SquaredDistance(p: Position, q: Position): (d: nat)
    ensures d == 0 <==> p == q
  {
    var dx, dy := p.0 - q.0, p.1 - q.1;
    assert dx != 0 ==> dx * dx > 0;
    assert dy != 0 ==> dy * dy > 0;
    dx * dx + dy * dy
  }

  /**
    What the model relies on of `math.sqrt` on the squared distances it is
    given: the result is never negative, and it is zero exactly at zero.
  */
  ghost predicate SqrtLaws(sqrt: nat -> real) {
    forall n: nat :: 0.0 <= sqrt(n) && (sqrt(n) == 0.0 <==> n == 0)
  }

  /** Euclidean distance between two cells. */
  function Distance(p: Position, q: Position, sqrt: nat -> real): real {
    sqrt(SquaredDistance(p, q))
  }

  lemma DistanceIsMetric(p: Position, q: Position, sqrt: nat -> real)
    requires SqrtLaws(sqrt)
    ensures 0.0 <= Distance(p, q, sqrt)
    ensures Distance(p, q, sqrt) == Distance(q, p, sqrt)
    ensures Distance(p, q, sqrt) == 0.0 <==> p == q
  {
    assert SquaredDistance(q, p) == SquaredDistance(p, q);
  }

  /** The distance from `p` to the nearest of `qs` (Python's `min` over them). */
  function NearestDistance(p: Position, qs: seq<Position>, sqrt: nat -> real): real
    requires |qs| > 0
    decreases |qs|
  {
    if |qs| == 1 then Distance(p, qs[0], sqrt)
    else
      var here, rest := Distance(p, qs[0], sqrt), NearestDistance(p, qs[1..], sqrt);
      if here <= rest then here else rest
  }

  /** `NearestDistance` is the least of the distances, and is attained. */
  lemma {:induction false} NearestDistanceIsMinimum(p: Position, qs: seq<Position>, sqrt: nat -> real)
    requires |qs| > 0
    ensures exists i :: 0 <= i < |qs| && NearestDistance(p, qs, sqrt) == Distance(p, qs[i], sqrt)
    ensures forall i :: 0 <= i < |qs| ==> NearestDistance(p, qs, sqrt) <= Distance(p, qs[i], sqrt)
    decreases |qs|
  {
    if |qs| == 1 {
      assert NearestDistance(p, qs, sqrt) == Distance(p, qs[0], sqrt);
    } else {
      var rest := qs[1..];
      NearestDistanceIsMinimum(p, rest, sqrt);
      var j :| 0 <= j < |rest| && NearestDistance(p, rest, sqrt) == Distance(p, rest[j], sqrt);
      var k := if Distance(p, qs[0], sqrt) <= NearestDistance(p, rest, sqrt) then 0 else j + 1;
      assert rest[j] == qs[j + 1];
      assert 0 <= k < |qs| && NearestDistance(p, qs, sqrt) == Distance(p, qs[k], sqrt);
      forall i | 1 <= i < |qs|
        ensures NearestDistance(p, qs, sqrt) <= Distance(p, qs[i], sqrt)
      {
        assert qs[i] == rest[i - 1];
      }
    }
  }

  /**
    The sum, over the first `n` of `from` in order, of `weight` times the
    distance to the nearest of `to`: one of the three terms of the cost.
  */
  function WeightedNearestSum(from: seq<Position>, to: seq<Position>, weight: real, sqrt: nat -> real, n: nat): real
    requires n <= |from| && (n > 0 ==> |to| > 0)
  {
    if n == 0 then 0.0
    else WeightedNearestSum(from, to, weight, sqrt, n - 1) + NearestDistance(from[n - 1], to, sqrt) * weight
  }

  /**
    The cost is defined exactly when no `min` is taken over an empty list:
    hospitals are needed as soon as there is a house or an ambulance, and
    ambulances as soon as there is a house.
  */
  predicate CostDefined(c: Config) {
    && (|c.houses| > 0 || |c.ambulances| > 0 ==> |c.hospitals| > 0)
    && (|c.houses| > 0 ==> |c.ambulances| > 0)
  }

  /**
    The cost of a configuration, with the fixed weights every grid state
    carries: 1.0 per house-to-hospital distance, 2.0 per ambulance-to-hospital
    distance and 1.5 per house-to-ambulance distance, each to the nearest one.
  */
  function Cost(c: Config, sqrt: nat -> real): real
    requires CostDefined(c)
  {
    WeightedNearestSum(c.houses, c.hospitals, 1.0, sqrt, |c.houses|)
    + WeightedNearestSum(c.ambulances, c.hospitals, 2.0, sqrt, |c.ambulances|)
    + WeightedNearestSum(c.houses, c.ambulances, 1.5, sqrt, |c.houses|)
  }

  /** Every position of `from` also occurs in `to`. */
  predicate Covered(from: seq<Position>, to: seq<Position>) {
    forall i :: 0 <= i < |from| ==> from[i] in to
  }

  lemma NearestDistanceZeroIff(p: Position, qs: seq<Position>, sqrt: nat -> real)
    requires |qs| > 0 && SqrtLaws(sqrt)
    ensures 0.0 <= NearestDistance(p, qs, sqrt)
    ensures NearestDistance(p, qs, sqrt) == 0.0 <==> p in qs
  {
    NearestDistanceIsMinimum(p, qs, sqrt);
    var d := NearestDistance(p, qs, sqrt);
    var i :| 0 <= i < |qs| && d == Distance(p, qs[i], sqrt);
    DistanceIsMetric(p, qs[i], sqrt);
    if p in qs {
      var j :| 0 <= j < |qs| && qs[j] == p;
      DistanceIsMetric(p, qs[j], sqrt);
    }
  }

  lemma {:induction false} WeightedNearestSumZeroIff(from: seq<Position>, to: seq<Position>, weight: real, sqrt: nat -> real, n: nat)
    requires n <= |from| && (n > 0 ==> |to| > 0)
    requires 0.0 < weight && SqrtLaws(sqrt)
    ensures 0.0 <= WeightedNearestSum(from, to, weight, sqrt, n)
    ensures WeightedNearestSum(from, to, weight, sqrt, n) == 0.0 <==> forall i :: 0 <= i < n ==> from[i] in to
  {
    if n > 0 {
      WeightedNearestSumZeroIff(from, to, weight, sqrt, n - 1);
      NearestDistanceZeroIff(from[n - 1], to, sqrt);
      var d := NearestDistance(from[n - 1], to, sqrt);
      var term := d * weight;
      assert 0.0 <= term && (term == 0.0 <==> d == 0.0) by {
        if d != 0.0 { assert 0.0 < d * weight; }
      }
    }
  }

  /** The cost is never negative. */
  lemma CostNonNegative(c: Config, sqrt: nat -> real)
    requires CostDefined(c) && SqrtLaws(sqrt)
    ensures 0.0 <= Cost(c, sqrt)
  {
    WeightedNearestSumZeroIff(c.houses, c.hospitals, 1.0, sqrt, |c.houses|);
    WeightedNearestSumZeroIff(c.ambulances, c.hospitals, 2.0, sqrt, |c.ambulances|);
    WeightedNearestSumZeroIff(c.houses, c.ambulances, 1.5, sqrt, |c.houses|);
  }

  /**
    The cost is zero exactly when every house shares its cell with a hospital
    and with an ambulance, and every ambulance shares its cell with a hospital.
  */
  lemma CostZeroIff(c: Config, sqrt: nat -> real)
    requires CostDefined(c) && SqrtLaws(sqrt)
    ensures Cost(c, sqrt) == 0.0 <==>
      Covered(c.houses, c.hospitals) && Covered(c.ambulances, c.hospitals) && Covered(c.houses, c.ambulances)
  {
    WeightedNearestSumZeroIff(c.houses, c.hospitals, 1.0, sqrt, |c.houses|);
    WeightedNearestSumZeroIff(c.ambulances, c.hospitals, 2.0, sqrt, |c.ambulances|);
    WeightedNearestSumZeroIff(c.houses, c.ambulances, 1.5, sqrt, |c.houses|);
  }

  /** On a single-cell grid every entity sits on (0, 0), so the cost is exactly zero. */
  lemma SingleCellCostZero(c: Config, sqrt: nat -> real)
    requires WellPlaced(c) && c.gridWidth == 1 && c.gridHeight == 1
    requires CostDefined(c) && SqrtLaws(sqrt)
    ensures Cost(c, sqrt) == 0.0
  {
    CostZeroIff(c, sqrt);
    if |c.hospitals| > 0 {
      assert forall i :: 0 <= i < |c.houses| ==> c.houses[i] == c.hospitals[0];
      assert forall i :: 0 <= i < |c.ambulances| ==> c.ambulances[i] == c.hospitals[0];
    }
    if |c.ambulances| > 0 {
      assert forall i :: 0 <= i < |c.houses| ==> c.houses[i] == c.ambulances[0];
    }
  }

  // ---------------------------------------------------------------------------
  // Neighbour moves
  // ---------------------------------------------------------------------------

  function StepFrom(pos: Position, step: (int, int)): Position {
    (pos.0 + step.0, pos.1 + step.1)
  }

  /** The cells one of `steps` leads to from `pos` that stay on the grid, in the order of `steps`. */
  function MovesWithin(pos: Position, steps: seq<(int, int)>, width: int, height: int): seq<Position> {
    if steps == [] then []
    else
      var q := StepFrom(pos, steps[|steps| - 1]);
      MovesWithin(pos, steps[..|steps| - 1], width, height) + (if InBounds(q, width, height) then [q] else [])
  }

  /** The valid moves of the entity at `pos`. */
  function ValidMoves(pos: Position, width: int, height: int): seq<Position> {
    MovesWithin(pos, Steps, width, height)
  }

  lemma {:induction false} MovesWithinMembers(pos: Position, steps: seq<(int, int)>, width: int, height: int)
    ensures forall q :: q in MovesWithin(pos, steps, width, height) <==>
      InBounds(q, width, height) && exists i :: 0 <= i < |steps| && q == StepFrom(pos, steps[i])
  {
    if steps != [] {
      var init := steps[..|steps| - 1];
      MovesWithinMembers(pos, init, width, height);
      assert forall i :: 0 <= i < |init| ==> init[i] == steps[i];
      forall q | InBounds(q, width, height) && exists i :: 0 <= i < |steps| && q == StepFrom(pos, steps[i])
        ensures q in MovesWithin(pos, steps, width, height)
      {
        var i :| 0 <= i < |steps| && q == StepFrom(pos, steps[i]);
        if i < |init| {
          assert q == StepFrom(pos, init[i]);
        }
      }
    }
  }

  /** The valid moves are exactly the on-grid cells at Manhattan distance one. */
  lemma ValidMovesExactly(pos: Position, width: int, height: int)
    ensures forall q :: q in ValidMoves(pos, width, height) <==>
      InBounds(q, width, height) && Manhattan(pos, q) == 1
  {
    MovesWithinMembers(pos, Steps, width, height);
    forall q | Manhattan(pos, q) == 1
      ensures exists i :: 0 <= i < |Steps| && q == StepFrom(pos, Steps[i])
    {
      if q.1 == pos.1 + 1 {
        assert q == StepFrom(pos, Steps[0]);
      } else if q.0 == pos.0 + 1 {
        assert q == StepFrom(pos, Steps[1]);
      } else if q.1 == pos.1 - 1 {
        assert q == StepFrom(pos, Steps[2]);
      } else {
        assert q == StepFrom(pos, Steps[3]);
      }
    }
  }

  /** An entity on the grid is stuck exactly when the grid is a single cell. */
  lemma NoMoveOnlyOnSingleCell(pos: Position, width: int, height: int)
    requires InBounds(pos, width, height)
    ensures ValidMoves(pos, width, height) == [] <==> width == 1 && height == 1
  {
    ValidMovesExactly(pos, width, height);
    if width > 1 {
      var q := if pos.0 + 1 < width then (pos.0 + 1, pos.1) else (pos.0 - 1, pos.1);
      assert q in ValidMoves(pos, width, height);
    } else if height > 1 {
      var q := if pos.1 + 1 < height then (pos.0, pos.1 + 1) else (pos.0, pos.1 - 1);
      assert q in ValidMoves(pos, width, height);
    } else if ValidMoves(pos, width, height) != [] {
      assert ValidMoves(pos, width, height)[0] in ValidMoves(pos, width, height);
    }
  }

  /**
    Where the entity at `pos` goes: the `step`-th valid move (modulo their
    number), or `pos` itself when no step stays on the grid.
  */
  function NeighborPosition(pos: Position, width: int, height: int, step: nat): (r: Position)
    ensures ValidMoves(pos, width, height) != [] ==> InBounds(r, width, height) && Manhattan(pos, r) == 1
    ensures ValidMoves(pos, width, height) == [] ==> r == pos
    ensures InBounds(pos, width, height) ==> InBounds(r, width, height)
  {
    var moves := ValidMoves(pos, width, height);
    ValidMovesExactly(pos, width, height);
    if |moves| > 0 then moves[step % |moves|] else pos
  }

  /**
    `after` is `before` with at most one entity moved, and that one by at
    most one step.
  */
  predicate OneStepApart(before: seq<Position>, after: seq<Position>) {
    && |before| == |after|
    && (forall i :: 0 <= i < |before| ==> Manhattan(before[i], after[i]) <= 1)
    && (forall i, j :: 0 <= i < j < |before| && before[i] != after[i] ==> before[j] == after[j])
  }

  /** The neighbour of `c` that the draws `pick` select. */
  function Neighbor(c: Config, pick: Pick): (r: Config)
    ensures r.gridWidth == c.gridWidth && r.gridHeight == c.gridHeight
    ensures r.houses == c.houses
    ensures pick.hospital ==> r.ambulances == c.ambulances
    ensures !pick.hospital ==> r.hospitals == c.hospitals
    ensures OneStepApart(c.hospitals, r.hospitals) && OneStepApart(c.ambulances, r.ambulances)
    ensures (if pick.hospital then c.hospitals else c.ambulances) == [] ==> r == c
    ensures WellPlaced(c) ==> WellPlaced(r)
  {
    if pick.hospital && |c.hospitals| > 0 then
      var idx := pick.index % |c.hospitals|;
      var moved := NeighborPosition(c.hospitals[idx], c.gridWidth, c.gridHeight, pick.step);
      c.(hospitals := c.hospitals[idx := moved])
    else if !pick.hospital && |c.ambulances| > 0 then
      var idx := pick.index % |c.ambulances|;
      var moved := NeighborPosition(c.ambulances[idx], c.gridWidth, c.gridHeight, pick.step);
      c.(ambulances := c.ambulances[idx := moved])
    else
      c
  }

  /**
    On a grid larger than one cell, the entity that the draws choose moves
    exactly one step, and every other entity of its class stays put.
  */
  lemma NeighborMovesChosenEntity(c: Config, pick: Pick)
    requires WellPlaced(c) && (c.gridWidth > 1 || c.gridHeight > 1)
    ensures pick.hospital && |c.hospitals| > 0 ==>
      var i := pick.index % |c.hospitals|;
      && Manhattan(c.hospitals[i], Neighbor(c, pick).hospitals[i]) == 1
      && (forall j :: 0 <= j < |c.hospitals| && j != i ==> Neighbor(c, pick).hospitals[j] == c.hospitals[j])
    ensures !pick.hospital && |c.ambulances| > 0 ==>
      var i := pick.index % |c.ambulances|;
      && Manhattan(c.ambulances[i], Neighbor(c, pick).ambulances[i]) == 1
      && (forall j :: 0 <= j < |c.ambulances| && j != i ==> Neighbor(c, pick).ambulances[j] == c.ambulances[j])
  {
    if pick.hospital && |c.hospitals| > 0 {
      NoMoveOnlyOnSingleCell(c.hospitals[pick.index % |c.hospitals|], c.gridWidth, c.gridHeight);
    } else if !pick.hospital && |c.ambulances| > 0 {
      NoMoveOnlyOnSingleCell(c.ambulances[pick.index % |c.ambulances|], c.gridWidth, c.gridHeight);
    }
  }

  /** On a single-cell grid no entity can move, so every neighbour is the configuration itself. */
  lemma SingleCellNeighborUnchanged(c: Config, pick: Pick)
    requires WellPlaced(c) && c.gridWidth == 1 && c.gridHeight == 1
    ensures Neighbor(c, pick) == c
  {
    var ps := if pick.hospital then c.hospitals else c.ambulances;
    if |ps| > 0 {
      var idx := pick.index % |ps|;
      NoMoveOnlyOnSingleCell(ps[idx], 1, 1);
      assert ps[idx := ps[idx]] == ps;
    }
  }

  // ---------------------------------------------------------------------------
  // The grid state object
  // ---------------------------------------------------------------------------

  class GridState {
    const gridWidth: int
    const gridHeight: int
    const numHouses: nat
    const numAmbulances: nat
    const numHospitals: nat
    var houses: seq<Position>
    var ambulances: seq<Position>
    var hospitals: seq<Position>

    /** The configuration this object currently holds. */
    function View(): Config
      reads this
    {
      Config(gridWidth, gridHeight, houses, ambulances, hospitals)
    }

    /** Every list has its declared length and every entity is on the grid. */
    ghost predicate Valid()
      reads this
    {
      && WellPlaced(View())
      && |houses| == numHouses && |ambulances| == numAmbulances && |hospitals| == numHospitals
    }

    /** A state with every entity placed uniformly at random on the grid. */
    constructor (gridWidth: int := 15, gridHeight: int := 15,
                 numHouses: nat := 20, numAmbulances: nat := 4, numHospitals: nat := 3)
      requires 0 < gridWidth && 0 < gridHeight
      ensures Valid()
      ensures this.gridWidth == gridWidth && this.gridHeight == gridHeight
      ensures this.numHouses == numHouses && this.numAmbulances == numAmbulances
      ensures this.numHospitals == numHospitals
    {
      this.gridWidth := gridWidth;
      this.gridHeight := gridHeight;
      this.numHouses := numHouses;
      this.numAmbulances := numAmbulances;
      this.numHospitals := numHospitals;
      new;
      houses := GenerateRandomPositions(numHouses);
      ambulances := GenerateRandomPositions(numAmbulances);
      hospitals := GenerateRandomPositions(numHospitals);
    }

    /** `count` cells, each drawn with both coordinates inclusive of `0` and of the last row/column. */
    method GenerateRandomPositions(count: nat) returns (positions: seq<Position>)
      requires count > 0 ==> 0 < gridWidth && 0 < gridHeight
      ensures |positions| == count
      ensures AllInBounds(positions, gridWidth, gridHeight)
    {
      positions := [];
      for made := 0 to count
        invariant |positions| == made
        invariant AllInBounds(positions, gridWidth, gridHeight)
      {
        var x :| 0 <= x <= gridWidth - 1;
        var y :| 0 <= y <= gridHeight - 1;
        positions := positions + [(x, y)];
      }
    }

    /** The cost of the current configuration, accumulated term by term. */
    method TotalCost(sqrt: nat -> real) returns (total: real)
      requires CostDefined(View())
      ensures total == Cost(View(), sqrt)
    {
      total := 0.0;
      for i := 0 to |houses|
        invariant total == WeightedNearestSum(houses, hospitals, 1.0, sqrt, i)
      {
        var minDist := NearestDistance(houses[i], hospitals, sqrt);
        total := total + minDist * 1.0;
      }
      for i := 0 to |ambulances|
        invariant total == WeightedNearestSum(houses, hospitals, 1.0, sqrt, |houses|)
          + WeightedNearestSum(ambulances, hospitals, 2.0, sqrt, i)
      {
        var minDist := NearestDistance(ambulances[i], hospitals, sqrt);
        total := total + minDist * 2.0;
      }
      for i := 0 to |houses|
        invariant total == WeightedNearestSum(houses, hospitals, 1.0, sqrt, |houses|)
          + WeightedNearestSum(ambulances, hospitals, 2.0, sqrt, |ambulances|)
          + WeightedNearestSum(houses, ambulances, 1.5, sqrt, i)
      {
        var minAmbulanceDist := NearestDistance(houses[i], ambulances, sqrt);
        total := total + minAmbulanceDist * 1.5;
      }
    }

    /** Collects the on-grid unit steps from `pos` and picks one of them, or stays put. */
    method GetValidNeighborPosition(pos: Position, step: nat) returns (r: Position)
      ensures r == NeighborPosition(pos, gridWidth, gridHeight, step)
      ensures InBounds(pos, gridWidth, gridHeight) ==> InBounds(r, gridWidth, gridHeight)
    {
      var validMoves: seq<Position> := [];
      for i := 0 to |Steps|
        invariant validMoves == MovesWithin(pos, Steps[..i], gridWidth, gridHeight)
      {
        var newPos := (pos.0 + Steps[i].0, pos.1 + Steps[i].1);
        assert Steps[..i + 1][..i] == Steps[..i] && Steps[..i + 1][i] == Steps[i];
        assert MovesWithin(pos, Steps[..i + 1], gridWidth, gridHeight)
            == validMoves + (if InBounds(newPos, gridWidth, gridHeight) then [newPos] else []);
        if InBounds(newPos, gridWidth, gridHeight) {
          validMoves := validMoves + [newPos];
        }
      }
      assert Steps[..|Steps|] == Steps;
      r := if |validMoves| > 0 then validMoves[step % |validMoves|] else pos;
    }

    /** An independent state with the same dimensions, counts and positions. */
    method Copy() returns (copy: GridState)
      requires Valid()
      ensures fresh(copy) && copy.Valid()
      ensures copy.View() == View()
      ensures copy.numHouses == numHouses && copy.numAmbulances == numAmbulances
      ensures copy.numHospitals == numHospitals
    {
      copy := new GridState(gridWidth, gridHeight, numHouses, numAmbulances, numHospitals);
      copy.houses := houses;
      copy.ambulances := ambulances;
      copy.hospitals := hospitals;
    }

    /** A fresh state in which one hospital or one ambulance has moved; this state is left as it is. */
    method GetNeighbor(pick: Pick) returns (neighbor: GridState)
      requires Valid()
      ensures fresh(neighbor) && neighbor.Valid()
      ensures neighbor.View() == Neighbor(View(), pick)
      ensures neighbor.numHouses == numHouses && neighbor.numAmbulances == numAmbulances
      ensures neighbor.numHospitals == numHospitals
    {
      neighbor := Copy();
      if pick.hospital && |hospitals| > 0 {
        var idx := pick.index % |hospitals|;
        var oldPos := neighbor.hospitals[idx];
        var newPos := GetValidNeighborPosition(oldPos, pick.step);
        neighbor.hospitals := neighbor.hospitals[idx := newPos];
      } else if !pick.hospital && |ambulances| > 0 {
        var idx := pick.index % |ambulances|;
        var oldPos := neighbor.ambulances[idx];
        var newPos := GetValidNeighborPosition(oldPos, pick.step);
        neighbor.ambulances := neighbor.ambulances[idx := newPos];
      }
    }
  }
}
