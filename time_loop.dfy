// The time loop of class Vnr: the CFL time step with its growth cap, the
// initial time step, the time advance, and the do-while loop that counts
// iterations, tests for continuation and swaps the n and n+1 slots.
// Square roots are the parameter `sqrt`; the physics of one iteration
// (Lagrange phase and remap) is the parameter `advance`.
module TimeLoop {
  import opened Common

  /** numeric_limits<double>::max(), the start value of the min-reductions. */
  const MaxDouble: real := 1.7976931348623157e308

  /** Growth cap of the time step from one iteration to the next. */
  const GrowthCap: real := 1.05

  /** The CFL number and the weight of the node speeds: 0.05 and 1 with
      projection, 0.1 and 0 without. */
  function CflOf(avecProjection: int): (r: (real, real))
    ensures avecProjection == 1 ==> r == (0.05, 1.0)
    ensures avecProjection != 1 ==> r == (0.1, 0.0)
  {
    if avecProjection == 1 then (0.05, 1.0) else (0.1, 0.0)
  }

  /** A min-reduction (KokkosJoiner with minR0) that starts from `start`. */
  function MinFrom(start: real, s: seq<real>): (r: real)
    ensures r <= start && forall i :: 0 <= i < |s| ==> r <= s[i]
    ensures r == start || exists i :: 0 <= i < |s| && r == s[i]
  {
    if s == [] then start
    else
      var front := MinFrom(start, s[..|s| - 1]);
      assert forall i :: 0 <= i < |s| - 1 ==> s[..|s| - 1][i] == s[i];
      Min(front, s[|s| - 1])
  }

  /** One more element in a min-reduction. */
  lemma MinFromStep(start: real, s: seq<real>, c: nat)
    requires c < |s|
    ensures MinFrom(start, s[..c + 1]) == Min(MinFrom(start, s[..c]), s[c])
  {
    assert s[..c + 1][..c] == s[..c];
  }

  /** A quarter of the speed of a node. */
  function SpeedTerm(sqrt: real -> real, v: Vec2): real
  {
    sqrt(v.x * v.x + v.y * v.y) * 0.25
  }

  /** A quarter of the speed of every node of a cell (the terms of uc). */
  function NodeSpeedTerms(sqrt: real -> real, nodes: seq<nat>, velocity: seq<Vec2>): (r: seq<real>)
    requires forall k :: 0 <= k < |nodes| ==> nodes[k] < |velocity|
    ensures |r| == |nodes| && forall k :: 0 <= k < |nodes| ==> r[k] == SpeedTerm(sqrt, velocity[nodes[k]])
  {
    seq(|nodes|, k requires 0 <= k < |nodes| => SpeedTerm(sqrt, velocity[nodes[k]]))
  }

  /** The mesh inputs of the reduction: per cell, its nodes and the sub-volume
      it has at each of them. */
  predicate CellNodes(nodeCellVolume: seq<seq<real>>, nodesOfCell: seq<seq<nat>>, nbNodes: nat)
  {
    && |nodeCellVolume| == |nodesOfCell|
    && forall c :: 0 <= c < |nodesOfCell| ==>
         |nodeCellVolume[c]| == |nodesOfCell[c]| && forall k :: 0 <= k < |nodesOfCell[c]| ==> nodesOfCell[c][k] < nbNodes
  }

  /** A square root that is never negative, as std::sqrt. */
  ghost predicate NonNegativeRoot(sqrt: real -> real)
  {
    forall x :: sqrt(x) >= 0.0
  }

  /** The divisor of the bound of a cell in computeDeltaT: w * uc + c_s. */
  function CflDivisor(avecProjection: int, sqrt: real -> real, nodes: seq<nat>, velocity: seq<Vec2>,
                      soundSpeed: real): real
    requires forall k :: 0 <= k < |nodes| ==> nodes[k] < |velocity|
  {
    CflOf(avecProjection).1 * Sum(NodeSpeedTerms(sqrt, nodes, velocity)) + soundSpeed
  }

  /** With a non-negative square root and a positive sound speed the divisor
      is positive, whatever the projection flag and the node speeds. */
  lemma PositiveSoundSpeedGivesPositiveDivisor(avecProjection: int, sqrt: real -> real, nodes: seq<nat>,
                                               velocity: seq<Vec2>, soundSpeed: real)
    requires forall k :: 0 <= k < |nodes| ==> nodes[k] < |velocity|
    requires NonNegativeRoot(sqrt) && soundSpeed > 0.0
    ensures CflDivisor(avecProjection, sqrt, nodes, velocity, soundSpeed) > 0.0
  {
    SumNonNegative(NodeSpeedTerms(sqrt, nodes, velocity));
  }

  /** The bound of cell c in computeDeltaT: cfl * sqrt(V) / (w * uc + c_s).
      A zero divisor makes the floating-point quotient infinite, which never
      lowers the min-reduction; the model gives MaxDouble, its start value. */
  function CellBound(avecProjection: int, sqrt: real -> real, subVolumes: seq<real>, nodes: seq<nat>,
                     velocity: seq<Vec2>, soundSpeed: real): (r: real)
    requires forall k :: 0 <= k < |nodes| ==> nodes[k] < |velocity|
    ensures CflDivisor(avecProjection, sqrt, nodes, velocity, soundSpeed) == 0.0 ==> r == MaxDouble
    ensures CflDivisor(avecProjection, sqrt, nodes, velocity, soundSpeed) != 0.0 ==>
      r * CflDivisor(avecProjection, sqrt, nodes, velocity, soundSpeed) == CflOf(avecProjection).0 * sqrt(Sum(subVolumes))
  {
    var divisor := CflDivisor(avecProjection, sqrt, nodes, velocity, soundSpeed);
    if divisor == 0.0 then MaxDouble else CflOf(avecProjection).0 * sqrt(Sum(subVolumes)) / divisor
  }

  /** A cell whose sound speed is zero still has a finite bound under
      projection when one of its nodes moves: the divisor is then uc. */
  lemma ZeroSoundSpeedBoundUnderProjection(sqrt: real -> real, subVolumes: seq<real>, nodes: seq<nat>,
                                           velocity: seq<Vec2>)
    requires forall k :: 0 <= k < |nodes| ==> nodes[k] < |velocity|
    requires Sum(NodeSpeedTerms(sqrt, nodes, velocity)) > 0.0
    ensures CellBound(1, sqrt, subVolumes, nodes, velocity, 0.0) * Sum(NodeSpeedTerms(sqrt, nodes, velocity))
              == 0.05 * sqrt(Sum(subVolumes))
  {
    assert CflDivisor(1, sqrt, nodes, velocity, 0.0) == Sum(NodeSpeedTerms(sqrt, nodes, velocity));
  }

  /** A cell whose bound is MaxDouble leaves the min-reduction unchanged. */
  lemma {:induction false} UnboundedCellDoesNotBind(bounds: seq<real>)
    ensures MinFrom(MaxDouble, bounds + [MaxDouble]) == MinFrom(MaxDouble, bounds)
  {
    assert (bounds + [MaxDouble])[..|bounds|] == bounds;
  }

  /** The bounds of all cells. */
  function CellBounds(avecProjection: int, sqrt: real -> real, nodeCellVolume: seq<seq<real>>,
                      nodesOfCell: seq<seq<nat>>, velocity: seq<Vec2>, speed: seq<real>): (r: seq<real>)
    requires CellNodes(nodeCellVolume, nodesOfCell, |velocity|) && |speed| == |nodesOfCell|
    ensures |r| == |speed|
    ensures forall c :: 0 <= c < |speed| ==>
      r[c] == CellBound(avecProjection, sqrt, nodeCellVolume[c], nodesOfCell[c], velocity, speed[c])
  {
    seq(|speed|, c requires 0 <= c < |speed| =>
      CellBound(avecProjection, sqrt, nodeCellVolume[c], nodesOfCell[c], velocity, speed[c]))
  }

  /** The new time step: the smallest cell bound, capped at 1.05 times the
      previous step. */
  function NextDeltaT(reduction: real, deltatN: real): (r: real)
    ensures r <= reduction && r <= GrowthCap * deltatN
    ensures r == reduction || r == GrowthCap * deltatN
  {
    Min(reduction, GrowthCap * deltatN)
  }

  /** The new step never exceeds 1.05 times the previous one nor any cell
      bound, and it is one of them (or the start of the reduction). */
  lemma {:induction false} NextDeltaTIsCapped(bounds: seq<real>, deltatN: real)
    ensures NextDeltaT(MinFrom(MaxDouble, bounds), deltatN) <= GrowthCap * deltatN
    ensures forall c :: 0 <= c < |bounds| ==> NextDeltaT(MinFrom(MaxDouble, bounds), deltatN) <= bounds[c]
    ensures var r := NextDeltaT(MinFrom(MaxDouble, bounds), deltatN);
      r == GrowthCap * deltatN || r == MaxDouble || exists c :: 0 <= c < |bounds| && r == bounds[c]
  {
  }

  /** The node loop of one cell: the sum of its sub-volumes (reduction1)
      and of the quarter node speeds (uc). */
  method CellSums(sqrt: real -> real, subVolumes: seq<real>, nodes: seq<nat>, velocity: seq<Vec2>)
    returns (reduction1: real, uc: real)
    requires |subVolumes| == |nodes| && forall k :: 0 <= k < |nodes| ==> nodes[k] < |velocity|
    ensures reduction1 == Sum(subVolumes) && uc == Sum(NodeSpeedTerms(sqrt, nodes, velocity))
  {
    ghost var terms := NodeSpeedTerms(sqrt, nodes, velocity);
    reduction1, uc := 0.0, 0.0;
    var p := 0;
    while p < |nodes|
      invariant 0 <= p <= |nodes|
      invariant reduction1 == Sum(subVolumes[..p]) && uc == Sum(terms[..p])
    {
      SumStep(subVolumes, p);
      SumStep(terms, p);
      var v := velocity[nodes[p]];
      reduction1 := reduction1 + subVolumes[p];
      uc := uc + SpeedTerm(sqrt, v);
      p := p + 1;
    }
    assert subVolumes[..|nodes|] == subVolumes && terms[..|nodes|] == terms;
  }

  /** computeDeltaT: the min-reduction of the cell bounds, then the cap. */
  method ComputeDeltaT(avecProjection: int, sqrt: real -> real, nodeCellVolume: seq<seq<real>>,
                       nodesOfCell: seq<seq<nat>>, velocity: seq<Vec2>, speed: seq<real>, deltatN: real)
    returns (deltatNplus1: real)
    requires CellNodes(nodeCellVolume, nodesOfCell, |velocity|) && |speed| == |nodesOfCell|
    ensures deltatNplus1 ==
      NextDeltaT(MinFrom(MaxDouble, CellBounds(avecProjection, sqrt, nodeCellVolume, nodesOfCell, velocity, speed)), deltatN)
  {
    ghost var bounds := CellBounds(avecProjection, sqrt, nodeCellVolume, nodesOfCell, velocity, speed);
    var accu := MaxDouble;
    var c := 0;
    while c < |speed|
      invariant 0 <= c <= |speed|
      invariant accu == MinFrom(MaxDouble, bounds[..c])
    {
      MinFromStep(MaxDouble, bounds, c);
      var bound := CellBoundTurn(avecProjection, sqrt, nodeCellVolume[c], nodesOfCell[c], velocity, speed[c]);
      accu := Min(accu, bound);
      c := c + 1;
    }
    assert bounds[..|speed|] == bounds;
    deltatNplus1 := Min(accu, GrowthCap * deltatN);
  }

  /** One turn of the cell loop of computeDeltaT: the bound of one cell. */
  method CellBoundTurn(avecProjection: int, sqrt: real -> real, subVolumes: seq<real>, nodes: seq<nat>,
                       velocity: seq<Vec2>, soundSpeed: real) returns (bound: real)
    requires |subVolumes| == |nodes| && forall k :: 0 <= k < |nodes| ==> nodes[k] < |velocity|
    ensures bound == CellBound(avecProjection, sqrt, subVolumes, nodes, velocity, soundSpeed)
  {
    var aveccfleuler := 0.0;
    var cfl := 0.1;
    if avecProjection == 1 {
      aveccfleuler := 1.0;
      cfl := 0.05;
    }
    var reduction1, uc := CellSums(sqrt, subVolumes, nodes, velocity);
    var divisor := aveccfleuler * uc + soundSpeed;
    if divisor == 0.0 {
      bound := MaxDouble;
    } else {
      bound := cfl * sqrt(reduction1) / divisor;
    }
  }

  /** The bound of cell c in computeDeltaTinit: 0.1 * sqrt(V) / c_s, or
      MaxDouble for a zero sound speed, as in CellBound. */
  function InitBound(sqrt: real -> real, subVolumes: seq<real>, soundSpeed: real): (r: real)
    ensures soundSpeed == 0.0 ==> r == MaxDouble
    ensures soundSpeed != 0.0 ==> r * soundSpeed == 0.1 * sqrt(Sum(subVolumes))
  {
    if soundSpeed == 0.0 then MaxDouble else 0.1 * sqrt(Sum(subVolumes)) / soundSpeed
  }

  function InitBounds(sqrt: real -> real, nodeCellVolume: seq<seq<real>>, speed: seq<real>): (r: seq<real>)
    requires |nodeCellVolume| == |speed|
    ensures |r| == |speed|
    ensures forall c :: 0 <= c < |speed| ==> r[c] == InitBound(sqrt, nodeCellVolume[c], speed[c])
  {
    seq(|speed|, c requires 0 <= c < |speed| => InitBound(sqrt, nodeCellVolume[c], speed[c]))
  }

  /** computeDeltaTinit: a millionth of the smallest initial cell bound. */
  method ComputeDeltaTinit(sqrt: real -> real, nodeCellVolume: seq<seq<real>>, speed: seq<real>)
    returns (deltatInit: real)
    requires |nodeCellVolume| == |speed|
    ensures deltatInit == 0.000001 * MinFrom(MaxDouble, InitBounds(sqrt, nodeCellVolume, speed))
  {
    ghost var bounds := InitBounds(sqrt, nodeCellVolume, speed);
    var accu := MaxDouble;
    var c := 0;
    while c < |speed|
      invariant 0 <= c <= |speed|
      invariant accu == MinFrom(MaxDouble, bounds[..c])
    {
      MinFromStep(MaxDouble, bounds, c);
      var bound := InitBoundTurn(sqrt, nodeCellVolume[c], speed[c]);
      accu := Min(accu, bound);
      c := c + 1;
    }
    assert bounds[..|speed|] == bounds;
    deltatInit := accu * 0.000001;
  }

  /** One turn of the cell loop of computeDeltaTinit. */
  method InitBoundTurn(sqrt: real -> real, subVolumes: seq<real>, soundSpeed: real) returns (bound: real)
    ensures bound == InitBound(sqrt, subVolumes, soundSpeed)
  {
    var reduction1 := 0.0;
    var p := 0;
    while p < |subVolumes|
      invariant 0 <= p <= |subVolumes| && reduction1 == Sum(subVolumes[..p])
    {
      SumStep(subVolumes, p);
      reduction1 := reduction1 + subVolumes[p];
      p := p + 1;
    }
    assert subVolumes[..p] == subVolumes;
    if soundSpeed == 0.0 {
      bound := MaxDouble;
    } else {
      bound := 0.1 * sqrt(reduction1) / soundSpeed;
    }
  }

  /** The initial step lies below a millionth of every initial cell bound. */
  lemma {:induction false} DeltaTinitIsSmall(sqrt: real -> real, nodeCellVolume: seq<seq<real>>, speed: seq<real>, c: nat)
    requires |nodeCellVolume| == |speed|
    requires c < |speed|
    ensures 0.000001 * MinFrom(MaxDouble, InitBounds(sqrt, nodeCellVolume, speed))
              <= 0.000001 * InitBound(sqrt, nodeCellVolume[c], speed[c])
  {
    var bounds := InitBounds(sqrt, nodeCellVolume, speed);
    assert MinFrom(MaxDouble, bounds) <= bounds[c];
  }

  // ---------------------------------------------------------------------
  // The time loop

  /** The cell and node arrays that have an n and an n+1 slot. */
  datatype CellArrays = CellArrays(
    density: seq<real>, densityEnv: seq<seq<real>>, pressure: seq<real>, pressureEnv: seq<seq<real>>,
    pseudoViscosity: seq<real>, pseudoViscosityEnv: seq<seq<real>>, tauDensity: seq<real>,
    tauDensityEnv: seq<seq<real>>, tauVolume: seq<real>, tauVolumeEnv: seq<seq<real>>, divu: seq<real>,
    speed: seq<real>, speedEnv: seq<seq<real>>, internalEnergy: seq<real>, internalEnergyEnv: seq<seq<real>>,
    nodeVelocity: seq<Vec2>)

  /** The geometry arrays, which swap only without projection. */
  datatype Geometry = Geometry(cellCoord: seq<Vec2>, nodeCellVolume: seq<seq<real>>, nodeCoord: seq<Vec2>,
                               lagrangeVolume: seq<real>)

  /** What one iteration of the physics writes into the n+1 slots. */
  datatype Advanced = Advanced(state: CellArrays, geometry: Geometry, xThenY: bool)

  /** The n slot at the start of an iteration's time step. With the Lagrange
      phase, the CSTS scheme and projection, updateVelocitybackward first
      moves the node velocity of the n slot back half a step, in place;
      `backward` is that new velocity, computed from the n slot, the
      geometry and deltat_n. Every other array, and every other case, keeps
      the n slot as it was. */
  function StartOfStep(s: CellArrays, g: Geometry, deltatN: real, movesBack: bool,
                       backward: (CellArrays, Geometry, real) -> seq<Vec2>): (r: CellArrays)
    ensures movesBack ==> r.nodeVelocity == backward(s, g, deltatN)
    ensures !movesBack ==> r == s
    ensures r.(nodeVelocity := s.nodeVelocity) == s
  {
    if movesBack then s.(nodeVelocity := backward(s, g, deltatN)) else s
  }

  /** deltatInit grown k times by the cap: 1.05^k * deltatInit. */
  function Grown(k: nat, deltatInit: real): real
  {
    if k == 0 then deltatInit else GrowthCap * Grown(k - 1, deltatInit)
  }

  /** The global time variables (gt), the iteration counter and the two
      slots of the state. */
  class Vnr {
    const finalTime: real
    const maxTimeIterations: int
    const avecProjection: int
    const sansLagrange: int
    const cstsScheme: bool
    var n: int
    var tN: real
    var tNplus1: real
    var deltatN: real
    var deltatNplus1: real
    const deltatInit: real
    var xThenYN: bool
    var xThenYNplus1: bool
    var stateN: CellArrays
    var stateNplus1: CellArrays
    var geometryN: Geometry
    var geometryNplus1: Geometry

    constructor (finalTime: real, maxTimeIterations: int, avecProjection: int, sansLagrange: int,
                 cstsScheme: bool, tN: real, deltatInit: real, xThenY: bool, state: CellArrays, geometry: Geometry)
      ensures this.finalTime == finalTime && this.maxTimeIterations == maxTimeIterations
      ensures this.avecProjection == avecProjection && this.sansLagrange == sansLagrange
      ensures this.cstsScheme == cstsScheme
      ensures this.tN == tN && this.deltatInit == deltatInit && xThenYN == xThenY
      ensures stateN == state && geometryN == geometry && n == 0
    {
      this.finalTime := finalTime;
      this.maxTimeIterations := maxTimeIterations;
      this.avecProjection := avecProjection;
      this.sansLagrange := sansLagrange;
      this.cstsScheme := cstsScheme;
      this.tN := tN;
      tNplus1 := tN;
      deltatN := deltatInit;
      deltatNplus1 := deltatInit;
      this.deltatInit := deltatInit;
      xThenYN := xThenY;
      xThenYNplus1 := xThenY;
      stateN := state;
      stateNplus1 := state;
      geometryN := geometry;
      geometryNplus1 := geometry;
      n := 0;
    }

    /** setUpTimeLoopN: the n slots take the initial arrays, and the time
        step its initial value. */
    method SetUpTimeLoopN(state: CellArrays, geometry: Geometry)
      modifies this`stateN, this`geometryN, this`deltatN
      ensures stateN == state && geometryN == geometry && deltatN == deltatInit
    {
      stateN := state;
      geometryN := geometry;
      deltatN := deltatInit;
    }

    /** The time-step part of an iteration: computeDeltaT, whose cell
        reduction is `reduction`, with the Lagrange phase; the previous
        step without it. */
    method ChooseDeltaT(reduction: real)
      modifies this`deltatNplus1
      ensures sansLagrange == 0 ==> deltatNplus1 == NextDeltaT(reduction, deltatN)
      ensures sansLagrange != 0 ==> deltatNplus1 == deltatN
    {
      if sansLagrange == 0 {
        deltatNplus1 := Min(reduction, GrowthCap * deltatN);
      } else {
        deltatNplus1 := deltatN;
      }
    }

    /** computeTime. */
    method ComputeTime()
      modifies this`tNplus1
      ensures tNplus1 == tN + deltatNplus1
    {
      tNplus1 := tN + deltatNplus1;
    }

    /** Whether an iteration calls updateVelocitybackward: with the Lagrange
        phase, under the CSTS scheme and with projection. */
    predicate MovesVelocityBack()
    {
      sansLagrange == 0 && cstsScheme && avecProjection == 1
    }

    /** The swap at the end of a continuing iteration: every n slot takes
        the n+1 value and the reverse; geometry only without projection. */
    method SwapSlots()
      modifies this`xThenYN, this`xThenYNplus1, this`tN, this`tNplus1, this`deltatN, this`deltatNplus1
      modifies this`stateN, this`stateNplus1, this`geometryN, this`geometryNplus1
      ensures xThenYN == old(xThenYNplus1) && xThenYNplus1 == old(xThenYN)
      ensures tN == old(tNplus1) && tNplus1 == old(tN)
      ensures deltatN == old(deltatNplus1) && deltatNplus1 == old(deltatN)
      ensures stateN == old(stateNplus1) && stateNplus1 == old(stateN)
      ensures avecProjection == 0 ==> geometryN == old(geometryNplus1) && geometryNplus1 == old(geometryN)
      ensures avecProjection != 0 ==> geometryN == old(geometryN) && geometryNplus1 == old(geometryNplus1)
    {
      xThenYN, xThenYNplus1 := xThenYNplus1, xThenYN;
      tN, tNplus1 := tNplus1, tN;
      deltatN, deltatNplus1 := deltatNplus1, deltatN;
      stateN, stateNplus1 := stateNplus1, stateN;
      if avecProjection == 0 {
        geometryN, geometryNplus1 := geometryNplus1, geometryN;
      }
    }

    /** executeTimeLoopN. `backward` is the node velocity that
        updateVelocitybackward writes into the n slot, `reduction` the cell
        reduction of computeDeltaT on the n slots, `advance` the rest of the
        iteration, which fills the n+1 slots from the n slots and the new
        time step. The loop runs
        at least once, counts its iterations in n, and goes on while n+1 is
        below the iteration limit and the new time below the final time. */
    method ExecuteTimeLoopN(backward: (CellArrays, Geometry, real) -> seq<Vec2>,
                            reduction: (CellArrays, Geometry) -> real,
                            advance: (CellArrays, Geometry, bool, real) -> Advanced)
      requires deltatN == deltatInit
      modifies this
      ensures n >= 1 && !(n + 1 < maxTimeIterations && tNplus1 < finalTime)
      ensures n == 1 || n + 1 == maxTimeIterations || tNplus1 >= finalTime
      ensures tNplus1 == tN + deltatNplus1
      ensures sansLagrange != 0 ==> deltatN == deltatInit && deltatNplus1 == deltatInit
      ensures sansLagrange == 0 ==> deltatN <= Grown(n - 1, deltatInit)
      ensures sansLagrange == 0 ==> deltatNplus1 <= GrowthCap * deltatN
      ensures sansLagrange == 0 ==> deltatNplus1 <= Grown(n, deltatInit)
      ensures avecProjection != 0 ==> geometryN == old(geometryN)
    {
      n := 0;
      var continueLoop := true;
      ghost var swaps: nat := 0;
      ghost var cap := deltatInit;
      while continueLoop
        invariant n >= 0 && (continueLoop ==> n == 0 || n + 1 < maxTimeIterations)
        invariant continueLoop && n > 0 ==> tN < finalTime
        invariant !continueLoop ==> n >= 1 && !(n + 1 < maxTimeIterations && tNplus1 < finalTime)
        invariant !continueLoop ==> n == 1 || n + 1 == maxTimeIterations || tNplus1 >= finalTime
        invariant !continueLoop ==> tNplus1 == tN + deltatNplus1
        invariant swaps == if continueLoop then n else n - 1
        invariant cap == Grown(swaps, deltatInit)
        invariant sansLagrange != 0 ==> deltatN == deltatInit
        invariant sansLagrange != 0 && !continueLoop ==> deltatNplus1 == deltatInit
        invariant sansLagrange == 0 ==> deltatN <= cap
        invariant sansLagrange == 0 && !continueLoop ==> deltatNplus1 <= GrowthCap * deltatN
        invariant avecProjection != 0 ==> geometryN == old(geometryN)
        decreases continueLoop, maxTimeIterations - n
      {
        ghost var dt;
        continueLoop, dt := Iterate(backward, reduction, advance);
        if continueLoop {
          cap := GrowthCap * cap;
          swaps := swaps + 1;
        }
      }
    }

    /** One iteration of executeTimeLoopN: count it, move the n-slot node
        velocity back half a step when the scheme calls for it, choose the
        time step `dt` from that state, compute the new time, fill the n+1 slots, test whether the
        loop goes on, and swap the slots when it does. */
    method Iterate(backward: (CellArrays, Geometry, real) -> seq<Vec2>,
                   reduction: (CellArrays, Geometry) -> real,
                   advance: (CellArrays, Geometry, bool, real) -> Advanced)
      returns (continueLoop: bool, ghost dt: real)
      modifies this
      ensures n == old(n) + 1
      ensures sansLagrange == 0 ==> var start := StartOfStep(old(stateN), old(geometryN), old(deltatN), MovesVelocityBack(), backward);
        dt == NextDeltaT(reduction(start, old(geometryN)), old(deltatN))
      ensures sansLagrange == 0 ==> dt <= GrowthCap * old(deltatN)
      ensures sansLagrange != 0 ==> dt == old(deltatN)
      ensures continueLoop == (n + 1 < maxTimeIterations && old(tN) + dt < finalTime)
      ensures continueLoop ==> tN == old(tN) + dt && deltatN == dt
      ensures !continueLoop ==> tN == old(tN) && deltatN == old(deltatN)
      ensures !continueLoop ==> deltatNplus1 == dt && tNplus1 == tN + dt
      ensures avecProjection != 0 ==> geometryN == old(geometryN)
      ensures var start := StartOfStep(old(stateN), old(geometryN), old(deltatN), MovesVelocityBack(), backward);
        var next := advance(start, old(geometryN), old(xThenYN), dt);
        continueLoop ==> stateN == next.state && stateNplus1 == start
                         && xThenYN == next.xThenY && xThenYNplus1 == old(xThenYN)
                         && tNplus1 == old(tN) && deltatNplus1 == old(deltatN)
      ensures var start := StartOfStep(old(stateN), old(geometryN), old(deltatN), MovesVelocityBack(), backward);
        var next := advance(start, old(geometryN), old(xThenYN), dt);
        continueLoop && avecProjection == 0 ==> geometryN == next.geometry && geometryNplus1 == old(geometryN)
      ensures var start := StartOfStep(old(stateN), old(geometryN), old(deltatN), MovesVelocityBack(), backward);
        var next := advance(start, old(geometryN), old(xThenYN), dt);
        !continueLoop || avecProjection != 0 ==> geometryNplus1 == next.geometry
      ensures var start := StartOfStep(old(stateN), old(geometryN), old(deltatN), MovesVelocityBack(), backward);
        var next := advance(start, old(geometryN), old(xThenYN), dt);
        !continueLoop ==> stateN == start && stateNplus1 == next.state
                          && xThenYN == old(xThenYN) && xThenYNplus1 == next.xThenY && geometryN == old(geometryN)
    {
      n := n + 1;
      if MovesVelocityBack() {
        stateN := stateN.(nodeVelocity := backward(stateN, geometryN, deltatN));
      }
      ChooseDeltaT(reduction(stateN, geometryN));
      dt := deltatNplus1;
      ComputeTime();
      var next := advance(stateN, geometryN, xThenYN, deltatNplus1);
      stateNplus1 := next.state;
      xThenYNplus1 := next.xThenY;
      geometryNplus1 := next.geometry;
      continueLoop := n + 1 < maxTimeIterations && tNplus1 < finalTime;
      if continueLoop {
        SwapSlots();
      }
    }
  }
}
