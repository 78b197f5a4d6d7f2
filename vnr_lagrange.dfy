// The Lagrangian jobs of the class Vnr (vnr_remap/PhaseLagrange.cc) as
// methods of a class whose fields are the arrays they read and write. Per
// cell arrays are sequences indexed by cell; per cell and per material
// arrays are sequences of nbmat-wide rows. Each job loops over the cells
// and, inside, calls the material loop proved in the module Lagrange.
module VnrLagrange {
  import opened Common
  import opened Eos
  import opened EnergySolve
  import opened Lagrange

  /** The six per-material inputs of the energy equations of one cell. */
  function CellInputs(densityEnv: seq<real>, densityEnvN: seq<real>, pseudoEnv: seq<real>, pseudoEnvN: seq<real>,
                      energyEnvN: seq<real>, pressureEnvN: seq<real>): (r: seq<MaterialInputs>)
    requires |densityEnv| == |densityEnvN| == |pseudoEnv| == |pseudoEnvN| == |energyEnvN| == |pressureEnvN|
    ensures |r| == |densityEnv|
    ensures forall i :: 0 <= i < |r| ==>
      r[i] == MaterialInputs(densityEnv[i], densityEnvN[i], pseudoEnv[i], pseudoEnvN[i], energyEnvN[i], pressureEnvN[i])
  {
    seq(|densityEnv|, i requires 0 <= i < |densityEnv| =>
      MaterialInputs(densityEnv[i], densityEnvN[i], pseudoEnv[i], pseudoEnvN[i], energyEnvN[i], pressureEnvN[i]))
  }

  function Gammas(materials: seq<Material>): (r: seq<real>)
    ensures |r| == |materials| && forall i :: 0 <= i < |r| ==> r[i] == materials[i].gamma
  {
    seq(|materials|, i requires 0 <= i < |materials| => materials[i].gamma)
  }

  function Codes(materials: seq<Material>): (r: seq<int>)
    ensures |r| == |materials| && forall i :: 0 <= i < |r| ==> r[i] == materials[i].code
  {
    seq(|materials|, i requires 0 <= i < |materials| => materials[i].code)
  }

  // ---------------------------------------------------------------------
  // The cell loops of the jobs

  /** What updateRho leaves in one cell: the Lagrangian volume is the sum of
      the corner sub-volumes, the material densities are the updated ones and
      the mean density is their volume-fraction weighted sum. */
  predicate RhoRow(volume: real, mean: real, row: seq<real>, subVolumes: seq<real>, fracvol: seq<real>,
                   massEnv: seq<real>, previous: seq<real>, threshold: real)
  {
    |fracvol| == |massEnv| == |previous| && threshold >= 0.0 && volume == Sum(subVolumes) && volume != 0.0
    && row == UpdatedDensities(fracvol, massEnv, previous, volume, threshold)
    && mean == Sum(Mul(fracvol, row))
  }

  /** The cell loop of updateRho. */
  method RhoCells(n: nat, nbmat: nat, threshold: real, subVolumes: seq<seq<real>>, fracvol: seq<seq<real>>,
                  cellMassEnv: seq<seq<real>>, densityEnv: seq<seq<real>>)
      returns (volumes: seq<real>, means: seq<real>, rows: seq<seq<real>>, negative: bool)
    requires |subVolumes| == n && Width(fracvol, n, nbmat) && Width(cellMassEnv, n, nbmat)
    requires Width(densityEnv, n, nbmat) && threshold >= 0.0
    requires forall c :: 0 <= c < n ==> Sum(subVolumes[c]) != 0.0
    ensures |volumes| == |means| == n && Width(rows, n, nbmat)
    ensures forall c :: 0 <= c < n ==>
      RhoRow(volumes[c], means[c], rows[c], subVolumes[c], fracvol[c], cellMassEnv[c], densityEnv[c], threshold)
    ensures negative <==> (exists c :: 0 <= c < n && HasNegative(rows[c]))
  {
    volumes, means, rows := [], [], [];
    negative := false;
    var c := 0;
    while c < n
      invariant 0 <= c <= n && |volumes| == |means| == |rows| == c
      invariant forall k :: 0 <= k < c ==> |rows[k]| == nbmat
      invariant forall k :: 0 <= k < c ==>
        RhoRow(volumes[k], means[k], rows[k], subVolumes[k], fracvol[k], cellMassEnv[k], densityEnv[k], threshold)
      invariant negative <==> (exists k :: 0 <= k < c && HasNegative(rows[k]))
    {
      var v := SumLoop(subVolumes[c]);
      var d, mean, bad := DensityLoop(fracvol[c], cellMassEnv[c], densityEnv[c], v, threshold);
      assert bad == HasNegative(d);
      var volumes', means', rows' := volumes + [v], means + [mean], rows + [d];
      forall k | 0 <= k < c + 1
        ensures RhoRow(volumes'[k], means'[k], rows'[k], subVolumes[k], fracvol[k], cellMassEnv[k], densityEnv[k],
                       threshold)
      {
        if k < c {
          assert volumes'[k] == volumes[k] && means'[k] == means[k] && rows'[k] == rows[k];
        }
      }
      assert forall k :: 0 <= k < c ==> rows'[k] == rows[k];
      volumes, means, rows := volumes', means', rows';
      negative := negative || bad;
      c := c + 1;
    }
  }

  /** Some material density of the row is negative. */
  predicate HasNegative(row: seq<real>)
  {
    exists i :: 0 <= i < |row| && row[i] < 0.0
  }

  /** The cell loop of computeTau. */
  method TauCells(n: nat, nbmat: nat, threshold: real, density: seq<real>, densityN: seq<real>, volume: seq<real>,
                  volumeN: seq<real>, densityEnv: seq<seq<real>>, densityEnvN: seq<seq<real>>,
                  fracvol: seq<seq<real>>, tauVolumeEnv: seq<seq<real>>)
      returns (td: seq<real>, tv: seq<real>, tde: seq<seq<real>>, tve: seq<seq<real>>)
    requires |density| == |densityN| == |volume| == |volumeN| == n && threshold >= 0.0
    requires Width(densityEnv, n, nbmat) && Width(densityEnvN, n, nbmat) && Width(fracvol, n, nbmat)
    requires Width(tauVolumeEnv, n, nbmat)
    requires forall c :: 0 <= c < n ==> density[c] != 0.0 && densityN[c] != 0.0
    requires forall c :: 0 <= c < n ==> volume[c] != 0.0 && volumeN[c] != 0.0
    ensures |td| == |tv| == n && Width(tde, n, nbmat) && Width(tve, n, nbmat)
    ensures forall c :: 0 <= c < n ==> td[c] == MeanSpecificVolume(density[c], densityN[c])
    ensures forall c :: 0 <= c < n ==> tv[c] == MeanSpecificVolume(volume[c], volumeN[c])
    ensures forall c, i :: 0 <= c < n && 0 <= i < nbmat ==>
      tde[c][i] == MaterialTau(densityEnv[c][i], densityEnvN[c][i], threshold)
    ensures forall c, i :: 0 <= c < n && 0 <= i < nbmat ==>
      tve[c][i] == MaterialTauVolume(tv[c], fracvol[c][i], tauVolumeEnv[c][i], threshold)
  {
    td, tv, tde, tve := [], [], [], [];
    var c := 0;
    while c < n
      invariant 0 <= c <= n && |td| == |tv| == |tde| == |tve| == c
      invariant forall k :: 0 <= k < c ==> |tde[k]| == nbmat && |tve[k]| == nbmat
      invariant forall k :: 0 <= k < c ==> td[k] == MeanSpecificVolume(density[k], densityN[k])
      invariant forall k :: 0 <= k < c ==> tv[k] == MeanSpecificVolume(volume[k], volumeN[k])
      invariant forall k, i :: 0 <= k < c && 0 <= i < nbmat ==>
        tde[k][i] == MaterialTau(densityEnv[k][i], densityEnvN[k][i], threshold)
      invariant forall k, i :: 0 <= k < c && 0 <= i < nbmat ==>
        tve[k][i] == MaterialTauVolume(tv[k], fracvol[k][i], tauVolumeEnv[k][i], threshold)
    {
      var t := 0.5 * (1.0 / density[c] + 1.0 / densityN[c]);
      var v := 0.5 * (1.0 / volume[c] + 1.0 / volumeN[c]);
      var rowD, rowV := TauLoop(v, densityEnv[c], densityEnvN[c], fracvol[c], tauVolumeEnv[c], threshold);
      td, tv, tde, tve := td + [t], tv + [v], tde + [rowD], tve + [rowV];
      c := c + 1;
    }
  }

  /** The energy-equation inputs of every cell. */
  function AllInputs(n: nat, nbmat: nat, densityEnv: seq<seq<real>>, densityEnvN: seq<seq<real>>,
                     pseudoEnv: seq<seq<real>>, pseudoEnvN: seq<seq<real>>, energyEnvN: seq<seq<real>>,
                     pressureEnvN: seq<seq<real>>): (r: seq<seq<MaterialInputs>>)
    requires Width(densityEnv, n, nbmat) && Width(densityEnvN, n, nbmat) && Width(pseudoEnv, n, nbmat)
    requires Width(pseudoEnvN, n, nbmat) && Width(energyEnvN, n, nbmat) && Width(pressureEnvN, n, nbmat)
    ensures Width(r, n, nbmat)
    ensures forall c, i :: 0 <= c < n && 0 <= i < nbmat ==>
      r[c][i] == MaterialInputs(densityEnv[c][i], densityEnvN[c][i], pseudoEnv[c][i], pseudoEnvN[c][i],
                                energyEnvN[c][i], pressureEnvN[c][i])
  {
    seq(n, c requires 0 <= c < n =>
      CellInputs(densityEnv[c], densityEnvN[c], pseudoEnv[c], pseudoEnvN[c], energyEnvN[c], pressureEnvN[c]))
  }

  /** The cell loop of updateEnergy. */
  method ClosedFormCells(n: nat, materials: seq<Material>, centred: int, threshold: real,
                         inputs: seq<seq<MaterialInputs>>, massFraction: seq<seq<real>>)
      returns (totals: seq<real>, rows: seq<seq<real>>)
    requires Width(inputs, n, |materials|) && Width(massFraction, n, |materials|) && threshold >= 0.0
    requires forall c, i :: 0 <= c < n && 0 <= i < |materials| && Active(inputs[c][i], threshold) ==>
      ClosedFormDefined(materials[i].gamma, inputs[c][i])
    ensures |totals| == n && Width(rows, n, |materials|)
    ensures forall c, i :: 0 <= c < n && 0 <= i < |materials| ==>
      rows[c][i] == ClosedFormMaterialEnergy(materials[i].gamma, centred, threshold, inputs[c][i])
    ensures forall c :: 0 <= c < n ==> totals[c] == Sum(Mul(massFraction[c], rows[c]))
  {
    totals, rows := [], [];
    var c := 0;
    while c < n
      invariant 0 <= c <= n && |totals| == |rows| == c
      invariant forall k :: 0 <= k < c ==> |rows[k]| == |materials|
      invariant forall k, i :: 0 <= k < c && 0 <= i < |materials| ==>
        rows[k][i] == ClosedFormMaterialEnergy(materials[i].gamma, centred, threshold, inputs[k][i])
      invariant forall k :: 0 <= k < c ==> totals[k] == Sum(Mul(massFraction[k], rows[k]))
    {
      var e, total := ClosedFormLoop(Gammas(materials), centred, threshold, inputs[c], massFraction[c]);
      totals, rows := totals + [total], rows + [e];
      c := c + 1;
    }
  }

  /** The cell loop shared by updateEnergyite and updateEnergycstsite. */
  method NewtonCells(sqrt: real -> real, n: nat, materials: seq<Material>, threshold: real,
                     residuals: seq<seq<Option<Residual>>>, junk: seq<seq<Uninitialised>>,
                     massFraction: seq<seq<real>>, speedEnv: seq<seq<real>>, pressureEnv: seq<seq<real>>)
      returns (totals: seq<real>, rowsE: seq<seq<real>>, rowsC: seq<seq<real>>, rowsP: seq<seq<real>>, bad: bool)
    requires Width(residuals, n, |materials|) && Width(junk, n, |materials|)
    requires Width(massFraction, n, |materials|) && Width(speedEnv, n, |materials|)
    requires Width(pressureEnv, n, |materials|)
    ensures |totals| == n && Width(rowsE, n, |materials|) && Width(rowsC, n, |materials|)
    ensures Width(rowsP, n, |materials|)
    ensures CellsWritten(sqrt, materials, threshold, residuals, junk, massFraction, speedEnv, pressureEnv,
                         totals, rowsE, rowsC, rowsP)
    ensures bad <==> (exists c :: 0 <= c < n && AnyUndefined(Outcomes(sqrt, materials, threshold, residuals[c], junk[c])))
  {
    ghost var outcomes := CellOutcomes(sqrt, n, materials, threshold, residuals, junk);
    totals, rowsE, rowsC, rowsP := [], [], [], [];
    bad := false;
    var c := 0;
    while c < n
      invariant 0 <= c <= n && |totals| == |rowsE| == |rowsC| == |rowsP| == c
      invariant forall k :: 0 <= k < c ==> |rowsE[k]| == |rowsC[k]| == |rowsP[k]| == |materials|
      invariant forall k :: 0 <= k < c ==>
        RowWritten(rowsE[k], rowsC[k], rowsP[k], totals[k], outcomes[k], massFraction[k], speedEnv[k], pressureEnv[k])
      invariant bad <==> (exists k :: 0 <= k < c && AnyUndefined(outcomes[k]))
    {
      var e, sp, p, total, u := NewtonRow(sqrt, materials, threshold, residuals[c], junk[c],
                                          massFraction[c], speedEnv[c], pressureEnv[c]);
      var totals', rowsE', rowsC', rowsP' := totals + [total], rowsE + [e], rowsC + [sp], rowsP + [p];
      forall k | 0 <= k < c + 1
        ensures RowWritten(rowsE'[k], rowsC'[k], rowsP'[k], totals'[k], outcomes[k], massFraction[k], speedEnv[k],
                           pressureEnv[k])
      {
        if k < c {
          assert rowsE'[k] == rowsE[k] && rowsC'[k] == rowsC[k] && rowsP'[k] == rowsP[k] && totals'[k] == totals[k];
        }
      }
      totals, rowsE, rowsC, rowsP := totals', rowsE', rowsC', rowsP';
      bad := bad || u;
      c := c + 1;
    }
  }

  /** NewtonCellLoop, stated through the row's outcomes. */
  method NewtonRow(sqrt: real -> real, materials: seq<Material>, threshold: real, residuals: seq<Option<Residual>>,
                   junk: seq<Uninitialised>, massFraction: seq<real>, c0: seq<real>, p0: seq<real>)
      returns (e: seq<real>, sp: seq<real>, p: seq<real>, total: real, undefined: bool)
    requires |materials| == |residuals| == |junk| == |massFraction| == |c0| == |p0|
    ensures |e| == |sp| == |p| == |materials|
    ensures RowWritten(e, sp, p, total, Outcomes(sqrt, materials, threshold, residuals, junk), massFraction, c0, p0)
    ensures undefined == AnyUndefined(Outcomes(sqrt, materials, threshold, residuals, junk))
  {
    e, sp, p, total, undefined := NewtonCellLoop(sqrt, materials, threshold, residuals, junk, massFraction, c0, p0);
  }

  /** One cell after the Newton loops of its materials: each material's
      energy, sound speed and pressure are what its outcome writes (a
      material without an equation keeps energy 0 and its previous sound
      speed c0 and pressure p0), and the cell energy is the mass-weighted sum
      of the material energies. */
  ghost predicate RowWritten(e: seq<real>, sp: seq<real>, p: seq<real>, total: real,
                             outcomes: seq<Option<NewtonResult>>, massFraction: seq<real>, c0: seq<real>, p0: seq<real>)
  {
    |e| == |sp| == |p| == |outcomes| == |massFraction| == |c0| == |p0| &&
    (forall i :: 0 <= i < |outcomes| ==> MaterialState(e[i], sp[i], p[i]) == Written(outcomes[i], c0[i], p0[i])) &&
    total == Sum(Mul(massFraction, e))
  }

  /** RowWritten for every cell, with the outcomes of the cell's equations. */
  ghost predicate CellsWritten(sqrt: real -> real, materials: seq<Material>, threshold: real,
                               equations: seq<seq<Option<Residual>>>, junk: seq<seq<Uninitialised>>,
                               massFraction: seq<seq<real>>, c0: seq<seq<real>>, p0: seq<seq<real>>,
                               totals: seq<real>, rowsE: seq<seq<real>>, rowsC: seq<seq<real>>, rowsP: seq<seq<real>>)
  {
    |equations| == |junk| == |massFraction| == |c0| == |p0| == |totals| == |rowsE| == |rowsC| == |rowsP| &&
    forall c :: 0 <= c < |equations| ==>
      |equations[c]| == |junk[c]| == |materials| &&
      RowWritten(rowsE[c], rowsC[c], rowsP[c], totals[c], Outcomes(sqrt, materials, threshold, equations[c], junk[c]),
                 massFraction[c], c0[c], p0[c])
  }

  /** Some Newton loop of the row left its result undefined. */
  ghost predicate AnyUndefined(outcomes: seq<Option<NewtonResult>>)
  {
    exists i :: 0 <= i < |outcomes| && Undefined(outcomes[i])
  }

  /** The outcome of every cell's and material's Newton loop. */
  ghost function CellOutcomes(sqrt: real -> real, n: nat, materials: seq<Material>, threshold: real,
                              residuals: seq<seq<Option<Residual>>>, junk: seq<seq<Uninitialised>>)
      : (r: seq<seq<Option<NewtonResult>>>)
    requires Width(residuals, n, |materials|) && Width(junk, n, |materials|)
    ensures |r| == n
    ensures forall c :: 0 <= c < n ==> r[c] == Outcomes(sqrt, materials, threshold, residuals[c], junk[c])
  {
    seq(n, c requires 0 <= c < n => Outcomes(sqrt, materials, threshold, residuals[c], junk[c]))
  }

  /** The equations of updateEnergyite for every cell and material. */
  function DensityResiduals(centred: int, threshold: real, inputs: seq<seq<MaterialInputs>>): (r: seq<seq<Option<Residual>>>)
    requires threshold >= 0.0
    ensures |r| == |inputs| && forall c :: 0 <= c < |r| ==> |r[c]| == |inputs[c]|
    ensures forall c, i :: 0 <= c < |r| && 0 <= i < |r[c]| ==> r[c][i] == DensityResidual(centred, threshold, inputs[c][i])
  {
    seq(|inputs|, c requires 0 <= c < |inputs| =>
      seq(|inputs[c]|, i requires 0 <= i < |inputs[c]| => DensityResidual(centred, threshold, inputs[c][i])))
  }

  /** The corner work sum(dot(cqs, v) dt) of every cell. */
  function CellWorks(t: Topology, cqs: seq<seq<Vec2>>, velocity: seq<Vec2>, dt: real): (w: seq<real>)
    requires ValidTopology(t) && |cqs| == t.nbCells && |velocity| == t.nbNodes
    requires forall c :: 0 <= c < t.nbCells ==> |cqs[c]| == |t.nodesOfCell[c]|
    ensures |w| == t.nbCells
    ensures forall c :: 0 <= c < t.nbCells ==> w[c] == Sum(CornerTerms(cqs[c], velocity, t.nodesOfCell[c], dt))
  {
    seq(t.nbCells, c requires 0 <= c < t.nbCells => Sum(CornerTerms(cqs[c], velocity, t.nodesOfCell[c], dt)))
  }

  /** The loop computing CellWorks. */
  method CornerWorkCells(t: Topology, cqs: seq<seq<Vec2>>, velocity: seq<Vec2>, dt: real) returns (w: seq<real>)
    requires ValidTopology(t) && |cqs| == t.nbCells && |velocity| == t.nbNodes
    requires forall c :: 0 <= c < t.nbCells ==> |cqs[c]| == |t.nodesOfCell[c]|
    ensures w == CellWorks(t, cqs, velocity, dt)
  {
    w := [];
    var c := 0;
    while c < t.nbCells
      invariant 0 <= c <= t.nbCells && |w| == c
      invariant forall k :: 0 <= k < c ==> w[k] == Sum(CornerTerms(cqs[k], velocity, t.nodesOfCell[k], dt))
    {
      var x := CornerWorkLoop(cqs[c], velocity, t.nodesOfCell[c], dt);
      w := w + [x];
      c := c + 1;
    }
  }

  /** The equations of updateEnergycstsite for every cell and material:
      the density at n+1, energy, pressure and pseudo-viscosity at n, the
      pseudo-viscosity at n+1 and the mass of the material, with the corner
      work at n+1 and n of its cell. */
  function CornerResiduals(n: nat, nbmat: nat, threshold: real, densityEnv: seq<seq<real>>,
                           energyEnvN: seq<seq<real>>, pressureEnvN: seq<seq<real>>, pseudoEnvN: seq<seq<real>>,
                           pseudoEnv: seq<seq<real>>, cellMassEnv: seq<seq<real>>, work1: seq<real>,
                           work0: seq<real>): (r: seq<seq<Option<Residual>>>)
    requires Width(densityEnv, n, nbmat) && Width(energyEnvN, n, nbmat) && Width(pressureEnvN, n, nbmat)
    requires Width(pseudoEnvN, n, nbmat) && Width(pseudoEnv, n, nbmat) && Width(cellMassEnv, n, nbmat)
    requires |work1| == |work0| == n
    requires forall c, i :: 0 <= c < n && 0 <= i < nbmat && densityEnv[c][i] > threshold ==> cellMassEnv[c][i] != 0.0
    ensures Width(r, n, nbmat)
    ensures forall c, i :: 0 <= c < n && 0 <= i < nbmat ==>
      r[c][i] == CornerResidual(threshold, CornerInputs(densityEnv[c][i], energyEnvN[c][i], pressureEnvN[c][i],
                                                        pseudoEnvN[c][i], pseudoEnv[c][i], cellMassEnv[c][i]),
                                work1[c], work0[c])
  {
    seq(n, c requires 0 <= c < n =>
      seq(nbmat, i requires 0 <= i < nbmat =>
        CornerResidual(threshold, CornerInputs(densityEnv[c][i], energyEnvN[c][i], pressureEnvN[c][i],
                                               pseudoEnvN[c][i], pseudoEnv[c][i], cellMassEnv[c][i]),
                       work1[c], work0[c])))
  }

  /** The sizes the equations of updateEnergycstsite need, and a non-zero
      mass for every material whose density exceeds the threshold. */
  predicate CornerReady(t: Topology, nbmat: nat, threshold: real, densityEnv: seq<seq<real>>,
                        energyEnvN: seq<seq<real>>, pressureEnvN: seq<seq<real>>, pseudoEnvN: seq<seq<real>>,
                        pseudoEnv: seq<seq<real>>, cellMassEnv: seq<seq<real>>, cqsN1: seq<seq<Vec2>>,
                        cqsN: seq<seq<Vec2>>, velocity: seq<Vec2>)
  {
    var n := t.nbCells;
    ValidTopology(t) && Width(densityEnv, n, nbmat) && Width(energyEnvN, n, nbmat) && Width(pressureEnvN, n, nbmat)
    && Width(pseudoEnvN, n, nbmat) && Width(pseudoEnv, n, nbmat) && Width(cellMassEnv, n, nbmat)
    && |cqsN1| == |cqsN| == n && |velocity| == t.nbNodes
    && (forall c :: 0 <= c < n ==> |cqsN1[c]| == |t.nodesOfCell[c]| && |cqsN[c]| == |t.nodesOfCell[c]|)
    && (forall c, i :: 0 <= c < n && 0 <= i < nbmat && densityEnv[c][i] > threshold ==> cellMassEnv[c][i] != 0.0)
  }

  /** The equations of updateEnergycstsite, with the corner work at n+1
      (cqs at n+1) and at n (cqs at n), both with the velocity and time step
      at n+1. */
  function CornerSystem(t: Topology, nbmat: nat, threshold: real, densityEnv: seq<seq<real>>,
                        energyEnvN: seq<seq<real>>, pressureEnvN: seq<seq<real>>, pseudoEnvN: seq<seq<real>>,
                        pseudoEnv: seq<seq<real>>, cellMassEnv: seq<seq<real>>, cqsN1: seq<seq<Vec2>>,
                        cqsN: seq<seq<Vec2>>, velocity: seq<Vec2>, dt: real): (r: seq<seq<Option<Residual>>>)
    requires CornerReady(t, nbmat, threshold, densityEnv, energyEnvN, pressureEnvN, pseudoEnvN, pseudoEnv, cellMassEnv,
                         cqsN1, cqsN, velocity)
    ensures Width(r, t.nbCells, nbmat)
    ensures forall c, i :: 0 <= c < t.nbCells && 0 <= i < nbmat ==>
      r[c][i] == CornerResidual(threshold, CornerInputs(densityEnv[c][i], energyEnvN[c][i], pressureEnvN[c][i],
                                                        pseudoEnvN[c][i], pseudoEnv[c][i], cellMassEnv[c][i]),
                                CellWorks(t, cqsN1, velocity, dt)[c], CellWorks(t, cqsN, velocity, dt)[c])
  {
    CornerResiduals(t.nbCells, nbmat, threshold, densityEnv, energyEnvN, pressureEnvN, pseudoEnvN, pseudoEnv,
                    cellMassEnv, CellWorks(t, cqsN1, velocity, dt), CellWorks(t, cqsN, velocity, dt))
  }

  /** The cell loop of updateEnergycstsite: the corner work of every cell,
      then the Newton loops of its materials. */
  method CornerEnergyCells(sqrt: real -> real, t: Topology, materials: seq<Material>, threshold: real,
                           densityEnv: seq<seq<real>>, energyEnvN: seq<seq<real>>, pressureEnvN: seq<seq<real>>,
                           pseudoEnvN: seq<seq<real>>, pseudoEnv: seq<seq<real>>, cellMassEnv: seq<seq<real>>,
                           cqsN1: seq<seq<Vec2>>, cqsN: seq<seq<Vec2>>, velocity: seq<Vec2>, dt: real,
                           junk: seq<seq<Uninitialised>>, massFraction: seq<seq<real>>, speedEnv: seq<seq<real>>,
                           pressureEnv: seq<seq<real>>, ghost system: seq<seq<Option<Residual>>>)
      returns (totals: seq<real>, rowsE: seq<seq<real>>, rowsC: seq<seq<real>>, rowsP: seq<seq<real>>, bad: bool)
    requires CornerReady(t, |materials|, threshold, densityEnv, energyEnvN, pressureEnvN, pseudoEnvN, pseudoEnv,
                         cellMassEnv, cqsN1, cqsN, velocity)
    requires system == CornerSystem(t, |materials|, threshold, densityEnv, energyEnvN, pressureEnvN, pseudoEnvN,
                                    pseudoEnv, cellMassEnv, cqsN1, cqsN, velocity, dt)
    requires Width(junk, t.nbCells, |materials|) && Width(massFraction, t.nbCells, |materials|)
    requires Width(speedEnv, t.nbCells, |materials|) && Width(pressureEnv, t.nbCells, |materials|)
    ensures |totals| == t.nbCells && Width(rowsE, t.nbCells, |materials|) && Width(rowsC, t.nbCells, |materials|)
    ensures Width(rowsP, t.nbCells, |materials|)
    ensures CellsWritten(sqrt, materials, threshold, system, junk, massFraction, speedEnv, pressureEnv,
                         totals, rowsE, rowsC, rowsP)
    ensures bad <==> (exists c :: 0 <= c < t.nbCells && AnyUndefined(Outcomes(sqrt, materials, threshold, system[c], junk[c])))
  {
    var work1 := CornerWorkCells(t, cqsN1, velocity, dt);
    var work0 := CornerWorkCells(t, cqsN, velocity, dt);
    var residuals := CornerResiduals(t.nbCells, |materials|, threshold, densityEnv, energyEnvN, pressureEnvN,
                                     pseudoEnvN, pseudoEnv, cellMassEnv, work1, work0);
    totals, rowsE, rowsC, rowsP, bad :=
      NewtonCells(sqrt, t.nbCells, materials, threshold, residuals, junk, massFraction, speedEnv, pressureEnv);
  }

  /** The cell loop of computePressionMoyenne. */
  method PressureCells(sqrt: real -> real, n: nat, materials: seq<Material>, threshold: real,
                       fracvol: seq<seq<real>>, pressureEnv: seq<seq<real>>, speedEnv: seq<seq<real>>,
                       speed: seq<real>, energy: seq<real>, massFraction: seq<seq<real>>,
                       energyEnv: seq<seq<real>>)
      returns (pressure': seq<real>, speed': seq<real>, energy': seq<real>)
    requires |materials| > 0
    requires Width(fracvol, n, |materials|) && Width(pressureEnv, n, |materials|) && Width(speedEnv, n, |materials|)
    requires Width(massFraction, n, |materials|) && Width(energyEnv, n, |materials|)
    requires |speed| == |energy| == n
    ensures |pressure'| == |speed'| == |energy'| == n
    ensures forall c :: 0 <= c < n ==> pressure'[c] == Sum(Mul(fracvol[c], pressureEnv[c]))
    ensures forall c :: 0 <= c < n ==>
      speed'[c] == CellSpeed(sqrt, materials[0].gamma, threshold, speed[c], speedEnv[c], energy[c])
    ensures forall c :: 0 <= c < n ==>
      energy'[c] == energy[c] + Sum(VoidTerms(Codes(materials), massFraction[c], energyEnv[c]))
  {
    pressure', speed', energy' := [], [], [];
    var c := 0;
    while c < n
      invariant 0 <= c <= n && |pressure'| == |speed'| == |energy'| == c
      invariant forall k :: 0 <= k < c ==> pressure'[k] == Sum(Mul(fracvol[k], pressureEnv[k]))
      invariant forall k :: 0 <= k < c ==>
        speed'[k] == CellSpeed(sqrt, materials[0].gamma, threshold, speed[k], speedEnv[k], energy[k])
      invariant forall k :: 0 <= k < c ==>
        energy'[k] == energy[k] + Sum(VoidTerms(Codes(materials), massFraction[k], energyEnv[k]))
    {
      var p, s, e := PressureCell(sqrt, materials[0].gamma, threshold, fracvol[c], pressureEnv[c], speedEnv[c],
                                  speed[c], energy[c], Codes(materials), massFraction[c], energyEnv[c]);
      pressure', speed', energy' := pressure' + [p], speed' + [s], energy' + [e];
      c := c + 1;
    }
  }

  /** Which materials of a cell take part in updateEnergyForTotalEnergyConservation:
      those whose density at n+1 exceeds the threshold. */
  function Activity(densityEnv: seq<real>, threshold: real): (r: seq<bool>)
    ensures |r| == |densityEnv| && forall i :: 0 <= i < |r| ==> (r[i] <==> densityEnv[i] > threshold)
  {
    seq(|densityEnv|, i requires 0 <= i < |densityEnv| => densityEnv[i] > threshold)
  }

  /** The sizes updateEnergyForTotalEnergyConservation needs, and a non-zero
      mass for every material whose density exceeds the threshold. */
  predicate CorrectionReady(t: Topology, nbmat: nat, threshold: real, densityEnv: seq<seq<real>>,
                            fracvol: seq<seq<real>>, pressureEnvN: seq<seq<real>>, pseudoEnvN: seq<seq<real>>,
                            pseudoEnv: seq<seq<real>>, cellMassEnv: seq<seq<real>>, cqsN: seq<seq<Vec2>>,
                            velocityN1: seq<Vec2>, velocityN: seq<Vec2>)
  {
    var n := t.nbCells;
    ValidTopology(t) && Width(densityEnv, n, nbmat) && Width(fracvol, n, nbmat) && Width(pressureEnvN, n, nbmat)
    && Width(pseudoEnvN, n, nbmat) && Width(pseudoEnv, n, nbmat) && Width(cellMassEnv, n, nbmat)
    && |cqsN| == n && |velocityN1| == |velocityN| == t.nbNodes
    && (forall c :: 0 <= c < n ==> |cqsN[c]| == |t.nodesOfCell[c]|)
    && (forall c, i :: 0 <= c < n && 0 <= i < nbmat && densityEnv[c][i] > threshold ==> cellMassEnv[c][i] != 0.0)
  }

  /** The own correction of every material of cell c: the sum of its corner
      terms over the nodes of the cell when it takes part, zero otherwise. */
  function CellCorrections(t: Topology, nbmat: nat, threshold: real, densityEnv: seq<seq<real>>,
                           fracvol: seq<seq<real>>, pressureEnvN: seq<seq<real>>, pseudoEnvN: seq<seq<real>>,
                           pseudoEnv: seq<seq<real>>, cellMassEnv: seq<seq<real>>, cqsN: seq<seq<Vec2>>,
                           velocityN1: seq<Vec2>, velocityN: seq<Vec2>, dtN1: real, dtN: real, c: nat): (r: seq<real>)
    requires CorrectionReady(t, nbmat, threshold, densityEnv, fracvol, pressureEnvN, pseudoEnvN, pseudoEnv,
                             cellMassEnv, cqsN, velocityN1, velocityN)
    requires c < t.nbCells
    ensures |r| == nbmat
    ensures forall i :: 0 <= i < nbmat && densityEnv[c][i] <= threshold ==> r[i] == 0.0
    ensures forall i :: 0 <= i < nbmat && densityEnv[c][i] > threshold ==>
      r[i] == Sum(CorrectionTerms(fracvol[c][i], pressureEnvN[c][i], pseudoEnvN[c][i], pseudoEnv[c][i],
                                  cellMassEnv[c][i], cqsN[c], velocityN1, velocityN, t.nodesOfCell[c], dtN1, dtN))
  {
    seq(nbmat, i requires 0 <= i < nbmat =>
      if densityEnv[c][i] > threshold then
        Sum(CorrectionTerms(fracvol[c][i], pressureEnvN[c][i], pseudoEnvN[c][i], pseudoEnv[c][i],
                            cellMassEnv[c][i], cqsN[c], velocityN1, velocityN, t.nodesOfCell[c], dtN1, dtN))
      else 0.0)
  }

  /** The cell loop of updateEnergyForTotalEnergyConservation, each cell's
      material loop carrying the correction from one active material to the
      next, as the source does. */
  method CorrectionCells(t: Topology, nbmat: nat, threshold: real, densityEnv: seq<seq<real>>,
                         fracvol: seq<seq<real>>, pressureEnvN: seq<seq<real>>, pseudoEnvN: seq<seq<real>>,
                         pseudoEnv: seq<seq<real>>, cellMassEnv: seq<seq<real>>, cqsN: seq<seq<Vec2>>,
                         velocityN1: seq<Vec2>, velocityN: seq<Vec2>, dtN1: real, dtN: real,
                         energyEnv: seq<seq<real>>, massFraction: seq<seq<real>>)
      returns (totals: seq<real>, rows: seq<seq<real>>)
    requires CorrectionReady(t, nbmat, threshold, densityEnv, fracvol, pressureEnvN, pseudoEnvN, pseudoEnv,
                             cellMassEnv, cqsN, velocityN1, velocityN)
    requires Width(energyEnv, t.nbCells, nbmat) && Width(massFraction, t.nbCells, nbmat)
    ensures |totals| == t.nbCells && Width(rows, t.nbCells, nbmat)
    ensures forall c :: 0 <= c < t.nbCells ==>
      rows[c] == Add(energyEnv[c], CarriedCorrections(CellCorrections(t, nbmat, threshold, densityEnv, fracvol,
                                                                  pressureEnvN, pseudoEnvN, pseudoEnv, cellMassEnv,
                                                                  cqsN, velocityN1, velocityN, dtN1, dtN, c),
                                                  Activity(densityEnv[c], threshold)))
    ensures forall c :: 0 <= c < t.nbCells ==>
      totals[c] == Sum(ActiveWeighted(massFraction[c], rows[c], Activity(densityEnv[c], threshold)))
  {
    totals, rows := [], [];
    var c := 0;
    while c < t.nbCells
      invariant 0 <= c <= t.nbCells && |totals| == |rows| == c
      invariant forall k :: 0 <= k < c ==>
        rows[k] == Add(energyEnv[k], CarriedCorrections(CellCorrections(t, nbmat, threshold, densityEnv, fracvol,
                                                                    pressureEnvN, pseudoEnvN, pseudoEnv, cellMassEnv,
                                                                    cqsN, velocityN1, velocityN, dtN1, dtN, k),
                                                    Activity(densityEnv[k], threshold)))
      invariant forall k :: 0 <= k < c ==>
        totals[k] == Sum(ActiveWeighted(massFraction[k], rows[k], Activity(densityEnv[k], threshold)))
    {
      var own := CellCorrections(t, nbmat, threshold, densityEnv, fracvol, pressureEnvN, pseudoEnvN, pseudoEnv,
                                 cellMassEnv, cqsN, velocityN1, velocityN, dtN1, dtN, c);
      var row, total := CorrectionLoop(energyEnv[c], own, Activity(densityEnv[c], threshold), massFraction[c]);
      totals, rows := totals + [total], rows + [row];
      c := c + 1;
    }
  }

  // ---------------------------------------------------------------------
  // The Vnr object

  /** The Vnr scheme's Lagrangian state: the per-cell, per-node and
      per-cell-per-material arrays the jobs read and write. The flags
      `aborted` and `undefined` record an exit(1) of the source and a Newton
      loop whose result the source leaves undefined. Each job states what it
      needs of the array sizes and what it writes. */
  class Vnr {
    const topo: Topology
    const nbmat: nat
    const options: Options
    const materials: seq<Material>
    var eulerVolume0: seq<real>
    var density0: seq<real>
    var massFraction: seq<seq<real>>
    var fracvol: seq<seq<real>>
    var cellMass: seq<real>
    var cellMassEnv: seq<seq<real>>
    var nodeMass: seq<real>
    var subVolumes: seq<seq<real>>
    var tauDensity: seq<real>
    var tauVolume: seq<real>
    var tauDensityEnv: seq<seq<real>>
    var tauVolumeEnv: seq<seq<real>>
    var divu: seq<real>
    var speedN: seq<real>
    var pseudo: seq<real>
    var pseudoEnv: seq<seq<real>>
    var pseudoEnvN: seq<seq<real>>
    var lagrangeVolume: seq<real>
    var lagrangeVolumeN: seq<real>
    var density: seq<real>
    var densityN: seq<real>
    var densityEnv: seq<seq<real>>
    var densityEnvN: seq<seq<real>>
    var energy: seq<real>
    var energyEnv: seq<seq<real>>
    var energyEnvN: seq<seq<real>>
    var pressure: seq<real>
    var pressureEnv: seq<seq<real>>
    var pressureEnvN: seq<seq<real>>
    var speed: seq<real>
    var speedEnv: seq<seq<real>>
    var cqsN1: seq<seq<Vec2>>
    var cqsN: seq<seq<Vec2>>
    var velocityN1: seq<Vec2>
    var velocityN: seq<Vec2>
    var dtN1: real
    var dtN: real
    var aborted: bool
    var undefined: bool

    /** The mesh, the materials and the options are consistent. */
    predicate Setup()
    {
      ValidTopology(topo) && |materials| == nbmat && nbmat > 0 && options.threshold >= 0.0
    }

    /** A per-cell array. */
    predicate Cells<T>(s: seq<T>)
    {
      |s| == topo.nbCells
    }

    /** A per-cell, per-material array. */
    predicate Rows(s: seq<seq<real>>)
    {
      Width(s, topo.nbCells, nbmat)
    }

    /** The energy-equation inputs of every cell. */
    function Inputs(): (r: seq<seq<MaterialInputs>>)
      reads this`densityEnv, this`densityEnvN, this`pseudoEnv, this`pseudoEnvN, this`energyEnvN, this`pressureEnvN
      requires Rows(densityEnv) && Rows(densityEnvN) && Rows(pseudoEnv) && Rows(pseudoEnvN)
      requires Rows(energyEnvN) && Rows(pressureEnvN)
      ensures Width(r, topo.nbCells, nbmat)
    {
      AllInputs(topo.nbCells, nbmat, densityEnv, densityEnvN, pseudoEnv, pseudoEnvN, energyEnvN, pressureEnvN)
    }

    /** Job computeCellMass. */
    method ComputeCellMass()
      requires Cells(eulerVolume0) && Cells(density0) && Cells(massFraction)
      modifies this`cellMass, this`cellMassEnv
      ensures Cells(cellMass) && Cells(cellMassEnv)
      ensures forall c :: 0 <= c < topo.nbCells ==> cellMass[c] == eulerVolume0[c] * density0[c]
      ensures forall c :: 0 <= c < topo.nbCells ==> cellMassEnv[c] == Split(massFraction[c], cellMass[c])
    {
      cellMass, cellMassEnv := CellMassLoop(eulerVolume0, density0, massFraction);
    }

    /** Job computeNodeMass. */
    method ComputeNodeMass()
      requires Setup() && Cells(cellMass)
      modifies this`nodeMass
      ensures |nodeMass| == topo.nbNodes
      ensures forall p :: 0 <= p < topo.nbNodes ==> nodeMass[p] == NodeMass(cellMass, topo.cellsOfNode[p])
    {
      nodeMass := NodeMassLoop(topo, cellMass);
    }

    /** Job computeArtificialViscosity, with the index of material 0. */
    method ComputeArtificialViscosity(sqrt: real -> real)
      requires Setup() && Cells(subVolumes) && Cells(tauDensity) && Cells(speedN) && Cells(divu) && Rows(fracvol)
      requires forall c :: 0 <= c < topo.nbCells && divu[c] < 0.0 ==> tauDensity[c] != 0.0
      modifies this`pseudo, this`pseudoEnv, this`aborted
      ensures Cells(pseudo) && Cells(pseudoEnv)
      ensures forall c :: 0 <= c < topo.nbCells ==>
        pseudo[c] == Viscosity(sqrt, materials[0].gamma, tauDensity[c], speedN[c], divu[c], Sum(subVolumes[c]))
      ensures forall c :: 0 <= c < topo.nbCells ==> pseudoEnv[c] == Split(fracvol[c], pseudo[c])
      ensures aborted <==> old(aborted) || exists c :: 0 <= c < topo.nbCells && pseudo[c] < 0.0
    {
      var ok;
      pseudo, pseudoEnv, ok := ViscosityLoop(sqrt, materials[0].gamma, topo, subVolumes, tauDensity, speedN, divu,
                                             fracvol);
      aborted := aborted || !ok;
    }

    /** Job updateRho. */
    method UpdateRho()
      requires Setup() && Cells(subVolumes) && Rows(fracvol) && Rows(cellMassEnv) && Rows(densityEnv)
      requires forall c :: 0 <= c < topo.nbCells ==> Sum(subVolumes[c]) != 0.0
      modifies this`lagrangeVolume, this`density, this`densityEnv, this`aborted
      ensures Cells(lagrangeVolume) && Cells(density) && Rows(densityEnv)
      ensures forall c :: 0 <= c < topo.nbCells ==>
        RhoRow(lagrangeVolume[c], density[c], densityEnv[c], subVolumes[c], fracvol[c], cellMassEnv[c],
               old(densityEnv[c]), options.threshold)
      ensures aborted <==> old(aborted) || (exists c :: 0 <= c < topo.nbCells && HasNegative(densityEnv[c]))
    {
      var negative;
      lagrangeVolume, density, densityEnv, negative :=
        RhoCells(topo.nbCells, nbmat, options.threshold, subVolumes, fracvol, cellMassEnv, densityEnv);
      aborted := aborted || negative;
    }

    /** Job computeTau. */
    method ComputeTau()
      requires Setup() && Cells(density) && Cells(densityN) && Cells(lagrangeVolume) && Cells(lagrangeVolumeN)
      requires Rows(densityEnv) && Rows(densityEnvN) && Rows(fracvol) && Rows(tauVolumeEnv)
      requires forall c :: 0 <= c < topo.nbCells ==> density[c] != 0.0 && densityN[c] != 0.0
      requires forall c :: 0 <= c < topo.nbCells ==> lagrangeVolume[c] != 0.0 && lagrangeVolumeN[c] != 0.0
      modifies this`tauDensity, this`tauVolume, this`tauDensityEnv, this`tauVolumeEnv
      ensures Cells(tauDensity) && Cells(tauVolume) && Rows(tauDensityEnv) && Rows(tauVolumeEnv)
      ensures forall c :: 0 <= c < topo.nbCells ==> tauDensity[c] == MeanSpecificVolume(density[c], densityN[c])
      ensures forall c :: 0 <= c < topo.nbCells ==>
        tauVolume[c] == MeanSpecificVolume(lagrangeVolume[c], lagrangeVolumeN[c])
      ensures forall c, i :: 0 <= c < topo.nbCells && 0 <= i < nbmat ==>
        tauDensityEnv[c][i] == MaterialTau(densityEnv[c][i], densityEnvN[c][i], options.threshold)
      ensures forall c, i :: 0 <= c < topo.nbCells && 0 <= i < nbmat ==>
        tauVolumeEnv[c][i] == MaterialTauVolume(tauVolume[c], fracvol[c][i], old(tauVolumeEnv[c][i]), options.threshold)
    {
      tauDensity, tauVolume, tauDensityEnv, tauVolumeEnv :=
        TauCells(topo.nbCells, nbmat, options.threshold, density, densityN, lagrangeVolume, lagrangeVolumeN,
                 densityEnv, densityEnvN, fracvol, tauVolumeEnv);
    }

    /** Job updateEnergy: the closed form with each material's gamma. */
    method UpdateEnergy()
      requires Setup() && Rows(densityEnv) && Rows(densityEnvN) && Rows(pseudoEnv) && Rows(pseudoEnvN)
      requires Rows(energyEnvN) && Rows(pressureEnvN) && Rows(massFraction)
      requires forall c, i :: 0 <= c < topo.nbCells && 0 <= i < nbmat && Active(Inputs()[c][i], options.threshold) ==>
        ClosedFormDefined(materials[i].gamma, Inputs()[c][i])
      modifies this`energy, this`energyEnv
      ensures Cells(energy) && Rows(energyEnv)
      ensures forall c, i :: 0 <= c < topo.nbCells && 0 <= i < nbmat ==>
        energyEnv[c][i] == ClosedFormMaterialEnergy(materials[i].gamma, options.pseudoCentree, options.threshold,
                                                    Inputs()[c][i])
      ensures forall c :: 0 <= c < topo.nbCells ==> energy[c] == Sum(Mul(massFraction[c], energyEnv[c]))
    {
      energy, energyEnv := ClosedFormCells(topo.nbCells, materials, options.pseudoCentree, options.threshold,
                                           Inputs(), massFraction);
    }

    /** The equation of updateEnergyite of every cell and material. */
    function DensityEquations(): (r: seq<seq<Option<Residual>>>)
      reads this`densityEnv, this`densityEnvN, this`pseudoEnv, this`pseudoEnvN, this`energyEnvN, this`pressureEnvN
      requires Setup() && Rows(densityEnv) && Rows(densityEnvN) && Rows(pseudoEnv) && Rows(pseudoEnvN)
      requires Rows(energyEnvN) && Rows(pressureEnvN)
      ensures Width(r, topo.nbCells, nbmat)
      ensures forall c, i :: 0 <= c < topo.nbCells && 0 <= i < nbmat ==>
        r[c][i] == DensityResidual(options.pseudoCentree, options.threshold, Inputs()[c][i])
    {
      DensityResiduals(options.pseudoCentree, options.threshold, Inputs())
    }

    /** Job updateEnergyite: Newton on fvnr for every active material; junk
        holds what the uninitialised p, c and dpde contain. */
    method UpdateEnergyIte(sqrt: real -> real, junk: seq<seq<Uninitialised>>)
      requires Setup() && Rows(densityEnv) && Rows(densityEnvN) && Rows(pseudoEnv) && Rows(pseudoEnvN)
      requires Rows(energyEnvN) && Rows(pressureEnvN) && Rows(massFraction) && Rows(speedEnv) && Rows(pressureEnv)
      requires Width(junk, topo.nbCells, nbmat)
      modifies this`energy, this`energyEnv, this`speedEnv, this`pressureEnv, this`undefined
      ensures Cells(energy) && Rows(energyEnv) && Rows(speedEnv) && Rows(pressureEnv)
      ensures CellsWritten(sqrt, materials, options.threshold, old(DensityEquations()), junk, massFraction, old(speedEnv),
                           old(pressureEnv), energy, energyEnv, speedEnv, pressureEnv)
      ensures undefined <==> old(undefined) ||
                             (exists c :: 0 <= c < topo.nbCells &&
                                AnyUndefined(Outcomes(sqrt, materials, options.threshold, old(DensityEquations())[c],
                                                      junk[c])))
    {
      var residuals := DensityEquations();
      var bad;
      energy, energyEnv, speedEnv, pressureEnv, bad :=
        NewtonCells(sqrt, topo.nbCells, materials, options.threshold, residuals, junk, massFraction, speedEnv,
                    pressureEnv);
      undefined := undefined || bad;
    }

    /** The sizes updateEnergycstsite needs. */
    predicate CornerSized()
      reads this`densityEnv, this`energyEnvN, this`pressureEnvN, this`pseudoEnvN, this`pseudoEnv, this`cellMassEnv
      reads this`cqsN1, this`cqsN, this`velocityN1
    {
      Setup() && CornerReady(topo, nbmat, options.threshold, densityEnv, energyEnvN, pressureEnvN, pseudoEnvN,
                             pseudoEnv, cellMassEnv, cqsN1, cqsN, velocityN1)
    }

    /** The equation of updateEnergycstsite of every cell and material. */
    function CornerEquations(): (r: seq<seq<Option<Residual>>>)
      reads this`densityEnv, this`energyEnvN, this`pressureEnvN, this`pseudoEnvN, this`pseudoEnv, this`cellMassEnv
      reads this`cqsN1, this`cqsN, this`velocityN1, this`dtN1
      requires CornerSized()
      ensures Width(r, topo.nbCells, nbmat)
    {
      CornerSystem(topo, nbmat, options.threshold, densityEnv, energyEnvN, pressureEnvN, pseudoEnvN, pseudoEnv,
                   cellMassEnv, cqsN1, cqsN, velocityN1, dtN1)
    }

    /** Job updateEnergycstsite: Newton on f for every material whose
        density at n+1 exceeds the threshold; junk holds what the
        uninitialised p, c and dpde contain. */
    method UpdateEnergyCstsIte(sqrt: real -> real, junk: seq<seq<Uninitialised>>)
      requires CornerSized() && Rows(massFraction) && Rows(speedEnv) && Rows(pressureEnv)
      requires Width(junk, topo.nbCells, nbmat)
      modifies this`energy, this`energyEnv, this`speedEnv, this`pressureEnv, this`undefined
      ensures Cells(energy) && Rows(energyEnv) && Rows(speedEnv) && Rows(pressureEnv)
      ensures CellsWritten(sqrt, materials, options.threshold, old(CornerEquations()), junk, massFraction, old(speedEnv),
                           old(pressureEnv), energy, energyEnv, speedEnv, pressureEnv)
      ensures undefined <==> old(undefined) ||
                             (exists c :: 0 <= c < topo.nbCells &&
                                AnyUndefined(Outcomes(sqrt, materials, options.threshold, old(CornerEquations())[c],
                                                      junk[c])))
    {
      ghost var equations := CornerEquations();
      assert equations == CornerSystem(topo, |materials|, options.threshold, densityEnv, energyEnvN, pressureEnvN,
                                       pseudoEnvN, pseudoEnv, cellMassEnv, cqsN1, cqsN, velocityN1, dtN1);
      var bad;
      energy, energyEnv, speedEnv, pressureEnv, bad :=
        CornerEnergyCells(sqrt, topo, materials, options.threshold, densityEnv, energyEnvN, pressureEnvN, pseudoEnvN,
                          pseudoEnv, cellMassEnv, cqsN1, cqsN, velocityN1, dtN1, junk, massFraction, speedEnv,
                          pressureEnv, equations);
      assert CellsWritten(sqrt, materials, options.threshold, equations, junk, massFraction, old(speedEnv),
                          old(pressureEnv), energy, energyEnv, speedEnv, pressureEnv);
      undefined := undefined || bad;
    }

    /** Job computePressionMoyenne. */
    method ComputePressionMoyenne(sqrt: real -> real)
      requires Setup() && Rows(fracvol) && Rows(pressureEnv) && Rows(speedEnv) && Rows(massFraction)
      requires Rows(energyEnv) && Cells(speed) && Cells(energy)
      modifies this`pressure, this`speed, this`energy
      ensures Cells(pressure) && Cells(speed) && Cells(energy)
      ensures forall c :: 0 <= c < topo.nbCells ==> pressure[c] == Sum(Mul(fracvol[c], pressureEnv[c]))
      ensures forall c :: 0 <= c < topo.nbCells ==>
        speed[c] == CellSpeed(sqrt, materials[0].gamma, options.threshold, old(speed[c]), speedEnv[c], old(energy[c]))
      ensures forall c :: 0 <= c < topo.nbCells ==>
        energy[c] == old(energy[c]) + Sum(VoidTerms(Codes(materials), massFraction[c], energyEnv[c]))
    {
      pressure, speed, energy := PressureCells(sqrt, topo.nbCells, materials, options.threshold, fracvol, pressureEnv,
                                               speedEnv, speed, energy, massFraction, energyEnv);
    }

    /** Job updateEnergyForTotalEnergyConservation, as written: `correction`
        is not reset between materials, so every material whose density at
        n+1 exceeds the threshold receives the running total of its own
        corner corrections and those of the active materials before it (see
        Lagrange.CarriedIsRunningSum; Lagrange.OwnCorrectionLoop is the loop
        with the correction restarted per material). The cell energy becomes
        the weighted sum of the active materials' energies. */
    method UpdateEnergyForTotalEnergyConservation()
      requires CorrectionReady(topo, nbmat, options.threshold, densityEnv, fracvol, pressureEnvN, pseudoEnvN,
                               pseudoEnv, cellMassEnv, cqsN, velocityN1, velocityN)
      requires Rows(energyEnv) && Rows(massFraction)
      modifies this`energy, this`energyEnv
      ensures Cells(energy) && Rows(energyEnv)
      ensures forall c :: 0 <= c < topo.nbCells ==>
        energyEnv[c] == Add(old(energyEnv[c]),
                            CarriedCorrections(CellCorrections(topo, nbmat, options.threshold, densityEnv, fracvol,
                                                           pressureEnvN, pseudoEnvN, pseudoEnv, cellMassEnv, cqsN,
                                                           velocityN1, velocityN, dtN1, dtN, c),
                                           Activity(densityEnv[c], options.threshold)))
      ensures forall c :: 0 <= c < topo.nbCells ==>
        energy[c] == Sum(ActiveWeighted(massFraction[c], energyEnv[c], Activity(densityEnv[c], options.threshold)))
    {
      energy, energyEnv := CorrectionCells(topo, nbmat, options.threshold, densityEnv, fracvol, pressureEnvN,
                                           pseudoEnvN, pseudoEnv, cellMassEnv, cqsN, velocityN1, velocityN, dtN1, dtN,
                                           energyEnv, massFraction);
    }
  }
}
