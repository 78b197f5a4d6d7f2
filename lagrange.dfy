// The Lagrangian phase of the Vnr scheme (class Vnr): cell and node masses,
// the artificial viscosity, the density and specific-volume updates, the
// three per-material internal-energy updates (closed form, Newton on fvnr,
// Newton on f), the mean pressure and sound speed, and the kinetic-energy
// correction. Every job loops over cells (or nodes) and, inside, over the
// materials; the loops are module-level methods proved against the
// per-cell functions below, and the class Vnr holds the arrays the jobs
// read and write.
module Lagrange {
  import opened Common
  import opened Eos
  import opened EnergySolve

  // ---------------------------------------------------------------------
  // Mesh connectivity and options

  /** The mesh queries the phase uses: the nodes of each cell (in the
      order of its corner arrays) and the cells of each node. */
  datatype Topology = Topology(nbCells: nat, nbNodes: nat, nodesOfCell: seq<seq<nat>>, cellsOfNode: seq<seq<nat>>)

  predicate ValidTopology(t: Topology)
  {
    && |t.nodesOfCell| == t.nbCells && |t.cellsOfNode| == t.nbNodes
    && (forall c, k :: 0 <= c < t.nbCells && 0 <= k < |t.nodesOfCell[c]| ==> t.nodesOfCell[c][k] < t.nbNodes)
    && (forall p, k :: 0 <= p < t.nbNodes && 0 <= k < |t.cellsOfNode[p]| ==> t.cellsOfNode[p][k] < t.nbCells)
    && (forall p :: 0 <= p < t.nbNodes ==> |t.cellsOfNode[p]| > 0)
  }

  /** options->threshold and options->pseudo_centree. */
  datatype Options = Options(threshold: real, pseudoCentree: int)

  // ---------------------------------------------------------------------
  // Reductions (sumR0)

  /** The accumulation loop of sumR0: a left-to-right sum. */
  method SumLoop(s: seq<real>) returns (r: real)
    ensures r == Sum(s)
  {
    r := 0.0;
    var k := 0;
    while k < |s|
      invariant 0 <= k <= |s|
      invariant r == Sum(s[..k])
    {
      SumStep(s, k);
      r := r + s[k];
      k := k + 1;
    }
    assert s[..|s|] == s;
  }

  /** values at the positions idx, in order. */
  function Gather(values: seq<real>, idx: seq<nat>): (r: seq<real>)
    requires forall k :: 0 <= k < |idx| ==> idx[k] < |values|
    ensures |r| == |idx| && forall k :: 0 <= k < |idx| ==> r[k] == values[idx[k]]
  {
    seq(|idx|, k requires 0 <= k < |idx| => values[idx[k]])
  }

  /** A total split by fractions: fractions[i] * total for each material. */
  function Split(fractions: seq<real>, total: real): (r: seq<real>)
    ensures |r| == |fractions| && forall i :: 0 <= i < |r| ==> r[i] == fractions[i] * total
  {
    seq(|fractions|, i requires 0 <= i < |fractions| => fractions[i] * total)
  }

  /** The parts of a split add up to the total times the sum of the
      fractions, hence to the total when the fractions sum to one. */
  lemma {:induction false} SplitAddsUp(fractions: seq<real>, total: real)
    ensures Sum(Split(fractions, total)) == Sum(fractions) * total
    ensures Sum(fractions) == 1.0 ==> Sum(Split(fractions, total)) == total
  {
    assert Split(fractions, total) == Scale(total, fractions);
    SumScale(total, fractions);
  }

  /** The loop that fills a split, one material at a time. */
  method SplitLoop(fractions: seq<real>, total: real) returns (r: seq<real>)
    ensures r == Split(fractions, total)
  {
    r := [];
    var i := 0;
    while i < |fractions|
      invariant 0 <= i <= |fractions| && |r| == i
      invariant forall j :: 0 <= j < i ==> r[j] == fractions[j] * total
    {
      var r' := r + [fractions[i] * total];
      forall j | 0 <= j < i + 1
        ensures r'[j] == fractions[j] * total
      {
        if j < i {
          assert r'[j] == r[j];
        }
      }
      r := r';
      i := i + 1;
    }
  }

  // ---------------------------------------------------------------------
  // computeCellMass

  /** The cell loop of computeCellMass: the cell mass is the Eulerian volume
      times the density at time 0, and each material gets its mass
      fraction of it. */
  method CellMassLoop(volume0: seq<real>, density0: seq<real>, massFraction: seq<seq<real>>)
      returns (mass: seq<real>, massEnv: seq<seq<real>>)
    requires |volume0| == |density0| == |massFraction|
    ensures |mass| == |massEnv| == |volume0|
    ensures forall c :: 0 <= c < |mass| ==> mass[c] == volume0[c] * density0[c]
    ensures forall c :: 0 <= c < |mass| ==> massEnv[c] == Split(massFraction[c], mass[c])
  {
    mass := [];
    massEnv := [];
    var c := 0;
    while c < |volume0|
      invariant 0 <= c <= |volume0| && |mass| == |massEnv| == c
      invariant forall k :: 0 <= k < c ==> mass[k] == volume0[k] * density0[k]
      invariant forall k :: 0 <= k < c ==> massEnv[k] == Split(massFraction[k], mass[k])
    {
      var m := volume0[c] * density0[c];
      var env := SplitLoop(massFraction[c], m);
      var mass', massEnv' := mass + [m], massEnv + [env];
      forall k | 0 <= k < c + 1
        ensures mass'[k] == volume0[k] * density0[k] && massEnv'[k] == Split(massFraction[k], mass'[k])
      {
        if k < c {
          assert mass'[k] == mass[k] && massEnv'[k] == massEnv[k];
        }
      }
      mass, massEnv := mass', massEnv';
      c := c + 1;
    }
  }

  // ---------------------------------------------------------------------
  // computeNodeMass

  /** The mass of a node: the mean of the masses of its cells. */
  function NodeMass(cellMass: seq<real>, cells: seq<nat>): real
    requires |cells| > 0 && forall k :: 0 <= k < |cells| ==> cells[k] < |cellMass|
  {
    Sum(Gather(cellMass, cells)) / |cells| as real
  }

  /** The node mass lies between the smallest and the largest mass of its
      cells. */
  lemma {:induction false} NodeMassIsBetweenCellMasses(cellMass: seq<real>, cells: seq<nat>, lo: real, hi: real)
    requires |cells| > 0 && forall k :: 0 <= k < |cells| ==> cells[k] < |cellMass|
    requires forall k :: 0 <= k < |cells| ==> lo <= cellMass[cells[k]] <= hi
    ensures lo <= NodeMass(cellMass, cells) <= hi
  {
    var g := Gather(cellMass, cells);
    SumBounds(g, lo, hi);
    MeanBounds(Sum(g), |cells| as real, lo, hi);
  }

  /** A node whose cells all weigh m weighs m. */
  lemma {:induction false} NodeMassOfEqualCells(cellMass: seq<real>, cells: seq<nat>, m: real)
    requires |cells| > 0 && forall k :: 0 <= k < |cells| ==> cells[k] < |cellMass|
    requires forall k :: 0 <= k < |cells| ==> cellMass[cells[k]] == m
    ensures NodeMass(cellMass, cells) == m
  {
    NodeMassIsBetweenCellMasses(cellMass, cells, m, m);
  }

  lemma {:induction false} MeanBounds(s: real, n: real, lo: real, hi: real)
    requires n > 0.0 && n * lo <= s <= n * hi
    ensures lo <= s / n <= hi
  {
    var q := s / n;
    assert q * n == s;
    assert (q - lo) * n >= 0.0;
    assert (hi - q) * n >= 0.0;
  }

  /** The node loop of computeNodeMass. */
  method NodeMassLoop(t: Topology, cellMass: seq<real>) returns (nodeMass: seq<real>)
    requires ValidTopology(t) && |cellMass| == t.nbCells
    ensures |nodeMass| == t.nbNodes
    ensures forall p :: 0 <= p < t.nbNodes ==> nodeMass[p] == NodeMass(cellMass, t.cellsOfNode[p])
  {
    nodeMass := [];
    var p := 0;
    while p < t.nbNodes
      invariant 0 <= p <= t.nbNodes && |nodeMass| == p
      invariant forall k :: 0 <= k < p ==> nodeMass[k] == NodeMass(cellMass, t.cellsOfNode[k])
    {
      var cells := t.cellsOfNode[p];
      var reduction := SumLoop(Gather(cellMass, cells));
      nodeMass := nodeMass + [reduction / |cells| as real];
      p := p + 1;
    }
  }

  // ---------------------------------------------------------------------
  // computeArtificialViscosity

  /** The artificial viscosity of a cell: zero unless the cell is compressed
      (divu < 0), then a linear term in the sound speed and a quadratic term
      in divu, over tau. v is the sum of the cell's nodal sub-volumes and
      gamma0 the index of the first material. */
  function Viscosity(sqrt: real -> real, gamma0: real, tau: real, speed: real, divu: real, v: real): (q: real)
    requires divu < 0.0 ==> tau != 0.0
    ensures divu >= 0.0 ==> q == 0.0
    ensures divu < 0.0 && tau > 0.0 && speed >= 0.0 && v >= 0.0 && sqrt(v) >= 0.0 && gamma0 >= -1.0 ==> q >= 0.0
  {
    if divu < 0.0 then
      var q := 1.0 / tau * (-0.5 * sqrt(v) * speed * divu + (gamma0 + 1.0) / 2.0 * v * divu * divu);
      ViscosityTermsAreNonNegative(sqrt(v), gamma0, tau, speed, divu, v);
      q
    else 0.0
  }

  lemma {:induction false} ViscosityTermsAreNonNegative(root: real, gamma0: real, tau: real, speed: real, divu: real, v: real)
    requires tau != 0.0
    ensures divu < 0.0 && tau > 0.0 && speed >= 0.0 && v >= 0.0 && root >= 0.0 && gamma0 >= -1.0 ==>
      1.0 / tau * (-0.5 * root * speed * divu + (gamma0 + 1.0) / 2.0 * v * divu * divu) >= 0.0
  {
    if divu < 0.0 && tau > 0.0 && speed >= 0.0 && v >= 0.0 && root >= 0.0 && gamma0 >= -1.0 {
      var a := root * speed;
      assert a >= 0.0;
      assert -0.5 * root * speed * divu == -0.5 * a * divu;
      assert -0.5 * a * divu >= 0.0;
      var b := (gamma0 + 1.0) / 2.0 * v;
      assert b >= 0.0;
      assert divu * divu > 0.0;
      assert (gamma0 + 1.0) / 2.0 * v * divu * divu == b * (divu * divu);
      var inv := 1.0 / tau;
      assert inv > 0.0;
    }
  }

  /** The cell loop of computeArtificialViscosity: the viscosity of each
      cell, its split by volume fraction, and whether some cell got a
      negative viscosity, which aborts the run. */
  method ViscosityLoop(sqrt: real -> real, gamma0: real, t: Topology, subVolumes: seq<seq<real>>, tau: seq<real>,
                       speed: seq<real>, divu: seq<real>, fracvol: seq<seq<real>>)
      returns (q: seq<real>, qEnv: seq<seq<real>>, ok: bool)
    requires |subVolumes| == |tau| == |speed| == |divu| == |fracvol| == t.nbCells
    requires forall c :: 0 <= c < t.nbCells && divu[c] < 0.0 ==> tau[c] != 0.0
    ensures |q| == |qEnv| == t.nbCells
    ensures forall c :: 0 <= c < t.nbCells ==>
      q[c] == Viscosity(sqrt, gamma0, tau[c], speed[c], divu[c], Sum(subVolumes[c]))
    ensures forall c :: 0 <= c < t.nbCells ==> qEnv[c] == Split(fracvol[c], q[c])
    ensures ok <==> forall c :: 0 <= c < t.nbCells ==> q[c] >= 0.0
  {
    q := [];
    qEnv := [];
    ok := true;
    var c := 0;
    while c < t.nbCells
      invariant 0 <= c <= t.nbCells && |q| == |qEnv| == c
      invariant forall k :: 0 <= k < c ==> q[k] == Viscosity(sqrt, gamma0, tau[k], speed[k], divu[k], Sum(subVolumes[k]))
      invariant forall k :: 0 <= k < c ==> qEnv[k] == Split(fracvol[k], q[k])
      invariant ok <==> forall k :: 0 <= k < c ==> q[k] >= 0.0
    {
      var qc := 0.0;
      if divu[c] < 0.0 {
        var reduction := SumLoop(subVolumes[c]);
        qc := 1.0 / tau[c] * (-0.5 * sqrt(reduction) * speed[c] * divu[c]
                              + (gamma0 + 1.0) / 2.0 * reduction * divu[c] * divu[c]);
      }
      var env := SplitLoop(fracvol[c], qc);
      if qc < 0.0 {
        ok := false;
      }
      q := q + [qc];
      qEnv := qEnv + [env];
      c := c + 1;
    }
  }

  // ---------------------------------------------------------------------
  // updateRho

  /** A material's density after updateRho: above the volume-fraction
      threshold, its mass over its share of the Lagrangian volume; at or
      below it, the previous density. */
  function UpdatedDensity(fracvol: real, massEnv: real, previous: real, volume: real, threshold: real): (r: real)
    requires volume != 0.0 && threshold >= 0.0
    ensures fracvol > threshold ==> r * (fracvol * volume) == massEnv
    ensures fracvol <= threshold ==> r == previous
  {
    if fracvol > threshold then massEnv / (fracvol * volume) else previous
  }

  /** The material densities of a cell after updateRho. */
  function UpdatedDensities(fracvol: seq<real>, massEnv: seq<real>, previous: seq<real>, volume: real,
                            threshold: real): (r: seq<real>)
    requires |fracvol| == |massEnv| == |previous| && volume != 0.0 && threshold >= 0.0
    ensures |r| == |fracvol|
    ensures forall i :: 0 <= i < |r| ==> r[i] == UpdatedDensity(fracvol[i], massEnv[i], previous[i], volume, threshold)
  {
    seq(|fracvol|, i requires 0 <= i < |fracvol| =>
      UpdatedDensity(fracvol[i], massEnv[i], previous[i], volume, threshold))
  }

  /** When every material is above the threshold, the mean density
      sum(fracvol * d) times the Lagrangian volume is the cell's mass:
      updateRho conserves mass. */
  lemma {:induction false} MeanDensityConservesMass(fracvol: seq<real>, massEnv: seq<real>, previous: seq<real>, volume: real,
                                 threshold: real, d: seq<real>)
    requires |fracvol| == |massEnv| == |previous| && volume != 0.0 && threshold >= 0.0
    requires forall i :: 0 <= i < |fracvol| ==> fracvol[i] > threshold
    requires d == UpdatedDensities(fracvol, massEnv, previous, volume, threshold)
    ensures Sum(Mul(fracvol, d)) * volume == Sum(massEnv)
  {
    DensitiesCarryTheirMass(fracvol, massEnv, previous, volume, threshold, d);
    ScaledWeightedSum(fracvol, d, massEnv, volume);
  }

  lemma {:induction false} DensitiesCarryTheirMass(fracvol: seq<real>, massEnv: seq<real>, previous: seq<real>, volume: real,
                                threshold: real, d: seq<real>)
    requires |fracvol| == |massEnv| == |previous| && volume != 0.0 && threshold >= 0.0
    requires forall i :: 0 <= i < |fracvol| ==> fracvol[i] > threshold
    requires d == UpdatedDensities(fracvol, massEnv, previous, volume, threshold)
    ensures forall i :: 0 <= i < |fracvol| ==> volume * (fracvol[i] * d[i]) == massEnv[i]
  {
    forall i | 0 <= i < |fracvol|
      ensures volume * (fracvol[i] * d[i]) == massEnv[i]
    {
      MassOfUpdatedDensity(fracvol[i], massEnv[i], previous[i], volume, threshold, d[i]);
    }
  }

  lemma {:induction false} MassOfUpdatedDensity(fracvol: real, massEnv: real, previous: real, volume: real, threshold: real, r: real)
    requires volume != 0.0 && threshold >= 0.0 && fracvol > threshold
    requires r == UpdatedDensity(fracvol, massEnv, previous, volume, threshold)
    ensures volume * (fracvol * r) == massEnv
  {
    assert r * (fracvol * volume) == massEnv;
    assert volume * (fracvol * r) == r * (fracvol * volume);
  }

  /** If v * (f[i] * d[i]) == m[i] for every i then v * sum(f * d) == sum(m). */
  lemma {:induction false} ScaledWeightedSum(f: seq<real>, d: seq<real>, m: seq<real>, v: real)
    requires |f| == |d| == |m|
    requires forall i :: 0 <= i < |f| ==> v * (f[i] * d[i]) == m[i]
    ensures Sum(Mul(f, d)) * v == Sum(m)
  {
    var weighted := Mul(f, d);
    var scaled := Scale(v, weighted);
    assert forall i :: 0 <= i < |f| ==> scaled[i] == m[i];
    assert scaled == m;
    SumScale(v, weighted);
  }

  /** One material of updateRho: above the volume-fraction threshold the
      density is the material mass over its volume, else it is kept. */
  method DensityTurn(fracvol: real, massEnv: real, previous: real, volume: real, threshold: real) returns (r: real)
    requires volume != 0.0 && threshold >= 0.0
    ensures r == UpdatedDensity(fracvol, massEnv, previous, volume, threshold)
  {
    r := previous;
    if fracvol > threshold {
      r := massEnv / (fracvol * volume);
    }
  }

  /** The material loop of updateRho for one cell: the new densities, the
      mean density sum(fracvol * density), and whether some material
      density is negative, which aborts the run. */
  method DensityLoop(fracvol: seq<real>, massEnv: seq<real>, previous: seq<real>, volume: real, threshold: real)
      returns (d: seq<real>, density: real, negative: bool)
    requires |fracvol| == |massEnv| == |previous| && volume != 0.0 && threshold >= 0.0
    ensures d == UpdatedDensities(fracvol, massEnv, previous, volume, threshold)
    ensures density == Sum(Mul(fracvol, d))
    ensures negative <==> exists i :: 0 <= i < |d| && d[i] < 0.0
  {
    d := previous;
    density := 0.0;
    negative := false;
    var i := 0;
    while i < |fracvol|
      invariant 0 <= i <= |fracvol| && |d| == |fracvol|
      invariant forall j :: 0 <= j < i ==> d[j] == UpdatedDensity(fracvol[j], massEnv[j], previous[j], volume, threshold)
      invariant forall j :: i <= j < |d| ==> d[j] == previous[j]
      invariant density == Sum(Mul(fracvol[..i], d[..i]))
      invariant negative <==> exists j :: 0 <= j < i && d[j] < 0.0
    {
      ghost var done := d[..i];
      var x := DensityTurn(fracvol[i], massEnv[i], d[i], volume, threshold);
      d := d[i := x];
      assert d[..i] == done;
      WeightedSumStep(fracvol, d, i);
      density := density + fracvol[i] * d[i];
      if d[i] < 0.0 {
        negative := true;
      }
      i := i + 1;
    }
    assert d == UpdatedDensities(fracvol, massEnv, previous, volume, threshold);
    assert fracvol[..|fracvol|] == fracvol && d[..|d|] == d;
  }

  // ---------------------------------------------------------------------
  // computeTau

  /** 0.5 (1/a + 1/b): the mean of the specific volumes at n+1 and n. */
  function MeanSpecificVolume(a: real, b: real): (r: real)
    requires a != 0.0 && b != 0.0
    ensures a > 0.0 && b > 0.0 ==> 0.0 < r && Min(1.0 / a, 1.0 / b) <= r <= Max(1.0 / a, 1.0 / b)
  {
    0.5 * (1.0 / a + 1.0 / b)
  }

  /** A material's tau_density: the mean specific volume when both its
      densities exceed the threshold, 0 otherwise. */
  function MaterialTau(rn1: real, rn: real, threshold: real): (r: real)
    requires threshold >= 0.0
    ensures r > 0.0 <==> rn1 > threshold && rn > threshold
    ensures r <= 0.0 ==> r == 0.0
  {
    if rn1 > threshold && rn > threshold then MeanSpecificVolume(rn1, rn) else 0.0
  }

  /** A material's tau_volume: above the volume-fraction threshold, the
      cell's tau_volume over the fraction; otherwise its previous value. */
  function MaterialTauVolume(tauVolume: real, fracvol: real, previous: real, threshold: real): (r: real)
    requires threshold >= 0.0
    ensures fracvol > threshold ==> r * fracvol == tauVolume
    ensures fracvol <= threshold ==> r == previous
  {
    if fracvol > threshold then tauVolume / fracvol else previous
  }

  /** The material loop of computeTau for one cell. */
  method TauLoop(tauVolume: real, densityEnv: seq<real>, densityEnvN: seq<real>, fracvol: seq<real>,
                 previousTauVolumeEnv: seq<real>, threshold: real)
      returns (tauEnv: seq<real>, tauVolumeEnv: seq<real>)
    requires |densityEnv| == |densityEnvN| == |fracvol| == |previousTauVolumeEnv| && threshold >= 0.0
    ensures |tauEnv| == |tauVolumeEnv| == |fracvol|
    ensures forall i :: 0 <= i < |fracvol| ==> tauEnv[i] == MaterialTau(densityEnv[i], densityEnvN[i], threshold)
    ensures forall i :: 0 <= i < |fracvol| ==>
      tauVolumeEnv[i] == MaterialTauVolume(tauVolume, fracvol[i], previousTauVolumeEnv[i], threshold)
  {
    tauEnv := [];
    tauVolumeEnv := previousTauVolumeEnv;
    var i := 0;
    while i < |fracvol|
      invariant 0 <= i <= |fracvol| && |tauEnv| == i && |tauVolumeEnv| == |fracvol|
      invariant forall j :: 0 <= j < i ==> tauEnv[j] == MaterialTau(densityEnv[j], densityEnvN[j], threshold)
      invariant forall j :: 0 <= j < i ==>
        tauVolumeEnv[j] == MaterialTauVolume(tauVolume, fracvol[j], previousTauVolumeEnv[j], threshold)
      invariant forall j :: i <= j < |fracvol| ==> tauVolumeEnv[j] == previousTauVolumeEnv[j]
    {
      var t := 0.0;
      if densityEnv[i] > threshold && densityEnvN[i] > threshold {
        t := 0.5 * (1.0 / densityEnv[i] + 1.0 / densityEnvN[i]);
      }
      tauEnv := tauEnv + [t];
      if fracvol[i] > threshold {
        tauVolumeEnv := tauVolumeEnv[i := tauVolume / fracvol[i]];
      }
      i := i + 1;
    }
  }

  // ---------------------------------------------------------------------
  // The energy updates (updateEnergy, updateEnergyite, updateEnergycstsite)

  /** What the energy equation of one material of one cell reads: its
      densities at n+1 and n, its pseudo-viscosities at n+1 and n, its
      energy and pressure at n. */
  datatype MaterialInputs = MaterialInputs(rn1: real, rn: real, qn1: real, qn: real, en: real, pn: real)

  /** The density test of updateEnergy and updateEnergyite. */
  predicate Active(x: MaterialInputs, threshold: real)
  {
    x.rn1 > threshold && x.rn > threshold
  }

  /** The pseudo term of an active material. */
  function Pseudo(centred: int, x: MaterialInputs): real
    requires x.rn1 != 0.0 && x.rn != 0.0
  {
    PseudoTerm(centred, x.qn1, x.qn, x.rn1, x.rn)
  }

  /** The denominator of updateEnergy's closed form is non-zero. */
  predicate ClosedFormDefined(gamma: real, x: MaterialInputs)
    requires x.rn1 != 0.0 && x.rn != 0.0
  {
    1.0 + 0.5 * (gamma - 1.0) * x.rn1 * (1.0 / x.rn1 - 1.0 / x.rn) != 0.0
  }

  /** updateEnergy for one material: the closed-form energy when the
      material is active, 0 otherwise. An active material's energy solves
      the implicit energy equation fvnr == 0 with the perfect-gas pressure
      of its gamma. */
  function ClosedFormMaterialEnergy(gamma: real, centred: int, threshold: real, x: MaterialInputs): (e: real)
    requires threshold >= 0.0
    requires Active(x, threshold) ==> ClosedFormDefined(gamma, x)
    ensures !Active(x, threshold) ==> e == 0.0
    ensures Active(x, threshold) ==>
      Fvnr(e, (gamma - 1.0) * x.rn1 * e, (gamma - 1.0) * x.rn1, x.en, Pseudo(centred, x), x.pn, x.rn1, x.rn) == 0.0
  {
    if Active(x, threshold) then
      ClosedFormSolvesEnergyEquation(gamma, x.en, x.pn, Pseudo(centred, x), x.rn1, x.rn);
      ClosedFormEnergy(gamma, x.en, x.pn, Pseudo(centred, x), x.rn1, x.rn)
    else 0.0
  }

  /** The material loop of updateEnergy for one cell: the material energies
      and the cell energy sum(mass fraction * energy). */
  method ClosedFormLoop(gamma: seq<real>, centred: int, threshold: real, xs: seq<MaterialInputs>,
                        massFraction: seq<real>) returns (e: seq<real>, total: real)
    requires |gamma| == |xs| == |massFraction| && threshold >= 0.0
    requires forall i :: 0 <= i < |xs| && Active(xs[i], threshold) ==> ClosedFormDefined(gamma[i], xs[i])
    ensures |e| == |xs|
    ensures forall i :: 0 <= i < |xs| ==> e[i] == ClosedFormMaterialEnergy(gamma[i], centred, threshold, xs[i])
    ensures total == Sum(Mul(massFraction, e))
  {
    e := [];
    total := 0.0;
    var i := 0;
    while i < |xs|
      invariant 0 <= i <= |xs| && |e| == i
      invariant forall j :: 0 <= j < i ==> e[j] == ClosedFormMaterialEnergy(gamma[j], centred, threshold, xs[j])
      invariant total == Sum(Mul(massFraction[..i], e))
    {
      var ei := ClosedFormMaterialEnergy(gamma[i], centred, threshold, xs[i]);
      AppendedWeightedSum(massFraction, e, ei, i);
      e := e + [ei];
      total := total + massFraction[i] * ei;
      i := i + 1;
    }
    assert massFraction[..|xs|] == massFraction;
  }

  /** Appending one value to the energies adds its weighted term. */
  lemma {:induction false} AppendedWeightedSum(w: seq<real>, e: seq<real>, x: real, i: nat)
    requires i < |w| && |e| == i
    ensures Sum(Mul(w[..i + 1], e + [x])) == Sum(Mul(w[..i], e)) + w[i] * x
  {
    var longer := Mul(w[..i + 1], e + [x]);
    var shorter := Mul(w[..i], e);
    assert forall j :: 0 <= j < i ==> longer[j] == shorter[j];
    assert |longer| == i + 1 && longer[i] == w[i] * x;
    assert longer == shorter + [w[i] * x];
    SumAppend(shorter, w[i] * x);
  }

  /** The values of p, c and dpde that the Newton loop of one material
      starts with: its variables are declared without initial value, and
      the first exit test reads p and dpde before any law evaluation. */
  datatype Uninitialised = Uninitialised(p: real, c: real, dpde: real)

  /** updateEnergyite's equation for one material: fvnr in affine form
      when the material is active, nothing otherwise. */
  function DensityResidual(centred: int, threshold: real, x: MaterialInputs): (r: Option<Residual>)
    requires threshold >= 0.0
    ensures r.Some? <==> Active(x, threshold)
    ensures r.Some? ==> r.value.density == x.rn1 && r.value.start == x.en
  {
    if Active(x, threshold) then Some(DensityForm(x.en, Pseudo(centred, x), x.pn, x.rn1, x.rn)) else None
  }

  /** The Newton loop of one material, when it has an equation to solve. */
  function Solve(sqrt: real -> real, mat: Material, threshold: real, res: Option<Residual>, junk: Uninitialised)
    : Option<NewtonResult>
  {
    match res
    case None => None
    case Some(r) => Some(Newton(sqrt, mat, r, threshold, junk.p, junk.c, junk.dpde))
  }

  /** The loop of updateEnergyite stops within 50 iterations, and when it
      stops before the cap by convergence, fvnr at the energy, pressure and
      dP/dE it writes is below the threshold. */
  lemma {:induction false} DensityNewtonStops(sqrt: real -> real, mat: Material, centred: int, threshold: real, x: MaterialInputs,
                           junk: Uninitialised)
    requires threshold >= 0.0 && Active(x, threshold)
    ensures var r := Solve(sqrt, mat, threshold, DensityResidual(centred, threshold, x), junk).value;
      && r.state.iterations <= NewtonMaxIterations
      && (r.status == IterationCap <==> r.state.iterations == NewtonMaxIterations)
      && (r.status == Converged ==>
            Abs(Fvnr(r.state.e, r.state.p, r.state.dpde, x.en, Pseudo(centred, x), x.pn, x.rn1, x.rn)) < threshold)
  {
    var r := Solve(sqrt, mat, threshold, DensityResidual(centred, threshold, x), junk).value;
    DensityFormIsFvnr(x.en, Pseudo(centred, x), x.pn, x.rn1, x.rn, r.state.e, r.state.p, r.state.dpde);
  }

  /** For a perfect gas whose first residual is not already small,
      updateEnergyite ends at updateEnergy's closed-form energy. */
  lemma {:induction false} DensityNewtonAgreesWithClosedForm(sqrt: real -> real, mat: Material, centred: int, threshold: real,
                                          x: MaterialInputs, junk: Uninitialised)
    requires threshold >= 0.0 && Active(x, threshold) && mat.code == PerfectGasCode
    requires ClosedFormDefined(mat.gamma, x)
    requires Abs(Fvnr(x.en, junk.p, junk.dpde, x.en, Pseudo(centred, x), x.pn, x.rn1, x.rn)) >= threshold
    ensures Solve(sqrt, mat, threshold, DensityResidual(centred, threshold, x), junk).value.state.e
         == ClosedFormMaterialEnergy(mat.gamma, centred, threshold, x)
  {
    assert mat == Material(PerfectGasCode, mat.gamma, mat.tension);
    PerfectGasNewtonMatchesClosedForm(sqrt, mat.gamma, mat.tension, x.en, Pseudo(centred, x), x.pn, x.rn1, x.rn,
                                      threshold, junk.p, junk.c, junk.dpde);
  }

  /** What a material's energy update leaves in its energy, sound speed and
      pressure slots: the loop's e, c and p when it ran; otherwise energy 0
      and the previous c and p. */
  datatype MaterialState = MaterialState(e: real, c: real, p: real)

  function Written(r: Option<NewtonResult>, c0: real, p0: real): (w: MaterialState)
    ensures r.None? ==> w == MaterialState(0.0, c0, p0)
    ensures r.Some? ==> w == MaterialState(r.value.state.e, r.value.state.c, r.value.state.p)
  {
    match r
    case None => MaterialState(0.0, c0, p0)
    case Some(n) => MaterialState(n.state.e, n.state.c, n.state.p)
  }

  /** The law had no formula, or the derivative vanished: what the source
      then writes is not defined. */
  predicate Undefined(r: Option<NewtonResult>)
  {
    r.Some? && (r.value.status.EosFailed? || r.value.status.ZeroDerivative?)
  }

  /** Runs the Newton loop of one material when it has an equation. */
  method SolveOne(sqrt: real -> real, mat: Material, threshold: real, res: Option<Residual>, junk: Uninitialised)
      returns (outcome: Option<NewtonResult>)
    ensures outcome == Solve(sqrt, mat, threshold, res, junk)
  {
    outcome := None;
    if res.Some? {
      var r := NewtonSolve(sqrt, mat, res.value, threshold, junk.p, junk.c, junk.dpde);
      outcome := Some(r);
    }
  }

  /** The material loop shared by updateEnergyite and updateEnergycstsite:
      each active material runs its Newton loop and its energy, sound speed
      and pressure are written; the cell energy is sum(mass fraction *
      energy); `undefined` flags a loop whose result the source leaves
      undefined. */
  method NewtonCellLoop(sqrt: real -> real, mats: seq<Material>, threshold: real, residuals: seq<Option<Residual>>,
                        junk: seq<Uninitialised>, massFraction: seq<real>, c0: seq<real>, p0: seq<real>)
      returns (e: seq<real>, c: seq<real>, p: seq<real>, total: real, undefined: bool)
    requires |mats| == |residuals| == |junk| == |massFraction| == |c0| == |p0|
    ensures |e| == |c| == |p| == |residuals|
    ensures forall i :: 0 <= i < |residuals| ==>
      MaterialState(e[i], c[i], p[i]) == Written(Solve(sqrt, mats[i], threshold, residuals[i], junk[i]), c0[i], p0[i])
    ensures total == Sum(Mul(massFraction, e))
    ensures undefined <==>
      exists i :: 0 <= i < |residuals| && Undefined(Solve(sqrt, mats[i], threshold, residuals[i], junk[i]))
  {
    ghost var outcomes := Outcomes(sqrt, mats, threshold, residuals, junk);
    e, c, p := [], [], [];
    total := 0.0;
    undefined := false;
    var i := 0;
    while i < |residuals|
      invariant 0 <= i <= |residuals| && |e| == |c| == |p| == i
      invariant forall j :: 0 <= j < i ==> MaterialState(e[j], c[j], p[j]) == Written(outcomes[j], c0[j], p0[j])
      invariant total == Sum(Mul(massFraction[..i], e))
      invariant undefined <==> exists j :: 0 <= j < i && Undefined(outcomes[j])
    {
      var outcome := SolveOne(sqrt, mats[i], threshold, residuals[i], junk[i]);
      assert outcome == outcomes[i];
      var st := Written(outcome, c0[i], p0[i]);
      undefined := undefined || Undefined(outcome);
      var ei := st.e;
      AppendedWeightedSum(massFraction, e, ei, i);
      total := total + massFraction[i] * ei;
      assert total == Sum(Mul(massFraction[..i + 1], e + [ei]));
      e, c, p := e + [ei], c + [st.c], p + [st.p];
      i := i + 1;
    }
    assert massFraction[..|residuals|] == massFraction;
  }

  /** The outcome of every material's Newton loop. */
  function Outcomes(sqrt: real -> real, mats: seq<Material>, threshold: real, residuals: seq<Option<Residual>>,
                    junk: seq<Uninitialised>): (r: seq<Option<NewtonResult>>)
    requires |mats| == |residuals| == |junk|
    ensures |r| == |residuals|
    ensures forall i :: 0 <= i < |residuals| ==> r[i] == Solve(sqrt, mats[i], threshold, residuals[i], junk[i])
  {
    seq(|residuals|, i requires 0 <= i < |residuals| => Solve(sqrt, mats[i], threshold, residuals[i], junk[i]))
  }

  /** sum(dot(cqs, v) dt) over the corners of a cell: the work terms cn1
      and cn of updateEnergycstsite. */
  function CornerTerms(cqs: seq<Vec2>, velocity: seq<Vec2>, nodes: seq<nat>, dt: real): (r: seq<real>)
    requires |cqs| == |nodes| && forall k :: 0 <= k < |nodes| ==> nodes[k] < |velocity|
    ensures |r| == |nodes| && forall k :: 0 <= k < |nodes| ==> r[k] == Dot(cqs[k], velocity[nodes[k]]) * dt
  {
    seq(|nodes|, k requires 0 <= k < |nodes| => Dot(cqs[k], velocity[nodes[k]]) * dt)
  }

  /** The corner loop of updateEnergycstsite. */
  method CornerWorkLoop(cqs: seq<Vec2>, velocity: seq<Vec2>, nodes: seq<nat>, dt: real) returns (w: real)
    requires |cqs| == |nodes| && forall k :: 0 <= k < |nodes| ==> nodes[k] < |velocity|
    ensures w == Sum(CornerTerms(cqs, velocity, nodes, dt))
  {
    ghost var terms := CornerTerms(cqs, velocity, nodes, dt);
    w := 0.0;
    var k := 0;
    while k < |nodes|
      invariant 0 <= k <= |nodes|
      invariant w == Sum(terms[..k])
    {
      SumStep(terms, k);
      w := w + Dot(cqs[k], velocity[nodes[k]]) * dt;
      k := k + 1;
    }
    assert terms[..|nodes|] == terms;
  }

  /** The corner work is proportional to the time step. */
  lemma {:induction false} CornerWorkScalesWithTimeStep(cqs: seq<Vec2>, velocity: seq<Vec2>, nodes: seq<nat>, dt: real)
    requires |cqs| == |nodes| && forall k :: 0 <= k < |nodes| ==> nodes[k] < |velocity|
    ensures Sum(CornerTerms(cqs, velocity, nodes, dt)) == dt * Sum(CornerTerms(cqs, velocity, nodes, 1.0))
  {
    var terms := CornerTerms(cqs, velocity, nodes, dt);
    var unit := CornerTerms(cqs, velocity, nodes, 1.0);
    forall k | 0 <= k < |nodes|
      ensures terms[k] == dt * unit[k]
    {
      var d := Dot(cqs[k], velocity[nodes[k]]);
      assert terms[k] == d * dt && unit[k] == d * 1.0;
    }
    var scaled := Scale(dt, unit);
    assert |scaled| == |terms| && forall k :: 0 <= k < |terms| ==> terms[k] == scaled[k];
    assert terms == scaled;
    SumScale(dt, CornerTerms(cqs, velocity, nodes, 1.0));
  }

  /** What updateEnergycstsite reads for one material besides the corner
      work: its density at n+1, energy, pressure and pseudo-viscosities at n
      and n+1 (the source's r, en, pn, qn, qn1) and its mass m. */
  datatype CornerInputs = CornerInputs(r: real, en: real, pn: real, qn: real, qn1: real, m: real)

  /** updateEnergycstsite's equation for one material: f in affine form
      when its density at n+1 exceeds the threshold, nothing otherwise. */
  function CornerResidual(threshold: real, y: CornerInputs, cn1: real, cn: real): (r: Option<Residual>)
    requires y.r > threshold ==> y.m != 0.0
    ensures r.Some? <==> y.r > threshold
    ensures r.Some? ==> r.value.density == y.r && r.value.start == y.en
  {
    if y.r > threshold then Some(CornerForm(y.en, y.qn, y.pn, cn1, cn, y.m, y.qn1, y.r)) else None
  }

  /** The loop of updateEnergycstsite stops within 50 iterations, and a
      converged energy leaves f below the threshold. */
  lemma {:induction false} CornerNewtonStops(sqrt: real -> real, mat: Material, threshold: real, y: CornerInputs, cn1: real, cn: real,
                          junk: Uninitialised)
    requires y.r > threshold && y.m != 0.0
    ensures var r := Solve(sqrt, mat, threshold, CornerResidual(threshold, y, cn1, cn), junk).value;
      && r.state.iterations <= NewtonMaxIterations
      && (r.status == IterationCap <==> r.state.iterations == NewtonMaxIterations)
      && (r.status == Converged ==>
            Abs(F(r.state.e, r.state.p, r.state.dpde, y.en, y.qn, y.pn, cn1, cn, y.m, y.qn1)) < threshold)
  {
    var r := Solve(sqrt, mat, threshold, CornerResidual(threshold, y, cn1, cn), junk).value;
    CornerFormIsF(y.en, y.qn, y.pn, cn1, cn, y.m, y.qn1, y.r, r.state.e, r.state.p, r.state.dpde);
  }

  /** f at energy e with the perfect-gas pressure (gamma-1) r e and its
      derivative (gamma-1) r. */
  function PerfectGasF(gamma: real, y: CornerInputs, cn1: real, cn: real, e: real): real
    requires y.m != 0.0
  {
    F(e, (gamma - 1.0) * y.r * e, (gamma - 1.0) * y.r, y.en, y.qn, y.pn, cn1, cn, y.m, y.qn1)
  }

  /** For a perfect gas whose first residual is not already small, the loop
      of updateEnergycstsite ends at an exact root of f with the perfect-gas
      pressure (gamma-1) r e. */
  lemma {:induction false} CornerNewtonSolvesForPerfectGas(sqrt: real -> real, mat: Material, threshold: real, y: CornerInputs,
                                        cn1: real, cn: real, junk: Uninitialised)
    requires y.r > threshold && y.m != 0.0 && mat.code == PerfectGasCode
    requires 1.0 + (0.5 * cn1 / y.m) * ((mat.gamma - 1.0) * y.r) != 0.0
    requires Abs(F(y.en, junk.p, junk.dpde, y.en, y.qn, y.pn, cn1, cn, y.m, y.qn1)) >= threshold
    ensures PerfectGasF(mat.gamma, y, cn1, cn, Solve(sqrt, mat, threshold, CornerResidual(threshold, y, cn1, cn), junk).value.state.e) == 0.0
  {
    var res := CornerForm(y.en, y.qn, y.pn, cn1, cn, y.m, y.qn1, y.r);
    assert CornerRootReady(mat.gamma, y, cn1, cn, res);
    var e := PerfectGasRoot(mat.gamma, res);
    assert PerfectGasF(mat.gamma, y, cn1, cn, e) == 0.0 by {
      CornerRootSolvesF(mat.gamma, y, cn1, cn, res);
    }
    var x := Solve(sqrt, mat, threshold, CornerResidual(threshold, y, cn1, cn), junk).value.state.e;
    assert x == e by {
      CornerNewtonEndsAtRoot(sqrt, mat, threshold, y, cn1, cn, junk, res);
    }
  }

  /** res is the corner form of the equation, whose perfect-gas root exists. */
  predicate CornerRootReady(gamma: real, y: CornerInputs, cn1: real, cn: real, res: Residual)
  {
    y.m != 0.0 && res == CornerForm(y.en, y.qn, y.pn, cn1, cn, y.m, y.qn1, y.r)
    && 1.0 + res.weight * ((gamma - 1.0) * res.density) != 0.0
  }

  lemma {:induction false} CornerNewtonEndsAtRoot(sqrt: real -> real, mat: Material, threshold: real, y: CornerInputs,
                               cn1: real, cn: real, junk: Uninitialised, res: Residual)
    requires y.r > threshold && mat.code == PerfectGasCode && CornerRootReady(mat.gamma, y, cn1, cn, res)
    requires Abs(F(y.en, junk.p, junk.dpde, y.en, y.qn, y.pn, cn1, cn, y.m, y.qn1)) >= threshold
    ensures Solve(sqrt, mat, threshold, CornerResidual(threshold, y, cn1, cn), junk).value.state.e
         == PerfectGasRoot(mat.gamma, res)
  {
    assert mat == Material(PerfectGasCode, mat.gamma, mat.tension);
    CornerFormIsF(y.en, y.qn, y.pn, cn1, cn, y.m, y.qn1, y.r, y.en, junk.p, junk.dpde);
    PerfectGasStep(sqrt, mat.gamma, mat.tension, res, threshold, NewtonState(y.en, junk.p, junk.c, junk.dpde, 0));
  }

  lemma {:induction false} CornerRootSolvesF(gamma: real, y: CornerInputs, cn1: real, cn: real, res: Residual)
    requires CornerRootReady(gamma, y, cn1, cn, res)
    ensures PerfectGasF(gamma, y, cn1, cn, PerfectGasRoot(gamma, res)) == 0.0
  {
    var e := PerfectGasRoot(gamma, res);
    AffineRootIsZero(res.weight, (gamma - 1.0) * res.density, res.offset);
    CornerFormIsF(y.en, y.qn, y.pn, cn1, cn, y.m, y.qn1, y.r, e, (gamma - 1.0) * y.r * e, (gamma - 1.0) * y.r);
  }

  // ---------------------------------------------------------------------
  // computePressionMoyenne

  /** The running maximum of the material sound speeds, started from the
      cell's current value (which the job does not reset). */
  function MaxFold(start: real, s: seq<real>): (r: real)
    ensures r >= start && forall i :: 0 <= i < |s| ==> r >= s[i]
    ensures r == start || exists i :: 0 <= i < |s| && r == s[i]
  {
    if s == [] then start else Max(MaxFold(start, s[..|s| - 1]), s[|s| - 1])
  }

  /** The cell sound speed computePressionMoyenne writes: above the energy
      threshold, the perfect-gas speed of material 0; otherwise the largest
      of the previous value and the material speeds. */
  function CellSpeed(sqrt: real -> real, gamma0: real, threshold: real, previous: real, speedEnv: seq<real>,
                     energy: real): (r: real)
    ensures energy > threshold ==> r == sqrt(gamma0 * (gamma0 - 1.0) * energy)
    ensures energy <= threshold ==> r >= previous && (forall i :: 0 <= i < |speedEnv| ==> r >= speedEnv[i])
    ensures energy <= threshold ==> r == previous || exists i :: 0 <= i < |speedEnv| && r == speedEnv[i]
  {
    if energy > threshold then sqrt(gamma0 * (gamma0 - 1.0) * energy) else MaxFold(previous, speedEnv)
  }

  /** The energy terms of the void materials, which the energy updates do
      not count. */
  function VoidTerms(codes: seq<int>, massFraction: seq<real>, energyEnv: seq<real>): (r: seq<real>)
    requires |codes| == |massFraction| == |energyEnv|
    ensures |r| == |codes|
    ensures forall i :: 0 <= i < |codes| ==> r[i] == (if codes[i] == VoidCode then massFraction[i] * energyEnv[i] else 0.0)
  {
    seq(|codes|, i requires 0 <= i < |codes| =>
      if codes[i] == VoidCode then massFraction[i] * energyEnv[i] else 0.0)
  }

  /** Without void materials the last loop of computePressionMoyenne leaves
      the cell energy unchanged. */
  lemma {:induction false} NoVoidNoEnergyChange(codes: seq<int>, massFraction: seq<real>, energyEnv: seq<real>)
    requires |codes| == |massFraction| == |energyEnv|
    requires forall i :: 0 <= i < |codes| ==> codes[i] != VoidCode
    ensures Sum(VoidTerms(codes, massFraction, energyEnv)) == 0.0
  {
    SumOfZeros(VoidTerms(codes, massFraction, energyEnv));
  }

  /** The mean pressure sum(fracvol * p) of non-negative fractions summing
      to 1 lies between the smallest and the largest material pressure. */
  lemma {:induction false} MeanPressureIsBetweenMaterialPressures(fracvol: seq<real>, pEnv: seq<real>, lo: real, hi: real)
    requires |fracvol| == |pEnv|
    requires forall i :: 0 <= i < |fracvol| ==> fracvol[i] >= 0.0 && lo <= pEnv[i] <= hi
    requires Sum(fracvol) == 1.0
    ensures lo <= Sum(Mul(fracvol, pEnv)) <= hi
  {
    WeightedSumBounds(fracvol, pEnv, lo, hi);
  }

  lemma {:induction false} WeightedSumBounds(w: seq<real>, v: seq<real>, lo: real, hi: real)
    requires |w| == |v|
    requires forall i :: 0 <= i < |w| ==> w[i] >= 0.0 && lo <= v[i] <= hi
    ensures lo * Sum(w) <= Sum(Mul(w, v)) <= hi * Sum(w)
  {
    WeightedSumAtLeast(w, v, lo);
    WeightedSumAtMost(w, v, hi);
  }

  /** The material loop of computePressionMoyenne for one cell: the mean
      pressure and the running maximum of the sound speeds. */
  method MeanPressureLoop(fracvol: seq<real>, pEnv: seq<real>, speedEnv: seq<real>, previousSpeed: real)
      returns (pressure: real, speed: real)
    requires |fracvol| == |pEnv| == |speedEnv|
    ensures pressure == Sum(Mul(fracvol, pEnv))
    ensures speed == MaxFold(previousSpeed, speedEnv)
  {
    pressure := 0.0;
    speed := previousSpeed;
    var i := 0;
    while i < |fracvol|
      invariant 0 <= i <= |fracvol|
      invariant pressure == Sum(Mul(fracvol[..i], pEnv[..i]))
      invariant speed == MaxFold(previousSpeed, speedEnv[..i])
    {
      assert speedEnv[..i + 1][..i] == speedEnv[..i];
      WeightedSumStep(fracvol, pEnv, i);
      pressure := pressure + fracvol[i] * pEnv[i];
      speed := Max(speed, speedEnv[i]);
      i := i + 1;
    }
    assert fracvol[..i] == fracvol && pEnv[..i] == pEnv && speedEnv[..i] == speedEnv;
  }

  /** The last loop of computePressionMoyenne: the void materials' energies
      added to the cell energy. */
  method VoidEnergyLoop(energy: real, codes: seq<int>, massFraction: seq<real>, energyEnv: seq<real>)
      returns (newEnergy: real)
    requires |codes| == |massFraction| == |energyEnv|
    ensures newEnergy == energy + Sum(VoidTerms(codes, massFraction, energyEnv))
  {
    ghost var terms := VoidTerms(codes, massFraction, energyEnv);
    newEnergy := energy;
    var i := 0;
    while i < |codes|
      invariant 0 <= i <= |codes|
      invariant newEnergy == energy + Sum(terms[..i])
    {
      SumStep(terms, i);
      if codes[i] == VoidCode {
        newEnergy := newEnergy + massFraction[i] * energyEnv[i];
      }
      i := i + 1;
    }
    assert terms[..i] == terms;
  }

  /** The job for one cell: the mean pressure and the sound speed over the
      materials, the speed override above the energy threshold, then the
      void materials' energies added to the cell energy. */
  method PressureCell(sqrt: real -> real, gamma0: real, threshold: real, fracvol: seq<real>, pEnv: seq<real>,
                      speedEnv: seq<real>, previousSpeed: real, energy: real, codes: seq<int>,
                      massFraction: seq<real>, energyEnv: seq<real>)
      returns (pressure: real, speed: real, newEnergy: real)
    requires |fracvol| == |pEnv| == |speedEnv| == |codes| == |massFraction| == |energyEnv|
    ensures pressure == Sum(Mul(fracvol, pEnv))
    ensures speed == CellSpeed(sqrt, gamma0, threshold, previousSpeed, speedEnv, energy)
    ensures newEnergy == energy + Sum(VoidTerms(codes, massFraction, energyEnv))
  {
    pressure, speed := MeanPressureLoop(fracvol, pEnv, speedEnv, previousSpeed);
    if energy > threshold {
      speed := sqrt(gamma0 * (gamma0 - 1.0) * energy);
    }
    newEnergy := VoidEnergyLoop(energy, codes, massFraction, energyEnv);
  }

  // ---------------------------------------------------------------------
  // updateEnergyForTotalEnergyConservation

  /** The two corrections one corner adds for one material: the kinetic
      energy term and the pseudo-viscosity term. */
  function CornerCorrection(fracvol: real, pn: real, qn: real, qn1: real, m: real, cqs: Vec2, v1: Vec2, v0: Vec2,
                            dt1: real, dt0: real): real
    requires m != 0.0
  {
    0.25 * fracvol * (pn + qn) * Dot(cqs, Minus(v1, v0)) * (dt1 - dt0) / m + (qn1 - qn) * Dot(cqs, v0) * dt0
  }

  /** The correction terms of one material over the corners of its cell. */
  function CorrectionTerms(fracvol: real, pn: real, qn: real, qn1: real, m: real, cqs: seq<Vec2>,
                           v1: seq<Vec2>, v0: seq<Vec2>, nodes: seq<nat>, dt1: real, dt0: real): (r: seq<real>)
    requires m != 0.0 && |cqs| == |nodes|
    requires forall k :: 0 <= k < |nodes| ==> nodes[k] < |v1| && nodes[k] < |v0|
    ensures |r| == |nodes|
    ensures forall k :: 0 <= k < |nodes| ==>
      r[k] == CornerCorrection(fracvol, pn, qn, qn1, m, cqs[k], v1[nodes[k]], v0[nodes[k]], dt1, dt0)
  {
    seq(|nodes|, k requires 0 <= k < |nodes| =>
      CornerCorrection(fracvol, pn, qn, qn1, m, cqs[k], v1[nodes[k]], v0[nodes[k]], dt1, dt0))
  }

  /** A material's own correction, when its velocity does not change and
      its pseudo-viscosity is constant in time: nothing. */
  lemma {:induction false} NoMotionNoCorrection(fracvol: real, pn: real, qn: real, m: real, cqs: seq<Vec2>, v: seq<Vec2>,
                             nodes: seq<nat>, dt1: real, dt0: real)
    requires m != 0.0 && |cqs| == |nodes|
    requires forall k :: 0 <= k < |nodes| ==> nodes[k] < |v|
    ensures Sum(CorrectionTerms(fracvol, pn, qn, qn, m, cqs, v, v, nodes, dt1, dt0)) == 0.0
  {
    var terms := CorrectionTerms(fracvol, pn, qn, qn, m, cqs, v, v, nodes, dt1, dt0);
    forall k | 0 <= k < |nodes|
      ensures terms[k] == 0.0
    {
      var a := v[nodes[k]];
      assert Dot(cqs[k], Minus(a, a)) == 0.0;
    }
    SumOfZeros(terms);
  }

  /** The running total `correction` when the loop reaches material i: the
      own corrections of the active materials before it. */
  function Running(own: seq<real>, active: seq<bool>, i: nat): real
    requires |own| == |active| && i <= |own|
  {
    if i == 0 then 0.0 else Running(own, active, i - 1) + (if active[i - 1] then own[i - 1] else 0.0)
  }

  /** The correction each material receives as the source computes it: the
      running total `correction` is not reset between materials, so an
      active material receives its own terms plus those of every active
      material before it; an inactive one receives nothing. */
  function CarriedCorrections(own: seq<real>, active: seq<bool>): (r: seq<real>)
    requires |own| == |active|
    ensures |r| == |own|
    ensures forall i :: 0 <= i < |own| ==> r[i] == (if active[i] then Running(own, active, i + 1) else 0.0)
  {
    seq(|own|, i requires 0 <= i < |own| => if active[i] then Running(own, active, i + 1) else 0.0)
  }

  /** The weighted energy terms of the active materials. */
  function ActiveWeighted(massFraction: seq<real>, energyEnv: seq<real>, active: seq<bool>): (r: seq<real>)
    requires |massFraction| == |energyEnv| == |active|
    ensures |r| == |active|
    ensures forall i :: 0 <= i < |active| ==> r[i] == (if active[i] then massFraction[i] * energyEnv[i] else 0.0)
  {
    seq(|active|, i requires 0 <= i < |active| => if active[i] then massFraction[i] * energyEnv[i] else 0.0)
  }

  /** The material loop of updateEnergyForTotalEnergyConservation for one
      cell, as written: `own` holds each material's sum of corner
      corrections; each active material's energy receives the running
      correction, and the cell energy sums the active materials' weighted
      energies. */
  method CorrectionLoop(energyEnv: seq<real>, own: seq<real>, active: seq<bool>, massFraction: seq<real>)
      returns (newEnv: seq<real>, total: real)
    requires |energyEnv| == |own| == |active| == |massFraction|
    ensures newEnv == Add(energyEnv, CarriedCorrections(own, active))
    ensures total == Sum(ActiveWeighted(massFraction, newEnv, active))
  {
    ghost var carried := CarriedCorrections(own, active);
    ghost var final := Add(energyEnv, carried);
    ghost var weighted := ActiveWeighted(massFraction, final, active);
    newEnv := energyEnv;
    total := 0.0;
    var correction := 0.0;
    var i := 0;
    while i < |own|
      invariant 0 <= i <= |own| && |newEnv| == |own|
      invariant correction == Running(own, active, i)
      invariant forall j :: 0 <= j < i ==> newEnv[j] == final[j]
      invariant forall j :: i <= j < |own| ==> newEnv[j] == energyEnv[j]
      invariant total == Sum(weighted[..i])
    {
      SumStep(weighted, i);
      if active[i] {
        correction := correction + own[i];
        newEnv := newEnv[i := newEnv[i] + correction];
        total := total + massFraction[i] * newEnv[i];
      }
      i := i + 1;
    }
    assert weighted[..i] == weighted;
    assert newEnv == final;
  }

  /** The correction each material should receive: its own terms. */
  function OwnCorrections(own: seq<real>, active: seq<bool>): (r: seq<real>)
    requires |own| == |active|
    ensures |r| == |own|
    ensures forall i :: 0 <= i < |own| ==> r[i] == (if active[i] then own[i] else 0.0)
  {
    seq(|own|, i requires 0 <= i < |own| => if active[i] then own[i] else 0.0)
  }

  /** The correction is carried over: with two active materials, the second
      receives the first one's correction as well as its own. */
  lemma {:induction false} CorrectionLeaksIntoNextMaterial(a: real, b: real)
    requires a != 0.0
    ensures CarriedCorrections([a, b], [true, true]) == [a, a + b]
    ensures CarriedCorrections([a, b], [true, true])[1] != OwnCorrections([a, b], [true, true])[1]
  {
    assert Running([a, b], [true, true], 1) == a;
    assert Running([a, b], [true, true], 2) == a + b;
  }

  /** As written, each active material receives the sum of the own
      corrections of itself and of every active material before it. */
  lemma {:induction false} CarriedIsRunningSum(own: seq<real>, active: seq<bool>, i: nat)
    requires |own| == |active| && i < |own| && active[i]
    ensures CarriedCorrections(own, active)[i] == Sum(OwnCorrections(own, active)[..i + 1])
  {
    RunningIsPrefixSum(own, active, i + 1);
  }

  lemma {:induction false} RunningIsPrefixSum(own: seq<real>, active: seq<bool>, i: nat)
    requires |own| == |active| && i <= |own|
    ensures Running(own, active, i) == Sum(OwnCorrections(own, active)[..i])
  {
    var o := OwnCorrections(own, active);
    if i == 0 {
      assert o[..0] == [];
    } else {
      RunningIsPrefixSum(own, active, i - 1);
      SumStep(o, i - 1);
    }
  }

  /** The carry-over is invisible in a cell where at most one material takes
      part: there the running correction is that material's own. */
  lemma {:induction false} CarriedIsOwnWithOneActiveMaterial(own: seq<real>, active: seq<bool>)
    requires |own| == |active|
    requires forall i, j :: 0 <= i < |active| && 0 <= j < |active| && active[i] && active[j] ==> i == j
    ensures CarriedCorrections(own, active) == OwnCorrections(own, active)
  {
    var carried := CarriedCorrections(own, active);
    var mine := OwnCorrections(own, active);
    forall i | 0 <= i < |own|
      ensures carried[i] == mine[i]
    {
      if active[i] {
        NothingActiveBefore(own, active, i);
      }
    }
  }

  lemma {:induction false} NothingActiveBefore(own: seq<real>, active: seq<bool>, k: nat)
    requires |own| == |active| && k <= |own|
    requires forall j :: 0 <= j < k ==> !active[j]
    ensures Running(own, active, k) == 0.0
  {
    if k > 0 {
      NothingActiveBefore(own, active, k - 1);
    }
  }

  /** The material loop as evidently intended: `correction` restarts at
      zero for each material, so each active material receives its own
      corner terms and nothing else. */
  method OwnCorrectionLoop(energyEnv: seq<real>, own: seq<real>, active: seq<bool>, massFraction: seq<real>)
      returns (newEnv: seq<real>, total: real)
    requires |energyEnv| == |own| == |active| == |massFraction|
    ensures newEnv == Add(energyEnv, OwnCorrections(own, active))
    ensures total == Sum(ActiveWeighted(massFraction, newEnv, active))
  {
    ghost var final := Add(energyEnv, OwnCorrections(own, active));
    ghost var weighted := ActiveWeighted(massFraction, final, active);
    newEnv := energyEnv;
    total := 0.0;
    var i := 0;
    while i < |own|
      invariant 0 <= i <= |own| && |newEnv| == |own|
      invariant forall j :: 0 <= j < i ==> newEnv[j] == final[j]
      invariant forall j :: i <= j < |own| ==> newEnv[j] == energyEnv[j]
      invariant total == Sum(weighted[..i])
    {
      SumStep(weighted, i);
      if active[i] {
        var correction := own[i];
        newEnv := newEnv[i := newEnv[i] + correction];
        total := total + massFraction[i] * newEnv[i];
      }
      i := i + 1;
    }
    assert weighted[..i] == weighted;
    assert newEnv == final;
  }

  /** With its own corrections, the cell energy of the active materials
      changes by exactly the weighted sum of their own corrections. */
  lemma {:induction false} OwnCorrectionsAddUp(massFraction: seq<real>, energyEnv: seq<real>, own: seq<real>, active: seq<bool>)
    requires |massFraction| == |energyEnv| == |own| == |active|
    ensures Sum(ActiveWeighted(massFraction, Add(energyEnv, OwnCorrections(own, active)), active))
         == Sum(ActiveWeighted(massFraction, energyEnv, active)) + Sum(ActiveWeighted(massFraction, own, active))
  {
    var x := ActiveWeighted(massFraction, energyEnv, active);
    var y := ActiveWeighted(massFraction, own, active);
    var z := ActiveWeighted(massFraction, Add(energyEnv, OwnCorrections(own, active)), active);
    var xy := Add(x, y);
    forall i | 0 <= i < |z|
      ensures z[i] == xy[i]
    {
      if active[i] {
        assert z[i] == massFraction[i] * (energyEnv[i] + own[i]);
      }
    }
    assert z == xy;
    SumOfAdd(x, y);
  }
}
