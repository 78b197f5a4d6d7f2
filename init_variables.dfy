// Variable initialisation of class Initialisations (initVar): every
// per-material slot is zeroed, the test case selects one scenario
// initialiser through a chain of tests where the first match wins, a
// single-material run gets the fractions (1, 0, 0), and every cell is
// classified as mixed or pure from its volume fractions.
module InitVariables {
  import opened Common

  /** The scenario names recognised by initVar. */
  datatype Scenario =
    | UnitTestCase | BiUnitTestCase | SodCaseX | SodCaseY | BiSodCaseX | BiSodCaseY
    | BiShockBubble | TriplePoint | BiTriplePoint | SedovTestCase
    | AdvectionX | AdvectionY | BiAdvectionX | BiAdvectionY | BiAdvectionVitX | BiAdvectionVitY
    | Implosion | BiImplosion
    | MonoRiderTx | MonoRiderTy | MonoRiderT45 | MonoRiderRotation | MonoRiderVortex
    | MonoRiderDeformation | MonoRiderVortexTimeReverse | MonoRiderDeformationTimeReverse
    | RiderTx | RiderTy | RiderT45 | RiderRotation | RiderVortex | RiderDeformation
    | RiderVortexTimeReverse | RiderDeformationTimeReverse

  /** The integer code in test->Nom: one of the named scenarios, or a code
      that names none of them. */
  datatype TestCase = Known(scenario: Scenario) | Other(code: int)

  /** The scenario initialisers of the source (initVarUnitTest, …); the two
      Rider families take the centre of the disk. Their bodies are not part
      of this model. */
  datatype Initialiser =
    | VarUnitTest | VarBiUnitTest | VarSod | VarBiSod | VarShockBubble | VarTriplePoint
    | VarBiTriplePoint | VarSedov | VarAdvection | VarBiAdvection | VarBiAdvectionVitesse
    | VarImplosion | VarBiImplosion | VarRiderMono(x: real, y: real) | VarRider(x: real, y: real)

  /** One `else if` of the chain: the test compares the code with one
      scenario name, or with either of two, and calls one initialiser. */
  datatype Branch = Branch(first: Scenario, second: Option<Scenario>, init: Initialiser)

  /** Whether the test of branch b accepts scenario s. */
  predicate Accepts(b: Branch, s: Scenario)
  {
    s == b.first || b.second == Some(s)
  }

  /** The chain of tests, in source order. Branch 24 repeats the test of
      branch 23. */
  const Branches: seq<Branch> := [
    Branch(UnitTestCase, None, VarUnitTest),
    Branch(BiUnitTestCase, None, VarBiUnitTest),
    Branch(SodCaseX, Some(SodCaseY), VarSod),
    Branch(BiSodCaseX, Some(BiSodCaseY), VarBiSod),
    Branch(BiShockBubble, None, VarShockBubble),
    Branch(TriplePoint, None, VarTriplePoint),
    Branch(BiTriplePoint, None, VarBiTriplePoint),
    Branch(SedovTestCase, None, VarSedov),
    Branch(AdvectionX, Some(AdvectionY), VarAdvection),
    Branch(BiAdvectionX, Some(BiAdvectionY), VarBiAdvection),
    Branch(BiAdvectionVitX, Some(BiAdvectionVitY), VarBiAdvectionVitesse),
    Branch(Implosion, None, VarImplosion),
    Branch(BiImplosion, None, VarBiImplosion),
    Branch(MonoRiderTx, None, VarRiderMono(0.20, 0.20)),
    Branch(MonoRiderTy, None, VarRiderMono(0.20, 0.20)),
    Branch(MonoRiderT45, None, VarRiderMono(0.20, 0.20)),
    Branch(MonoRiderRotation, None, VarRiderMono(0.50, 0.75)),
    Branch(MonoRiderVortex, None, VarRiderMono(0.50, 0.75)),
    Branch(MonoRiderDeformation, None, VarRiderMono(0.50, 0.75)),
    Branch(MonoRiderVortexTimeReverse, None, VarRiderMono(0.50, 0.75)),
    Branch(MonoRiderDeformationTimeReverse, None, VarRider(0.50, 0.75)),
    Branch(RiderTx, None, VarRider(0.20, 0.20)),
    Branch(RiderTy, None, VarRider(0.20, 0.20)),
    Branch(RiderT45, None, VarRider(0.20, 0.20)),
    Branch(RiderT45, None, VarRider(0.20, 0.20)),
    Branch(RiderRotation, None, VarRider(0.50, 0.75)),
    Branch(RiderVortex, None, VarRider(0.50, 0.75)),
    Branch(RiderDeformation, None, VarRider(0.50, 0.75)),
    Branch(RiderVortexTimeReverse, None, VarRider(0.50, 0.75)),
    Branch(RiderDeformationTimeReverse, None, VarRider(0.50, 0.75))
  ]

  /** The first branch of bs, from branch i on, whose test accepts s. */
  function FirstMatch(bs: seq<Branch>, s: Scenario, i: nat): (r: Option<nat>)
    requires i <= |bs|
    decreases |bs| - i
    ensures r.Some? ==> i <= r.value < |bs| && Accepts(bs[r.value], s)
    ensures r.Some? ==> forall j :: i <= j < r.value ==> !Accepts(bs[j], s)
    ensures r.None? <==> forall j :: i <= j < |bs| ==> !Accepts(bs[j], s)
  {
    if i == |bs| then None
    else if Accepts(bs[i], s) then Some(i)
    else FirstMatch(bs, s, i + 1)
  }

  /** The initialiser the chain calls, or None for the final `else`, which
      reports an unknown test case and exits. */
  function Dispatch(t: TestCase): Option<Initialiser>
  {
    match t
    case Other(_) => None
    case Known(s) =>
      match FirstMatch(Branches, s, 0)
      case None => None
      case Some(k) => Some(Branches[k].init)
  }

  /** The run aborts exactly for a code that names no scenario. */
  lemma {:induction false} AbortsIffUnknown(t: TestCase)
    ensures Dispatch(t).None? <==> t.Other?
  {
    if t.Known? {
      var k := match t.scenario
        case UnitTestCase => 0
        case BiUnitTestCase => 1
        case SodCaseX => 2
        case SodCaseY => 2
        case BiSodCaseX => 3
        case BiSodCaseY => 3
        case BiShockBubble => 4
        case TriplePoint => 5
        case BiTriplePoint => 6
        case SedovTestCase => 7
        case AdvectionX => 8
        case AdvectionY => 8
        case BiAdvectionX => 9
        case BiAdvectionY => 9
        case BiAdvectionVitX => 10
        case BiAdvectionVitY => 10
        case Implosion => 11
        case BiImplosion => 12
        case MonoRiderTx => 13
        case MonoRiderTy => 14
        case MonoRiderT45 => 15
        case MonoRiderRotation => 16
        case MonoRiderVortex => 17
        case MonoRiderDeformation => 18
        case MonoRiderVortexTimeReverse => 19
        case MonoRiderDeformationTimeReverse => 20
        case RiderTx => 21
        case RiderTy => 22
        case RiderT45 => 23
        case RiderRotation => 25
        case RiderVortex => 26
        case RiderDeformation => 27
        case RiderVortexTimeReverse => 28
        case RiderDeformationTimeReverse => 29;
      assert Accepts(Branches[k], t.scenario);
    }
  }

  /** A branch whose test repeats the test of an earlier branch never
      fires. */
  lemma {:induction false} ShadowedNeverFires(bs: seq<Branch>, s: Scenario, i: nat, j: nat)
    requires i < j < |bs| && bs[i].first == bs[j].first && bs[i].second == bs[j].second
    ensures FirstMatch(bs, s, 0) != Some(j)
  {
    if FirstMatch(bs, s, 0) == Some(j) {
      assert Accepts(bs[i], s);
    }
  }

  /** A branch fires when its test accepts and no earlier test does. */
  lemma {:induction false} FiresWhenFirst(bs: seq<Branch>, s: Scenario, k: nat)
    requires k < |bs| && Accepts(bs[k], s)
    requires forall j :: 0 <= j < k ==> !Accepts(bs[j], s)
    ensures FirstMatch(bs, s, 0) == Some(k)
  {
  }

  /** The second RiderT45 test is never the one that fires: the first one
      has already accepted the scenario. */
  lemma {:induction false} SecondRiderT45Unreachable(s: Scenario)
    ensures FirstMatch(Branches, s, 0) != Some(24)
  {
    ShadowedNeverFires(Branches, s, 23, 24);
  }

  /** MonoRiderDeformationTimeReverse calls the multi-material Rider
      initialiser, unlike every other MonoRider scenario. */
  lemma {:induction false} MonoRiderDeformationTimeReverseCallsRider()
    ensures Dispatch(Known(MonoRiderDeformationTimeReverse)) == Some(VarRider(0.50, 0.75))
  {
    FiresWhenFirst(Branches, MonoRiderDeformationTimeReverse, 20);
  }

  // ---------------------------------------------------------------------
  // Mixed and pure cells

  /** matcell: the number of materials of a cell whose volume fraction
      exceeds the threshold. */
  function CountAbove(row: seq<real>, threshold: real): (r: nat)
    ensures r <= |row|
    ensures r == 0 <==> forall j :: 0 <= j < |row| ==> row[j] <= threshold
  {
    if row == [] then 0
    else
      assert forall j :: 0 <= j < |row| - 1 ==> row[..|row| - 1][j] == row[j];
      CountAbove(row[..|row| - 1], threshold) + (if row[|row| - 1] > threshold then 1 else 0)
  }

  /** imatpure: the last material whose volume fraction exceeds the
      threshold, or -1 when there is none. */
  function LastAbove(row: seq<real>, threshold: real): (r: int)
    ensures -1 <= r < |row|
    ensures r >= 0 ==> row[r] > threshold && forall j :: r < j < |row| ==> row[j] <= threshold
    ensures r == -1 <==> forall j :: 0 <= j < |row| ==> row[j] <= threshold
  {
    if row == [] then -1
    else if row[|row| - 1] > threshold then |row| - 1
    else
      var r := LastAbove(row[..|row| - 1], threshold);
      assert forall j :: 0 <= j < |row| - 1 ==> row[..|row| - 1][j] == row[j];
      r
  }

  /** The indicators of a cell: mixte is 1 for a mixed cell, and pure is
      the material of a pure cell (-1 for a mixed or empty one). */
  datatype CellKind = CellKind(mixte: int, pure: int)

  /** The classification of one cell from its volume fractions. */
  function Classify(row: seq<real>, threshold: real): CellKind
  {
    if CountAbove(row, threshold) > 1 then CellKind(1, -1)
    else CellKind(0, LastAbove(row, threshold))
  }

  /** Two distinct materials above the threshold make the count at least
      two. */
  lemma {:induction false} TwoAboveCount(row: seq<real>, threshold: real, i: nat, j: nat)
    requires i < j < |row| && row[i] > threshold && row[j] > threshold
    ensures CountAbove(row, threshold) >= 2
    decreases |row|
  {
    var front := row[..|row| - 1];
    if j < |row| - 1 {
      TwoAboveCount(front, threshold, i, j);
    } else {
      OneAboveCount(front, threshold, i);
    }
  }

  /** One material above the threshold makes the count at least one. */
  lemma {:induction false} OneAboveCount(row: seq<real>, threshold: real, i: nat)
    requires i < |row| && row[i] > threshold
    ensures CountAbove(row, threshold) >= 1
    decreases |row|
  {
    if i < |row| - 1 {
      OneAboveCount(row[..|row| - 1], threshold, i);
    }
  }

  /** A count of two or more has two distinct materials above the
      threshold behind it. */
  lemma {:induction false} CountWitnesses(row: seq<real>, threshold: real)
    requires CountAbove(row, threshold) >= 2
    ensures exists i, j :: 0 <= i < j < |row| && row[i] > threshold && row[j] > threshold
    decreases |row|
  {
    var front := row[..|row| - 1];
    if CountAbove(front, threshold) >= 2 {
      CountWitnesses(front, threshold);
      var i, j :| 0 <= i < j < |front| && front[i] > threshold && front[j] > threshold;
      assert row[i] > threshold && row[j] > threshold;
    } else {
      assert row[|row| - 1] > threshold && CountAbove(front, threshold) >= 1;
      var i := AboveWitness(front, threshold);
      assert row[i] > threshold;
    }
  }

  /** A positive count has a material above the threshold behind it. */
  lemma {:induction false} AboveWitness(row: seq<real>, threshold: real) returns (i: nat)
    requires CountAbove(row, threshold) >= 1
    ensures i < |row| && row[i] > threshold
    decreases |row|
  {
    var front := row[..|row| - 1];
    if row[|row| - 1] > threshold {
      i := |row| - 1;
    } else {
      i := AboveWitness(front, threshold);
    }
  }

  /** A cell is mixed exactly when two distinct materials exceed the
      threshold; a mixed cell has no pure material. */
  lemma {:induction false} MixedIffTwoAbove(row: seq<real>, threshold: real)
    ensures Classify(row, threshold).mixte == 1 <==>
      exists i, j :: 0 <= i < j < |row| && row[i] > threshold && row[j] > threshold
    ensures Classify(row, threshold).mixte == 1 ==> Classify(row, threshold).pure == -1
    ensures Classify(row, threshold).mixte == 0 || Classify(row, threshold).mixte == 1
  {
    if CountAbove(row, threshold) >= 2 {
      CountWitnesses(row, threshold);
    }
    if exists i, j :: 0 <= i < j < |row| && row[i] > threshold && row[j] > threshold {
      var i, j :| 0 <= i < j < |row| && row[i] > threshold && row[j] > threshold;
      TwoAboveCount(row, threshold, i, j);
    }
  }

  /** In a cell that is not mixed, pure names the one material above the
      threshold, and is -1 when no material is. */
  lemma {:induction false} PureIsTheOnlyAbove(row: seq<real>, threshold: real)
    requires Classify(row, threshold).mixte == 0
    ensures forall i :: 0 <= i < |row| ==> (row[i] > threshold <==> i == Classify(row, threshold).pure)
  {
    var p := LastAbove(row, threshold);
    forall i | 0 <= i < |row| && row[i] > threshold
      ensures i == p
    {
      if i < p {
        TwoAboveCount(row, threshold, i, p);
      }
    }
  }

  /** Slots past k that hold zero do not change the classification when
      the threshold is not negative: the zeroing before the scenario keeps
      the unused slots out of the count. */
  lemma {:induction false} ZeroSlotsIgnored(row: seq<real>, threshold: real, k: nat)
    requires k <= |row| && threshold >= 0.0
    requires forall j :: k <= j < |row| ==> row[j] == 0.0
    ensures Classify(row, threshold) == Classify(row[..k], threshold)
    decreases |row|
  {
    if k < |row| {
      var front := row[..|row| - 1];
      assert front[..k] == row[..k];
      ZeroSlotsIgnored(front, threshold, k);
    } else {
      assert row[..k] == row;
    }
  }

  /** The fractions (1, 0, 0) of a single-material run make a pure cell of
      material 0 when the threshold lies in [0, 1) and the other slots are
      at most the threshold. */
  lemma {:induction false} SingleMaterialIsPure(row: seq<real>, threshold: real)
    requires 3 <= |row| && row[..3] == [1.0, 0.0, 0.0] && 0.0 <= threshold < 1.0
    requires forall j :: 3 <= j < |row| ==> row[j] <= threshold
    ensures Classify(row, threshold) == CellKind(0, 0)
  {
    assert row[0] == 1.0 && row[1] == 0.0 && row[2] == 0.0;
    if CountAbove(row, threshold) >= 2 {
      CountWitnesses(row, threshold);
    }
    assert LastAbove(row, threshold) == 0;
  }

  /** The loop over the nbmatmax slots of a cell: matcell and imatpure. */
  method CountAboveLoop(row: seq<real>, threshold: real) returns (matcell: nat, imatpure: int)
    ensures matcell == CountAbove(row, threshold) && imatpure == LastAbove(row, threshold)
  {
    matcell := 0;
    imatpure := -1;
    var imat := 0;
    while imat < |row|
      invariant 0 <= imat <= |row|
      invariant matcell == CountAbove(row[..imat], threshold) && imatpure == LastAbove(row[..imat], threshold)
    {
      assert row[..imat + 1][..imat] == row[..imat];
      if row[imat] > threshold {
        matcell := matcell + 1;
        imatpure := imat;
      }
      imat := imat + 1;
    }
    assert row[..|row|] == row;
  }

  // ---------------------------------------------------------------------
  // The initialisation job

  /** The five per-material environment arrays a scenario initialiser
      reads and writes. */
  datatype EnvFields = EnvFields(fracvol: seq<seq<real>>, massFraction: seq<seq<real>>,
                                 density: seq<seq<real>>, pressure: seq<seq<real>>, energy: seq<seq<real>>)

  /** The single-material fractions (1, 0, 0) written over the first three
      slots of a row. */
  function SingleMaterialRow(row: seq<real>): (r: seq<real>)
    requires |row| >= 3
    ensures |r| == |row| && r[..3] == [1.0, 0.0, 0.0] && r[3..] == row[3..]
  {
    [1.0, 0.0, 0.0] + row[3..]
  }

  /** The initial state of a run (the _n0 arrays and the mixte/pure
      indicators). */
  class CellVariables {
    const nbCells: nat
    const nbmatmax: nat
    const nbmat: nat
    const threshold: real
    var fracvol: seq<seq<real>>
    var massFraction: seq<seq<real>>
    var density: seq<seq<real>>
    var pressure: seq<seq<real>>
    var energy: seq<seq<real>>
    var mixte: seq<int>
    var pure: seq<int>

    /** An environment array: nbmatmax slots per cell. */
    predicate Rows(s: seq<seq<real>>)
    {
      Width(s, nbCells, nbmatmax)
    }

    predicate Shaped(f: EnvFields)
    {
      Rows(f.fracvol) && Rows(f.massFraction) && Rows(f.density) && Rows(f.pressure) && Rows(f.energy)
    }

    /** Every slot of every cell is zero. */
    function ZeroRows(): (r: seq<seq<real>>)
      ensures Rows(r)
    {
      seq(nbCells, _ => Zeros(nbmatmax))
    }

    /** The five arrays after the zeroing loop. */
    function ZeroEnv(): (r: EnvFields)
      ensures Shaped(r)
    {
      EnvFields(ZeroRows(), ZeroRows(), ZeroRows(), ZeroRows(), ZeroRows())
    }

    /** The arrays come with their sizes; their contents are arbitrary. */
    constructor (nbCells: nat, nbmatmax: nat, nbmat: nat, threshold: real, env: EnvFields,
                 mixte: seq<int>, pure: seq<int>)
      requires Width(env.fracvol, nbCells, nbmatmax) && Width(env.massFraction, nbCells, nbmatmax)
      requires Width(env.density, nbCells, nbmatmax) && Width(env.pressure, nbCells, nbmatmax)
      requires Width(env.energy, nbCells, nbmatmax)
      requires |mixte| == |pure| == nbCells
      ensures this.nbCells == nbCells && this.nbmatmax == nbmatmax && this.nbmat == nbmat
      ensures this.threshold == threshold && Shaped(env) && Env() == env
      ensures this.mixte == mixte && this.pure == pure
    {
      this.nbCells := nbCells;
      this.nbmatmax := nbmatmax;
      this.nbmat := nbmat;
      this.threshold := threshold;
      fracvol := env.fracvol;
      massFraction := env.massFraction;
      density := env.density;
      pressure := env.pressure;
      energy := env.energy;
      this.mixte := mixte;
      this.pure := pure;
    }

    function Env(): EnvFields
      reads this
    {
      EnvFields(fracvol, massFraction, density, pressure, energy)
    }

    /** The first loop of initVar: every slot below nbmatmax of the five
        arrays is set to zero. */
    method ZeroSlots()
      requires Shaped(Env())
      modifies this`fracvol, this`massFraction, this`density, this`pressure, this`energy
      ensures Env() == ZeroEnv()
    {
      var c := 0;
      while c < nbCells
        invariant 0 <= c <= nbCells
        invariant Rows(fracvol) && Rows(massFraction) && Rows(density) && Rows(pressure) && Rows(energy)
        invariant ZeroUpTo(fracvol, c) && ZeroUpTo(massFraction, c) && ZeroUpTo(density, c)
        invariant ZeroUpTo(pressure, c) && ZeroUpTo(energy, c)
      {
        var zeros := ZeroRow(nbmatmax);
        fracvol := fracvol[c := zeros];
        massFraction := massFraction[c := zeros];
        density := density[c := zeros];
        pressure := pressure[c := zeros];
        energy := energy[c := zeros];
        c := c + 1;
      }
      assert fracvol == ZeroRows() && massFraction == ZeroRows() && density == ZeroRows();
      assert pressure == ZeroRows() && energy == ZeroRows();
    }

    /** The first c cells of s are all zero. */
    predicate ZeroUpTo(s: seq<seq<real>>, c: nat)
      requires c <= |s|
    {
      forall k :: 0 <= k < c ==> s[k] == Zeros(nbmatmax)
    }

    /** The single-material fill: in every cell the volume and mass
        fractions become (1, 0, 0) over the first three slots. */
    method FillSingleMaterial()
      requires nbmatmax >= 3 && Rows(fracvol) && Rows(massFraction)
      modifies this`fracvol, this`massFraction
      ensures Rows(fracvol) && Rows(massFraction)
      ensures forall c :: 0 <= c < nbCells ==> fracvol[c] == SingleMaterialRow(old(fracvol[c]))
      ensures forall c :: 0 <= c < nbCells ==> massFraction[c] == SingleMaterialRow(old(massFraction[c]))
    {
      var c := 0;
      while c < nbCells
        invariant 0 <= c <= nbCells && Rows(fracvol) && Rows(massFraction)
        invariant forall k :: 0 <= k < c ==> fracvol[k] == SingleMaterialRow(old(fracvol[k]))
        invariant forall k :: 0 <= k < c ==> massFraction[k] == SingleMaterialRow(old(massFraction[k]))
        invariant forall k :: c <= k < nbCells ==> fracvol[k] == old(fracvol[k]) && massFraction[k] == old(massFraction[k])
      {
        fracvol := fracvol[c := SingleMaterialRow(fracvol[c])];
        massFraction := massFraction[c := SingleMaterialRow(massFraction[c])];
        c := c + 1;
      }
    }

    /** The last loop of initVar: mixte and pure of every cell from its
        volume fractions. */
    method ClassifyCells()
      requires Rows(fracvol) && |mixte| == |pure| == nbCells
      modifies this`mixte, this`pure
      ensures |mixte| == |pure| == nbCells
      ensures forall c :: 0 <= c < nbCells ==> CellKind(mixte[c], pure[c]) == Classify(fracvol[c], threshold)
    {
      var c := 0;
      while c < nbCells
        invariant 0 <= c <= nbCells && |mixte| == |pure| == nbCells
        invariant forall k :: 0 <= k < c ==> CellKind(mixte[k], pure[k]) == Classify(fracvol[k], threshold)
      {
        var matcell, imatpure := CountAboveLoop(fracvol[c], threshold);
        if matcell > 1 {
          mixte := mixte[c := 1];
          pure := pure[c := -1];
        } else {
          mixte := mixte[c := 0];
          pure := pure[c := imatpure];
        }
        c := c + 1;
      }
    }

    /** initVar. The scenario initialisers are the parameter `scenario`,
        which receives the zeroed arrays and must keep their shape. An
        unknown test case aborts the run after the zeroing. */
    method InitVar(t: TestCase, scenario: (Initialiser, EnvFields) -> EnvFields) returns (aborted: bool)
      requires nbmatmax >= 3 && Shaped(Env()) && |mixte| == |pure| == nbCells
      requires forall i, f :: Shaped(f) ==> Shaped(scenario(i, f))
      modifies this
      ensures aborted <==> t.Other?
      ensures aborted ==> Env() == ZeroEnv()
      ensures !aborted ==> Dispatch(t).Some?
      ensures !aborted ==> var f := scenario(Dispatch(t).value, ZeroEnv());
        && Shaped(f) && Rows(fracvol) && Rows(massFraction) && |mixte| == |pure| == nbCells
        && density == f.density && pressure == f.pressure && energy == f.energy
        && (nbmat != 1 ==> fracvol == f.fracvol && massFraction == f.massFraction)
        && (nbmat == 1 ==> forall c :: 0 <= c < nbCells ==>
              fracvol[c] == SingleMaterialRow(f.fracvol[c]) && massFraction[c] == SingleMaterialRow(f.massFraction[c]))
        && forall c :: 0 <= c < nbCells ==> CellKind(mixte[c], pure[c]) == Classify(fracvol[c], threshold)
    {
      ZeroSlots();
      AbortsIffUnknown(t);
      var init := Dispatch(t);
      if init.None? {
        return true;
      }
      aborted := false;
      var f := scenario(init.value, Env());
      fracvol, massFraction, density, pressure, energy := f.fracvol, f.massFraction, f.density, f.pressure, f.energy;
      if nbmat == 1 {
        FillSingleMaterial();
      }
      ClassifyCells();
    }
  }

  /** The inner zeroing loop over the slots of one cell. */
  method ZeroRow(width: nat) returns (r: seq<real>)
    ensures r == Zeros(width)
  {
    r := [];
    while |r| < width
      invariant |r| <= width && forall j :: 0 <= j < |r| ==> r[j] == 0.0
    {
      r := r + [0.0];
    }
  }
}
