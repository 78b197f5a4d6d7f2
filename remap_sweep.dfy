// Second directional pass of the remap (EucclhydRemap jobs computeGradPhiFace2,
// computeGradPhi2, computeUpwindFaceQuantitiesForProjection2 and
// computeUremap2). Each job loops over faces or cells and writes one or more
// per-face / per-cell arrays of the EucclhydRemap object. The arrays are
// modelled as sequence-valued fields of the class EucclhydRemap below; each
// job is specified by a function of the fields it reads and of the old value
// of the fields it writes, and the loops are module-level methods proved
// against those functions.
module RemapSweep {
  import opened Common
  import opened RemapUtils

  // ---------------------------------------------------------------------
  // Mesh and input fields

  /** The mesh queries of the 2-D Cartesian mesh. A face's position in the
      face list is its id. frontCell/backCell are -1 where the face has no
      cell on that side. topCells .. rightCells are the neighbour queries of
      the third-order stencil. */
  datatype Mesh = Mesh(
    nbCells: nat,
    nbFaces: nat,
    nbNodes: nat,
    innerHorizontalFaces: seq<nat>,
    innerVerticalFaces: seq<nat>,
    frontCell: seq<int>,
    backCell: seq<int>,
    firstNode: seq<nat>,
    secondNode: seq<nat>,
    bottomFace: seq<nat>,
    topFace: seq<nat>,
    leftFace: seq<nat>,
    rightFace: seq<nat>,
    facesOfCell: seq<seq<nat>>,
    neighbourCells: seq<seq<nat>>,
    commonFace: (nat, nat) -> nat,
    topCells: nat -> nat,
    bottomCells: nat -> nat,
    leftCells: nat -> nat,
    rightCells: nat -> nat)

  /** f is one of the faces of cell c. */
  predicate CellFace(m: Mesh, c: nat, f: nat)
    requires c < |m.facesOfCell|
  {
    f < m.nbFaces && f in m.facesOfCell[c]
  }

  /** An inner face has a cell on both sides. */
  predicate InnerFaces(m: Mesh, faces: seq<nat>)
    requires |m.frontCell| == |m.backCell| == m.nbFaces
  {
    forall i :: 0 <= i < |faces| ==>
      faces[i] < m.nbFaces && 0 <= m.frontCell[faces[i]] && 0 <= m.backCell[faces[i]]
  }

  /** Every index the mesh queries return is in range. */
  predicate ValidMesh(m: Mesh)
  {
    && |m.frontCell| == |m.backCell| == |m.firstNode| == |m.secondNode| == m.nbFaces
    && |m.bottomFace| == |m.topFace| == |m.leftFace| == |m.rightFace| == m.nbCells
    && |m.facesOfCell| == |m.neighbourCells| == m.nbCells
    && (forall f :: 0 <= f < m.nbFaces ==>
          -1 <= m.frontCell[f] < m.nbCells as int && -1 <= m.backCell[f] < m.nbCells as int)
    && (forall f :: 0 <= f < m.nbFaces ==> m.firstNode[f] < m.nbNodes && m.secondNode[f] < m.nbNodes)
    && InnerFaces(m, m.innerHorizontalFaces)
    && InnerFaces(m, m.innerVerticalFaces)
    && (forall c :: 0 <= c < m.nbCells ==>
          CellFace(m, c, m.bottomFace[c]) && CellFace(m, c, m.topFace[c])
          && CellFace(m, c, m.leftFace[c]) && CellFace(m, c, m.rightFace[c]))
    && (forall c, k :: 0 <= c < m.nbCells && 0 <= k < |m.neighbourCells[c]| ==>
          m.neighbourCells[c][k] < m.nbCells && CellFace(m, c, m.commonFace(c, m.neighbourCells[c][k])))
    && (forall c :: 0 <= c < m.nbCells ==>
          m.topCells(c) < m.nbCells && m.bottomCells(c) < m.nbCells
          && m.leftCells(c) < m.nbCells && m.rightCells(c) < m.nbCells)
  }

  /** The arrays the pass reads but does not write: the transported state
      Phi and Uremap1 (per cell, of width d), the Lagrangian geometry, the
      material classification mixte/pure, the time step and the sweep
      order flag x_then_y_n. */
  datatype Fields = Fields(
    phi: seq<seq<real>>,
    uremap1: seq<seq<real>>,
    vLagrange: seq<real>,
    xcLagrange: seq<Vec2>,
    mixte: seq<int>,
    pure: seq<int>,
    outerFaceNormal: seq<seq<Vec2>>,
    deltaxLagrange: seq<real>,
    faceLengthLagrange: seq<real>,
    faceLength: seq<real>,
    faceNormal: seq<Vec2>,
    faceNormalVelocity: seq<real>,
    xf: seq<Vec2>,
    xLagrange: seq<Vec2>,
    deltatN: real,
    xThenY: bool)

  /** The divisions of the pass are defined: inner faces have a non-zero
      Lagrangian spacing and cells a non-zero Lagrangian volume. */
  predicate NonZeroSpacing(fl: Fields, faces: seq<nat>)
    requires forall i :: 0 <= i < |faces| ==> faces[i] < |fl.deltaxLagrange|
  {
    forall i :: 0 <= i < |faces| ==> fl.deltaxLagrange[faces[i]] != 0.0
  }

  predicate ValidFields(m: Mesh, w: nat, fl: Fields)
    requires ValidMesh(m)
  {
    && Width(fl.phi, m.nbCells, w)
    && Width(fl.uremap1, m.nbCells, w)
    && |fl.vLagrange| == |fl.xcLagrange| == |fl.mixte| == |fl.pure| == |fl.outerFaceNormal| == m.nbCells
    && (forall c :: 0 <= c < m.nbCells ==> fl.vLagrange[c] != 0.0)
    && (forall c :: 0 <= c < m.nbCells ==> |fl.outerFaceNormal[c]| == |m.facesOfCell[c]|)
    && |fl.deltaxLagrange| == |fl.faceLengthLagrange| == |fl.faceLength| == m.nbFaces
    && |fl.faceNormal| == |fl.faceNormalVelocity| == |fl.xf| == m.nbFaces
    && |fl.xLagrange| == m.nbNodes
    && NonZeroSpacing(fl, m.innerHorizontalFaces)
    && NonZeroSpacing(fl, m.innerVerticalFaces)
  }

  // ---------------------------------------------------------------------
  // Writes at a list of indices

  /** The sequence s after s[targets[i]] := values[i] for i in order. */
  function Scatter<T>(s: seq<T>, targets: seq<nat>, values: seq<T>): (r: seq<T>)
    requires |values| == |targets|
    requires forall i :: 0 <= i < |targets| ==> targets[i] < |s|
    ensures |r| == |s|
    decreases |targets|
  {
    if targets == [] then s
    else
      var n := |targets| - 1;
      Scatter(s, targets[..n], values[..n])[targets[n] := values[n]]
  }

  /** Two writes to the same index carry the same value. */
  ghost predicate Consistent<T>(targets: seq<nat>, values: seq<T>)
    requires |values| == |targets|
  {
    forall i, j :: 0 <= i < |targets| && 0 <= j < |targets| && targets[i] == targets[j] ==> values[i] == values[j]
  }

  lemma {:induction false} ScatterWritten<T>(s: seq<T>, targets: seq<nat>, values: seq<T>, i: nat)
    requires |values| == |targets|
    requires forall k :: 0 <= k < |targets| ==> targets[k] < |s|
    requires Consistent(targets, values)
    requires i < |targets|
    ensures Scatter(s, targets, values)[targets[i]] == values[i]
  {
    var n := |targets| - 1;
    if i < n && targets[n] != targets[i] {
      assert Consistent(targets[..n], values[..n]);
      ScatterWritten(s, targets[..n], values[..n], i);
    }
  }

  lemma {:induction false} ScatterUntouched<T>(s: seq<T>, targets: seq<nat>, values: seq<T>, j: nat)
    requires |values| == |targets|
    requires forall k :: 0 <= k < |targets| ==> targets[k] < |s|
    requires j < |s| && j !in targets
    ensures Scatter(s, targets, values)[j] == s[j]
  {
    if targets != [] {
      var n := |targets| - 1;
      assert targets[n] in targets;
      assert j !in targets[..n];
      ScatterUntouched(s, targets[..n], values[..n], j);
    }
  }

  /** Scattering one more target extends the previous scatter by one write. */
  lemma {:induction false} ScatterStep<T>(s: seq<T>, targets: seq<nat>, values: seq<T>, i: nat)
    requires |values| == |targets| && i < |targets|
    requires forall k :: 0 <= k < |targets| ==> targets[k] < |s|
    ensures Scatter(s, targets[..i + 1], values[..i + 1]) == Scatter(s, targets[..i], values[..i])[targets[i] := values[i]]
    ensures i + 1 == |targets| ==> Scatter(s, targets[..i + 1], values[..i + 1]) == Scatter(s, targets, values)
  {
    assert targets[..i + 1][..i] == targets[..i];
    assert values[..i + 1][..i] == values[..i];
    if i + 1 == |targets| {
      assert targets[..i + 1] == targets && values[..i + 1] == values;
    }
  }

  lemma {:induction false} ScatterWidth(s: seq<seq<real>>, targets: seq<nat>, values: seq<seq<real>>, w: nat)
    requires |values| == |targets|
    requires forall k :: 0 <= k < |targets| ==> targets[k] < |s|
    requires Width(s, |s|, w) && Width(values, |values|, w)
    ensures Width(Scatter(s, targets, values), |s|, w)
  {
    if targets != [] {
      var n := |targets| - 1;
      ScatterWidth(s, targets[..n], values[..n], w);
    }
  }

  /** utils::indexOf: the position of the first occurrence of x, -1 when x
      does not occur. */
  function IndexOf(s: seq<nat>, x: nat): (r: int)
    ensures r == -1 <==> x !in s
    ensures r != -1 ==> 0 <= r < |s| && s[r] == x && x !in s[..r]
  {
    if s == [] then -1
    else if s[0] == x then 0
    else
      var r := IndexOf(s[1..], x);
      if r == -1 then -1
      else
        assert s[..r + 1] == [s[0]] + s[1..][..r];
        r + 1
  }

  // ---------------------------------------------------------------------
  // computeGradPhiFace2: face slopes, Lagrangian face lengths, half widths

  /** The inner faces normal to the sweep: horizontal faces when the
      pass sweeps along y (x_then_y_n), vertical faces otherwise. */
  function SweepFaces(m: Mesh, xThenY: bool): seq<nat>
  {
    if xThenY then m.innerHorizontalFaces else m.innerVerticalFaces
  }

  lemma {:induction false} SweepFacesAreInner(m: Mesh, w: nat, fl: Fields, xThenY: bool)
    requires ValidMesh(m) && ValidFields(m, w, fl)
    ensures InnerFaces(m, SweepFaces(m, xThenY))
    ensures NonZeroSpacing(fl, SweepFaces(m, xThenY))
  {
  }

  /** Slope of Phi across inner face f: the jump from the back cell to the
      front cell over the Lagrangian spacing. */
  function FaceSlope(m: Mesh, w: nat, fl: Fields, f: nat): (r: seq<real>)
    requires ValidMesh(m) && ValidFields(m, w, fl)
    requires f < m.nbFaces && 0 <= m.frontCell[f] && 0 <= m.backCell[f]
    requires fl.deltaxLagrange[f] != 0.0
    ensures |r| == w
  {
    DivScalar(Sub(fl.phi[m.frontCell[f]], fl.phi[m.backCell[f]]), fl.deltaxLagrange[f])
  }

  function FaceSlopes(m: Mesh, w: nat, fl: Fields, faces: seq<nat>): (r: seq<seq<real>>)
    requires ValidMesh(m) && ValidFields(m, w, fl)
    requires InnerFaces(m, faces) && NonZeroSpacing(fl, faces)
    ensures Width(r, |faces|, w)
    ensures forall i :: 0 <= i < |faces| ==> r[i] == FaceSlope(m, w, fl, faces[i])
  {
    seq(|faces|, i requires 0 <= i < |faces| => FaceSlope(m, w, fl, faces[i]))
  }

  /** Squared Euclidean distance between two points. */
  function SquaredDistance(a: Vec2, b: Vec2): real
  {
    (a.x - b.x) * (a.x - b.x) + (a.y - b.y) * (a.y - b.y)
  }

  /** Length of face f in the Lagrangian geometry: the distance between its
      two nodes. */
  function LagrangeFaceLength(sqrt: real -> real, m: Mesh, fl: Fields, f: nat): real
    requires ValidMesh(m) && |fl.xLagrange| == m.nbNodes && f < m.nbFaces
  {
    sqrt(SquaredDistance(fl.xLagrange[m.firstNode[f]], fl.xLagrange[m.secondNode[f]]))
  }

  function LagrangeFaceLengths(sqrt: real -> real, m: Mesh, fl: Fields, faces: seq<nat>): (r: seq<real>)
    requires ValidMesh(m) && |fl.xLagrange| == m.nbNodes
    requires forall i :: 0 <= i < |faces| ==> faces[i] < m.nbFaces
    ensures |r| == |faces|
    ensures forall i :: 0 <= i < |faces| ==> r[i] == LagrangeFaceLength(sqrt, m, fl, faces[i])
  {
    seq(|faces|, i requires 0 <= i < |faces| => LagrangeFaceLength(sqrt, m, fl, faces[i]))
  }

  /** HvLagrange(c): reset to 0, then half the Lagrangian length of each of
      the two faces bracketing the cell across the sweep (right and left
      along y, bottom and top along x). */
  function HalfWidth(m: Mesh, fl: Fields, xThenY: bool, c: nat): real
    requires ValidMesh(m) && |fl.faceLengthLagrange| == m.nbFaces && c < m.nbCells
  {
    if xThenY then
      0.0 + 0.5 * fl.faceLengthLagrange[m.rightFace[c]] + 0.5 * fl.faceLengthLagrange[m.leftFace[c]]
    else
      0.0 + 0.5 * fl.faceLengthLagrange[m.bottomFace[c]] + 0.5 * fl.faceLengthLagrange[m.topFace[c]]
  }

  function HalfWidths(m: Mesh, fl: Fields, xThenY: bool): (r: seq<real>)
    requires ValidMesh(m) && |fl.faceLengthLagrange| == m.nbFaces
    ensures |r| == m.nbCells
    ensures forall c :: 0 <= c < m.nbCells ==> r[c] == HalfWidth(m, fl, xThenY, c)
  {
    seq(m.nbCells, c requires 0 <= c < m.nbCells => HalfWidth(m, fl, xThenY, c))
  }

  /** gradPhiFace2 after the job: the sweep faces get their slopes when the
      projection order is above 1; nothing is written otherwise. */
  function GradPhiFace2After(order: int, m: Mesh, w: nat, fl: Fields, g: seq<seq<real>>): (r: seq<seq<real>>)
    requires ValidMesh(m) && ValidFields(m, w, fl) && |g| == m.nbFaces
    ensures |r| == m.nbFaces
  {
    SweepFacesAreInner(m, w, fl, fl.xThenY);
    var faces := SweepFaces(m, fl.xThenY);
    if order > 1 then Scatter(g, faces, FaceSlopes(m, w, fl, faces)) else g
  }

  function LfLagrangeAfter(sqrt: real -> real, order: int, m: Mesh, w: nat, fl: Fields, lf: seq<real>): (r: seq<real>)
    requires ValidMesh(m) && ValidFields(m, w, fl) && |lf| == m.nbFaces
    ensures |r| == m.nbFaces
  {
    SweepFacesAreInner(m, w, fl, fl.xThenY);
    var faces := SweepFaces(m, fl.xThenY);
    if order > 1 then Scatter(lf, faces, LagrangeFaceLengths(sqrt, m, fl, faces)) else lf
  }

  function HvLagrangeAfter(order: int, m: Mesh, w: nat, fl: Fields, hv: seq<real>): (r: seq<real>)
    requires ValidMesh(m) && ValidFields(m, w, fl) && |hv| == m.nbCells
    ensures |r| == m.nbCells
  {
    if order > 1 then HalfWidths(m, fl, fl.xThenY) else hv
  }

  /** The face slope times the spacing gives back the jump of Phi across
      the face. */
  lemma {:induction false} FaceSlopeTimesSpacingIsJump(m: Mesh, w: nat, fl: Fields, f: nat)
    requires ValidMesh(m) && ValidFields(m, w, fl)
    requires f < m.nbFaces && 0 <= m.frontCell[f] && 0 <= m.backCell[f]
    requires fl.deltaxLagrange[f] != 0.0
    ensures forall k :: 0 <= k < w ==>
      FaceSlope(m, w, fl, f)[k] * fl.deltaxLagrange[f] == fl.phi[m.frontCell[f]][k] - fl.phi[m.backCell[f]][k]
  {
    var r := FaceSlope(m, w, fl, f);
    var d := fl.deltaxLagrange[f];
    forall k | 0 <= k < w
      ensures r[k] * d == fl.phi[m.frontCell[f]][k] - fl.phi[m.backCell[f]][k]
    {
      var jump := fl.phi[m.frontCell[f]][k] - fl.phi[m.backCell[f]][k];
      assert r[k] == jump / d;
    }
  }

  /** Every sweep face gets its slope, every other face keeps its old
      value, and with projection order 1 or less nothing changes. */
  lemma {:induction false} GradPhiFace2AfterMeaning(order: int, m: Mesh, w: nat, fl: Fields, g: seq<seq<real>>, f: nat)
    requires ValidMesh(m) && ValidFields(m, w, fl) && |g| == m.nbFaces
    requires f < m.nbFaces
    ensures order <= 1 ==> GradPhiFace2After(order, m, w, fl, g) == g
    ensures order > 1 && f !in SweepFaces(m, fl.xThenY) ==> GradPhiFace2After(order, m, w, fl, g)[f] == g[f]
    ensures order > 1 && f in SweepFaces(m, fl.xThenY) ==>
      0 <= m.frontCell[f] && 0 <= m.backCell[f] && fl.deltaxLagrange[f] != 0.0 &&
      GradPhiFace2After(order, m, w, fl, g)[f] == FaceSlope(m, w, fl, f)
  {
    SweepFacesAreInner(m, w, fl, fl.xThenY);
    var faces := SweepFaces(m, fl.xThenY);
    var values := FaceSlopes(m, w, fl, faces);
    if order > 1 {
      if f in faces {
        var i :| 0 <= i < |faces| && faces[i] == f;
        ScatterWritten(g, faces, values, i);
      } else {
        ScatterUntouched(g, faces, values, f);
      }
    }
  }

  /** The squared distance does not depend on which point comes first, so
      neither does the Lagrangian face length. */
  lemma {:induction false} SquaredDistanceSymmetric(a: Vec2, b: Vec2)
    ensures SquaredDistance(a, b) == SquaredDistance(b, a)
    ensures SquaredDistance(a, b) >= 0.0
  {
    assert (a.x - b.x) * (a.x - b.x) == (b.x - a.x) * (b.x - a.x);
    assert (a.y - b.y) * (a.y - b.y) == (b.y - a.y) * (b.y - a.y);
  }

  /** HvLagrange is the mean Lagrangian length of the two faces bracketing
      the cell across the sweep, and is non-negative when they are. */
  lemma {:induction false} HalfWidthIsMeanLength(m: Mesh, fl: Fields, xThenY: bool, c: nat)
    requires ValidMesh(m) && |fl.faceLengthLagrange| == m.nbFaces && c < m.nbCells
    ensures var (a, b) := if xThenY then (m.rightFace[c], m.leftFace[c]) else (m.bottomFace[c], m.topFace[c]);
            HalfWidth(m, fl, xThenY, c) == (fl.faceLengthLagrange[a] + fl.faceLengthLagrange[b]) / 2.0
            && (fl.faceLengthLagrange[a] >= 0.0 && fl.faceLengthLagrange[b] >= 0.0 ==> HalfWidth(m, fl, xThenY, c) >= 0.0)
  {
  }

  /** The face loop of computeGradPhiFace2: slopes and Lagrangian lengths of
      the listed faces, written in list order. */
  method FaceSlopeLoop(sqrt: real -> real, m: Mesh, w: nat, fl: Fields, faces: seq<nat>,
                       g0: seq<seq<real>>, lf0: seq<real>) returns (g: seq<seq<real>>, lf: seq<real>)
    requires ValidMesh(m) && ValidFields(m, w, fl)
    requires InnerFaces(m, faces) && NonZeroSpacing(fl, faces)
    requires |g0| == |lf0| == m.nbFaces
    ensures g == Scatter(g0, faces, FaceSlopes(m, w, fl, faces))
    ensures lf == Scatter(lf0, faces, LagrangeFaceLengths(sqrt, m, fl, faces))
  {
    ghost var slopes := FaceSlopes(m, w, fl, faces);
    ghost var lengths := LagrangeFaceLengths(sqrt, m, fl, faces);
    g, lf := g0, lf0;
    var i := 0;
    while i < |faces|
      invariant 0 <= i <= |faces|
      invariant g == Scatter(g0, faces[..i], slopes[..i])
      invariant lf == Scatter(lf0, faces[..i], lengths[..i])
    {
      var f := faces[i];
      ScatterStep(g0, faces, slopes, i);
      ScatterStep(lf0, faces, lengths, i);
      g := g[f := FaceSlope(m, w, fl, f)];
      lf := lf[f := LagrangeFaceLength(sqrt, m, fl, f)];
      i := i + 1;
    }
    assert faces[..|faces|] == faces && slopes[..|faces|] == slopes && lengths[..|faces|] == lengths;
  }

  /** The cell loop of computeGradPhiFace2. */
  method HalfWidthLoop(m: Mesh, fl: Fields, xThenY: bool, hv0: seq<real>) returns (hv: seq<real>)
    requires ValidMesh(m) && |fl.faceLengthLagrange| == m.nbFaces && |hv0| == m.nbCells
    ensures hv == HalfWidths(m, fl, xThenY)
  {
    hv := hv0;
    var c := 0;
    while c < m.nbCells
      invariant 0 <= c <= m.nbCells && |hv| == m.nbCells
      invariant forall k :: 0 <= k < c ==> hv[k] == HalfWidth(m, fl, xThenY, k)
    {
      var h := 0.0;
      if xThenY {
        h := h + 0.5 * fl.faceLengthLagrange[m.rightFace[c]];
        h := h + 0.5 * fl.faceLengthLagrange[m.leftFace[c]];
      } else {
        h := h + 0.5 * fl.faceLengthLagrange[m.bottomFace[c]];
        h := h + 0.5 * fl.faceLengthLagrange[m.topFace[c]];
      }
      hv := hv[c := h];
      c := c + 1;
    }
    assert hv == HalfWidths(m, fl, xThenY);
  }

  // ---------------------------------------------------------------------
  // Options and helpers

  /** The options the pass reads: projection order, number of materials,
      limiteurs->projectionLimiteurMixte, limiteurs->projectionAvecPlateauPente
      and the boundary-flux switch cdl->FluxBC. */
  datatype Options = Options(
    projectionOrder: int,
    nbmat: nat,
    projectionLimiteurMixte: int,
    projectionAvecPlateauPente: int,
    fluxBC: int)

  /** The helpers whose bodies are not part of this model: the limiters,
      the plateau-pente reconstruction, the scalar third-order flux, the
      square root and computeBoundaryFluxes. */
  datatype Helpers = Helpers(
    lim: Limiters,
    pp: PlateauPente,
    fluxOrdre3: (real, real, real, real, real, real, real, real, real, real, real, real, real) -> real,
    sqrt: real -> real,
    boundaryFluxes: (int, nat, Vec2) -> seq<real>)

  /** The state width holds the plateau-pente layout of nbmat materials, and
      the boundary fluxes have that width. */
  ghost predicate ValidSetup(opts: Options, h: Helpers, w: nat)
  {
    && 3 * opts.nbmat + 4 <= w
    && forall c: nat, e: Vec2 :: |h.boundaryFluxes(2, c, e)| == w
  }

  // ---------------------------------------------------------------------
  // computeGradPhi2: limited cell gradients and plateau-pente face fluxes

  /** The cells and faces around cell c that the pass uses, in the roles
      the source gives them: the two faces whose slopes are limited, the
      "plus" and "minus" neighbour cells (in the argument order of
      computeAndLimitGradPhi and computeFluxPP), the faces of the backward
      (deltaPhiFaceAr) and forward (deltaPhiFaceAv) fluxes, and the sweep
      direction. */
  datatype Stencil = Stencil(
    gradPlusFace: nat,
    gradMinusFace: nat,
    plusCell: nat,
    minusCell: nat,
    arFace: nat,
    avFace: nat,
    exy: Vec2)

  /** A missing neighbour (-1) is replaced by the cell itself. */
  function OrSelf(n: int, c: nat): nat
    requires n >= -1
  {
    if n == -1 then c else n
  }

  /** The stencil of cell c: along y (x_then_y_n) the bottom and top faces,
      with the cell behind the top face as "plus" and the cell in front of
      the bottom face as "minus"; along x the right and left faces, with
      the cell in front of the right face as "plus" and the cell behind the
      left face as "minus". */
  function SweepStencil(m: Mesh, xThenY: bool, c: nat): (s: Stencil)
    requires ValidMesh(m) && c < m.nbCells
    ensures s.plusCell < m.nbCells && s.minusCell < m.nbCells
    ensures CellFace(m, c, s.gradPlusFace) && CellFace(m, c, s.gradMinusFace)
    ensures CellFace(m, c, s.arFace) && CellFace(m, c, s.avFace)
  {
    if xThenY then
      var fb := m.bottomFace[c];
      var ft := m.topFace[c];
      Stencil(fb, ft, OrSelf(m.backCell[ft], c), OrSelf(m.frontCell[fb], c), fb, ft, Ey)
    else
      var fr := m.rightFace[c];
      var fl := m.leftFace[c];
      Stencil(fr, fl, OrSelf(m.frontCell[fr], c), OrSelf(m.backCell[fl], c), fl, fr, Ex)
  }

  /** The neighbours of the stencil are the cells across its two faces, or
      the cell itself exactly where there is none. */
  lemma {:induction false} StencilNeighbours(m: Mesh, xThenY: bool, c: nat)
    requires ValidMesh(m) && c < m.nbCells
    ensures var s := SweepStencil(m, xThenY, c);
      var (plusSide, minusSide) := if xThenY then (m.backCell[m.topFace[c]], m.frontCell[m.bottomFace[c]])
                                   else (m.frontCell[m.rightFace[c]], m.backCell[m.leftFace[c]]);
      (plusSide == -1 ==> s.plusCell == c) && (plusSide != -1 ==> s.plusCell as int == plusSide) &&
      (minusSide == -1 ==> s.minusCell == c) && (minusSide != -1 ==> s.minusCell as int == minusSide)
  {
  }

  /** voisinage_pure: the mixed-cell limiter option is on, and the cell and
      its two stencil neighbours are all pure cells of the same material. */
  predicate PureNeighbourhood(opts: Options, fl: Fields, c: nat, s: Stencil)
    requires c < |fl.mixte| && s.plusCell < |fl.mixte| && s.minusCell < |fl.mixte|
    requires |fl.pure| == |fl.mixte|
  {
    opts.projectionLimiteurMixte == 1
    && fl.mixte[c] == 0 && fl.mixte[s.minusCell] == 0 && fl.mixte[s.plusCell] == 0
    && fl.pure[c] == fl.pure[s.minusCell] && fl.pure[c] == fl.pure[s.plusCell]
  }

  /** The limiter of the cell: the pure-cell limiter only with plateau-pente
      on in a pure neighbourhood. */
  function CellLimiter(lim: Limiters, opts: Options, pureNeighbourhood: bool): int
  {
    if opts.projectionAvecPlateauPente == 1 && pureNeighbourhood then lim.projectionLimiterIdPure
    else lim.projectionLimiterId
  }

  /** Everything the per-cell computation of computeGradPhi2 needs. */
  ghost predicate CellArgs(opts: Options, h: Helpers, m: Mesh, w: nat, fl: Fields, gpf: seq<seq<real>>, hv: seq<real>)
  {
    && ValidMesh(m) && ValidFields(m, w, fl) && ValidSetup(opts, h, w)
    && Width(gpf, m.nbFaces, w) && |hv| == m.nbCells
  }

  /** gradPhi2(c): the limited gradient of the cell from the two face slopes
      of its stencil. */
  function CellGradient(opts: Options, h: Helpers, m: Mesh, w: nat, fl: Fields,
                        gpf: seq<seq<real>>, hv: seq<real>, c: nat): (r: seq<real>)
    requires CellArgs(opts, h, m, w, fl, gpf, hv) && c < m.nbCells
    ensures |r| == w
  {
    var s := SweepStencil(m, fl.xThenY, c);
    var limiter := CellLimiter(h.lim, opts, PureNeighbourhood(opts, fl, c, s));
    LimitedGradient(h.lim, limiter, gpf[s.gradPlusFace], gpf[s.gradMinusFace],
                    fl.phi[c], fl.phi[s.plusCell], fl.phi[s.minusCell],
                    hv[c], hv[s.plusCell], hv[s.minusCell])
  }

  /** The face velocity projected on the sweep direction, signed by the
      outer normal of cell c on face f. */
  function OutwardVelocity(m: Mesh, w: nat, fl: Fields, c: nat, f: nat, exy: Vec2): real
    requires ValidMesh(m) && ValidFields(m, w, fl) && c < m.nbCells && CellFace(m, c, f)
  {
    Dot(fl.outerFaceNormal[c][IndexOf(m.facesOfCell[c], f)], exy) * fl.faceNormalVelocity[f]
  }

  /** The plateau-pente flux of one face: computeFluxPPPure in a pure
      neighbourhood, computeFluxPP otherwise. */
  function FaceFluxPP(lim: Limiters, pp: PlateauPente, nbmat: nat, pureVariant: bool,
                      gradPhi: seq<real>, phi: seq<real>, phiPlus: seq<real>, phiMinus: seq<real>,
                      h0: real, hPlus: real, hMinus: real, v: real, dt: real, faceType: int): (r: seq<real>)
    requires |gradPhi| == |phi| == |phiPlus| == |phiMinus|
    requires 3 * nbmat + 4 <= |phi|
    ensures |r| == |phi|
  {
    if PositivePart(v, dt) == 0.0 then Zeros(|phi|)
    else if pureVariant then
      BoundedFlux(LimitedComponents(pp, lim.projectionLimiterIdPure, faceType, 2 * nbmat, gradPhi, phi,
                                    phiPlus, phiMinus, h0, hPlus, hMinus, PositivePart(v, dt)), phi, nbmat, false)
    else
      BoundedFlux(LimitedComponents(pp, lim.projectionLimiterId, faceType, nbmat, gradPhi, phi,
                                    phiPlus, phiMinus, h0, hPlus, hMinus, PositivePart(v, dt)), phi, nbmat, true)
  }

  /** deltaPhiFaceAr(c) (faceType 0) or deltaPhiFaceAv(c) (faceType 1): the
      plateau-pente flux of cell c through face f, from the cell's limited
      gradient and its stencil. */
  function CellFaceFlux(opts: Options, h: Helpers, m: Mesh, w: nat, fl: Fields, hv: seq<real>,
                        grad: seq<real>, c: nat, f: nat, faceType: int): (r: seq<real>)
    requires ValidMesh(m) && ValidFields(m, w, fl) && ValidSetup(opts, h, w) && |hv| == m.nbCells
    requires c < m.nbCells && CellFace(m, c, f) && |grad| == w
    ensures |r| == w
  {
    var s := SweepStencil(m, fl.xThenY, c);
    FaceFluxPP(h.lim, h.pp, opts.nbmat, PureNeighbourhood(opts, fl, c, s), grad,
               fl.phi[c], fl.phi[s.plusCell], fl.phi[s.minusCell], hv[c], hv[s.plusCell], hv[s.minusCell],
               OutwardVelocity(m, w, fl, c, f, s.exy), fl.deltatN, faceType)
  }

  function ArFlux(opts: Options, h: Helpers, m: Mesh, w: nat, fl: Fields,
                  gpf: seq<seq<real>>, hv: seq<real>, c: nat): (r: seq<real>)
    requires CellArgs(opts, h, m, w, fl, gpf, hv) && c < m.nbCells
    ensures |r| == w
  {
    CellFaceFlux(opts, h, m, w, fl, hv, CellGradient(opts, h, m, w, fl, gpf, hv, c), c,
                 SweepStencil(m, fl.xThenY, c).arFace, 0)
  }

  function AvFlux(opts: Options, h: Helpers, m: Mesh, w: nat, fl: Fields,
                  gpf: seq<seq<real>>, hv: seq<real>, c: nat): (r: seq<real>)
    requires CellArgs(opts, h, m, w, fl, gpf, hv) && c < m.nbCells
    ensures |r| == w
  {
    CellFaceFlux(opts, h, m, w, fl, hv, CellGradient(opts, h, m, w, fl, gpf, hv, c), c,
                 SweepStencil(m, fl.xThenY, c).avFace, 1)
  }

  function CellGradients(opts: Options, h: Helpers, m: Mesh, w: nat, fl: Fields,
                         gpf: seq<seq<real>>, hv: seq<real>): (r: seq<seq<real>>)
    requires CellArgs(opts, h, m, w, fl, gpf, hv)
    ensures Width(r, m.nbCells, w)
    ensures forall c :: 0 <= c < m.nbCells ==> r[c] == CellGradient(opts, h, m, w, fl, gpf, hv, c)
  {
    seq(m.nbCells, c requires 0 <= c < m.nbCells => CellGradient(opts, h, m, w, fl, gpf, hv, c))
  }

  function ArFluxes(opts: Options, h: Helpers, m: Mesh, w: nat, fl: Fields,
                    gpf: seq<seq<real>>, hv: seq<real>): (r: seq<seq<real>>)
    requires CellArgs(opts, h, m, w, fl, gpf, hv)
    ensures Width(r, m.nbCells, w)
    ensures forall c :: 0 <= c < m.nbCells ==> r[c] == ArFlux(opts, h, m, w, fl, gpf, hv, c)
  {
    seq(m.nbCells, c requires 0 <= c < m.nbCells => ArFlux(opts, h, m, w, fl, gpf, hv, c))
  }

  function AvFluxes(opts: Options, h: Helpers, m: Mesh, w: nat, fl: Fields,
                    gpf: seq<seq<real>>, hv: seq<real>): (r: seq<seq<real>>)
    requires CellArgs(opts, h, m, w, fl, gpf, hv)
    ensures Width(r, m.nbCells, w)
    ensures forall c :: 0 <= c < m.nbCells ==> r[c] == AvFlux(opts, h, m, w, fl, gpf, hv, c)
  {
    seq(m.nbCells, c requires 0 <= c < m.nbCells => AvFlux(opts, h, m, w, fl, gpf, hv, c))
  }

  /** One turn of the cell loop of computeGradPhi2. Without plateau-pente
      the two face fluxes of the cell are left as they were. */
  method CellSlopeTurn(opts: Options, h: Helpers, m: Mesh, w: nat, fl: Fields,
                       gpf: seq<seq<real>>, hv: seq<real>, c: nat, ar0: seq<real>, av0: seq<real>)
    returns (grad: seq<real>, ar: seq<real>, av: seq<real>)
    requires CellArgs(opts, h, m, w, fl, gpf, hv) && c < m.nbCells
    ensures grad == CellGradient(opts, h, m, w, fl, gpf, hv, c)
    ensures opts.projectionAvecPlateauPente == 1 ==>
      ar == ArFlux(opts, h, m, w, fl, gpf, hv, c) && av == AvFlux(opts, h, m, w, fl, gpf, hv, c)
    ensures opts.projectionAvecPlateauPente != 1 ==> ar == ar0 && av == av0
  {
    var s := SweepStencil(m, fl.xThenY, c);
    var pureNeighbourhood := PureNeighbourhood(opts, fl, c, s);
    var limiter := h.lim.projectionLimiterId;
    if opts.projectionAvecPlateauPente == 1 && pureNeighbourhood {
      limiter := h.lim.projectionLimiterIdPure;
    }
    grad := ComputeAndLimitGradPhi(h.lim, limiter, gpf[s.gradPlusFace], gpf[s.gradMinusFace],
                                   fl.phi[c], fl.phi[s.plusCell], fl.phi[s.minusCell],
                                   hv[c], hv[s.plusCell], hv[s.minusCell]);
    ar, av := ar0, av0;
    if opts.projectionAvecPlateauPente == 1 {
      var vAr := OutwardVelocity(m, w, fl, c, s.arFace, s.exy);
      if pureNeighbourhood {
        ar := ComputeFluxPPPure(h.lim, h.pp, opts.nbmat, grad, fl.phi[c], fl.phi[s.plusCell], fl.phi[s.minusCell],
                                hv[c], hv[s.plusCell], hv[s.minusCell], vAr, fl.deltatN, 0);
      } else {
        ar := ComputeFluxPP(h.lim, h.pp, opts.nbmat, grad, fl.phi[c], fl.phi[s.plusCell], fl.phi[s.minusCell],
                            hv[c], hv[s.plusCell], hv[s.minusCell], vAr, fl.deltatN, 0);
      }
      var vAv := OutwardVelocity(m, w, fl, c, s.avFace, s.exy);
      if pureNeighbourhood {
        av := ComputeFluxPPPure(h.lim, h.pp, opts.nbmat, grad, fl.phi[c], fl.phi[s.plusCell], fl.phi[s.minusCell],
                                hv[c], hv[s.plusCell], hv[s.minusCell], vAv, fl.deltatN, 1);
      } else {
        av := ComputeFluxPP(h.lim, h.pp, opts.nbmat, grad, fl.phi[c], fl.phi[s.plusCell], fl.phi[s.minusCell],
                            hv[c], hv[s.plusCell], hv[s.minusCell], vAv, fl.deltatN, 1);
      }
    }
  }

  /** The cell loop of computeGradPhi2: every cell gets its limited
      gradient, and with plateau-pente its two face fluxes. */
  method CellSlopeLoop(opts: Options, h: Helpers, m: Mesh, w: nat, fl: Fields,
                       gpf: seq<seq<real>>, hv: seq<real>,
                       grad0: seq<seq<real>>, ar0: seq<seq<real>>, av0: seq<seq<real>>)
    returns (grad: seq<seq<real>>, ar: seq<seq<real>>, av: seq<seq<real>>)
    requires CellArgs(opts, h, m, w, fl, gpf, hv)
    requires |grad0| == |ar0| == |av0| == m.nbCells
    ensures grad == CellGradients(opts, h, m, w, fl, gpf, hv)
    ensures opts.projectionAvecPlateauPente == 1 ==>
      ar == ArFluxes(opts, h, m, w, fl, gpf, hv) && av == AvFluxes(opts, h, m, w, fl, gpf, hv)
    ensures opts.projectionAvecPlateauPente != 1 ==> ar == ar0 && av == av0
  {
    grad, ar, av := grad0, ar0, av0;
    var c := 0;
    while c < m.nbCells
      invariant 0 <= c <= m.nbCells && |grad| == |ar| == |av| == m.nbCells
      invariant forall k :: 0 <= k < c ==> grad[k] == CellGradient(opts, h, m, w, fl, gpf, hv, k)
      invariant opts.projectionAvecPlateauPente == 1 ==>
        forall k :: 0 <= k < c ==>
          ar[k] == ArFlux(opts, h, m, w, fl, gpf, hv, k) && av[k] == AvFlux(opts, h, m, w, fl, gpf, hv, k)
      invariant opts.projectionAvecPlateauPente != 1 ==> ar == ar0 && av == av0
    {
      var g, a, b := CellSlopeTurn(opts, h, m, w, fl, gpf, hv, c, ar[c], av[c]);
      grad := grad[c := g];
      ar := ar[c := a];
      av := av[c := b];
      c := c + 1;
    }
    assert grad == CellGradients(opts, h, m, w, fl, gpf, hv);
    if opts.projectionAvecPlateauPente == 1 {
      assert ar == ArFluxes(opts, h, m, w, fl, gpf, hv);
      assert av == AvFluxes(opts, h, m, w, fl, gpf, hv);
    }
  }

  /** With the mixed-cell option on, the pure-cell limiter is used exactly
      when plateau-pente is on and the cell and both its stencil neighbours
      are pure cells of one material. */
  lemma {:induction false} PureLimiterChoice(opts: Options, h: Helpers, m: Mesh, w: nat, fl: Fields, c: nat)
    requires ValidMesh(m) && ValidFields(m, w, fl) && c < m.nbCells
    requires h.lim.projectionLimiterIdPure != h.lim.projectionLimiterId
    ensures var s := SweepStencil(m, fl.xThenY, c);
      CellLimiter(h.lim, opts, PureNeighbourhood(opts, fl, c, s)) == h.lim.projectionLimiterIdPure
      <==>
      (opts.projectionAvecPlateauPente == 1 && opts.projectionLimiteurMixte == 1
       && fl.mixte[c] == 0 && fl.mixte[s.plusCell] == 0 && fl.mixte[s.minusCell] == 0
       && fl.pure[s.plusCell] == fl.pure[c] && fl.pure[s.minusCell] == fl.pure[c])
  {
  }

  /** A cell whose stencil neighbours are all missing is its own neighbour on
      both sides, so its neighbourhood is pure as soon as the option is on
      and the cell itself is pure. */
  lemma {:induction false} IsolatedPureCellHasPureNeighbourhood(opts: Options, m: Mesh, w: nat, fl: Fields, c: nat)
    requires ValidMesh(m) && ValidFields(m, w, fl) && c < m.nbCells
    requires fl.xThenY ==> m.backCell[m.topFace[c]] == -1 && m.frontCell[m.bottomFace[c]] == -1
    requires !fl.xThenY ==> m.frontCell[m.rightFace[c]] == -1 && m.backCell[m.leftFace[c]] == -1
    ensures var s := SweepStencil(m, fl.xThenY, c);
      s.plusCell == c && s.minusCell == c &&
      (PureNeighbourhood(opts, fl, c, s) <==> opts.projectionLimiteurMixte == 1 && fl.mixte[c] == 0)
  {
  }

  /** gradPhi2 after the job: every cell's limited gradient when the order is
      above 1, unchanged otherwise. */
  function GradPhi2After(opts: Options, h: Helpers, m: Mesh, w: nat, fl: Fields,
                         gpf: seq<seq<real>>, hv: seq<real>, grad: seq<seq<real>>): seq<seq<real>>
    requires CellArgs(opts, h, m, w, fl, gpf, hv)
  {
    if opts.projectionOrder > 1 then CellGradients(opts, h, m, w, fl, gpf, hv) else grad
  }

  /** deltaPhiFaceAr / deltaPhiFaceAv after the job: written only when the
      order is above 1 and plateau-pente is on. */
  function ArAfter(opts: Options, h: Helpers, m: Mesh, w: nat, fl: Fields,
                   gpf: seq<seq<real>>, hv: seq<real>, ar: seq<seq<real>>): seq<seq<real>>
    requires CellArgs(opts, h, m, w, fl, gpf, hv)
  {
    if opts.projectionOrder > 1 && opts.projectionAvecPlateauPente == 1 then ArFluxes(opts, h, m, w, fl, gpf, hv)
    else ar
  }

  function AvAfter(opts: Options, h: Helpers, m: Mesh, w: nat, fl: Fields,
                   gpf: seq<seq<real>>, hv: seq<real>, av: seq<seq<real>>): seq<seq<real>>
    requires CellArgs(opts, h, m, w, fl, gpf, hv)
  {
    if opts.projectionOrder > 1 && opts.projectionAvecPlateauPente == 1 then AvFluxes(opts, h, m, w, fl, gpf, hv)
    else av
  }

  /** A cell whose backward face moves inward (non-positive outward
      velocity) sends nothing through it, and likewise forward. */
  lemma {:induction false} NoOutflowNoFaceFlux(opts: Options, h: Helpers, m: Mesh, w: nat, fl: Fields,
                            gpf: seq<seq<real>>, hv: seq<real>, c: nat)
    requires CellArgs(opts, h, m, w, fl, gpf, hv) && c < m.nbCells
    requires fl.deltatN > 0.0
    ensures var s := SweepStencil(m, fl.xThenY, c);
      OutwardVelocity(m, w, fl, c, s.arFace, s.exy) <= 0.0 ==> ArFlux(opts, h, m, w, fl, gpf, hv, c) == Zeros(w)
    ensures var s := SweepStencil(m, fl.xThenY, c);
      OutwardVelocity(m, w, fl, c, s.avFace, s.exy) <= 0.0 ==> AvFlux(opts, h, m, w, fl, gpf, hv, c) == Zeros(w)
  {
    var s := SweepStencil(m, fl.xThenY, c);
    PositivePartIsUpwindDisplacement(OutwardVelocity(m, w, fl, c, s.arFace, s.exy), fl.deltatN);
    PositivePartIsUpwindDisplacement(OutwardVelocity(m, w, fl, c, s.avFace, s.exy), fl.deltatN);
  }

  // ---------------------------------------------------------------------
  // computeUpwindFaceQuantitiesForProjection2: face values

  /** Uremap1(c) / vLagrange(c): the cell's value per unit volume. */
  function CellDensity(m: Mesh, w: nat, fl: Fields, c: nat): (r: seq<real>)
    requires ValidMesh(m) && ValidFields(m, w, fl) && c < m.nbCells
    ensures |r| == w
  {
    DivScalar(fl.uremap1[c], fl.vLagrange[c])
  }

  ghost predicate FaceArgs(opts: Options, h: Helpers, m: Mesh, w: nat, fl: Fields,
                           grad: seq<seq<real>>, ar: seq<seq<real>>, av: seq<seq<real>>, hv: seq<real>)
  {
    && ValidMesh(m) && ValidFields(m, w, fl) && ValidSetup(opts, h, w)
    && Width(grad, m.nbCells, w) && Width(ar, m.nbCells, w) && Width(av, m.nbCells, w)
    && |hv| == m.nbCells
  }

  /** The third-order face value from the six cells around inner face f:
      three below and three above it along y, three left and three right of
      it along x. */
  function OrderThreeFaceValue(h: Helpers, m: Mesh, w: nat, fl: Fields, hv: seq<real>, f: nat): (r: seq<real>)
    requires ValidMesh(m) && ValidFields(m, w, fl) && |hv| == m.nbCells
    requires f < m.nbFaces && 0 <= m.frontCell[f] && 0 <= m.backCell[f]
    ensures |r| == w
  {
    var cf := m.frontCell[f] as nat;
    var cb := m.backCell[f] as nat;
    if fl.xThenY then
      var cff := m.bottomCells(cf);
      var cfff := m.bottomCells(cff);
      var cbb := m.topCells(cb);
      var cbbb := m.topCells(cbb);
      VecFluxOrdre3(h.fluxOrdre3, CellDensity(m, w, fl, cfff), CellDensity(m, w, fl, cff), CellDensity(m, w, fl, cf),
                    CellDensity(m, w, fl, cb), CellDensity(m, w, fl, cbb), CellDensity(m, w, fl, cbbb),
                    hv[cfff], hv[cff], hv[cf], hv[cb], hv[cbb], hv[cbbb], fl.faceNormalVelocity[f], fl.deltatN)
    else
      var cff := m.rightCells(cf);
      var cfff := m.rightCells(cff);
      var cbb := m.leftCells(cb);
      var cbbb := m.leftCells(cbb);
      VecFluxOrdre3(h.fluxOrdre3, CellDensity(m, w, fl, cbbb), CellDensity(m, w, fl, cbb), CellDensity(m, w, fl, cb),
                    CellDensity(m, w, fl, cf), CellDensity(m, w, fl, cff), CellDensity(m, w, fl, cfff),
                    hv[cbbb], hv[cbb], hv[cb], hv[cf], hv[cff], hv[cfff], fl.faceNormalVelocity[f], fl.deltatN)
  }

  /** phiFace2(f) for orders 2 and 3: at order 2 without plateau-pente the
      upwind linear reconstruction, at order 2 with plateau-pente the
      forward flux of the upstream cell minus the backward flux of the
      downstream one, at order 3 the third-order flux. */
  function FaceValue(opts: Options, h: Helpers, m: Mesh, w: nat, fl: Fields,
                     grad: seq<seq<real>>, ar: seq<seq<real>>, av: seq<seq<real>>, hv: seq<real>, f: nat): (r: seq<real>)
    requires FaceArgs(opts, h, m, w, fl, grad, ar, av, hv)
    requires f < m.nbFaces && 0 <= m.frontCell[f] && 0 <= m.backCell[f]
    requires opts.projectionOrder == 2 || opts.projectionOrder == 3
    ensures |r| == w
  {
    var cf := m.frontCell[f] as nat;
    var cb := m.backCell[f] as nat;
    if opts.projectionOrder == 2 then
      if opts.projectionAvecPlateauPente == 0 then
        UpwindFaceQuantities(fl.faceNormal[f], fl.faceNormalVelocity[f], fl.deltaxLagrange[f], fl.xf[f],
                             CellDensity(m, w, fl, cb), grad[cb], fl.xcLagrange[cb],
                             CellDensity(m, w, fl, cf), grad[cf], fl.xcLagrange[cf])
      else if fl.xThenY then Sub(av[cf], ar[cb])
      else Sub(av[cb], ar[cf])
    else
      OrderThreeFaceValue(h, m, w, fl, hv, f)
  }

  function FaceValues(opts: Options, h: Helpers, m: Mesh, w: nat, fl: Fields,
                      grad: seq<seq<real>>, ar: seq<seq<real>>, av: seq<seq<real>>, hv: seq<real>,
                      faces: seq<nat>): (r: seq<seq<real>>)
    requires FaceArgs(opts, h, m, w, fl, grad, ar, av, hv) && InnerFaces(m, faces)
    requires opts.projectionOrder == 2 || opts.projectionOrder == 3
    ensures Width(r, |faces|, w)
    ensures forall i :: 0 <= i < |faces| ==> r[i] == FaceValue(opts, h, m, w, fl, grad, ar, av, hv, faces[i])
  {
    seq(|faces|, i requires 0 <= i < |faces| => FaceValue(opts, h, m, w, fl, grad, ar, av, hv, faces[i]))
  }

  /** phiFace2 after the job: only orders 2 and 3 write, and only the
      sweep faces. */
  function PhiFace2After(opts: Options, h: Helpers, m: Mesh, w: nat, fl: Fields,
                         grad: seq<seq<real>>, ar: seq<seq<real>>, av: seq<seq<real>>, hv: seq<real>,
                         p: seq<seq<real>>): (r: seq<seq<real>>)
    requires FaceArgs(opts, h, m, w, fl, grad, ar, av, hv) && |p| == m.nbFaces
    ensures |r| == m.nbFaces
  {
    SweepFacesAreInner(m, w, fl, fl.xThenY);
    var faces := SweepFaces(m, fl.xThenY);
    if opts.projectionOrder == 2 || opts.projectionOrder == 3 then
      Scatter(p, faces, FaceValues(opts, h, m, w, fl, grad, ar, av, hv, faces))
    else p
  }

  /** Orders other than 2 and 3 write nothing; faces off the sweep keep
      their value; sweep faces get their face value. */
  lemma {:induction false} PhiFace2AfterMeaning(opts: Options, h: Helpers, m: Mesh, w: nat, fl: Fields,
                             grad: seq<seq<real>>, ar: seq<seq<real>>, av: seq<seq<real>>, hv: seq<real>,
                             p: seq<seq<real>>, f: nat)
    requires FaceArgs(opts, h, m, w, fl, grad, ar, av, hv) && |p| == m.nbFaces && f < m.nbFaces
    ensures opts.projectionOrder != 2 && opts.projectionOrder != 3 ==>
      PhiFace2After(opts, h, m, w, fl, grad, ar, av, hv, p) == p
    ensures f !in SweepFaces(m, fl.xThenY) ==> PhiFace2After(opts, h, m, w, fl, grad, ar, av, hv, p)[f] == p[f]
    ensures (opts.projectionOrder == 2 || opts.projectionOrder == 3) && f in SweepFaces(m, fl.xThenY) ==>
      0 <= m.frontCell[f] && 0 <= m.backCell[f] &&
      PhiFace2After(opts, h, m, w, fl, grad, ar, av, hv, p)[f] == FaceValue(opts, h, m, w, fl, grad, ar, av, hv, f)
  {
    SweepFacesAreInner(m, w, fl, fl.xThenY);
    var faces := SweepFaces(m, fl.xThenY);
    if opts.projectionOrder == 2 || opts.projectionOrder == 3 {
      var values := FaceValues(opts, h, m, w, fl, grad, ar, av, hv, faces);
      if f in faces {
        var i :| 0 <= i < |faces| && faces[i] == f;
        ScatterWritten(p, faces, values, i);
      } else {
        ScatterUntouched(p, faces, values, f);
      }
    }
  }

  /** At order 2 without plateau-pente and with flat gradients, the face
      value is the density of the upwind cell: the back cell when
      v * deltax > 0, the front cell otherwise. */
  lemma {:induction false} FlatGradientFaceValueIsUpwindDensity(opts: Options, h: Helpers, m: Mesh, w: nat, fl: Fields,
                                             grad: seq<seq<real>>, ar: seq<seq<real>>, av: seq<seq<real>>,
                                             hv: seq<real>, f: nat)
    requires FaceArgs(opts, h, m, w, fl, grad, ar, av, hv)
    requires f < m.nbFaces && 0 <= m.frontCell[f] && 0 <= m.backCell[f]
    requires opts.projectionOrder == 2 && opts.projectionAvecPlateauPente == 0
    requires grad[m.frontCell[f]] == Zeros(w) && grad[m.backCell[f]] == Zeros(w)
    ensures FaceValue(opts, h, m, w, fl, grad, ar, av, hv, f) ==
      if fl.faceNormalVelocity[f] * fl.deltaxLagrange[f] > 0.0 then CellDensity(m, w, fl, m.backCell[f] as nat)
      else CellDensity(m, w, fl, m.frontCell[f] as nat)
  {
    var cf := m.frontCell[f] as nat;
    var cb := m.backCell[f] as nat;
    UpwindWithoutGradientIsCellValue(fl.faceNormal[f], fl.faceNormalVelocity[f], fl.deltaxLagrange[f], fl.xf[f],
                                     CellDensity(m, w, fl, cb), fl.xcLagrange[cb],
                                     CellDensity(m, w, fl, cf), fl.xcLagrange[cf]);
  }

  /** With plateau-pente at order 2, the face value is what the upstream
      cell sends forward minus what the downstream cell sends back: along y
      the front cell is upstream, along x the back cell. */
  lemma {:induction false} PlateauPenteFaceValue(opts: Options, h: Helpers, m: Mesh, w: nat, fl: Fields,
                              grad: seq<seq<real>>, ar: seq<seq<real>>, av: seq<seq<real>>,
                              hv: seq<real>, f: nat, k: nat)
    requires FaceArgs(opts, h, m, w, fl, grad, ar, av, hv)
    requires f < m.nbFaces && 0 <= m.frontCell[f] && 0 <= m.backCell[f] && k < w
    requires opts.projectionOrder == 2 && opts.projectionAvecPlateauPente != 0
    ensures var (up, down) := if fl.xThenY then (m.frontCell[f], m.backCell[f]) else (m.backCell[f], m.frontCell[f]);
      FaceValue(opts, h, m, w, fl, grad, ar, av, hv, f)[k] + ar[down][k] == av[up][k]
  {
  }

  /** One turn of the face loop. */
  method FaceValueTurn(opts: Options, h: Helpers, m: Mesh, w: nat, fl: Fields,
                       grad: seq<seq<real>>, ar: seq<seq<real>>, av: seq<seq<real>>, hv: seq<real>, f: nat)
    returns (r: seq<real>)
    requires FaceArgs(opts, h, m, w, fl, grad, ar, av, hv)
    requires f < m.nbFaces && 0 <= m.frontCell[f] && 0 <= m.backCell[f]
    requires opts.projectionOrder == 2 || opts.projectionOrder == 3
    ensures r == FaceValue(opts, h, m, w, fl, grad, ar, av, hv, f)
  {
    var cf := m.frontCell[f] as nat;
    var cb := m.backCell[f] as nat;
    if opts.projectionOrder == 2 {
      if opts.projectionAvecPlateauPente == 0 {
        r := UpwindFaceQuantities(fl.faceNormal[f], fl.faceNormalVelocity[f], fl.deltaxLagrange[f], fl.xf[f],
                                  CellDensity(m, w, fl, cb), grad[cb], fl.xcLagrange[cb],
                                  CellDensity(m, w, fl, cf), grad[cf], fl.xcLagrange[cf]);
      } else if fl.xThenY {
        r := Sub(av[cf], ar[cb]);
      } else {
        r := Sub(av[cb], ar[cf]);
      }
    } else if fl.xThenY {
      var cff := m.bottomCells(cf);
      var cfff := m.bottomCells(cff);
      var cbb := m.topCells(cb);
      var cbbb := m.topCells(cbb);
      r := ComputeVecFluxOrdre3(h.fluxOrdre3, CellDensity(m, w, fl, cfff), CellDensity(m, w, fl, cff),
                                CellDensity(m, w, fl, cf), CellDensity(m, w, fl, cb), CellDensity(m, w, fl, cbb),
                                CellDensity(m, w, fl, cbbb), hv[cfff], hv[cff], hv[cf], hv[cb], hv[cbb], hv[cbbb],
                                fl.faceNormalVelocity[f], fl.deltatN);
    } else {
      var cff := m.rightCells(cf);
      var cfff := m.rightCells(cff);
      var cbb := m.leftCells(cb);
      var cbbb := m.leftCells(cbb);
      r := ComputeVecFluxOrdre3(h.fluxOrdre3, CellDensity(m, w, fl, cbbb), CellDensity(m, w, fl, cbb),
                                CellDensity(m, w, fl, cb), CellDensity(m, w, fl, cf), CellDensity(m, w, fl, cff),
                                CellDensity(m, w, fl, cfff), hv[cbbb], hv[cbb], hv[cb], hv[cf], hv[cff], hv[cfff],
                                fl.faceNormalVelocity[f], fl.deltatN);
    }
  }

  /** The face loop of computeUpwindFaceQuantitiesForProjection2. */
  method FaceValueLoop(opts: Options, h: Helpers, m: Mesh, w: nat, fl: Fields,
                       grad: seq<seq<real>>, ar: seq<seq<real>>, av: seq<seq<real>>, hv: seq<real>,
                       faces: seq<nat>, p0: seq<seq<real>>) returns (p: seq<seq<real>>)
    requires FaceArgs(opts, h, m, w, fl, grad, ar, av, hv) && InnerFaces(m, faces) && |p0| == m.nbFaces
    requires opts.projectionOrder == 2 || opts.projectionOrder == 3
    ensures p == Scatter(p0, faces, FaceValues(opts, h, m, w, fl, grad, ar, av, hv, faces))
  {
    ghost var values := FaceValues(opts, h, m, w, fl, grad, ar, av, hv, faces);
    p := p0;
    var i := 0;
    while i < |faces|
      invariant 0 <= i <= |faces|
      invariant p == Scatter(p0, faces[..i], values[..i])
    {
      var v := FaceValueTurn(opts, h, m, w, fl, grad, ar, av, hv, faces[i]);
      FaceValueStep(opts, h, m, w, fl, grad, ar, av, hv, faces, p0, i, v);
      p := p[faces[i] := v];
      i := i + 1;
    }
    assert faces[..|faces|] == faces && values[..|faces|] == values;
  }

  /** One turn of the face loop writes the value of face i. */
  lemma {:induction false} FaceValueStep(opts: Options, h: Helpers, m: Mesh, w: nat, fl: Fields,
                                         grad: seq<seq<real>>, ar: seq<seq<real>>, av: seq<seq<real>>, hv: seq<real>,
                                         faces: seq<nat>, p0: seq<seq<real>>, i: nat, v: seq<real>)
    requires FaceArgs(opts, h, m, w, fl, grad, ar, av, hv) && InnerFaces(m, faces) && |p0| == m.nbFaces
    requires opts.projectionOrder == 2 || opts.projectionOrder == 3
    requires i < |faces| && v == FaceValue(opts, h, m, w, fl, grad, ar, av, hv, faces[i])
    ensures var values := FaceValues(opts, h, m, w, fl, grad, ar, av, hv, faces);
      Scatter(p0, faces[..i + 1], values[..i + 1]) == Scatter(p0, faces[..i], values[..i])[faces[i] := v]
  {
    ScatterStep(p0, faces, FaceValues(opts, h, m, w, fl, grad, ar, av, hv, faces), i);
  }

  // ---------------------------------------------------------------------
  // computeUremap2: flux balance of every cell

  /** xThenYToDirection: ex for true, ey for false. */
  function DirectionOf(b: bool): Vec2
  {
    if b then Ex else Ey
  }

  /** The balance runs along the same direction as the stencil of the
      gradient job: y when x_then_y_n, x otherwise. */
  lemma {:induction false} BalanceDirectionIsSweepDirection(m: Mesh, xThenY: bool, c: nat)
    requires ValidMesh(m) && c < m.nbCells
    ensures DirectionOf(!xThenY) == SweepStencil(m, xThenY, c).exy
    ensures DirectionOf(!xThenY) == if xThenY then Vec2(0.0, 1.0) else Vec2(1.0, 0.0)
  {
  }

  ghost predicate BalanceArgs(opts: Options, h: Helpers, m: Mesh, w: nat, fl: Fields, p: seq<seq<real>>)
  {
    ValidMesh(m) && ValidFields(m, w, fl) && ValidSetup(opts, h, w) && Width(p, m.nbFaces, w)
  }

  /** The flux of cell c through the face it shares with its k-th
      neighbour. */
  function NeighbourFlux(opts: Options, h: Helpers, m: Mesh, w: nat, fl: Fields, p: seq<seq<real>>,
                         c: nat, k: nat): (r: seq<real>)
    requires BalanceArgs(opts, h, m, w, fl, p) && c < m.nbCells && k < |m.neighbourCells[c]|
    ensures |r| == w
  {
    var f := m.commonFace(c, m.neighbourCells[c][k]);
    RemapFlux(opts.projectionAvecPlateauPente, fl.faceNormalVelocity[f], fl.faceNormal[f], fl.faceLength[f], p[f],
              fl.outerFaceNormal[c][IndexOf(m.facesOfCell[c], f)], DirectionOf(!fl.xThenY), fl.deltatN)
  }

  /** reduction9 after the first n neighbours, summed in neighbour order. */
  function NeighbourFluxSum(opts: Options, h: Helpers, m: Mesh, w: nat, fl: Fields, p: seq<seq<real>>,
                            c: nat, n: nat): (r: seq<real>)
    requires BalanceArgs(opts, h, m, w, fl, p) && c < m.nbCells && n <= |m.neighbourCells[c]|
    ensures |r| == w
  {
    if n == 0 then Zeros(w)
    else Add(NeighbourFluxSum(opts, h, m, w, fl, p, c, n - 1), NeighbourFlux(opts, h, m, w, fl, p, c, n - 1))
  }

  /** The total flux out of cell c: all neighbour faces, plus the boundary
      flux when the boundary-flux switch is on. */
  function CellReduction(opts: Options, h: Helpers, m: Mesh, w: nat, fl: Fields, p: seq<seq<real>>,
                         c: nat): (r: seq<real>)
    requires BalanceArgs(opts, h, m, w, fl, p) && c < m.nbCells
    ensures |r| == w
  {
    var inner := NeighbourFluxSum(opts, h, m, w, fl, p, c, |m.neighbourCells[c]|);
    if opts.fluxBC > 0 then Add(inner, h.boundaryFluxes(2, c, DirectionOf(!fl.xThenY))) else inner
  }

  /** Uremap2 after the job: Uremap1 minus the cell's total flux. */
  function Uremap2Cells(opts: Options, h: Helpers, m: Mesh, w: nat, fl: Fields, p: seq<seq<real>>): (r: seq<seq<real>>)
    requires BalanceArgs(opts, h, m, w, fl, p)
    ensures Width(r, m.nbCells, w)
    ensures forall c :: 0 <= c < m.nbCells ==> r[c] == Sub(fl.uremap1[c], CellReduction(opts, h, m, w, fl, p, c))
  {
    seq(m.nbCells, c requires 0 <= c < m.nbCells => Sub(fl.uremap1[c], CellReduction(opts, h, m, w, fl, p, c)))
  }

  /** Faces that carry a zero face value contribute nothing. */
  lemma {:induction false} ZeroFaceValuesSumToZero(opts: Options, h: Helpers, m: Mesh, w: nat, fl: Fields,
                                                   p: seq<seq<real>>, c: nat, n: nat)
    requires BalanceArgs(opts, h, m, w, fl, p) && c < m.nbCells && n <= |m.neighbourCells[c]|
    requires forall k :: 0 <= k < n ==> p[m.commonFace(c, m.neighbourCells[c][k])] == Zeros(w)
    ensures NeighbourFluxSum(opts, h, m, w, fl, p, c, n) == Zeros(w)
  {
    if n > 0 {
      ZeroFaceValuesSumToZero(opts, h, m, w, fl, p, c, n - 1);
      var flux := NeighbourFlux(opts, h, m, w, fl, p, c, n - 1);
      assert forall i :: 0 <= i < w ==> flux[i] == 0.0;
      assert NeighbourFluxSum(opts, h, m, w, fl, p, c, n) == Zeros(w);
    }
  }

  /** A cell all of whose neighbour faces carry zero face values, without
      boundary fluxes, keeps its Uremap1. */
  lemma {:induction false} QuietCellIsUnchanged(opts: Options, h: Helpers, m: Mesh, w: nat, fl: Fields, p: seq<seq<real>>, c: nat)
    requires BalanceArgs(opts, h, m, w, fl, p) && c < m.nbCells && opts.fluxBC <= 0
    requires forall k :: 0 <= k < |m.neighbourCells[c]| ==> p[m.commonFace(c, m.neighbourCells[c][k])] == Zeros(w)
    ensures Uremap2Cells(opts, h, m, w, fl, p)[c] == fl.uremap1[c]
  {
    ZeroFaceValuesSumToZero(opts, h, m, w, fl, p, c, |m.neighbourCells[c]|);
    var u := Uremap2Cells(opts, h, m, w, fl, p)[c];
    assert forall i :: 0 <= i < w ==> u[i] == fl.uremap1[c][i];
  }

  /** Boundary fluxes matter only when the boundary-flux switch is on: with
      it off, any two boundary-flux helpers give the same Uremap2. */
  lemma {:induction false} BoundaryFluxesOnlyWhenSwitchedOn(opts: Options, h: Helpers, h': Helpers, m: Mesh, w: nat, fl: Fields,
                                         p: seq<seq<real>>)
    requires BalanceArgs(opts, h, m, w, fl, p) && BalanceArgs(opts, h', m, w, fl, p)
    requires h' == h.(boundaryFluxes := h'.boundaryFluxes)
    requires opts.fluxBC <= 0
    ensures Uremap2Cells(opts, h, m, w, fl, p) == Uremap2Cells(opts, h', m, w, fl, p)
  {
    forall c | 0 <= c < m.nbCells
      ensures CellReduction(opts, h, m, w, fl, p, c) == CellReduction(opts, h', m, w, fl, p, c)
    {
      NeighbourSumIgnoresBoundary(opts, h, h', m, w, fl, p, c, |m.neighbourCells[c]|);
    }
  }

  lemma {:induction false} NeighbourSumIgnoresBoundary(opts: Options, h: Helpers, h': Helpers, m: Mesh, w: nat,
                                                       fl: Fields, p: seq<seq<real>>, c: nat, n: nat)
    requires BalanceArgs(opts, h, m, w, fl, p) && BalanceArgs(opts, h', m, w, fl, p)
    requires c < m.nbCells && n <= |m.neighbourCells[c]|
    ensures NeighbourFluxSum(opts, h, m, w, fl, p, c, n) == NeighbourFluxSum(opts, h', m, w, fl, p, c, n)
  {
    if n > 0 {
      NeighbourSumIgnoresBoundary(opts, h, h', m, w, fl, p, c, n - 1);
    }
  }

  /** Conservation across a face: when c and d share face f and see it
      with opposite outer normals, their fluxes through it cancel. */
  lemma {:induction false} SharedFaceFluxesCancel(opts: Options, h: Helpers, m: Mesh, w: nat, fl: Fields, p: seq<seq<real>>,
                               c: nat, k: nat, d: nat, j: nat)
    requires BalanceArgs(opts, h, m, w, fl, p) && c < m.nbCells && d < m.nbCells
    requires k < |m.neighbourCells[c]| && m.neighbourCells[c][k] == d
    requires j < |m.neighbourCells[d]| && m.neighbourCells[d][j] == c
    requires m.commonFace(c, d) == m.commonFace(d, c)
    requires var f := m.commonFace(c, d);
      var nc := fl.outerFaceNormal[c][IndexOf(m.facesOfCell[c], f)];
      fl.outerFaceNormal[d][IndexOf(m.facesOfCell[d], f)] == Vec2(-nc.x, -nc.y)
    ensures Add(NeighbourFlux(opts, h, m, w, fl, p, c, k), NeighbourFlux(opts, h, m, w, fl, p, d, j)) == Zeros(w)
  {
    var f := m.commonFace(c, d);
    var nc := fl.outerFaceNormal[c][IndexOf(m.facesOfCell[c], f)];
    RemapFluxIsAntisymmetric(opts.projectionAvecPlateauPente, fl.faceNormalVelocity[f], fl.faceNormal[f],
                             fl.faceLength[f], p[f], nc, DirectionOf(!fl.xThenY), fl.deltatN);
  }

  /** Component i of every neighbour flux, one row per cell. */
  function FluxTable(opts: Options, h: Helpers, m: Mesh, w: nat, fl: Fields, p: seq<seq<real>>, i: nat)
    : (r: seq<seq<real>>)
    requires BalanceArgs(opts, h, m, w, fl, p) && i < w
    ensures |r| == m.nbCells
    ensures forall c :: 0 <= c < m.nbCells ==> |r[c]| == |m.neighbourCells[c]|
    ensures forall c, k :: 0 <= c < m.nbCells && 0 <= k < |m.neighbourCells[c]| ==>
      r[c][k] == NeighbourFlux(opts, h, m, w, fl, p, c, k)[i]
  {
    seq(m.nbCells, c requires 0 <= c < m.nbCells =>
      seq(|m.neighbourCells[c]|, k requires 0 <= k < |m.neighbourCells[c]| =>
        NeighbourFlux(opts, h, m, w, fl, p, c, k)[i]))
  }

  lemma {:induction false} NeighbourFluxSumIsRowSum(opts: Options, h: Helpers, m: Mesh, w: nat, fl: Fields,
                                                    p: seq<seq<real>>, c: nat, n: nat, i: nat)
    requires BalanceArgs(opts, h, m, w, fl, p) && c < m.nbCells && n <= |m.neighbourCells[c]| && i < w
    ensures NeighbourFluxSum(opts, h, m, w, fl, p, c, n)[i] == Sum(FluxTable(opts, h, m, w, fl, p, i)[c][..n])
  {
    var row := FluxTable(opts, h, m, w, fl, p, i)[c];
    if n == 0 {
      assert row[..0] == [];
    } else {
      NeighbourFluxSumIsRowSum(opts, h, m, w, fl, p, c, n - 1, i);
      SumStep(row, n - 1);
    }
  }

  /** The neighbour relation of the mesh is symmetric: partner(c, k) is the
      place of c among the neighbours of its k-th neighbour d; c and d are
      distinct, name the same common face, and see it with opposite outer
      normals. */
  ghost predicate PairedNeighbours(m: Mesh, w: nat, fl: Fields, partner: (nat, nat) -> nat)
    requires ValidMesh(m) && ValidFields(m, w, fl)
  {
    forall c, k :: 0 <= c < m.nbCells && 0 <= k < |m.neighbourCells[c]| ==>
      var d := m.neighbourCells[c][k];
      var j := partner(c, k);
      && d != c && j < |m.neighbourCells[d]| && m.neighbourCells[d][j] == c && partner(d, j) == k
      && m.commonFace(c, d) == m.commonFace(d, c)
      && var f := m.commonFace(c, d);
         var nc := fl.outerFaceNormal[c][IndexOf(m.facesOfCell[c], f)];
         fl.outerFaceNormal[d][IndexOf(m.facesOfCell[d], f)] == Vec2(-nc.x, -nc.y)
  }

  /** Component i of every row. */
  function Column(rows: seq<seq<real>>, i: nat): (r: seq<real>)
    requires forall c :: 0 <= c < |rows| ==> i < |rows[c]|
    ensures |r| == |rows| && forall c :: 0 <= c < |rows| ==> r[c] == rows[c][i]
  {
    seq(|rows|, c requires 0 <= c < |rows| => rows[c][i])
  }

  /** Conservation of the pass: without boundary fluxes, on a mesh whose
      neighbour relation is symmetric, every flux leaving one cell enters
      its neighbour, so the sum over all cells of each transported quantity
      is the same in Uremap2 as in Uremap1. */
  lemma {:induction false} SweepConservesTotals(opts: Options, h: Helpers, m: Mesh, w: nat, fl: Fields,
                                                p: seq<seq<real>>, partner: (nat, nat) -> nat, i: nat)
    requires BalanceArgs(opts, h, m, w, fl, p) && opts.fluxBC <= 0 && i < w
    requires PairedNeighbours(m, w, fl, partner)
    ensures Sum(Column(Uremap2Cells(opts, h, m, w, fl, p), i)) == Sum(Column(fl.uremap1, i))
  {
    var t := FluxTable(opts, h, m, w, fl, p, i);
    var S := AllNeighbourPlaces(m);
    var pair := (x: (nat, nat)) =>
      if x.0 < m.nbCells && x.1 < |m.neighbourCells[x.0]| then (m.neighbourCells[x.0][x.1], partner(x.0, x.1)) else x;
    FluxTableIsPaired(opts, h, m, w, fl, p, partner, i, pair);
    PairedEntriesCancel(t, S, pair);
    FullMask(opts, h, m, w, fl, p, i);
    ColumnBalance(opts, h, m, w, fl, p, i);
  }

  /** Every (cell, neighbour position) of the mesh. */
  function AllNeighbourPlaces(m: Mesh): (r: set<(nat, nat)>)
    requires |m.neighbourCells| == m.nbCells
    ensures forall c: nat, k: nat :: (c, k) in r <==> c < m.nbCells && k < |m.neighbourCells[c]|
  {
    set c: nat, k: nat | c < m.nbCells && k < |m.neighbourCells[c]| :: (c, k)
  }

  /** Each neighbour flux is matched by the opposite flux of the neighbour. */
  lemma {:induction false} FluxTableIsPaired(opts: Options, h: Helpers, m: Mesh, w: nat, fl: Fields,
                                             p: seq<seq<real>>, partner: (nat, nat) -> nat, i: nat,
                                             pair: ((nat, nat)) -> (nat, nat))
    requires BalanceArgs(opts, h, m, w, fl, p) && i < w
    requires PairedNeighbours(m, w, fl, partner)
    requires forall x: (nat, nat) :: x.0 < m.nbCells && x.1 < |m.neighbourCells[x.0]| ==>
      pair(x) == (m.neighbourCells[x.0][x.1], partner(x.0, x.1))
    ensures Paired(FluxTable(opts, h, m, w, fl, p, i), AllNeighbourPlaces(m), pair)
  {
    var t := FluxTable(opts, h, m, w, fl, p, i);
    var S := AllNeighbourPlaces(m);
    forall x | x in S
      ensures InTable(t, x) && pair(x) in S && pair(x) != x && pair(pair(x)) == x
      ensures InTable(t, pair(x)) && t[pair(x).0][pair(x).1] == -t[x.0][x.1]
    {
      var (c, k) := x;
      var d := m.neighbourCells[c][k];
      var j := partner(c, k);
      SharedFaceFluxesCancel(opts, h, m, w, fl, p, c, k, d, j);
      assert Add(NeighbourFlux(opts, h, m, w, fl, p, c, k), NeighbourFlux(opts, h, m, w, fl, p, d, j))[i] == 0.0;
    }
  }

  lemma {:induction false} FullMask(opts: Options, h: Helpers, m: Mesh, w: nat, fl: Fields, p: seq<seq<real>>, i: nat)
    requires BalanceArgs(opts, h, m, w, fl, p) && i < w
    ensures Masked(FluxTable(opts, h, m, w, fl, p, i), AllNeighbourPlaces(m)) == FluxTable(opts, h, m, w, fl, p, i)
  {
    var t := FluxTable(opts, h, m, w, fl, p, i);
    var S := AllNeighbourPlaces(m);
    forall c | 0 <= c < m.nbCells
      ensures Masked(t, S)[c] == t[c]
    {
      assert forall k :: 0 <= k < |t[c]| ==> (c, k) in S;
    }
  }

  /** Per component, Uremap1 is Uremap2 plus the cell's neighbour fluxes. */
  lemma {:induction false} ColumnBalance(opts: Options, h: Helpers, m: Mesh, w: nat, fl: Fields, p: seq<seq<real>>, i: nat)
    requires BalanceArgs(opts, h, m, w, fl, p) && opts.fluxBC <= 0 && i < w
    ensures Sum(Column(fl.uremap1, i))
         == Sum(Column(Uremap2Cells(opts, h, m, w, fl, p), i)) + Sum(RowSums(FluxTable(opts, h, m, w, fl, p, i)))
  {
    var t := FluxTable(opts, h, m, w, fl, p, i);
    var u2 := Column(Uremap2Cells(opts, h, m, w, fl, p), i);
    var u1 := Column(fl.uremap1, i);
    forall c | 0 <= c < m.nbCells
      ensures u1[c] == u2[c] + RowSums(t)[c]
    {
      var n := |m.neighbourCells[c]|;
      NeighbourFluxSumIsRowSum(opts, h, m, w, fl, p, c, n, i);
      assert t[c][..n] == t[c];
    }
    assert u1 == Add(u2, RowSums(t));
    SumOfAdd(u2, RowSums(t));
  }

  /** The neighbour loop of one cell of computeUremap2. */
  method CellReductionLoop(opts: Options, h: Helpers, m: Mesh, w: nat, fl: Fields, p: seq<seq<real>>, c: nat)
    returns (reduction: seq<real>)
    requires BalanceArgs(opts, h, m, w, fl, p) && c < m.nbCells
    ensures reduction == CellReduction(opts, h, m, w, fl, p, c)
  {
    var exy := DirectionOf(!fl.xThenY);
    reduction := Zeros(w);
    var k := 0;
    while k < |m.neighbourCells[c]|
      invariant 0 <= k <= |m.neighbourCells[c]|
      invariant reduction == NeighbourFluxSum(opts, h, m, w, fl, p, c, k)
    {
      var f := m.commonFace(c, m.neighbourCells[c][k]);
      var local := IndexOf(m.facesOfCell[c], f);
      reduction := Add(reduction, RemapFlux(opts.projectionAvecPlateauPente, fl.faceNormalVelocity[f],
                                            fl.faceNormal[f], fl.faceLength[f], p[f],
                                            fl.outerFaceNormal[c][local], exy, fl.deltatN));
      k := k + 1;
    }
    if opts.fluxBC > 0 {
      reduction := Add(reduction, h.boundaryFluxes(2, c, exy));
    }
  }

  /** The cell loop of computeUremap2. */
  method Uremap2Loop(opts: Options, h: Helpers, m: Mesh, w: nat, fl: Fields, p: seq<seq<real>>,
                     u0: seq<seq<real>>) returns (u: seq<seq<real>>)
    requires BalanceArgs(opts, h, m, w, fl, p) && |u0| == m.nbCells
    ensures u == Uremap2Cells(opts, h, m, w, fl, p)
  {
    u := u0;
    var c := 0;
    while c < m.nbCells
      invariant 0 <= c <= m.nbCells && |u| == m.nbCells
      invariant forall k :: 0 <= k < c ==> u[k] == Sub(fl.uremap1[k], CellReduction(opts, h, m, w, fl, p, k))
    {
      var reduction := CellReductionLoop(opts, h, m, w, fl, p, c);
      u := u[c := Sub(fl.uremap1[c], reduction)];
      c := c + 1;
    }
    assert u == Uremap2Cells(opts, h, m, w, fl, p);
  }

  // ---------------------------------------------------------------------
  // The EucclhydRemap object

  /** The state of the second remap pass: the arrays the four jobs write,
      beside the mesh, the options, the helpers, the state width and the
      fields written by earlier phases. */
  class EucclhydRemap {
    const mesh: Mesh
    const options: Options
    const helpers: Helpers
    const width: nat
    const fields: Fields
    var gradPhiFace2: seq<seq<real>>
    var lfLagrange: seq<real>
    var hvLagrange: seq<real>
    var gradPhi2: seq<seq<real>>
    var deltaPhiFaceAr: seq<seq<real>>
    var deltaPhiFaceAv: seq<seq<real>>
    var phiFace2: seq<seq<real>>
    var uremap2: seq<seq<real>>

    /** The mesh, the fields the pass reads and the options fit together. */
    ghost predicate Setup()
    {
      ValidMesh(mesh) && ValidFields(mesh, width, fields) && ValidSetup(options, helpers, width)
    }

    /** A per-face array of width-wide rows. */
    predicate FaceRows(s: seq<seq<real>>)
    {
      Width(s, mesh.nbFaces, width)
    }

    /** A per-cell array of width-wide rows. */
    predicate CellRows(s: seq<seq<real>>)
    {
      Width(s, mesh.nbCells, width)
    }

    /** All arrays start at zero. */
    constructor (mesh: Mesh, options: Options, helpers: Helpers, width: nat, fields: Fields)
      requires ValidMesh(mesh) && ValidFields(mesh, width, fields) && ValidSetup(options, helpers, width)
      ensures Setup()
      ensures this.mesh == mesh && this.options == options && this.helpers == helpers
      ensures this.width == width && this.fields == fields
      ensures gradPhiFace2 == phiFace2 == seq(mesh.nbFaces, _ => Zeros(width))
      ensures gradPhi2 == deltaPhiFaceAr == deltaPhiFaceAv == uremap2 == seq(mesh.nbCells, _ => Zeros(width))
      ensures lfLagrange == seq(mesh.nbFaces, _ => 0.0) && hvLagrange == seq(mesh.nbCells, _ => 0.0)
    {
      this.mesh := mesh;
      this.options := options;
      this.helpers := helpers;
      this.width := width;
      this.fields := fields;
      var faceZeros := seq(mesh.nbFaces, _ => Zeros(width));
      var cellZeros := seq(mesh.nbCells, _ => Zeros(width));
      gradPhiFace2 := faceZeros;
      phiFace2 := faceZeros;
      gradPhi2 := cellZeros;
      deltaPhiFaceAr := cellZeros;
      deltaPhiFaceAv := cellZeros;
      uremap2 := cellZeros;
      lfLagrange := seq(mesh.nbFaces, _ => 0.0);
      hvLagrange := seq(mesh.nbCells, _ => 0.0);
    }

    /** Job computeGradPhiFace2. */
    method ComputeGradPhiFace2()
      requires Setup() && FaceRows(gradPhiFace2) && |lfLagrange| == mesh.nbFaces && |hvLagrange| == mesh.nbCells
      modifies this`gradPhiFace2, this`lfLagrange, this`hvLagrange
      ensures FaceRows(gradPhiFace2) && |lfLagrange| == mesh.nbFaces && |hvLagrange| == mesh.nbCells
      ensures gradPhiFace2 == GradPhiFace2After(options.projectionOrder, mesh, width, fields, old(gradPhiFace2))
      ensures lfLagrange == LfLagrangeAfter(helpers.sqrt, options.projectionOrder, mesh, width, fields, old(lfLagrange))
      ensures hvLagrange == HvLagrangeAfter(options.projectionOrder, mesh, width, fields, old(hvLagrange))
    {
      if options.projectionOrder > 1 {
        SweepFacesAreInner(mesh, width, fields, fields.xThenY);
        var faces := SweepFaces(mesh, fields.xThenY);
        ScatterWidth(gradPhiFace2, faces, FaceSlopes(mesh, width, fields, faces), width);
        gradPhiFace2, lfLagrange := FaceSlopeLoop(helpers.sqrt, mesh, width, fields, faces, gradPhiFace2, lfLagrange);
        hvLagrange := HalfWidthLoop(mesh, fields, fields.xThenY, hvLagrange);
      }
    }

    /** Job computeGradPhi2. */
    method ComputeGradPhi2()
      requires Setup() && FaceRows(gradPhiFace2) && |hvLagrange| == mesh.nbCells
      requires CellRows(gradPhi2) && CellRows(deltaPhiFaceAr) && CellRows(deltaPhiFaceAv)
      modifies this`gradPhi2, this`deltaPhiFaceAr, this`deltaPhiFaceAv
      ensures CellRows(gradPhi2) && CellRows(deltaPhiFaceAr) && CellRows(deltaPhiFaceAv)
      ensures gradPhi2 == GradPhi2After(options, helpers, mesh, width, fields, gradPhiFace2, hvLagrange, old(gradPhi2))
      ensures deltaPhiFaceAr == ArAfter(options, helpers, mesh, width, fields, gradPhiFace2, hvLagrange, old(deltaPhiFaceAr))
      ensures deltaPhiFaceAv == AvAfter(options, helpers, mesh, width, fields, gradPhiFace2, hvLagrange, old(deltaPhiFaceAv))
    {
      if options.projectionOrder > 1 {
        gradPhi2, deltaPhiFaceAr, deltaPhiFaceAv :=
          CellSlopeLoop(options, helpers, mesh, width, fields, gradPhiFace2, hvLagrange,
                        gradPhi2, deltaPhiFaceAr, deltaPhiFaceAv);
      }
    }

    /** Job computeUpwindFaceQuantitiesForProjection2. */
    method ComputeUpwindFaceQuantitiesForProjection2()
      requires Setup() && CellRows(gradPhi2) && CellRows(deltaPhiFaceAr) && CellRows(deltaPhiFaceAv)
      requires |hvLagrange| == mesh.nbCells && FaceRows(phiFace2)
      modifies this`phiFace2
      ensures FaceRows(phiFace2)
      ensures phiFace2 == PhiFace2After(options, helpers, mesh, width, fields, gradPhi2, deltaPhiFaceAr,
                                        deltaPhiFaceAv, hvLagrange, old(phiFace2))
    {
      if options.projectionOrder == 2 || options.projectionOrder == 3 {
        SweepFacesAreInner(mesh, width, fields, fields.xThenY);
        var faces := SweepFaces(mesh, fields.xThenY);
        ghost var values := FaceValues(options, helpers, mesh, width, fields, gradPhi2, deltaPhiFaceAr, deltaPhiFaceAv,
                                 hvLagrange, faces);
        ScatterWidth(phiFace2, faces, values, width);
        phiFace2 := FaceValueLoop(options, helpers, mesh, width, fields, gradPhi2, deltaPhiFaceAr, deltaPhiFaceAv,
                                  hvLagrange, faces, phiFace2);
      }
    }

    /** Job computeUremap2. */
    method ComputeUremap2()
      requires Setup() && FaceRows(phiFace2) && |uremap2| == mesh.nbCells
      modifies this`uremap2
      ensures CellRows(uremap2)
      ensures uremap2 == Uremap2Cells(options, helpers, mesh, width, fields, phiFace2)
    {
      uremap2 := Uremap2Loop(options, helpers, mesh, width, fields, phiFace2, uremap2);
    }
  }
}
