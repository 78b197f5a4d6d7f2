// Dual-mesh (node) remap utilities of class Remap: the mass fluxes through
// the four virtual faces of the dual cell around a node, averaged over the
// contributing primal cells, and the upwind node velocity used to transport
// momentum and kinetic energy through those faces.
//
// The twelve flux routines get{RightAndLeft,TopAndBottom}FluxMasse{,ViaVol,PB}{1,2}
// share one shape: for each material the two per-side partial fluxes are
// reset, the contributions of the (at most two) present face pairs are added,
// the partials are divided by a count when it is non-zero, and the side totals
// are the sums of the partials. The variants differ in the contribution they
// add (FluxKind), in the axis of the outer normal (x for right/left, y for
// top/bottom), and in the input array (FluxFace1/DualphiFlux1 for step 1,
// FluxFace2/DualphiFlux2 for step 2).
module DualRemap {
  import opened Common

  // ---------------------------------------------------------------------
  // Contributions

  /** Which quantity the flux routine averages: the mass component times the
      outer normal (…FluxMasse), the volume component times the outer
      normal weighted by the Lagrangian density (…FluxMasseViaVol), or the
      cell's dual mass flux (…FluxMassePB). */
  datatype FluxKind = Mass | ViaVol | PenteBorne

  /** One primal cell seen from the node: the cell, the local index of the
      face it shares with the dual cell, and the local index of its face on
      the far side (fr/fl/ft/fb in the source). */
  datatype Side = Side(cell: nat, face: nat, farFace: nat)

  /** One face pair around the node: present when its VerticalFaceOfNode
      (right/left) or HorizontalFaceOfNode (top/bottom) entry is not -1;
      `plus` is the right (or top) cell, `minus` the left (or bottom) cell. */
  datatype Contribution = Contribution(present: bool, plus: Side, minus: Side)

  /** What the FacesLeftAndRight / FacesTopAndBottom fragments provide for a
      node: its two face pairs and the face count nbfaces. */
  datatype NodeStencil = NodeStencil(first: Contribution, second: Contribution, nbfaces: int)

  /** The per-cell input arrays of one remap step: FluxFace (per cell and
      local face, a state vector), the outer face normals, the Lagrangian
      density rLagrange and DualphiFlux (per cell, a state vector). */
  datatype StepInputs = StepInputs(
    faceFlux: seq<seq<seq<real>>>,
    outerFaceNormal: seq<seq<Vec2>>,
    rLagrange: seq<real>,
    dualPhiFlux: seq<seq<real>>)

  /** The arrays of `in` can be read at side s for components below
      `width`. */
  predicate SideValid(step: StepInputs, s: Side, width: nat)
  {
    && s.cell < |step.faceFlux| && s.cell < |step.outerFaceNormal| && s.cell < |step.rLagrange| && s.cell < |step.dualPhiFlux|
    && s.face < |step.faceFlux[s.cell]| && s.farFace < |step.faceFlux[s.cell]|
    && s.face < |step.outerFaceNormal[s.cell]| && s.farFace < |step.outerFaceNormal[s.cell]|
    && width <= |step.faceFlux[s.cell][s.face]| && width <= |step.faceFlux[s.cell][s.farFace]|
    && width <= |step.dualPhiFlux[s.cell]|
  }

  /** Both sides of every present face pair can be read for the 2 nbmat
      components of volumes and masses; an absent pair is never read. */
  predicate StencilValid(step: StepInputs, st: NodeStencil, nbmat: nat)
  {
    && (st.first.present ==> SideValid(step, st.first.plus, 2 * nbmat) && SideValid(step, st.first.minus, 2 * nbmat))
    && (st.second.present ==> SideValid(step, st.second.plus, 2 * nbmat) && SideValid(step, st.second.minus, 2 * nbmat))
  }

  /** Component `comp` of the fluxes through the two faces of a side, each
      times the outer normal's component on `axis`. */
  function FaceTerm(step: StepInputs, s: Side, axis: nat, comp: nat): real
    requires SideValid(step, s, comp + 1) && axis < 2
  {
    step.faceFlux[s.cell][s.face][comp] * Component(step.outerFaceNormal[s.cell][s.face], axis)
    + step.faceFlux[s.cell][s.farFace][comp] * Component(step.outerFaceNormal[s.cell][s.farFace], axis)
  }

  /** What one side adds to the partial flux of material imat. */
  function Term(kind: FluxKind, step: StepInputs, s: Side, axis: nat, nbmat: nat, imat: nat): real
    requires imat < nbmat && SideValid(step, s, 2 * nbmat) && axis < 2
  {
    match kind
    case Mass => FaceTerm(step, s, axis, nbmat + imat)
    case ViaVol => step.rLagrange[s.cell] * FaceTerm(step, s, axis, imat)
    case PenteBorne => step.dualPhiFlux[s.cell][nbmat + imat]
  }

  /** The side of a face pair a partial belongs to. */
  function Pick(c: Contribution, plusSide: bool): Side
  {
    if plusSide then c.plus else c.minus
  }

  /** nbcell: the number of present face pairs. */
  function PresentCount(st: NodeStencil): nat
  {
    (if st.first.present then 1 else 0) + (if st.second.present then 1 else 0)
  }

  /** The divisor of the partials: nbcell for the PB variants, nbfaces for
      the others. */
  function Divisor(kind: FluxKind, st: NodeStencil): int
  {
    if kind == PenteBorne then PresentCount(st) else st.nbfaces
  }

  /** The partial flux of material imat on one side, before the division. */
  function RawPartial(kind: FluxKind, step: StepInputs, st: NodeStencil, axis: nat, nbmat: nat, imat: nat,
                      plusSide: bool): real
    requires imat < nbmat && StencilValid(step, st, nbmat) && axis < 2
  {
    var afterFirst := 0.0 + (if st.first.present then Term(kind, step, Pick(st.first, plusSide), axis, nbmat, imat) else 0.0);
    afterFirst + (if st.second.present then Term(kind, step, Pick(st.second, plusSide), axis, nbmat, imat) else 0.0)
  }

  /** The partial flux of material imat on one side. */
  function Partial(kind: FluxKind, step: StepInputs, st: NodeStencil, axis: nat, nbmat: nat, imat: nat,
                   plusSide: bool): real
    requires imat < nbmat && StencilValid(step, st, nbmat) && axis < 2
  {
    var raw := RawPartial(kind, step, st, axis, nbmat, imat, plusSide);
    var d := Divisor(kind, st);
    if d != 0 then raw / d as real else raw
  }

  function Partials(kind: FluxKind, step: StepInputs, st: NodeStencil, axis: nat, nbmat: nat,
                    plusSide: bool): (r: seq<real>)
    requires StencilValid(step, st, nbmat) && axis < 2
    ensures |r| == nbmat
    ensures forall imat :: 0 <= imat < nbmat ==> r[imat] == Partial(kind, step, st, axis, nbmat, imat, plusSide)
  {
    seq(nbmat, imat requires 0 <= imat < nbmat => Partial(kind, step, st, axis, nbmat, imat, plusSide))
  }

  // ---------------------------------------------------------------------
  // Properties of the averaged fluxes

  /** An absent face pair contributes nothing: replacing its cells and
      faces by any others changes no partial. */
  lemma {:induction false} AbsentPairIsIgnored(kind: FluxKind, step: StepInputs, st: NodeStencil, other: Contribution,
                            axis: nat, nbmat: nat, imat: nat, plusSide: bool)
    requires imat < nbmat && axis < 2 && StencilValid(step, st, nbmat)
    requires !st.first.present && !other.present
    requires StencilValid(step, st.(first := other), nbmat)
    ensures Partial(kind, step, st, axis, nbmat, imat, plusSide)
         == Partial(kind, step, st.(first := other), axis, nbmat, imat, plusSide)
  {
  }

  /** With no present face pair every partial is 0. */
  lemma {:induction false} NoPairNoFlux(kind: FluxKind, step: StepInputs, st: NodeStencil, axis: nat, nbmat: nat, plusSide: bool)
    requires axis < 2 && StencilValid(step, st, nbmat)
    requires !st.first.present && !st.second.present
    ensures Partials(kind, step, st, axis, nbmat, plusSide) == Zeros(nbmat)
  {
  }

  /** The PB variants average over the present face pairs: a single present
      pair gives its own dual flux, two give their mean. */
  lemma {:induction false} PenteBorneIsMeanOfPresentCells(step: StepInputs, st: NodeStencil, axis: nat, nbmat: nat, imat: nat,
                                       plusSide: bool)
    requires imat < nbmat && axis < 2 && StencilValid(step, st, nbmat)
    ensures var t1 := if st.first.present then step.dualPhiFlux[Pick(st.first, plusSide).cell][nbmat + imat] else 0.0;
            var t2 := if st.second.present then step.dualPhiFlux[Pick(st.second, plusSide).cell][nbmat + imat] else 0.0;
            var p := Partial(PenteBorne, step, st, axis, nbmat, imat, plusSide);
            (st.first.present && st.second.present ==> p == (t1 + t2) / 2.0)
            && (st.first.present && !st.second.present ==> p == t1)
            && (!st.first.present && st.second.present ==> p == t2)
  {
  }

  /** Method A2 (ViaVol) agrees with the direct mass flux whenever the
      mass components of the face fluxes are the density times the volume
      components. */
  lemma {:induction false} ViaVolAgreesWithMassForConsistentFluxes(step: StepInputs, s: Side, axis: nat, nbmat: nat, imat: nat)
    requires imat < nbmat && axis < 2 && SideValid(step, s, 2 * nbmat)
    requires step.faceFlux[s.cell][s.face][nbmat + imat] == step.rLagrange[s.cell] * step.faceFlux[s.cell][s.face][imat]
    requires step.faceFlux[s.cell][s.farFace][nbmat + imat] == step.rLagrange[s.cell] * step.faceFlux[s.cell][s.farFace][imat]
    ensures Term(ViaVol, step, s, axis, nbmat, imat) == Term(Mass, step, s, axis, nbmat, imat)
  {
    var r := step.rLagrange[s.cell];
    var v1 := step.faceFlux[s.cell][s.face][imat];
    var v2 := step.faceFlux[s.cell][s.farFace][imat];
    var n1 := Component(step.outerFaceNormal[s.cell][s.face], axis);
    var n2 := Component(step.outerFaceNormal[s.cell][s.farFace], axis);
    calc {
      Term(ViaVol, step, s, axis, nbmat, imat);
      r * (v1 * n1 + v2 * n2);
      (r * v1) * n1 + (r * v2) * n2;
      Term(Mass, step, s, axis, nbmat, imat);
    }
  }

  // ---------------------------------------------------------------------
  // The material loop

  /** One turn of the material loop: both sides' partials of material
      imat, reset, accumulated over the present face pairs and divided. */
  method MaterialPartials(kind: FluxKind, step: StepInputs, st: NodeStencil, axis: nat, nbmat: nat, imat: nat)
    returns (plus: real, minus: real)
    requires imat < nbmat && axis < 2 && StencilValid(step, st, nbmat)
    ensures plus == Partial(kind, step, st, axis, nbmat, imat, true)
    ensures minus == Partial(kind, step, st, axis, nbmat, imat, false)
  {
    plus, minus := 0.0, 0.0;
    var nbcell := 0;
    if st.first.present {
      plus := plus + Term(kind, step, st.first.plus, axis, nbmat, imat);
      minus := minus + Term(kind, step, st.first.minus, axis, nbmat, imat);
      nbcell := nbcell + 1;
    }
    if st.second.present {
      plus := plus + Term(kind, step, st.second.plus, axis, nbmat, imat);
      minus := minus + Term(kind, step, st.second.minus, axis, nbmat, imat);
      nbcell := nbcell + 1;
    }
    assert plus == RawPartial(kind, step, st, axis, nbmat, imat, true);
    assert minus == RawPartial(kind, step, st, axis, nbmat, imat, false);
    var divisor := if kind == PenteBorne then nbcell else st.nbfaces;
    if divisor != 0 {
      plus := plus / divisor as real;
      minus := minus / divisor as real;
    }
  }

  /** The material loop shared by the twelve flux routines: both sides'
      partials, and the totals as their running sums. */
  method SideFluxes(kind: FluxKind, step: StepInputs, st: NodeStencil, axis: nat, nbmat: nat)
    returns (plusPartials: seq<real>, minusPartials: seq<real>, plusTotal: real, minusTotal: real)
    requires axis < 2 && StencilValid(step, st, nbmat)
    ensures plusPartials == Partials(kind, step, st, axis, nbmat, true)
    ensures minusPartials == Partials(kind, step, st, axis, nbmat, false)
    ensures plusTotal == Sum(plusPartials) && minusTotal == Sum(minusPartials)
  {
    plusPartials, minusPartials := [], [];
    plusTotal, minusTotal := 0.0, 0.0;
    var imat := 0;
    while imat < nbmat
      invariant 0 <= imat <= nbmat
      invariant |plusPartials| == |minusPartials| == imat
      invariant forall i :: 0 <= i < imat ==> plusPartials[i] == Partial(kind, step, st, axis, nbmat, i, true)
      invariant forall i :: 0 <= i < imat ==> minusPartials[i] == Partial(kind, step, st, axis, nbmat, i, false)
      invariant plusTotal == Sum(plusPartials) && minusTotal == Sum(minusPartials)
    {
      var plus, minus := MaterialPartials(kind, step, st, axis, nbmat, imat);
      SumAppend(plusPartials, plus);
      SumAppend(minusPartials, minus);
      plusPartials := plusPartials + [plus];
      minusPartials := minusPartials + [minus];
      plusTotal := plusTotal + plus;
      minusTotal := minusTotal + minus;
      imat := imat + 1;
    }
  }

  // ---------------------------------------------------------------------
  // Upwind node velocity

  /** The four virtual faces of the dual cell. */
  datatype Direction = Bottom | Top | Right | Left

  /** Top and bottom faces transport along y, right and left along x. */
  function AxisOf(d: Direction): nat
  {
    if d == Bottom || d == Top then 1 else 0
  }

  /** The averaged face velocity: the mean of the two node velocities along
      the axis (neighbour first for bottom and left). */
  function FaceVelocity(d: Direction, phiNeighbour: seq<real>, phiNode: seq<real>): real
    requires |phiNeighbour| >= 3 && |phiNode| >= 3
  {
    var a := AxisOf(d);
    if d == Bottom || d == Left then 0.5 * (phiNeighbour[a] + phiNode[a])
    else 0.5 * (phiNode[a] + phiNeighbour[a])
  }

  /** +1 for a positive face velocity, -1 otherwise (zero included). */
  function SignOf(u: real): int
  {
    if u > 0.0 then 1 else -1
  }

  /** The oriented node spacing along the axis: from the neighbour to the
      node for bottom and left, from the node to the neighbour otherwise. */
  function Spacing(d: Direction, xNeighbour: Vec2, xNode: Vec2): real
  {
    var a := AxisOf(d);
    if d == Bottom || d == Left then Component(xNode, a) - Component(xNeighbour, a)
    else Component(xNeighbour, a) - Component(xNode, a)
  }

  /** The neighbour is upwind when the mass flux enters the dual cell through
      the face: a positive flux at the bottom and left, a negative one at the
      top and right. */
  predicate NeighbourIsUpwind(d: Direction, massFlux: real)
  {
    if d == Bottom || d == Left then massFlux > 0.0 else massFlux < 0.0
  }

  /** The three transported components (velocity x, y, kinetic energy) of
      the upwind node, with the second-order correction weighted by
      order2 = projectionOrder - 1. */
  function UpwindVelocity(d: Direction, order: int, phiNeighbour: seq<real>, phiNode: seq<real>,
                          xNeighbour: Vec2, xNode: Vec2, gradNeighbour: seq<real>, gradNode: seq<real>,
                          massFlux: real, dt: real): (r: seq<real>)
    requires |phiNeighbour| >= 3 && |phiNode| >= 3 && |gradNeighbour| >= 3 && |gradNode| >= 3
    ensures |r| == 3
    ensures var u := FaceVelocity(d, phiNeighbour, phiNode);
            var correction := SignOf(u) as real * Spacing(d, xNeighbour, xNode) - dt * u;
            forall k :: 0 <= k < 3 ==>
              r[k] == if NeighbourIsUpwind(d, massFlux) then Corrected(phiNeighbour[k], gradNeighbour[k], order, correction)
                      else Corrected(phiNode[k], gradNode[k], order, correction)
  {
    var u := FaceVelocity(d, phiNeighbour, phiNode);
    var correction := SignOf(u) as real * Spacing(d, xNeighbour, xNode) - dt * u;
    var phi := if NeighbourIsUpwind(d, massFlux) then phiNeighbour else phiNode;
    var grad := if NeighbourIsUpwind(d, massFlux) then gradNeighbour else gradNode;
    seq(3, k requires 0 <= k < 3 => Corrected(phi[k], grad[k], order, correction))
  }

  /** One transported component: the upwind value plus order2 times half
      the gradient times the oriented correction length. */
  function Corrected(phi: real, grad: real, order: int, correction: real): real
  {
    phi + (order - 1) as real * (0.5 * grad * correction)
  }

  /** At first order the upwind values are the chosen node's own values:
      the neighbour's when it is upwind, the node's otherwise. */
  lemma {:induction false} FirstOrderUpwindIsNodeValue(d: Direction, phiNeighbour: seq<real>, phiNode: seq<real>,
                                    xNeighbour: Vec2, xNode: Vec2, gradNeighbour: seq<real>, gradNode: seq<real>,
                                    massFlux: real, dt: real)
    requires |phiNeighbour| >= 3 && |phiNode| >= 3 && |gradNeighbour| >= 3 && |gradNode| >= 3
    ensures var r := UpwindVelocity(d, 1, phiNeighbour, phiNode, xNeighbour, xNode, gradNeighbour, gradNode, massFlux, dt);
      r == if NeighbourIsUpwind(d, massFlux) then phiNeighbour[..3] else phiNode[..3]
  {
    var r := UpwindVelocity(d, 1, phiNeighbour, phiNode, xNeighbour, xNode, gradNeighbour, gradNode, massFlux, dt);
    var phi := if NeighbourIsUpwind(d, massFlux) then phiNeighbour else phiNode;
    assert forall k | 0 <= k < 3 :: r[k] == phi[..3][k];
  }

  /** The upwind node is the neighbour exactly when the flux enters through
      the face: the node's own gradient never matters then, and the
      neighbour's never matters otherwise. */
  lemma {:induction false} UpwindIgnoresDownwindGradient(d: Direction, order: int, phiNeighbour: seq<real>, phiNode: seq<real>,
                                      xNeighbour: Vec2, xNode: Vec2, gradNeighbour: seq<real>, gradNode: seq<real>,
                                      otherGrad: seq<real>, massFlux: real, dt: real)
    requires |phiNeighbour| >= 3 && |phiNode| >= 3 && |gradNeighbour| >= 3 && |gradNode| >= 3 && |otherGrad| >= 3
    ensures NeighbourIsUpwind(d, massFlux) ==>
      UpwindVelocity(d, order, phiNeighbour, phiNode, xNeighbour, xNode, gradNeighbour, gradNode, massFlux, dt)
      == UpwindVelocity(d, order, phiNeighbour, phiNode, xNeighbour, xNode, gradNeighbour, otherGrad, massFlux, dt)
    ensures !NeighbourIsUpwind(d, massFlux) ==>
      UpwindVelocity(d, order, phiNeighbour, phiNode, xNeighbour, xNode, gradNeighbour, gradNode, massFlux, dt)
      == UpwindVelocity(d, order, phiNeighbour, phiNode, xNeighbour, xNode, otherGrad, gradNode, massFlux, dt)
  {
  }

  /** The first three entries replaced by `head`, the rest kept. */
  function Overwrite(prev: seq<real>, head: seq<real>): (r: seq<real>)
    requires |head| <= |prev|
    ensures |r| == |prev| && r[..|head|] == head && r[|head|..] == prev[|head|..]
  {
    head + prev[|head|..]
  }

  // ---------------------------------------------------------------------
  // The Remap object

  /** The node arrays of the dual remap: the four total mass fluxes, their
      per-material partials, and the four upwind velocities. */
  class Remap {
    const nbNodes: nat
    const nbmatmax: nat
    const projectionOrder: int
    var rightFluxMasse: seq<real>
    var leftFluxMasse: seq<real>
    var topFluxMasse: seq<real>
    var bottomFluxMasse: seq<real>
    var rightFluxMassePartielle: seq<seq<real>>
    var leftFluxMassePartielle: seq<seq<real>>
    var topFluxMassePartielle: seq<seq<real>>
    var bottomFluxMassePartielle: seq<seq<real>>
    var bottomUpwindVelocity: seq<seq<real>>
    var topUpwindVelocity: seq<seq<real>>
    var rightUpwindVelocity: seq<seq<real>>
    var leftUpwindVelocity: seq<seq<real>>

    /** A node array of totals. */
    predicate NodeTotals(s: seq<real>) { |s| == nbNodes }

    /** A node array of per-material partials, nbmatmax wide. */
    predicate NodePartials(s: seq<seq<real>>)
    {
      |s| == nbNodes && forall p :: 0 <= p < nbNodes ==> |s[p]| == nbmatmax
    }

    /** A node array of velocity vectors, at least three wide. */
    predicate NodeVelocities(s: seq<seq<real>>)
    {
      |s| == nbNodes && forall p :: 0 <= p < nbNodes ==> |s[p]| >= 3
    }

    /** All node arrays start at zero; velocity vectors have width
        `width` >= 3. */
    constructor (nbNodes: nat, nbmatmax: nat, projectionOrder: int, width: nat)
      requires width >= 3
      ensures NodeTotals(rightFluxMasse) && NodeTotals(leftFluxMasse) && NodeTotals(topFluxMasse) && NodeTotals(bottomFluxMasse)
      ensures NodePartials(rightFluxMassePartielle) && NodePartials(leftFluxMassePartielle)
      ensures NodePartials(topFluxMassePartielle) && NodePartials(bottomFluxMassePartielle)
      ensures NodeVelocities(bottomUpwindVelocity) && NodeVelocities(topUpwindVelocity)
      ensures NodeVelocities(rightUpwindVelocity) && NodeVelocities(leftUpwindVelocity)
      ensures this.nbNodes == nbNodes && this.nbmatmax == nbmatmax && this.projectionOrder == projectionOrder
      ensures rightFluxMasse == leftFluxMasse == topFluxMasse == bottomFluxMasse == seq(nbNodes, _ => 0.0)
    {
      this.nbNodes := nbNodes;
      this.nbmatmax := nbmatmax;
      this.projectionOrder := projectionOrder;
      var zeros := seq(nbNodes, _ => 0.0);
      var partials := seq(nbNodes, _ => Zeros(nbmatmax));
      var velocities := seq(nbNodes, _ => Zeros(width));
      rightFluxMasse, leftFluxMasse, topFluxMasse, bottomFluxMasse := zeros, zeros, zeros, zeros;
      rightFluxMassePartielle, leftFluxMassePartielle := partials, partials;
      topFluxMassePartielle, bottomFluxMassePartielle := partials, partials;
      bottomUpwindVelocity, topUpwindVelocity := velocities, velocities;
      rightUpwindVelocity, leftUpwindVelocity := velocities, velocities;
    }

    /** getRightAndLeftFluxMasse{,ViaVol,PB}{1,2} at node p: `kind` selects
        the variant, `in` the step's arrays. The totals are reset and become
        the sums of the first nbmat partials; the other partial slots keep
        their values. */
    method RightAndLeftFlux(kind: FluxKind, step: StepInputs, st: NodeStencil, nbmat: nat, p: nat)
      requires p < nbNodes && nbmat <= nbmatmax && StencilValid(step, st, nbmat)
      requires NodeTotals(rightFluxMasse) && NodeTotals(leftFluxMasse)
      requires NodePartials(rightFluxMassePartielle) && NodePartials(leftFluxMassePartielle)
      modifies this`rightFluxMasse, this`leftFluxMasse, this`rightFluxMassePartielle, this`leftFluxMassePartielle
      ensures NodeTotals(rightFluxMasse) && NodeTotals(leftFluxMasse)
      ensures NodePartials(rightFluxMassePartielle) && NodePartials(leftFluxMassePartielle)
      ensures rightFluxMassePartielle ==
        old(rightFluxMassePartielle)[p := Overwrite(old(rightFluxMassePartielle[p]), Partials(kind, step, st, 0, nbmat, true))]
      ensures leftFluxMassePartielle ==
        old(leftFluxMassePartielle)[p := Overwrite(old(leftFluxMassePartielle[p]), Partials(kind, step, st, 0, nbmat, false))]
      ensures rightFluxMasse == old(rightFluxMasse)[p := Sum(Partials(kind, step, st, 0, nbmat, true))]
      ensures leftFluxMasse == old(leftFluxMasse)[p := Sum(Partials(kind, step, st, 0, nbmat, false))]
    {
      var plus, minus, plusTotal, minusTotal := SideFluxes(kind, step, st, 0, nbmat);
      rightFluxMassePartielle := rightFluxMassePartielle[p := Overwrite(rightFluxMassePartielle[p], plus)];
      leftFluxMassePartielle := leftFluxMassePartielle[p := Overwrite(leftFluxMassePartielle[p], minus)];
      rightFluxMasse := rightFluxMasse[p := plusTotal];
      leftFluxMasse := leftFluxMasse[p := minusTotal];
    }

    /** getTopAndBottomFluxMasse{,ViaVol,PB}{1,2} at node p, along y. */
    method TopAndBottomFlux(kind: FluxKind, step: StepInputs, st: NodeStencil, nbmat: nat, p: nat)
      requires p < nbNodes && nbmat <= nbmatmax && StencilValid(step, st, nbmat)
      requires NodeTotals(topFluxMasse) && NodeTotals(bottomFluxMasse)
      requires NodePartials(topFluxMassePartielle) && NodePartials(bottomFluxMassePartielle)
      modifies this`topFluxMasse, this`bottomFluxMasse, this`topFluxMassePartielle, this`bottomFluxMassePartielle
      ensures NodeTotals(topFluxMasse) && NodeTotals(bottomFluxMasse)
      ensures NodePartials(topFluxMassePartielle) && NodePartials(bottomFluxMassePartielle)
      ensures topFluxMassePartielle ==
        old(topFluxMassePartielle)[p := Overwrite(old(topFluxMassePartielle[p]), Partials(kind, step, st, 1, nbmat, true))]
      ensures bottomFluxMassePartielle ==
        old(bottomFluxMassePartielle)[p := Overwrite(old(bottomFluxMassePartielle[p]), Partials(kind, step, st, 1, nbmat, false))]
      ensures topFluxMasse == old(topFluxMasse)[p := Sum(Partials(kind, step, st, 1, nbmat, true))]
      ensures bottomFluxMasse == old(bottomFluxMasse)[p := Sum(Partials(kind, step, st, 1, nbmat, false))]
    {
      var plus, minus, plusTotal, minusTotal := SideFluxes(kind, step, st, 1, nbmat);
      topFluxMassePartielle := topFluxMassePartielle[p := Overwrite(topFluxMassePartielle[p], plus)];
      bottomFluxMassePartielle := bottomFluxMassePartielle[p := Overwrite(bottomFluxMassePartielle[p], minus)];
      topFluxMasse := topFluxMasse[p := plusTotal];
      bottomFluxMasse := bottomFluxMasse[p := minusTotal];
    }

    /** getBottomUpwindVelocity: the bottom neighbour is upwind when the
        bottom mass flux of p is positive. */
    method GetBottomUpwindVelocity(dualPhi: seq<seq<real>>, xLagrange: seq<Vec2>, dt: real,
                                   bottomNode: nat, p: nat, gradDualPhiMinus: seq<real>, gradDualPhi0: seq<real>)
      requires p < nbNodes && NodeTotals(bottomFluxMasse) && NodeVelocities(bottomUpwindVelocity) && bottomNode < |dualPhi| && p < |dualPhi|
      requires bottomNode < |xLagrange| && p < |xLagrange|
      requires |dualPhi[bottomNode]| >= 3 && |dualPhi[p]| >= 3 && |gradDualPhiMinus| >= 3 && |gradDualPhi0| >= 3
      modifies this`bottomUpwindVelocity
      ensures NodeVelocities(bottomUpwindVelocity)
      ensures bottomUpwindVelocity == old(bottomUpwindVelocity)[p := Overwrite(old(bottomUpwindVelocity[p]),
        UpwindVelocity(Bottom, projectionOrder, dualPhi[bottomNode], dualPhi[p], xLagrange[bottomNode], xLagrange[p],
                       gradDualPhiMinus, gradDualPhi0, bottomFluxMasse[p], dt))]
    {
      var r := UpwindVelocity(Bottom, projectionOrder, dualPhi[bottomNode], dualPhi[p], xLagrange[bottomNode], xLagrange[p],
                                gradDualPhiMinus, gradDualPhi0, bottomFluxMasse[p], dt);
      bottomUpwindVelocity := bottomUpwindVelocity[p := Overwrite(bottomUpwindVelocity[p], r)];
    }

    /** getTopUpwindVelocity: the top neighbour is upwind when the top mass
        flux of p is negative. */
    method GetTopUpwindVelocity(dualPhi: seq<seq<real>>, xLagrange: seq<Vec2>, dt: real,
                                topNode: nat, p: nat, gradDualPhiPlus: seq<real>, gradDualPhi0: seq<real>)
      requires p < nbNodes && NodeTotals(topFluxMasse) && NodeVelocities(topUpwindVelocity) && topNode < |dualPhi| && p < |dualPhi|
      requires topNode < |xLagrange| && p < |xLagrange|
      requires |dualPhi[topNode]| >= 3 && |dualPhi[p]| >= 3 && |gradDualPhiPlus| >= 3 && |gradDualPhi0| >= 3
      modifies this`topUpwindVelocity
      ensures NodeVelocities(topUpwindVelocity)
      ensures topUpwindVelocity == old(topUpwindVelocity)[p := Overwrite(old(topUpwindVelocity[p]),
        UpwindVelocity(Top, projectionOrder, dualPhi[topNode], dualPhi[p], xLagrange[topNode], xLagrange[p],
                       gradDualPhiPlus, gradDualPhi0, topFluxMasse[p], dt))]
    {
      var r := UpwindVelocity(Top, projectionOrder, dualPhi[topNode], dualPhi[p], xLagrange[topNode], xLagrange[p],
                                gradDualPhiPlus, gradDualPhi0, topFluxMasse[p], dt);
      topUpwindVelocity := topUpwindVelocity[p := Overwrite(topUpwindVelocity[p], r)];
    }

    /** getRightUpwindVelocity: the right neighbour is upwind when the right
        mass flux of p is negative. */
    method GetRightUpwindVelocity(dualPhi: seq<seq<real>>, xLagrange: seq<Vec2>, dt: real,
                                  rightNode: nat, p: nat, gradDualPhiPlus: seq<real>, gradDualPhi0: seq<real>)
      requires p < nbNodes && NodeTotals(rightFluxMasse) && NodeVelocities(rightUpwindVelocity) && rightNode < |dualPhi| && p < |dualPhi|
      requires rightNode < |xLagrange| && p < |xLagrange|
      requires |dualPhi[rightNode]| >= 3 && |dualPhi[p]| >= 3 && |gradDualPhiPlus| >= 3 && |gradDualPhi0| >= 3
      modifies this`rightUpwindVelocity
      ensures NodeVelocities(rightUpwindVelocity)
      ensures rightUpwindVelocity == old(rightUpwindVelocity)[p := Overwrite(old(rightUpwindVelocity[p]),
        UpwindVelocity(Right, projectionOrder, dualPhi[rightNode], dualPhi[p], xLagrange[rightNode], xLagrange[p],
                       gradDualPhiPlus, gradDualPhi0, rightFluxMasse[p], dt))]
    {
      var r := UpwindVelocity(Right, projectionOrder, dualPhi[rightNode], dualPhi[p], xLagrange[rightNode], xLagrange[p],
                                gradDualPhiPlus, gradDualPhi0, rightFluxMasse[p], dt);
      rightUpwindVelocity := rightUpwindVelocity[p := Overwrite(rightUpwindVelocity[p], r)];
    }

    /** getLeftUpwindVelocity: the left neighbour is upwind when the left
        mass flux of p is positive. */
    method GetLeftUpwindVelocity(dualPhi: seq<seq<real>>, xLagrange: seq<Vec2>, dt: real,
                                 leftNode: nat, p: nat, gradDualPhiMinus: seq<real>, gradDualPhi0: seq<real>)
      requires p < nbNodes && NodeTotals(leftFluxMasse) && NodeVelocities(leftUpwindVelocity) && leftNode < |dualPhi| && p < |dualPhi|
      requires leftNode < |xLagrange| && p < |xLagrange|
      requires |dualPhi[leftNode]| >= 3 && |dualPhi[p]| >= 3 && |gradDualPhiMinus| >= 3 && |gradDualPhi0| >= 3
      modifies this`leftUpwindVelocity
      ensures NodeVelocities(leftUpwindVelocity)
      ensures leftUpwindVelocity == old(leftUpwindVelocity)[p := Overwrite(old(leftUpwindVelocity[p]),
        UpwindVelocity(Left, projectionOrder, dualPhi[leftNode], dualPhi[p], xLagrange[leftNode], xLagrange[p],
                       gradDualPhiMinus, gradDualPhi0, leftFluxMasse[p], dt))]
    {
      var r := UpwindVelocity(Left, projectionOrder, dualPhi[leftNode], dualPhi[p], xLagrange[leftNode], xLagrange[p],
                                gradDualPhiMinus, gradDualPhi0, leftFluxMasse[p], dt);
      leftUpwindVelocity := leftUpwindVelocity[p := Overwrite(leftUpwindVelocity[p], r)];
    }
  }
}
