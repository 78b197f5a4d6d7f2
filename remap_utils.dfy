// Face-flux utilities of the remap (Remap::computeAndLimitGradPhi,
// computeVecFluxOrdre3, computeFluxPP, computeFluxPPPure,
// computeUpwindFaceQuantities, computeRemapFlux).
//
// A transported state Phi of width d is laid out as
//   [0, nbmat)          volume fractions
//   [nbmat, 2 nbmat)    mass fractions (pure variant) or masses
//   [2 nbmat, 3 nbmat)  specific internal energies
//   3 nbmat, +1         velocity x, y
//   3 nbmat + 2         kinetic energy
//   3 nbmat + 3         artificial-viscosity (pseudo) slot
// The limiter functions and the plateau-pente reconstruction helpers have no
// body in this model: they are handed in as function values.
module RemapUtils {
  import opened Common

  /** The limiter options and the limiter functions of the remap. */
  datatype Limiters = Limiters(
    minmodG: int,
    projectionLimiterId: int,
    projectionLimiterIdPure: int,
    fluxLimiter: (int, real) -> real,
    fluxLimiterPP: (int, real, real, real, real, real, real, real, real) -> real,
    divideNoExcept: (real, real) -> real)

  /** The plateau-pente helpers: thresholds y0, intersection abscissae xg/xd,
      the values there yg/yd, and the cumulative integral INT2Y. */
  datatype PlateauPente = PlateauPente(
    computeY0: (int, real, real, real, real, real, real, int) -> real,
    computeXgXd: (real, real, real, real, real, real, int) -> real,
    computeYgYd: (real, real, real, real, real, real, real, int) -> real,
    int2Y: (real, real, real, real, real) -> real)

  // ---------------------------------------------------------------------
  // Limited gradients

  /** Classical (non-generalised) limited slope: the average of the two
      one-sided slopes, each scaled by the limiter of the slope ratio. */
  function ClassicalLimitedSlope(lim: Limiters, id: int, gradPlus: real, gradMinus: real): real
  {
    (lim.fluxLimiter(id, lim.divideNoExcept(gradPlus, gradMinus)) * gradMinus
      + lim.fluxLimiter(id, lim.divideNoExcept(gradMinus, gradPlus)) * gradPlus) / 2.0
  }

  /** The limited cell gradient, component by component: a limiter id below
      minmodG selects the classical family, any other id the generalised
      limiter fluxLimiterPP. */
  function LimitedGradient(lim: Limiters, id: int, gradPlus: seq<real>, gradMinus: seq<real>,
                           phi: seq<real>, phiPlus: seq<real>, phiMinus: seq<real>,
                           h0: real, hPlus: real, hMinus: real): (r: seq<real>)
    requires |gradPlus| == |gradMinus| == |phi| == |phiPlus| == |phiMinus|
    ensures |r| == |phi|
    ensures id < lim.minmodG ==>
      forall i :: 0 <= i < |r| ==> r[i] == ClassicalLimitedSlope(lim, id, gradPlus[i], gradMinus[i])
    ensures id >= lim.minmodG ==>
      forall i :: 0 <= i < |r| ==>
        r[i] == lim.fluxLimiterPP(id, gradPlus[i], gradMinus[i], phi[i], phiPlus[i], phiMinus[i], h0, hPlus, hMinus)
  {
    if id < lim.minmodG then
      seq(|phi|, i requires 0 <= i < |phi| => ClassicalLimitedSlope(lim, id, gradPlus[i], gradMinus[i]))
    else
      seq(|phi|, i requires 0 <= i < |phi| =>
        lim.fluxLimiterPP(id, gradPlus[i], gradMinus[i], phi[i], phiPlus[i], phiMinus[i], h0, hPlus, hMinus))
  }

  /** computeAndLimitGradPhi fills the result component by component. */
  method ComputeAndLimitGradPhi(lim: Limiters, id: int, gradPlus: seq<real>, gradMinus: seq<real>,
                                phi: seq<real>, phiPlus: seq<real>, phiMinus: seq<real>,
                                h0: real, hPlus: real, hMinus: real) returns (res: seq<real>)
    requires |gradPlus| == |gradMinus| == |phi| == |phiPlus| == |phiMinus|
    ensures res == LimitedGradient(lim, id, gradPlus, gradMinus, phi, phiPlus, phiMinus, h0, hPlus, hMinus)
  {
    var r := new real[|phi|];
    if id < lim.minmodG {
      var i := 0;
      while i < |phi|
        invariant 0 <= i <= |phi|
        invariant forall k :: 0 <= k < i ==> r[k] == ClassicalLimitedSlope(lim, id, gradPlus[k], gradMinus[k])
      {
        r[i] := ClassicalLimitedSlope(lim, id, gradPlus[i], gradMinus[i]);
        i := i + 1;
      }
    } else {
      var i := 0;
      while i < |phi|
        invariant 0 <= i <= |phi|
        invariant forall k :: 0 <= k < i ==>
          r[k] == lim.fluxLimiterPP(id, gradPlus[k], gradMinus[k], phi[k], phiPlus[k], phiMinus[k], h0, hPlus, hMinus)
      {
        r[i] := lim.fluxLimiterPP(id, gradPlus[i], gradMinus[i], phi[i], phiPlus[i], phiMinus[i], h0, hPlus, hMinus);
        i := i + 1;
      }
    }
    res := r[..];
    assert res == LimitedGradient(lim, id, gradPlus, gradMinus, phi, phiPlus, phiMinus, h0, hPlus, hMinus);
  }

  /** The classical limited slope does not depend on which side is called
      "plus". */
  lemma {:induction false} ClassicalSlopeSymmetric(lim: Limiters, id: int, a: real, b: real)
    ensures ClassicalLimitedSlope(lim, id, a, b) == ClassicalLimitedSlope(lim, id, b, a)
  {
  }

  /** A limiter with phi(1) = 1 reproduces a linear profile: two equal
      one-sided slopes give back that slope. */
  lemma {:induction false} ClassicalSlopeOfLinearProfile(lim: Limiters, id: int, g: real)
    requires lim.divideNoExcept(g, g) == 1.0
    requires lim.fluxLimiter(id, 1.0) == 1.0
    ensures ClassicalLimitedSlope(lim, id, g, g) == g
  {
  }

  /** A limiter that vanishes on non-positive ratios, fed by a quotient that
      keeps the sign of the true ratio, flattens the slope at an extremum. */
  lemma {:induction false} ClassicalSlopeVanishesAtExtremum(lim: Limiters, id: int, gradPlus: real, gradMinus: real)
    requires forall r: real :: r <= 0.0 ==> lim.fluxLimiter(id, r) == 0.0
    requires forall a: real, b: real :: a * b <= 0.0 ==> lim.divideNoExcept(a, b) <= 0.0
    requires gradPlus * gradMinus <= 0.0
    ensures ClassicalLimitedSlope(lim, id, gradPlus, gradMinus) == 0.0
  {
    assert lim.divideNoExcept(gradPlus, gradMinus) <= 0.0;
    assert gradMinus * gradPlus <= 0.0;
    assert lim.divideNoExcept(gradMinus, gradPlus) <= 0.0;
  }

  // ---------------------------------------------------------------------
  // Third-order flux

  /** The third-order face flux: the scalar flux applied to every component
      of a six-cell stencil, with the displacement v * dt. */
  function VecFluxOrdre3(fluxOrdre3: (real, real, real, real, real, real, real, real, real, real, real, real, real) -> real,
                         phiMmm: seq<real>, phiMm: seq<real>, phiM: seq<real>,
                         phiP: seq<real>, phiPp: seq<real>, phiPpp: seq<real>,
                         hMmm: real, hMm: real, hM: real, hP: real, hPp: real, hPpp: real,
                         v: real, dt: real): (r: seq<real>)
    requires |phiMmm| == |phiMm| == |phiM| == |phiP| == |phiPp| == |phiPpp|
    ensures |r| == |phiM|
    ensures forall i :: 0 <= i < |r| ==>
      r[i] == fluxOrdre3(phiMmm[i], phiMm[i], phiM[i], phiP[i], phiPp[i], phiPpp[i],
                         hMmm, hMm, hM, hP, hPp, hPpp, v * dt)
  {
    seq(|phiM|, i requires 0 <= i < |phiM| =>
      fluxOrdre3(phiMmm[i], phiMm[i], phiM[i], phiP[i], phiPp[i], phiPpp[i], hMmm, hMm, hM, hP, hPp, hPpp, v * dt))
  }

  /** computeVecFluxOrdre3 fills the result component by component. */
  method ComputeVecFluxOrdre3(fluxOrdre3: (real, real, real, real, real, real, real, real, real, real, real, real, real) -> real,
                              phiMmm: seq<real>, phiMm: seq<real>, phiM: seq<real>,
                              phiP: seq<real>, phiPp: seq<real>, phiPpp: seq<real>,
                              hMmm: real, hMm: real, hM: real, hP: real, hPp: real, hPpp: real,
                              v: real, dt: real) returns (res: seq<real>)
    requires |phiMmm| == |phiMm| == |phiM| == |phiP| == |phiPp| == |phiPpp|
    ensures res == VecFluxOrdre3(fluxOrdre3, phiMmm, phiMm, phiM, phiP, phiPp, phiPpp,
                                 hMmm, hMm, hM, hP, hPp, hPpp, v, dt)
  {
    var vdt := v * dt;
    var r := new real[|phiM|];
    var i := 0;
    while i < |phiM|
      invariant 0 <= i <= |phiM|
      invariant forall k :: 0 <= k < i ==>
        r[k] == fluxOrdre3(phiMmm[k], phiMm[k], phiM[k], phiP[k], phiPp[k], phiPpp[k],
                           hMmm, hMm, hM, hP, hPp, hPpp, vdt)
    {
      r[i] := fluxOrdre3(phiMmm[i], phiMm[i], phiM[i], phiP[i], phiPp[i], phiPpp[i],
                         hMmm, hMm, hM, hP, hPp, hPpp, vdt);
      i := i + 1;
    }
    res := r[..];
    assert res == VecFluxOrdre3(fluxOrdre3, phiMmm, phiMm, phiM, phiP, phiPp, phiPpp,
                                hMmm, hMm, hM, hP, hPp, hPpp, v, dt);
  }

  // ---------------------------------------------------------------------
  // Plateau-pente (bounded) face fluxes

  /** The swept length 0.5 (v + |v|) dt: the face displacement when the face
      velocity is positive, zero otherwise. */
  function PositivePart(v: real, dt: real): real
  {
    0.5 * (v + Abs(v)) * dt
  }

  lemma {:induction false} PositivePartIsUpwindDisplacement(v: real, dt: real)
    requires dt > 0.0
    ensures PositivePart(v, dt) >= 0.0
    ensures PositivePart(v, dt) == 0.0 <==> v <= 0.0
    ensures v > 0.0 ==> PositivePart(v, dt) == v * dt
  {
    if v > 0.0 {
      assert PositivePart(v, dt) == v * dt;
    }
  }

  /** The three INT2Y pieces (left plateau, slope, right plateau) integrated
      between lo and hi, in the order the source adds them. */
  function IntegralBetween(pp: PlateauPente, lo: real, hi: real, h0: real, phiPlus: real, phiMinus: real,
                           xg: real, yg: real, xd: real, yd: real): real
  {
    (pp.int2Y(hi, -h0 / 2.0, phiMinus, xg, yg) - pp.int2Y(lo, -h0 / 2.0, phiMinus, xg, yg))
    + (pp.int2Y(hi, xg, yg, xd, yd) - pp.int2Y(lo, xg, yg, xd, yd))
    + (pp.int2Y(hi, xd, yd, h0 / 2.0, phiPlus) - pp.int2Y(lo, xd, yd, h0 / 2.0, phiPlus))
  }

  /** Local extremum test of the source's "formule 16". */
  predicate IsLocalExtremum(phi: real, phiPlus: real, phiMinus: real)
  {
    (phiPlus - phi) * (phiMinus - phi) >= 0.0
  }

  /** One limited component of the plateau-pente flux. Type 0 integrates over
      [-h0/2, -h0/2 + ppv] (back or bottom face), type 1 over
      [h0/2 - ppv, h0/2] (front or top face); any other type gives 0. */
  function ComponentFlux(pp: PlateauPente, limiterId: int, faceType: int, gradPhi: real,
                         phi: real, phiPlus: real, phiMinus: real,
                         h0: real, hPlus: real, hMinus: real, ppv: real): real
  {
    if faceType != 0 && faceType != 1 then 0.0
    else
      var y0Plus := pp.computeY0(limiterId, phi, phiPlus, phiMinus, h0, hPlus, hMinus, 0);
      var y0Minus := pp.computeY0(limiterId, phi, phiPlus, phiMinus, h0, hPlus, hMinus, 1);
      var xg := pp.computeXgXd(phi, phiPlus, phiMinus, h0, y0Plus, y0Minus, 0);
      var xd := pp.computeXgXd(phi, phiPlus, phiMinus, h0, y0Plus, y0Minus, 1);
      var yg := pp.computeYgYd(phi, phiPlus, phiMinus, h0, y0Plus, y0Minus, gradPhi, 0);
      var yd := pp.computeYgYd(phi, phiPlus, phiMinus, h0, y0Plus, y0Minus, gradPhi, 1);
      var lo := if faceType == 0 then -h0 / 2.0 else h0 / 2.0 - ppv;
      var hi := if faceType == 0 then -h0 / 2.0 + ppv else h0 / 2.0;
      var clamped := Max(IntegralBetween(pp, lo, hi, h0, phiPlus, phiMinus, xg, yg, xd, yd), 0.0);
      if IsLocalExtremum(phi, phiPlus, phiMinus) then phi * ppv else clamped
  }

  /** At a local extremum both face types give the first-order upwind flux
      phi * ppv; elsewhere the flux is never negative; an unknown face type
      gives nothing. */
  lemma {:induction false} ComponentFluxCases(pp: PlateauPente, limiterId: int, faceType: int, gradPhi: real,
                           phi: real, phiPlus: real, phiMinus: real,
                           h0: real, hPlus: real, hMinus: real, ppv: real)
    ensures faceType != 0 && faceType != 1 ==>
      ComponentFlux(pp, limiterId, faceType, gradPhi, phi, phiPlus, phiMinus, h0, hPlus, hMinus, ppv) == 0.0
    ensures (faceType == 0 || faceType == 1) && IsLocalExtremum(phi, phiPlus, phiMinus) ==>
      ComponentFlux(pp, limiterId, faceType, gradPhi, phi, phiPlus, phiMinus, h0, hPlus, hMinus, ppv) == phi * ppv
    ensures !IsLocalExtremum(phi, phiPlus, phiMinus) ==>
      ComponentFlux(pp, limiterId, faceType, gradPhi, phi, phiPlus, phiMinus, h0, hPlus, hMinus, ppv) >= 0.0
  {
  }

  /** A non-negative quantity (a volume fraction) never gets a negative
      flux, whatever the reconstruction helpers return. */
  lemma {:induction false} ComponentFluxNonNegative(pp: PlateauPente, limiterId: int, faceType: int, gradPhi: real,
                                 phi: real, phiPlus: real, phiMinus: real,
                                 h0: real, hPlus: real, hMinus: real, ppv: real)
    requires phi >= 0.0 && ppv >= 0.0
    ensures ComponentFlux(pp, limiterId, faceType, gradPhi, phi, phiPlus, phiMinus, h0, hPlus, hMinus, ppv) >= 0.0
  {
    if (faceType == 0 || faceType == 1) && IsLocalExtremum(phi, phiPlus, phiMinus) {
      assert phi * ppv >= 0.0;
    }
  }

  /** A uniform neighbourhood is transported exactly: the flux is the value
      times the swept length, as for a first-order upwind scheme. */
  lemma {:induction false} UniformFieldIsTransportedExactly(pp: PlateauPente, limiterId: int, faceType: int, gradPhi: real,
                                         phi: real, h0: real, hPlus: real, hMinus: real, ppv: real)
    requires faceType == 0 || faceType == 1
    ensures ComponentFlux(pp, limiterId, faceType, gradPhi, phi, phi, phi, h0, hPlus, hMinus, ppv) == phi * ppv
  {
    assert IsLocalExtremum(phi, phi, phi);
  }

  /** The first `count` components limited, the rest still zero: the flux
      after `count` turns of the first loop of computeFluxPP(Pure). */
  function LimitedComponents(pp: PlateauPente, limiterId: int, faceType: int, count: nat, gradPhi: seq<real>,
                             phi: seq<real>, phiPlus: seq<real>, phiMinus: seq<real>,
                             h0: real, hPlus: real, hMinus: real, ppv: real): (r: seq<real>)
    requires |gradPhi| == |phi| == |phiPlus| == |phiMinus|
    ensures |r| == |phi|
    ensures forall k :: 0 <= k < |phi| && k < count ==>
      r[k] == ComponentFlux(pp, limiterId, faceType, gradPhi[k], phi[k], phiPlus[k], phiMinus[k], h0, hPlus, hMinus, ppv)
    ensures forall k :: count <= k < |phi| ==> r[k] == 0.0
  {
    seq(|phi|, k requires 0 <= k < |phi| =>
      if k < count then ComponentFlux(pp, limiterId, faceType, gradPhi[k], phi[k], phiPlus[k], phiMinus[k], h0, hPlus, hMinus, ppv)
      else 0.0)
  }

  /** Mass flux of material k: mass fraction times volume flux
      (computeFluxPP), or the limited mass flux itself (computeFluxPPPure). */
  function MassFlux(limited: seq<real>, phi: seq<real>, nbmat: nat, deriveMass: bool, k: nat): real
    requires |limited| == |phi| && 3 * nbmat + 4 <= |phi| && k < nbmat
  {
    if deriveMass then phi[nbmat + k] * limited[k] else limited[nbmat + k]
  }

  /** Energy flux of material k: specific energy times mass flux. */
  function EnergyFlux(limited: seq<real>, phi: seq<real>, nbmat: nat, deriveMass: bool, k: nat): real
    requires |limited| == |phi| && 3 * nbmat + 4 <= |phi| && k < nbmat
  {
    phi[2 * nbmat + k] * MassFlux(limited, phi, nbmat, deriveMass, k)
  }

  function MassFluxes(limited: seq<real>, phi: seq<real>, nbmat: nat, deriveMass: bool): (r: seq<real>)
    requires |limited| == |phi| && 3 * nbmat + 4 <= |phi|
    ensures |r| == nbmat
    ensures forall k :: 0 <= k < nbmat ==> r[k] == MassFlux(limited, phi, nbmat, deriveMass, k)
  {
    seq(nbmat, k requires 0 <= k < nbmat => MassFlux(limited, phi, nbmat, deriveMass, k))
  }

  /** The flux after m turns of the accumulation loop: mass and energy
      fluxes of the first m materials derived, the rest as limited. */
  function PartlyDerived(limited: seq<real>, phi: seq<real>, nbmat: nat, deriveMass: bool, m: nat): (r: seq<real>)
    requires |limited| == |phi| && 3 * nbmat + 4 <= |phi| && m <= nbmat
    ensures |r| == |phi|
  {
    seq(|phi|, j requires 0 <= j < |phi| =>
      if nbmat <= j < nbmat + m then MassFlux(limited, phi, nbmat, deriveMass, j - nbmat)
      else if 2 * nbmat <= j < 2 * nbmat + m then EnergyFlux(limited, phi, nbmat, deriveMass, j - 2 * nbmat)
      else limited[j])
  }

  /** Component j after m turns: the first m mass and energy fluxes are
      derived, every other component is still the limited one. */
  lemma {:induction false} PartlyDerivedAt(limited: seq<real>, phi: seq<real>, nbmat: nat, deriveMass: bool, m: nat, j: nat)
    requires |limited| == |phi| && 3 * nbmat + 4 <= |phi| && m <= nbmat && j < |phi|
    ensures PartlyDerived(limited, phi, nbmat, deriveMass, m)[j] ==
      if nbmat <= j < nbmat + m then MassFlux(limited, phi, nbmat, deriveMass, j - nbmat)
      else if 2 * nbmat <= j < 2 * nbmat + m then EnergyFlux(limited, phi, nbmat, deriveMass, j - 2 * nbmat)
      else limited[j]
  {
  }

  /** The four slots written after the accumulation loop: velocity and
      kinetic energy carried by the total mass flux, the pseudo by the total
      volume flux. */
  function WithTotals(flux: seq<real>, phi: seq<real>, nbmat: nat, massTotal: real, volumeTotal: real): (r: seq<real>)
    requires |flux| == |phi| && 3 * nbmat + 4 <= |phi|
    ensures |r| == |phi|
  {
    flux[3 * nbmat := phi[3 * nbmat] * massTotal]
        [3 * nbmat + 1 := phi[3 * nbmat + 1] * massTotal]
        [3 * nbmat + 2 := phi[3 * nbmat + 2] * massTotal]
        [3 * nbmat + 3 := phi[3 * nbmat + 3] * volumeTotal]
  }

  /** The whole plateau-pente flux built from the limited components. */
  function BoundedFlux(limited: seq<real>, phi: seq<real>, nbmat: nat, deriveMass: bool): (r: seq<real>)
    requires |limited| == |phi| && 3 * nbmat + 4 <= |phi|
    ensures |r| == |phi|
  {
    WithTotals(PartlyDerived(limited, phi, nbmat, deriveMass, nbmat), phi, nbmat,
               Sum(MassFluxes(limited, phi, nbmat, deriveMass)), Sum(limited[..nbmat]))
  }

  /** Material k of the flux of computeFluxPP(Pure): the volume flux is the
      limited one, the mass flux is the mass fraction times it (or, in the
      pure variant, the limited mass flux), the energy flux is the specific
      energy times the mass flux. */
  lemma {:induction false} BoundedFluxMaterial(limited: seq<real>, phi: seq<real>, nbmat: nat, deriveMass: bool, k: nat)
    requires |limited| == |phi| && 3 * nbmat + 4 <= |phi| && k < nbmat
    ensures var r := BoundedFlux(limited, phi, nbmat, deriveMass);
      && r[k] == limited[k]
      && r[nbmat + k] == (if deriveMass then phi[nbmat + k] * r[k] else limited[nbmat + k])
      && r[2 * nbmat + k] == phi[2 * nbmat + k] * r[nbmat + k]
  {
    DerivedMaterial(limited, phi, nbmat, deriveMass, k);
    BoundedFluxBelow(limited, phi, nbmat, deriveMass, k);
    BoundedFluxBelow(limited, phi, nbmat, deriveMass, nbmat + k);
    BoundedFluxBelow(limited, phi, nbmat, deriveMass, 2 * nbmat + k);
  }

  /** Below the four total slots the bounded flux is the derived one. */
  lemma {:induction false} BoundedFluxBelow(limited: seq<real>, phi: seq<real>, nbmat: nat, deriveMass: bool, j: nat)
    requires |limited| == |phi| && 3 * nbmat + 4 <= |phi| && j < 3 * nbmat
    ensures BoundedFlux(limited, phi, nbmat, deriveMass)[j] == PartlyDerived(limited, phi, nbmat, deriveMass, nbmat)[j]
  {
    var derived := PartlyDerived(limited, phi, nbmat, deriveMass, nbmat);
    var massTotal, volumeTotal := Sum(MassFluxes(limited, phi, nbmat, deriveMass)), Sum(limited[..nbmat]);
    WithTotalsBelow(derived, phi, nbmat, massTotal, volumeTotal, j);
  }

  /** BoundedFluxMaterial before the four total slots are written. */
  lemma {:induction false} DerivedMaterial(limited: seq<real>, phi: seq<real>, nbmat: nat, deriveMass: bool, k: nat)
    requires |limited| == |phi| && 3 * nbmat + 4 <= |phi| && k < nbmat
    ensures var d := PartlyDerived(limited, phi, nbmat, deriveMass, nbmat);
      && d[k] == limited[k]
      && d[nbmat + k] == (if deriveMass then phi[nbmat + k] * d[k] else limited[nbmat + k])
      && d[2 * nbmat + k] == phi[2 * nbmat + k] * d[nbmat + k]
  {
    PartlyDerivedAt(limited, phi, nbmat, deriveMass, nbmat, k);
    PartlyDerivedAt(limited, phi, nbmat, deriveMass, nbmat, nbmat + k);
    PartlyDerivedAt(limited, phi, nbmat, deriveMass, nbmat, 2 * nbmat + k);
  }

  /** The four total slots leave the material components alone. */
  lemma {:induction false} WithTotalsBelow(flux: seq<real>, phi: seq<real>, nbmat: nat, massTotal: real,
                                           volumeTotal: real, j: nat)
    requires |flux| == |phi| && 3 * nbmat + 4 <= |phi| && j < 3 * nbmat
    ensures WithTotals(flux, phi, nbmat, massTotal, volumeTotal)[j] == flux[j]
  {
  }

  /** The mass fluxes of the bounded flux, as a sequence. */
  lemma {:induction false} BoundedFluxMasses(limited: seq<real>, phi: seq<real>, nbmat: nat, deriveMass: bool)
    requires |limited| == |phi| && 3 * nbmat + 4 <= |phi|
    ensures BoundedFlux(limited, phi, nbmat, deriveMass)[nbmat..2 * nbmat] == MassFluxes(limited, phi, nbmat, deriveMass)
    ensures BoundedFlux(limited, phi, nbmat, deriveMass)[..nbmat] == limited[..nbmat]
  {
    var r := BoundedFlux(limited, phi, nbmat, deriveMass);
    forall k | 0 <= k < nbmat
      ensures r[nbmat..2 * nbmat][k] == MassFluxes(limited, phi, nbmat, deriveMass)[k]
      ensures r[..nbmat][k] == limited[k]
    {
      PartlyDerivedAt(limited, phi, nbmat, deriveMass, nbmat, k);
      PartlyDerivedAt(limited, phi, nbmat, deriveMass, nbmat, nbmat + k);
    }
  }

  /** Velocity and kinetic energy are carried by the total mass flux, the
      pseudo by the total volume flux. */
  lemma {:induction false} BoundedFluxTotals(limited: seq<real>, phi: seq<real>, nbmat: nat, deriveMass: bool)
    requires |limited| == |phi| && 3 * nbmat + 4 <= |phi|
    ensures var r := BoundedFlux(limited, phi, nbmat, deriveMass);
      && r[3 * nbmat] == phi[3 * nbmat] * Sum(r[nbmat..2 * nbmat])
      && r[3 * nbmat + 1] == phi[3 * nbmat + 1] * Sum(r[nbmat..2 * nbmat])
      && r[3 * nbmat + 2] == phi[3 * nbmat + 2] * Sum(r[nbmat..2 * nbmat])
      && r[3 * nbmat + 3] == phi[3 * nbmat + 3] * Sum(r[..nbmat])
  {
    var massTotal := Sum(MassFluxes(limited, phi, nbmat, deriveMass));
    var volumeTotal := Sum(limited[..nbmat]);
    BoundedFluxMasses(limited, phi, nbmat, deriveMass);
    WithTotalsSlots(PartlyDerived(limited, phi, nbmat, deriveMass, nbmat), phi, nbmat, massTotal, volumeTotal);
  }

  /** The four total slots hold the carried quantities. */
  lemma {:induction false} WithTotalsSlots(flux: seq<real>, phi: seq<real>, nbmat: nat, massTotal: real, volumeTotal: real)
    requires |flux| == |phi| && 3 * nbmat + 4 <= |phi|
    ensures var r := WithTotals(flux, phi, nbmat, massTotal, volumeTotal);
      && r[3 * nbmat] == phi[3 * nbmat] * massTotal
      && r[3 * nbmat + 1] == phi[3 * nbmat + 1] * massTotal
      && r[3 * nbmat + 2] == phi[3 * nbmat + 2] * massTotal
      && r[3 * nbmat + 3] == phi[3 * nbmat + 3] * volumeTotal
  {
  }

  /** The components after the pseudo slot are left as limited. */
  lemma {:induction false} BoundedFluxUntouched(limited: seq<real>, phi: seq<real>, nbmat: nat, deriveMass: bool, j: nat)
    requires |limited| == |phi| && 3 * nbmat + 4 <= j < |phi|
    ensures BoundedFlux(limited, phi, nbmat, deriveMass)[j] == limited[j]
  {
    PartlyDerivedAt(limited, phi, nbmat, deriveMass, nbmat, j);
  }

  lemma {:induction false} LimitedComponentsStep(pp: PlateauPente, limiterId: int, faceType: int, i: nat, gradPhi: seq<real>,
                              phi: seq<real>, phiPlus: seq<real>, phiMinus: seq<real>,
                              h0: real, hPlus: real, hMinus: real, ppv: real)
    requires |gradPhi| == |phi| == |phiPlus| == |phiMinus| && i < |phi|
    ensures LimitedComponents(pp, limiterId, faceType, i, gradPhi, phi, phiPlus, phiMinus, h0, hPlus, hMinus, ppv)
              [i := ComponentFlux(pp, limiterId, faceType, gradPhi[i], phi[i], phiPlus[i], phiMinus[i], h0, hPlus, hMinus, ppv)]
            == LimitedComponents(pp, limiterId, faceType, i + 1, gradPhi, phi, phiPlus, phiMinus, h0, hPlus, hMinus, ppv)
  {
  }

  /** Before turn m, the volume and mass fluxes of material m are still
      the limited ones. */
  lemma {:induction false} PartlyDerivedBeforeTurn(limited: seq<real>, phi: seq<real>, nbmat: nat, deriveMass: bool, m: nat)
    requires |limited| == |phi| && 3 * nbmat + 4 <= |phi| && m < nbmat
    ensures PartlyDerived(limited, phi, nbmat, deriveMass, m)[m] == limited[m]
    ensures PartlyDerived(limited, phi, nbmat, deriveMass, m)[nbmat + m] == limited[nbmat + m]
  {
    PartlyDerivedAt(limited, phi, nbmat, deriveMass, m, m);
    PartlyDerivedAt(limited, phi, nbmat, deriveMass, m, nbmat + m);
  }

  /** The first loop of computeFluxPP(Pure): the first `count` components
      are limited, the others stay zero. */
  method LimitComponents(pp: PlateauPente, limiterId: int, faceType: int, count: nat, gradPhi: seq<real>,
                         phi: seq<real>, phiPlus: seq<real>, phiMinus: seq<real>,
                         h0: real, hPlus: real, hMinus: real, ppv: real) returns (flux: seq<real>)
    requires |gradPhi| == |phi| == |phiPlus| == |phiMinus|
    requires count <= |phi|
    ensures flux == LimitedComponents(pp, limiterId, faceType, count, gradPhi, phi, phiPlus, phiMinus, h0, hPlus, hMinus, ppv)
  {
    flux := Zeros(|phi|);
    var i := 0;
    while i < count
      invariant 0 <= i <= count
      invariant flux == LimitedComponents(pp, limiterId, faceType, i, gradPhi, phi, phiPlus, phiMinus, h0, hPlus, hMinus, ppv)
    {
      LimitedComponentsStep(pp, limiterId, faceType, i, gradPhi, phi, phiPlus, phiMinus, h0, hPlus, hMinus, ppv);
      flux := flux[i := ComponentFlux(pp, limiterId, faceType, gradPhi[i], phi[i], phiPlus[i], phiMinus[i], h0, hPlus, hMinus, ppv)];
      i := i + 1;
    }
  }

  /** One turn of the accumulation loop for material m: the mass flux
      (when derived) from the volume flux, then the energy flux from the
      mass flux. */
  method DerivationTurn(flux: seq<real>, limited: seq<real>, phi: seq<real>, nbmat: nat, deriveMass: bool, m: nat)
    returns (next: seq<real>)
    requires |limited| == |phi| && 3 * nbmat + 4 <= |phi| && m < nbmat
    requires flux == PartlyDerived(limited, phi, nbmat, deriveMass, m)
    ensures next == PartlyDerived(limited, phi, nbmat, deriveMass, m + 1)
    ensures next[m] == limited[m] && next[nbmat + m] == MassFlux(limited, phi, nbmat, deriveMass, m)
  {
    PartlyDerivedBeforeTurn(limited, phi, nbmat, deriveMass, m);
    ghost var mass := MassFlux(limited, phi, nbmat, deriveMass, m);
    next := flux;
    if deriveMass {
      assert phi[nbmat + m] * next[m] == mass;
      next := next[nbmat + m := phi[nbmat + m] * next[m]];
    } else {
      assert next[nbmat + m] == mass;
    }
    assert next == flux[nbmat + m := mass];
    assert phi[2 * nbmat + m] * next[nbmat + m] == EnergyFlux(limited, phi, nbmat, deriveMass, m);
    next := next[2 * nbmat + m := phi[2 * nbmat + m] * next[nbmat + m]];
  }

  /** The second loop of computeFluxPP(Pure) and the four slots after it:
      mass (when `deriveMass`) and energy fluxes are derived material by
      material while the total mass and volume fluxes are summed. */
  method DeriveFluxes(limited: seq<real>, phi: seq<real>, nbmat: nat, deriveMass: bool) returns (flux: seq<real>)
    requires |limited| == |phi| && 3 * nbmat + 4 <= |phi|
    ensures flux == BoundedFlux(limited, phi, nbmat, deriveMass)
  {
    flux := limited;
    ghost var masses := MassFluxes(limited, phi, nbmat, deriveMass);
    ghost var volumes := limited[..nbmat];
    var massSum, volumeSum := 0.0, 0.0;
    var m := 0;
    while m < nbmat
      invariant 0 <= m <= nbmat
      invariant flux == PartlyDerived(limited, phi, nbmat, deriveMass, m)
      invariant massSum == Sum(masses[..m])
      invariant volumeSum == Sum(volumes[..m])
    {
      flux := DerivationTurn(flux, limited, phi, nbmat, deriveMass, m);
      SumStep(masses, m);
      SumStep(volumes, m);
      massSum := massSum + flux[nbmat + m];
      volumeSum := volumeSum + flux[m];
      m := m + 1;
    }
    assert masses[..nbmat] == masses && volumes[..nbmat] == volumes;
    flux := WithTotals(flux, phi, nbmat, massSum, volumeSum);
  }

  /** Both plateau-pente fluxes (computeFluxPP, computeFluxPPPure): nothing
      crosses a face the fluid leaves; otherwise the limited components and
      the fluxes derived from them. */
  method PlateauPenteFlux(limiterId: int, pp: PlateauPente, nbmat: nat, count: nat, deriveMass: bool,
                          gradPhi: seq<real>, phi: seq<real>, phiPlus: seq<real>, phiMinus: seq<real>,
                          h0: real, hPlus: real, hMinus: real, v: real, dt: real, faceType: int)
    returns (flux: seq<real>)
    requires |gradPhi| == |phi| == |phiPlus| == |phiMinus|
    requires 3 * nbmat + 4 <= |phi| && count <= 2 * nbmat
    ensures PositivePart(v, dt) == 0.0 ==> flux == Zeros(|phi|)
    ensures PositivePart(v, dt) != 0.0 ==>
      flux == BoundedFlux(LimitedComponents(pp, limiterId, faceType, count, gradPhi, phi, phiPlus, phiMinus,
                                            h0, hPlus, hMinus, PositivePart(v, dt)), phi, nbmat, deriveMass)
  {
    var ppv := PositivePart(v, dt);
    if ppv == 0.0 {
      return Zeros(|phi|);
    }
    var limited := LimitComponents(pp, limiterId, faceType, count, gradPhi, phi, phiPlus, phiMinus, h0, hPlus, hMinus, ppv);
    flux := DeriveFluxes(limited, phi, nbmat, deriveMass);
  }

  /** computeFluxPP: volume fractions are limited with the main limiter and
      every other flux is derived from them. */
  method ComputeFluxPP(lim: Limiters, pp: PlateauPente, nbmat: nat, gradPhi: seq<real>, phi: seq<real>,
                       phiPlus: seq<real>, phiMinus: seq<real>, h0: real, hPlus: real, hMinus: real,
                       v: real, dt: real, faceType: int) returns (flux: seq<real>)
    requires |gradPhi| == |phi| == |phiPlus| == |phiMinus|
    requires 3 * nbmat + 4 <= |phi|
    ensures PositivePart(v, dt) == 0.0 ==> flux == Zeros(|phi|)
    ensures PositivePart(v, dt) != 0.0 ==>
      flux == BoundedFlux(LimitedComponents(pp, lim.projectionLimiterId, faceType, nbmat, gradPhi, phi, phiPlus,
                                            phiMinus, h0, hPlus, hMinus, PositivePart(v, dt)), phi, nbmat, true)
  {
    flux := PlateauPenteFlux(lim.projectionLimiterId, pp, nbmat, nbmat, true, gradPhi, phi, phiPlus, phiMinus,
                             h0, hPlus, hMinus, v, dt, faceType);
  }

  /** computeFluxPPPure: in a pure neighbourhood the volume and the mass
      fractions are both limited (with the pure limiter); the mass fluxes
      are kept and only the other fluxes are derived. */
  method ComputeFluxPPPure(lim: Limiters, pp: PlateauPente, nbmat: nat, gradPhi: seq<real>, phi: seq<real>,
                           phiPlus: seq<real>, phiMinus: seq<real>, h0: real, hPlus: real, hMinus: real,
                           v: real, dt: real, faceType: int) returns (flux: seq<real>)
    requires |gradPhi| == |phi| == |phiPlus| == |phiMinus|
    requires 3 * nbmat + 4 <= |phi|
    ensures PositivePart(v, dt) == 0.0 ==> flux == Zeros(|phi|)
    ensures PositivePart(v, dt) != 0.0 ==>
      flux == BoundedFlux(LimitedComponents(pp, lim.projectionLimiterIdPure, faceType, 2 * nbmat, gradPhi, phi,
                                            phiPlus, phiMinus, h0, hPlus, hMinus, PositivePart(v, dt)), phi, nbmat, false)
  {
    flux := PlateauPenteFlux(lim.projectionLimiterIdPure, pp, nbmat, 2 * nbmat, false, gradPhi, phi, phiPlus,
                             phiMinus, h0, hPlus, hMinus, v, dt, faceType);
  }

  // ---------------------------------------------------------------------
  // Upwind face values and directional fluxes

  /** computeUpwindFaceQuantities: the linear reconstruction of the upwind
      cell (back cell iff v * deltaX > 0) evaluated at the face centre. */
  function UpwindFaceQuantities(faceNormal: Vec2, v: real, deltaX: real, xFace: Vec2,
                                phiBack: seq<real>, gradBack: seq<real>, xBack: Vec2,
                                phiFront: seq<real>, gradFront: seq<real>, xFront: Vec2): (r: seq<real>)
    requires |phiBack| == |gradBack| == |phiFront| == |gradFront|
    ensures |r| == |phiBack|
  {
    if v * deltaX > 0.0 then Add(phiBack, Scale(Dot(Minus(xFace, xBack), faceNormal), gradBack))
    else Add(phiFront, Scale(Dot(Minus(xFace, xFront), faceNormal), gradFront))
  }

  /** Upwinding: when v * deltaX > 0 the front cell's data do not matter,
      otherwise the back cell's data do not matter. */
  lemma {:induction false} UpwindIgnoresDownwindCell(faceNormal: Vec2, v: real, deltaX: real, xFace: Vec2,
                                  phiBack: seq<real>, gradBack: seq<real>, xBack: Vec2,
                                  phiFront: seq<real>, gradFront: seq<real>, xFront: Vec2,
                                  phiOther: seq<real>, gradOther: seq<real>, xOther: Vec2)
    requires |phiBack| == |gradBack| == |phiFront| == |gradFront| == |phiOther| == |gradOther|
    ensures v * deltaX > 0.0 ==>
      UpwindFaceQuantities(faceNormal, v, deltaX, xFace, phiBack, gradBack, xBack, phiFront, gradFront, xFront)
      == UpwindFaceQuantities(faceNormal, v, deltaX, xFace, phiBack, gradBack, xBack, phiOther, gradOther, xOther)
    ensures v * deltaX <= 0.0 ==>
      UpwindFaceQuantities(faceNormal, v, deltaX, xFace, phiBack, gradBack, xBack, phiFront, gradFront, xFront)
      == UpwindFaceQuantities(faceNormal, v, deltaX, xFace, phiOther, gradOther, xOther, phiFront, gradFront, xFront)
  {
  }

  /** Without gradients the face value is the upwind cell value. */
  lemma {:induction false} UpwindWithoutGradientIsCellValue(faceNormal: Vec2, v: real, deltaX: real, xFace: Vec2,
                                         phiBack: seq<real>, xBack: Vec2, phiFront: seq<real>, xFront: Vec2)
    requires |phiBack| == |phiFront|
    ensures UpwindFaceQuantities(faceNormal, v, deltaX, xFace, phiBack, Zeros(|phiBack|), xBack,
                                 phiFront, Zeros(|phiBack|), xFront)
            == if v * deltaX > 0.0 then phiBack else phiFront
  {
    var r := UpwindFaceQuantities(faceNormal, v, deltaX, xFace, phiBack, Zeros(|phiBack|), xBack,
                                  phiFront, Zeros(|phiBack|), xFront);
    if v * deltaX > 0.0 {
      assert forall i :: 0 <= i < |r| ==> r[i] == phiBack[i];
    } else {
      assert forall i :: 0 <= i < |r| ==> r[i] == phiFront[i];
    }
  }

  /** Threshold under which a face is taken as parallel to the sweep. */
  const ParallelFaceTolerance: real := 1.0e-10

  /** computeRemapFlux: the flux of phiFace through a face along the sweep
      direction exy. With plateau-pente, phiFace already is a swept
      quantity and is only scaled by the face length; without it, it is also
      multiplied by v * dt. Faces parallel to the sweep carry nothing. */
  function RemapFlux(plateauPente: int, v: real, faceNormal: Vec2, faceLength: real, phiFace: seq<real>,
                     outerNormal: Vec2, exy: Vec2, dt: real): (r: seq<real>)
    ensures |r| == |phiFace|
  {
    if plateauPente == 0 then
      if Abs(Dot(faceNormal, exy)) < ParallelFaceTolerance then Scale(0.0, phiFace)
      else Scale(Dot(outerNormal, exy) * v * faceLength * dt, phiFace)
    else
      if Abs(Dot(faceNormal, exy)) < ParallelFaceTolerance then Scale(0.0, phiFace)
      else Scale(Dot(outerNormal, exy) * faceLength, phiFace)
  }

  /** A face parallel to the sweep carries no flux. */
  lemma {:induction false} ParallelFaceCarriesNothing(plateauPente: int, v: real, faceNormal: Vec2, faceLength: real,
                                   phiFace: seq<real>, outerNormal: Vec2, exy: Vec2, dt: real)
    requires Abs(Dot(faceNormal, exy)) < ParallelFaceTolerance
    ensures RemapFlux(plateauPente, v, faceNormal, faceLength, phiFace, outerNormal, exy, dt) == Zeros(|phiFace|)
  {
  }

  /** The two branches differ exactly by the factor v * dt. */
  lemma {:induction false} RemapFluxWithoutPlateauPente(v: real, faceNormal: Vec2, faceLength: real, phiFace: seq<real>,
                                     outerNormal: Vec2, exy: Vec2, dt: real)
    ensures RemapFlux(0, v, faceNormal, faceLength, phiFace, outerNormal, exy, dt)
         == Scale(v * dt, RemapFlux(1, v, faceNormal, faceLength, phiFace, outerNormal, exy, dt))
  {
    var a := RemapFlux(0, v, faceNormal, faceLength, phiFace, outerNormal, exy, dt);
    var b := Scale(v * dt, RemapFlux(1, v, faceNormal, faceLength, phiFace, outerNormal, exy, dt));
    var k := Dot(outerNormal, exy);
    forall i | 0 <= i < |phiFace|
      ensures a[i] == b[i]
    {
      if Abs(Dot(faceNormal, exy)) >= ParallelFaceTolerance {
        calc {
          b[i];
          v * dt * (k * faceLength * phiFace[i]);
          k * v * faceLength * dt * phiFace[i];
        }
      }
    }
  }

  /** Conservation: the two cells that share a face see opposite outer
      normals, and their fluxes through it cancel. */
  lemma {:induction false} RemapFluxIsAntisymmetric(plateauPente: int, v: real, faceNormal: Vec2, faceLength: real,
                                 phiFace: seq<real>, outerNormal: Vec2, exy: Vec2, dt: real)
    ensures Add(RemapFlux(plateauPente, v, faceNormal, faceLength, phiFace, outerNormal, exy, dt),
                RemapFlux(plateauPente, v, faceNormal, faceLength, phiFace, Vec2(-outerNormal.x, -outerNormal.y), exy, dt))
         == Zeros(|phiFace|)
  {
    var a := RemapFlux(plateauPente, v, faceNormal, faceLength, phiFace, outerNormal, exy, dt);
    var b := RemapFlux(plateauPente, v, faceNormal, faceLength, phiFace, Vec2(-outerNormal.x, -outerNormal.y), exy, dt);
    var k := Dot(outerNormal, exy);
    assert Dot(Vec2(-outerNormal.x, -outerNormal.y), exy) == -k;
    forall i | 0 <= i < |phiFace|
      ensures a[i] + b[i] == 0.0
    {
      if Abs(Dot(faceNormal, exy)) >= ParallelFaceTolerance {
        if plateauPente == 0 {
          assert b[i] == -k * v * faceLength * dt * phiFace[i];
        } else {
          assert b[i] == -k * faceLength * phiFace[i];
        }
      }
    }
  }
}
