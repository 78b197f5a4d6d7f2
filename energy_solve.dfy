// The per-material internal-energy equations of the Lagrangian phase (Vnr):
// the two implicit residuals whose zero is the new energy (fvnr for the
// density form, f for the corner-normal form) with their derivatives, the
// choice of the pseudo-viscous term, the closed form used for a perfect gas,
// and the Newton iteration capped at 50 steps that solves them for any law.
module EnergySolve {
  import opened Common
  import opened Eos

  // ---------------------------------------------------------------------
  // Residuals

  /** fvnr: the energy equation e - en + (p + pn + 2 q)/2 * (1/rn1 - 1/rn). */
  function Fvnr(e: real, p: real, dpde: real, en: real, qnn1: real, pn: real, rn1: real, rn: real): real
    requires rn1 != 0.0 && rn != 0.0
  {
    e - en + 0.5 * (p + pn + 2.0 * qnn1) * (1.0 / rn1 - 1.0 / rn)
  }

  /** fvnrderiv: the derivative of fvnr in e when dp/de is dpde. */
  function FvnrDeriv(e: real, p: real, dpde: real, rn1: real, rn: real): real
    requires rn1 != 0.0 && rn != 0.0
  {
    1.0 + 0.5 * dpde * (1.0 / rn1 - 1.0 / rn)
  }

  /** f: the energy equation with the corner-normal volume changes cn1, cn. */
  function F(e: real, p: real, dpde: real, en: real, qn: real, pn: real, cn1: real, cn: real, m: real, qn1: real): real
    requires m != 0.0
  {
    e - en + 0.5 * (p + qn1) * cn1 / m + 0.5 * (pn + qn) * cn / m
  }

  /** fderiv: the derivative of f in e when dp/de is dpde. */
  function FDeriv(e: real, p: real, dpde: real, cn1: real, m: real): real
    requires m != 0.0
  {
    1.0 + 0.5 * dpde * cn1 / m
  }

  /** fvnrderiv is the exact slope of fvnr along a pressure that moves by
      dpde per unit of energy. */
  lemma {:induction false} FvnrDerivIsSlope(e: real, h: real, p: real, dpde: real, en: real, qnn1: real, pn: real, rn1: real, rn: real)
    requires rn1 != 0.0 && rn != 0.0
    ensures Fvnr(e + h, p + dpde * h, dpde, en, qnn1, pn, rn1, rn) - Fvnr(e, p, dpde, en, qnn1, pn, rn1, rn)
         == h * FvnrDeriv(e, p, dpde, rn1, rn)
  {
    var dtau := 1.0 / rn1 - 1.0 / rn;
    calc {
      Fvnr(e + h, p + dpde * h, dpde, en, qnn1, pn, rn1, rn) - Fvnr(e, p, dpde, en, qnn1, pn, rn1, rn);
      h + 0.5 * (dpde * h) * dtau;
      h * (1.0 + 0.5 * dpde * dtau);
    }
  }

  /** fderiv is the exact slope of f along a pressure that moves by dpde per
      unit of energy. */
  lemma {:induction false} FDerivIsSlope(e: real, h: real, p: real, dpde: real, en: real, qn: real, pn: real, cn1: real, cn: real,
                      m: real, qn1: real)
    requires m != 0.0
    ensures F(e + h, p + dpde * h, dpde, en, qn, pn, cn1, cn, m, qn1) - F(e, p, dpde, en, qn, pn, cn1, cn, m, qn1)
         == h * FDeriv(e, p, dpde, cn1, m)
  {
    calc {
      F(e + h, p + dpde * h, dpde, en, qn, pn, cn1, cn, m, qn1) - F(e, p, dpde, en, qn, pn, cn1, cn, m, qn1);
      h + 0.5 * (dpde * h) * cn1 / m;
      h * (1.0 + 0.5 * dpde * cn1 / m);
    }
  }

  // ---------------------------------------------------------------------
  // The pseudo-viscous term

  /** The pseudo term of the energy equation: with pseudo_centree == 1 the
      mean of q(n+1) and q(n) when their work over the volume change is
      negative, with pseudo_centree == 0 q(n+1) when its work is negative,
      0 otherwise. */
  function PseudoTerm(centred: int, qn1: real, qn: real, rn1: real, rn: real): (r: real)
    requires rn1 != 0.0 && rn != 0.0
    ensures var dtau := 1.0 / rn1 - 1.0 / rn;
      && (centred == 1 && (qn1 + qn) * dtau < 0.0 ==> r == 0.5 * (qn1 + qn))
      && (centred == 0 && qn1 * dtau < 0.0 ==> r == qn1)
      && (r != 0.0 ==> (centred == 1 && (qn1 + qn) * dtau < 0.0) || (centred == 0 && qn1 * dtau < 0.0))
  {
    var dtau := 1.0 / rn1 - 1.0 / rn;
    var pseudo := if centred == 1 && (qn1 + qn) * dtau < 0.0 then 0.5 * (qn1 + qn) else 0.0;
    if centred == 0 && qn1 * dtau < 0.0 then qn1 else pseudo
  }

  /** The pseudo term never does positive work: it is zero or its work over
      the volume change is negative. */
  lemma {:induction false} PseudoWorkIsNonPositive(centred: int, qn1: real, qn: real, rn1: real, rn: real)
    requires rn1 != 0.0 && rn != 0.0
    ensures PseudoTerm(centred, qn1, qn, rn1, rn) * (1.0 / rn1 - 1.0 / rn) <= 0.0
  {
    var dtau := 1.0 / rn1 - 1.0 / rn;
    if centred == 1 && (qn1 + qn) * dtau < 0.0 && !(centred == 0 && qn1 * dtau < 0.0) {
      assert 0.5 * (qn1 + qn) * dtau == 0.5 * ((qn1 + qn) * dtau);
    }
  }

  // ---------------------------------------------------------------------
  // Residuals as data, for the Newton iteration

  /** Both energy equations are affine in (e, p): the residual is
      e + weight p - offset and its derivative 1 + weight dpde. `density` is
      the density the law is evaluated at, `start` the energy at time n the
      iteration starts from. */
  datatype Residual = Residual(weight: real, offset: real, density: real, start: real)

  function Value(res: Residual, e: real, p: real): real
  {
    e + res.weight * p - res.offset
  }

  function Slope(res: Residual, dpde: real): real
  {
    1.0 + res.weight * dpde
  }

  /** The density form of updateEnergyite: fvnr with rho = rn1. */
  function DensityForm(en: real, qnn1: real, pn: real, rn1: real, rn: real): Residual
    requires rn1 != 0.0 && rn != 0.0
  {
    Residual(0.5 * (1.0 / rn1 - 1.0 / rn), en - (0.5 * pn + qnn1) * (1.0 / rn1 - 1.0 / rn), rn1, en)
  }

  /** The corner-normal form of updateEnergycstsite: f with the law at r. */
  function CornerForm(en: real, qn: real, pn: real, cn1: real, cn: real, m: real, qn1: real, r: real): Residual
    requires m != 0.0
  {
    Residual(0.5 * cn1 / m, en - 0.5 * qn1 * cn1 / m - 0.5 * (pn + qn) * cn / m, r, en)
  }

  /** The density form is fvnr and its derivative fvnrderiv. */
  lemma {:induction false} DensityFormIsFvnr(en: real, qnn1: real, pn: real, rn1: real, rn: real, e: real, p: real, dpde: real)
    requires rn1 != 0.0 && rn != 0.0
    ensures Value(DensityForm(en, qnn1, pn, rn1, rn), e, p) == Fvnr(e, p, dpde, en, qnn1, pn, rn1, rn)
    ensures Slope(DensityForm(en, qnn1, pn, rn1, rn), dpde) == FvnrDeriv(e, p, dpde, rn1, rn)
  {
    DensityFormIsAffine(e, p, en, qnn1, pn, 1.0 / rn1 - 1.0 / rn);
    DensitySlopeForm(dpde, 1.0 / rn1 - 1.0 / rn);
  }

  /** The corner-normal form is f and its derivative fderiv. */
  lemma {:induction false} CornerFormIsF(en: real, qn: real, pn: real, cn1: real, cn: real, m: real, qn1: real, r: real,
                      e: real, p: real, dpde: real)
    requires m != 0.0
    ensures Value(CornerForm(en, qn, pn, cn1, cn, m, qn1, r), e, p) == F(e, p, dpde, en, qn, pn, cn1, cn, m, qn1)
    ensures Slope(CornerForm(en, qn, pn, cn1, cn, m, qn1, r), dpde) == FDeriv(e, p, dpde, cn1, m)
  {
    CornerFormIsAffine(e, p, en, qn, pn, cn1, cn, m, qn1);
    CornerSlopeForm(dpde, cn1, m);
  }

  lemma {:induction false} DensitySlopeForm(dpde: real, dtau: real)
    ensures 1.0 + 0.5 * dpde * dtau == 1.0 + (0.5 * dtau) * dpde
  {
  }

  /** (a b) / m == a (b / m). */
  lemma {:induction false} ScaledQuotient(a: real, b: real, m: real)
    requires m != 0.0
    ensures a * b / m == a * (b / m)
  {
    var u := b / m;
    assert b == u * m;
    assert a * b == (a * u) * m;
  }

  lemma {:induction false} CornerSlopeForm(dpde: real, cn1: real, m: real)
    requires m != 0.0
    ensures 1.0 + 0.5 * dpde * cn1 / m == 1.0 + (0.5 * cn1 / m) * dpde
  {
    ScaledQuotient(0.5 * dpde, cn1, m);
    ScaledQuotient(0.5, cn1, m);
    var u := cn1 / m;
    assert (0.5 * dpde) * u == (0.5 * u) * dpde;
  }

  lemma {:induction false} DensityFormIsAffine(e: real, p: real, en: real, q: real, pn: real, dtau: real)
    ensures e - en + 0.5 * (p + pn + 2.0 * q) * dtau == e + (0.5 * dtau) * p - (en - (0.5 * pn + q) * dtau)
  {
  }

  lemma {:induction false} CornerFormIsAffine(e: real, p: real, en: real, qn: real, pn: real, cn1: real, cn: real, m: real, qn1: real)
    requires m != 0.0
    ensures e - en + 0.5 * (p + qn1) * cn1 / m + 0.5 * (pn + qn) * cn / m
         == e + (0.5 * cn1 / m) * p - (en - 0.5 * qn1 * cn1 / m - 0.5 * (pn + qn) * cn / m)
  {
    assert 0.5 * (p + qn1) * cn1 / m == 0.5 * p * cn1 / m + 0.5 * qn1 * cn1 / m;
    assert 0.5 * p * cn1 / m == (0.5 * cn1 / m) * p;
  }

  // ---------------------------------------------------------------------
  // Closed form for a perfect gas (updateEnergy)

  /** updateEnergy's energy for a perfect gas of index gamma: num / den with
      den = 1 + (gamma-1)/2 rn1 (1/rn1 - 1/rn) and
      num = en - (pn/2 + pseudo) (1/rn1 - 1/rn). */
  function ClosedFormEnergy(gamma: real, en: real, pn: real, pseudo: real, rn1: real, rn: real): real
    requires rn1 != 0.0 && rn != 0.0
    requires 1.0 + 0.5 * (gamma - 1.0) * rn1 * (1.0 / rn1 - 1.0 / rn) != 0.0
  {
    var dtau := 1.0 / rn1 - 1.0 / rn;
    var den := 1.0 + 0.5 * (gamma - 1.0) * rn1 * dtau;
    var num := en - (0.5 * pn + pseudo) * dtau;
    num / den
  }

  /** The root n / (1 + w k) of e + w k e - n. */
  function RootOf(w: real, k: real, n: real): real
    requires 1.0 + w * k != 0.0
  {
    n / (1.0 + w * k)
  }

  /** The root of e + w k e - n, an affine function of slope 1 + w k. */
  lemma {:induction false} AffineRootIsZero(w: real, k: real, n: real)
    requires 1.0 + w * k != 0.0
    ensures var e := RootOf(w, k, n); e + w * (k * e) - n == 0.0
  {
    var d := 1.0 + w * k;
    var e := n / d;
    assert e * d == n;
    assert e + w * (k * e) == e * d;
  }

  /** A Newton step on an affine residual lands on its root, whatever the
      starting energy: v is the residual e + w k e - n at e, d its slope. */
  lemma {:induction false} AffineNewtonStep(w: real, k: real, n: real, e: real, v: real, d: real)
    requires d == 1.0 + w * k && d != 0.0
    requires v == e + w * (k * e) - n
    ensures e - v / d == RootOf(w, k, n)
  {
    assert v == e * d - n;
    assert (e * d - n) / d == e - n / d;
  }

  /** For a perfect gas the residual is e + w (k e) - offset with
      k = (gamma-1) rho, so its root is offset / (1 + w k). */
  function PerfectGasRoot(gamma: real, res: Residual): real
    requires 1.0 + res.weight * ((gamma - 1.0) * res.density) != 0.0
  {
    RootOf(res.weight, (gamma - 1.0) * res.density, res.offset)
  }

  /** updateEnergy's closed form is the root of the density form for a
      perfect gas. */
  lemma {:induction false} ClosedFormIsPerfectGasRoot(gamma: real, en: real, pn: real, pseudo: real, rn1: real, rn: real)
    requires rn1 != 0.0 && rn != 0.0
    requires 1.0 + 0.5 * (gamma - 1.0) * rn1 * (1.0 / rn1 - 1.0 / rn) != 0.0
    ensures var res := DensityForm(en, pseudo, pn, rn1, rn);
      && 1.0 + res.weight * ((gamma - 1.0) * res.density) != 0.0
      && ClosedFormEnergy(gamma, en, pn, pseudo, rn1, rn) == PerfectGasRoot(gamma, res)
  {
    DenominatorForms(gamma, rn1, 1.0 / rn1 - 1.0 / rn);
    SameQuotient(en - (0.5 * pn + pseudo) * (1.0 / rn1 - 1.0 / rn),
                 1.0 + 0.5 * (gamma - 1.0) * rn1 * (1.0 / rn1 - 1.0 / rn),
                 1.0 + (0.5 * (1.0 / rn1 - 1.0 / rn)) * ((gamma - 1.0) * rn1));
  }

  lemma {:induction false} DenominatorForms(gamma: real, rn1: real, dtau: real)
    ensures 1.0 + 0.5 * (gamma - 1.0) * rn1 * dtau == 1.0 + (0.5 * dtau) * ((gamma - 1.0) * rn1)
  {
  }

  lemma {:induction false} SameQuotient(n: real, d1: real, d2: real)
    requires d1 == d2 && d1 != 0.0
    ensures n / d1 == n / d2
  {
  }

  /** The closed form solves the implicit equation fvnr == 0 with the
      perfect-gas pressure (gamma-1) rn1 e. */
  lemma {:induction false} ClosedFormSolvesEnergyEquation(gamma: real, en: real, pn: real, pseudo: real, rn1: real, rn: real)
    requires rn1 != 0.0 && rn != 0.0
    requires 1.0 + 0.5 * (gamma - 1.0) * rn1 * (1.0 / rn1 - 1.0 / rn) != 0.0
    ensures var e := ClosedFormEnergy(gamma, en, pn, pseudo, rn1, rn);
      Fvnr(e, (gamma - 1.0) * rn1 * e, (gamma - 1.0) * rn1, en, pseudo, pn, rn1, rn) == 0.0
  {
    var res := DensityForm(en, pseudo, pn, rn1, rn);
    ClosedFormIsPerfectGasRoot(gamma, en, pn, pseudo, rn1, rn);
    var e := ClosedFormEnergy(gamma, en, pn, pseudo, rn1, rn);
    AffineRootIsZero(res.weight, (gamma - 1.0) * res.density, res.offset);
    DensityFormIsFvnr(en, pseudo, pn, rn1, rn, e, (gamma - 1.0) * rn1 * e, (gamma - 1.0) * rn1);
  }

  // ---------------------------------------------------------------------
  // Newton iteration (updateEnergyite, updateEnergycstsite)

  const NewtonMaxIterations: nat := 50

  /** One material's law, as read from eos->Nom, gamma and tension_limit. */
  datatype Material = Material(code: int, gamma: real, tension: real)

  /** The loop variables e, p, c, dpde and the counter i. */
  datatype NewtonState = NewtonState(e: real, p: real, c: real, dpde: real, iterations: nat)

  /** Why the loop stopped: the residual fell below epsilon, the 50
      iterations were used up, the law has no formula, or the derivative
      vanished (the source divides by it regardless). */
  datatype NewtonStatus = Converged | IterationCap | EosFailed(error: EosError) | ZeroDerivative

  datatype NewtonResult = NewtonResult(state: NewtonState, status: NewtonStatus)

  /** The loop from state s: the cap is tested first, then the residual at
      the current e with the p of the previous law evaluation; a step
      evaluates the law at e and moves e by -residual/derivative. */
  function NewtonFrom(sqrt: real -> real, mat: Material, res: Residual, epsilon: real, s: NewtonState): (r: NewtonResult)
    requires s.iterations <= NewtonMaxIterations
    ensures s.iterations <= r.state.iterations <= NewtonMaxIterations
    ensures r.status == Converged ==>
      r.state.iterations < NewtonMaxIterations && Abs(Value(res, r.state.e, r.state.p)) < epsilon
    ensures r.status == IterationCap <==> r.state.iterations == NewtonMaxIterations
    decreases NewtonMaxIterations - s.iterations
  {
    if s.iterations >= NewtonMaxIterations then NewtonResult(s, IterationCap)
    else if Abs(Value(res, s.e, s.p)) < epsilon then NewtonResult(s, Converged)
    else
      match ComputeEos(sqrt, mat.code, mat.gamma, mat.tension, res.density, s.e)
      case Err(error) => NewtonResult(s, EosFailed(error))
      case Ok(out) =>
        var d := Slope(res, out.dpde);
        if d == 0.0 then NewtonResult(s.(p := out.pressure, c := out.soundSpeed, dpde := out.dpde), ZeroDerivative)
        else
          var next := s.e - Value(res, s.e, out.pressure) / d;
          NewtonFrom(sqrt, mat, res, epsilon, NewtonState(next, out.pressure, out.soundSpeed, out.dpde, s.iterations + 1))
  }

  /** The loop as the source starts it: e = en and i = 0, with p, c and dpde
      holding whatever the uninitialised variables contain (pInit, cInit,
      dpdeInit), which decides the first exit test. */
  function Newton(sqrt: real -> real, mat: Material, res: Residual, epsilon: real,
                  pInit: real, cInit: real, dpdeInit: real): NewtonResult
  {
    NewtonFrom(sqrt, mat, res, epsilon, NewtonState(res.start, pInit, cInit, dpdeInit, 0))
  }

  /** The Newton loop, one law evaluation per iteration. */
  method NewtonSolve(sqrt: real -> real, mat: Material, res: Residual, epsilon: real,
                     pInit: real, cInit: real, dpdeInit: real) returns (r: NewtonResult)
    ensures r == Newton(sqrt, mat, res, epsilon, pInit, cInit, dpdeInit)
  {
    var s := NewtonState(res.start, pInit, cInit, dpdeInit, 0);
    while s.iterations < NewtonMaxIterations && Abs(Value(res, s.e, s.p)) >= epsilon
      invariant s.iterations <= NewtonMaxIterations
      invariant NewtonFrom(sqrt, mat, res, epsilon, s) == Newton(sqrt, mat, res, epsilon, pInit, cInit, dpdeInit)
      decreases NewtonMaxIterations - s.iterations
    {
      var law := ComputeEos(sqrt, mat.code, mat.gamma, mat.tension, res.density, s.e);
      if law.Err? {
        return NewtonResult(s, EosFailed(law.error));
      }
      var d := Slope(res, law.out.dpde);
      if d == 0.0 {
        return NewtonResult(s.(p := law.out.pressure, c := law.out.soundSpeed, dpde := law.out.dpde), ZeroDerivative);
      }
      var next := s.e - Value(res, s.e, law.out.pressure) / d;
      s := NewtonState(next, law.out.pressure, law.out.soundSpeed, law.out.dpde, s.iterations + 1);
    }
    if s.iterations >= NewtonMaxIterations {
      r := NewtonResult(s, IterationCap);
    } else {
      r := NewtonResult(s, Converged);
    }
  }

  /** A perfect-gas law evaluation followed by a Newton step reaches the
      root from any energy e. */
  lemma {:induction false} PerfectGasStepLands(sqrt: real -> real, gamma: real, res: Residual, e: real)
    requires 1.0 + res.weight * ((gamma - 1.0) * res.density) != 0.0
    ensures var out := PerfectGasLaw(sqrt, gamma, res.density, e);
      && Slope(res, out.dpde) != 0.0
      && e - Value(res, e, out.pressure) / Slope(res, out.dpde) == PerfectGasRoot(gamma, res)
  {
    var out := PerfectGasLaw(sqrt, gamma, res.density, e);
    AffineNewtonStep(res.weight, (gamma - 1.0) * res.density, res.offset, e,
                     Value(res, e, out.pressure), Slope(res, out.dpde));
  }

  /** A perfect-gas Newton step from any energy reaches the root, and the
      loop then ends there. */
  lemma {:induction false} PerfectGasStep(sqrt: real -> real, gamma: real, tension: real, res: Residual,
                                          epsilon: real, s: NewtonState)
    requires s.iterations <= NewtonMaxIterations
    requires 1.0 + res.weight * ((gamma - 1.0) * res.density) != 0.0
    requires s.e == PerfectGasRoot(gamma, res) || (s.iterations < NewtonMaxIterations && Abs(Value(res, s.e, s.p)) >= epsilon)
    ensures NewtonFrom(sqrt, Material(PerfectGasCode, gamma, tension), res, epsilon, s).state.e == PerfectGasRoot(gamma, res)
    ensures NewtonFrom(sqrt, Material(PerfectGasCode, gamma, tension), res, epsilon, s).status in {Converged, IterationCap}
    decreases NewtonMaxIterations - s.iterations
  {
    var mat := Material(PerfectGasCode, gamma, tension);
    if s.iterations < NewtonMaxIterations && Abs(Value(res, s.e, s.p)) >= epsilon {
      var out := PerfectGasLaw(sqrt, gamma, res.density, s.e);
      assert ComputeEos(sqrt, mat.code, mat.gamma, mat.tension, res.density, s.e) == Ok(out);
      PerfectGasStepLands(sqrt, gamma, res, s.e);
      var next := s.e - Value(res, s.e, out.pressure) / Slope(res, out.dpde);
      PerfectGasStep(sqrt, gamma, tension, res, epsilon,
                     NewtonState(next, out.pressure, out.soundSpeed, out.dpde, s.iterations + 1));
    }
  }

  /** For a perfect gas, whenever the loop runs at least once it ends at the
      closed-form energy of updateEnergy: updateEnergyite agrees with
      updateEnergy. */
  lemma {:induction false} PerfectGasNewtonMatchesClosedForm(sqrt: real -> real, gamma: real, tension: real, en: real, pseudo: real,
                                          pn: real, rn1: real, rn: real, epsilon: real,
                                          pInit: real, cInit: real, dpdeInit: real)
    requires rn1 != 0.0 && rn != 0.0
    requires 1.0 + 0.5 * (gamma - 1.0) * rn1 * (1.0 / rn1 - 1.0 / rn) != 0.0
    requires Abs(Fvnr(en, pInit, dpdeInit, en, pseudo, pn, rn1, rn)) >= epsilon
    ensures var r := Newton(sqrt, Material(PerfectGasCode, gamma, tension), DensityForm(en, pseudo, pn, rn1, rn),
                            epsilon, pInit, cInit, dpdeInit);
      r.state.e == ClosedFormEnergy(gamma, en, pn, pseudo, rn1, rn) && r.status in {Converged, IterationCap}
  {
    var res := DensityForm(en, pseudo, pn, rn1, rn);
    ClosedFormIsPerfectGasRoot(gamma, en, pn, pseudo, rn1, rn);
    DensityFormIsFvnr(en, pseudo, pn, rn1, rn, en, pInit, dpdeInit);
    PerfectGasStep(sqrt, gamma, tension, res, epsilon, NewtonState(en, pInit, cInit, dpdeInit, 0));
  }

  /** If the garbage initial pressure happens to make the first residual
      small, the loop does not run and the energy stays at en. */
  lemma {:induction false} SmallFirstResidualSkipsTheLoop(sqrt: real -> real, mat: Material, res: Residual, epsilon: real,
                                       pInit: real, cInit: real, dpdeInit: real)
    requires Abs(Value(res, res.start, pInit)) < epsilon
    ensures Newton(sqrt, mat, res, epsilon, pInit, cInit, dpdeInit)
         == NewtonResult(NewtonState(res.start, pInit, cInit, dpdeInit, 0), Converged)
  {
  }
}
