// Equation-of-state closure (class EquationDetat): a pure dispatch from an
// integer material-law code to a closed-form law returning pressure, sound
// speed and dP/dE. The square root of the sound speed is left abstract: every
// law receives it as the parameter `sqrt`.
module Eos {
  import opened Common

  // Law codes, as numbered by the source.
  const VoidCode: int := 100
  const PerfectGasCode: int := 101
  const StiffenedGasCode: int := 102
  const FictifCode: int := 103
  const SolidLinearCode: int := 104

  /** The supported closure laws; SolidLinear exists but has no formula. */
  datatype Law = Void | PerfectGas | StiffenedGas | Fictif | SolidLinear

  /** Decoding of the integer code stored in `Nom`. */
  function LawOfCode(code: int): (r: Option<Law>)
    ensures r.Some? <==> VoidCode <= code <= SolidLinearCode
    ensures r == Some(PerfectGas) <==> code == PerfectGasCode
  {
    if code == VoidCode then Some(Void)
    else if code == PerfectGasCode then Some(PerfectGas)
    else if code == StiffenedGasCode then Some(StiffenedGas)
    else if code == FictifCode then Some(Fictif)
    else if code == SolidLinearCode then Some(SolidLinear)
    else None
  }

  /** The triple {pression, sound_speed, dpde} returned by every law. */
  datatype EosOutput = EosOutput(pressure: real, soundSpeed: real, dpde: real)

  /** What the source leaves undefined: the unimplemented SolidLinear law
      (computeEOSSL returns no value) and a code matched by no branch
      (computeEOS falls off its end). */
  datatype EosError = NotImplemented | UnknownLaw(code: int)

  datatype EosResult = Ok(out: EosOutput) | Err(error: EosError)

  // Default configuration: three materials, all perfect gases.
  const NbMatMax: nat := 3
  const DefaultNom: seq<int> := [PerfectGasCode, PerfectGasCode, PerfectGasCode]
  const DefaultGamma: seq<real> := [1.4, 1.4, 1.4]
  const DefaultTensionLimit: seq<real> := [0.01, 0.01, 0.01]

  /** computeEOSGP: the perfect gas p = (gamma-1) rho e. */
  function PerfectGasLaw(sqrt: real -> real, gamma: real, rho: real, e: real): (r: EosOutput)
    ensures r.dpde == (gamma - 1.0) * rho
    ensures r.pressure == r.dpde * e == (gamma - 1.0) * rho * e
    ensures r.soundSpeed == sqrt(gamma * (gamma - 1.0) * e)
  {
    EosOutput((gamma - 1.0) * rho * e, sqrt(gamma * (gamma - 1.0) * e), (gamma - 1.0) * rho)
  }

  /** computeEOSVoid: no material, everything is zero. */
  function VoidLaw(): EosOutput
  {
    EosOutput(0.0, 0.0, 0.0)
  }

  /** Sound speed of a stiffened gas at pressure p: sqrt((gamma/rho)(p + tension)). */
  function StiffenedSoundSpeed(sqrt: real -> real, gamma: real, tension: real, rho: real, p: real): real
    requires rho != 0.0
  {
    sqrt((gamma / rho) * (p + tension))
  }

  /** computeEOSSTIFG: stiffened gas p = (gamma-1) rho e - gamma * tension,
      all zero for an empty (rho == 0) material. */
  function StiffenedGasLaw(sqrt: real -> real, gamma: real, tension: real, rho: real, e: real): (r: EosOutput)
    ensures rho == 0.0 ==> r == EosOutput(0.0, 0.0, 0.0)
    ensures rho != 0.0 ==> r.dpde == (gamma - 1.0) * rho
    ensures rho != 0.0 ==> r.pressure + gamma * tension == r.dpde * e
    ensures rho != 0.0 ==> r.soundSpeed == StiffenedSoundSpeed(sqrt, gamma, tension, rho, r.pressure)
  {
    if rho != 0.0 then
      var p := (gamma - 1.0) * rho * e - gamma * tension;
      EosOutput(p, StiffenedSoundSpeed(sqrt, gamma, tension, rho, p), (gamma - 1.0) * rho)
    else
      EosOutput(0.0, 0.0, 0.0)
  }

  /** computeEOSFictif: constant pressure 5, insensitive to energy. */
  function FictifLaw(sqrt: real -> real, gamma: real, e: real): (r: EosOutput)
    ensures r.pressure == 5.0 && r.dpde == 0.0
    ensures r.soundSpeed == sqrt(gamma * (gamma - 1.0) * e)
  {
    EosOutput(5.0, sqrt(gamma * (gamma - 1.0) * e), 0.0)
  }

  /** computeEOS: the first matching code wins; SolidLinear and unknown codes
      are explicit errors here. */
  function ComputeEos(sqrt: real -> real, code: int, gamma: real, tension: real, rho: real, e: real): (r: EosResult)
    ensures r.Ok? <==> VoidCode <= code <= FictifCode
    ensures code == SolidLinearCode ==> r == Err(NotImplemented)
    ensures (code < VoidCode || code > SolidLinearCode) ==> r == Err(UnknownLaw(code))
  {
    if code == VoidCode then Ok(VoidLaw())
    else if code == PerfectGasCode then Ok(PerfectGasLaw(sqrt, gamma, rho, e))
    else if code == StiffenedGasCode then Ok(StiffenedGasLaw(sqrt, gamma, tension, rho, e))
    else if code == FictifCode then Ok(FictifLaw(sqrt, gamma, e))
    else if code == SolidLinearCode then Err(NotImplemented)
    else Err(UnknownLaw(code))
  }

  /** The dispatch agrees with the decoded law: each supported code runs its
      own law and nothing else. */
  lemma {:induction false} DispatchByCode(sqrt: real -> real, code: int, gamma: real, tension: real, rho: real, e: real)
    ensures LawOfCode(code) == Some(Void) ==> ComputeEos(sqrt, code, gamma, tension, rho, e) == Ok(EosOutput(0.0, 0.0, 0.0))
    ensures LawOfCode(code) == Some(PerfectGas) ==>
      ComputeEos(sqrt, code, gamma, tension, rho, e) == Ok(PerfectGasLaw(sqrt, gamma, rho, e))
    ensures LawOfCode(code) == Some(StiffenedGas) ==>
      ComputeEos(sqrt, code, gamma, tension, rho, e) == Ok(StiffenedGasLaw(sqrt, gamma, tension, rho, e))
    ensures LawOfCode(code) == Some(Fictif) ==>
      ComputeEos(sqrt, code, gamma, tension, rho, e) == Ok(FictifLaw(sqrt, gamma, e))
    ensures LawOfCode(code) == Some(SolidLinear) ==> ComputeEos(sqrt, code, gamma, tension, rho, e) == Err(NotImplemented)
    ensures LawOfCode(code) == None ==> ComputeEos(sqrt, code, gamma, tension, rho, e).Err?
  {
  }

  /** For a perfect gas, rho * c^2 == gamma * p whenever the abstract square
      root is a square root of its argument. */
  lemma {:induction false} PerfectGasSoundSpeed(sqrt: real -> real, gamma: real, rho: real, e: real)
    requires var c := sqrt(gamma * (gamma - 1.0) * e); c * c == gamma * (gamma - 1.0) * e
    ensures var r := PerfectGasLaw(sqrt, gamma, rho, e);
      rho * (r.soundSpeed * r.soundSpeed) == gamma * r.pressure
  {
    var r := PerfectGasLaw(sqrt, gamma, rho, e);
    calc {
      rho * (r.soundSpeed * r.soundSpeed);
      rho * (gamma * (gamma - 1.0) * e);
      gamma * ((gamma - 1.0) * rho * e);
    }
  }

  /** A stiffened gas with zero tension has the pressure and dP/dE of the
      perfect gas of the same gamma. */
  lemma {:induction false} StiffenedGasWithoutTensionIsPerfectGas(sqrt: real -> real, gamma: real, rho: real, e: real)
    requires rho != 0.0
    ensures StiffenedGasLaw(sqrt, gamma, 0.0, rho, e).pressure == PerfectGasLaw(sqrt, gamma, rho, e).pressure
    ensures StiffenedGasLaw(sqrt, gamma, 0.0, rho, e).dpde == PerfectGasLaw(sqrt, gamma, rho, e).dpde
  {
  }

  /** With the default configuration every material's law has a formula. */
  lemma {:induction false} DefaultMaterialsAreDefined(sqrt: real -> real, imat: nat, rho: real, e: real)
    requires imat < NbMatMax
    ensures ComputeEos(sqrt, DefaultNom[imat], DefaultGamma[imat], DefaultTensionLimit[imat], rho, e)
      == Ok(PerfectGasLaw(sqrt, 1.4, rho, e))
  {
  }
}
