# MaHyCo remap core and Vnr Lagrangian closure, in Dafny

This project models the core of MaHyCo, a 2-D multi-material ALE hydrodynamics
code. Its Vnr scheme alternates a Lagrangian phase, in which the mesh moves with
the flow, with a remap (projection) phase, in which the state is transported
back onto the Eulerian mesh in two directional sweeps. All quantities are Dafny
`real`s: rounding is ignored, and `sqrt` is a parameter of the operations that
take square roots.

The model covers:

- **Equations of state** (`Eos`, after `includes/Eos.h`). The five laws
  (Void, PerfectGas, StiffenedGas, Fictif, SolidLinear) and the dispatch by
  law code. The source's `computeEOSSL` and `computeEOS` can fall off the end
  without returning. Here that is an explicit error result: `NotImplemented`
  for SolidLinear and `UnknownLaw` for any other code.
- **Remap utilities** (`RemapUtils`, after `remap/UtilesRemap-Impl.h`):
  - the limited cell gradient (classical limiters, or the plateau-pente
    family from `minmodG` on) and the vector third-order flux;
  - the bounded plateau-pente face flux `computeFluxPP` and its pure-cell
    variant `computeFluxPPPure`, with the clamping of each limited component,
    the extremum fallback and the algebraic derivation of the dependent
    fluxes;
  - the upwind face value and the directional flux `computeRemapFlux`.
- **The second directional sweep** (`RemapSweep`, after
  `remap/PhaseRemap2.cc`). The four jobs of class EucclhydRemap are methods of
  a class whose fields are the arrays they write:
  - face slopes and Lagrangian face lengths, and cell half-widths;
  - limited cell gradients with the pure-neighbourhood limiter choice, and the
    plateau-pente fluxes through the two faces of each cell along the sweep;
  - face values by projection order;
  - the flux balance `Uremap2 = Uremap1 - Σ flux`.
- **Dual-mesh (node) remap** (`DualRemap`, after `remap/UtilesDualRemap.cc`).
  The twelve per-node flux routines share one shape, and a flux kind
  parameter selects the variant (mass, via volume, plateau-pente bounded).
  The four upwind node velocities are separate methods. The class `Remap`
  holds the node arrays they update.
- **Lagrangian closure** (`EnergySolve`, `Lagrange` and `VnrLagrange`, after
  `vnr_remap/PhaseLagrange.cc`):
  - cell and node masses;
  - the artificial viscosity, which aborts on a negative value;
  - the density update, which aborts on a negative material density;
  - the specific-volume updates;
  - the three internal-energy updates: closed form, Newton on `fvnr`, and
    Newton on `f` with corner work;
  - the mean pressure and sound speed;
  - the kinetic-energy correction.

  The Newton loops start from a pressure, sound speed and `dpde` that the
  source never initialises. The model passes these in as an explicit
  `Uninitialised` parameter, so any statement about the first residual holds
  for every value they may hold. The jobs are methods of class
  `VnrLagrange.Vnr`. An exit(1) of the source sets the flag `aborted`. A Newton
  result the source leaves undefined sets the flag `undefined`: either the
  material's EOS has no result, or the Newton slope is zero and the source
  would divide by it.
- **Initial variables** (`InitVariables`, after
  `initialisations/InitVariables.cc`). `initVar` is modelled as:
  - zeroing of the per-material slots;
  - the scenario dispatch, in which the first matching branch wins;
  - the single-material fill;
  - the mixed/pure classification of cells.

  The scenario initialisers themselves are a parameter.
- **Time loop** (`TimeLoop`, after `vnr_remap/VnrRemap.cc`):
  - the CFL time step with its 1.05 growth cap;
  - the initial time step;
  - the time advance;
  - the do-while loop that counts iterations, tests for continuation and
    swaps the n and n+1 slots.

  The physics of one iteration, the CFL reduction over the cells and the
  half-step-back node velocity of `updateVelocitybackward` are parameters
  of `ExecuteTimeLoopN`. Under the CSTS scheme with projection, that
  velocity replaces the n-slot node velocity in place before the time step
  is computed.

The source has one class `Vnr`. Its Lagrange-phase jobs are methods of
`VnrLagrange.Vnr`, and its time-loop fields and jobs are methods of
`TimeLoop.Vnr`: the two Dafny classes are two views of that one class, each
holding the fields its own jobs read and write.

`Common` holds vectors, element-wise sequence arithmetic and the left-to-right
sum with its lemmas.

## Model

| member | source | states |
|---|---|---|
| Eos.LawOfCode | includes/Eos.h:9-13 | the codes 100..104 and no others name a law, and 101 is PerfectGas |
| Eos.PerfectGasLaw | includes/Eos.h:20-26 | p = (γ-1)ρe, dpde = (γ-1)ρ, c = sqrt(γ(γ-1)e) |
| Eos.VoidLaw | includes/Eos.h:28-33 | no contract of its own: Eos.DispatchByCode states that code 100 gives pressure, sound speed and dpde all 0 |
| Eos.StiffenedSoundSpeed | includes/Eos.h:41 | no contract of its own: it is sqrt((γ/ρ)(p + tension)), which Eos.StiffenedGasLaw states is the law's sound speed |
| Eos.StiffenedGasLaw | includes/Eos.h:35-50 | with ρ = 0 all three outputs are 0; otherwise dpde = (γ-1)ρ, p + γ·tension = (γ-1)ρe, and c is the stiffened sound speed of that p |
| Eos.FictifLaw | includes/Eos.h:52-57 | pressure 5, dpde 0, c = sqrt(γ(γ-1)e) |
| Eos.ComputeEos | includes/Eos.h:59-68 | a result exists iff the code is one of 100..103; code 104 gives NotImplemented, any code outside 100..104 gives UnknownLaw |
| Eos.DispatchByCode | includes/Eos.h:62-68 | each law code dispatches to its own law (Void to all zeros), SolidLinear and unknown codes to an error |
| Eos.PerfectGasSoundSpeed | includes/Eos.h:20-26 | for a perfect gas ρc² = γp whenever sqrt squares back |
| Eos.StiffenedGasWithoutTensionIsPerfectGas | includes/Eos.h:39-42 | with zero tension and ρ ≠ 0 the stiffened gas has the perfect gas's pressure and dpde |
| Eos.DefaultMaterialsAreDefined | includes/Eos.h:14-16 | the three default materials are perfect gases with γ = 1.4, and their EOS always has a result |
| RemapUtils.LimitedGradient | remap/UtilesRemap-Impl.h:8-35 | below minmodG each component is the classical limited slope of its two one-sided gradients, from minmodG on it is fluxLimiterPP of that component |
| RemapUtils.ClassicalLimitedSlope | remap/UtilesRemap-Impl.h:14-25 | no contract of its own: the classical limited slope that LimitedGradient uses below minmodG; its properties are RemapUtils.ClassicalSlopeSymmetric, ClassicalSlopeOfLinearProfile and ClassicalSlopeVanishesAtExtremum |
| RemapUtils.ComputeAndLimitGradPhi | remap/UtilesRemap-Impl.h:8-35 | the component loop computes LimitedGradient |
| RemapUtils.ClassicalSlopeSymmetric | remap/UtilesRemap-Impl.h:14-25 | the classical limited slope does not depend on the order of the two one-sided gradients |
| RemapUtils.ClassicalSlopeOfLinearProfile | remap/UtilesRemap-Impl.h:14-25 | for equal one-sided gradients g (a linear profile) the slope is g when the limiter keeps ratio 1 |
| RemapUtils.ClassicalSlopeVanishesAtExtremum | remap/UtilesRemap-Impl.h:14-25 | one-sided gradients of opposite signs give slope 0 for a limiter that is zero on non-positive ratios |
| RemapUtils.VecFluxOrdre3 | remap/UtilesRemap-Impl.h:36-49 | each component is ComputeFluxOrdre3 of that component's six values, with the displacement v·dt |
| RemapUtils.ComputeVecFluxOrdre3 | remap/UtilesRemap-Impl.h:36-49 | the component loop computes VecFluxOrdre3 |
| RemapUtils.PositivePartIsUpwindDisplacement | remap/UtilesRemap-Impl.h:61-63 | for dt > 0, 0.5(v+abs(v))dt is non-negative, is 0 iff v ≤ 0, and is v·dt for v > 0 |
| RemapUtils.PositivePart | remap/UtilesRemap-Impl.h:61-62 | no contract of its own: the swept length partie_positive_v; RemapUtils.PositivePartIsUpwindDisplacement states its sign and value |
| RemapUtils.ComponentFluxCases | remap/UtilesRemap-Impl.h:65-196 | a face type other than 0 and 1 gives 0; at a local extremum both face types give exactly phi times the displacement; elsewhere the flux is clamped to be non-negative |
| RemapUtils.ComponentFlux | remap/UtilesRemap-Impl.h:65-196 | no contract of its own: one limited component of the face flux; its cases are RemapUtils.ComponentFluxCases, ComponentFluxNonNegative and UniformFieldIsTransportedExactly |
| RemapUtils.IsLocalExtremum | remap/UtilesRemap-Impl.h:142-143 | no contract of its own: the "formule 16" test; RemapUtils.ComponentFluxCases states that at such an extremum the flux is phi times the swept length |
| RemapUtils.ComponentFluxNonNegative | remap/UtilesRemap-Impl.h:140-144 | for phi ≥ 0 and a non-negative displacement each limited component is ≥ 0 |
| RemapUtils.UniformFieldIsTransportedExactly | remap/UtilesRemap-Impl.h:143-144 | a uniform field (phi equal on both neighbours) is carried exactly: flux = phi times the displacement |
| RemapUtils.LimitedComponents | remap/UtilesRemap-Impl.h:65-196 | the first `count` components are the component fluxes and the rest stay 0 |
| RemapUtils.MassFluxes | remap/UtilesRemap-Impl.h:200-204 | the nbmat mass fluxes of the derivation, one per material |
| RemapUtils.PartlyDerivedAt | remap/UtilesRemap-Impl.h:200-218 | after m materials of the derivation loop, the mass and energy slots of those m materials are derived and every other slot is still the limited flux |
| RemapUtils.BoundedFluxMaterial | remap/UtilesRemap-Impl.h:200-218 | per material: the volume flux is the limited one; the mass flux is phi[nbmat+i] × volume flux (or the limited one in the pure variant); the energy flux is phi[2nbmat+i] × mass flux |
| RemapUtils.BoundedFluxMasses | remap/UtilesRemap-Impl.h:200-218 | the mass slots of the bounded flux are the derived mass fluxes and the volume slots the limited ones |
| RemapUtils.BoundedFluxTotals | remap/UtilesRemap-Impl.h:200-218 | momentum x, momentum y and kinetic energy are their phi slot times the summed mass flux, and the pseudo slot is its phi slot times the summed volume flux |
| RemapUtils.BoundedFluxUntouched | remap/UtilesRemap-Impl.h:200-218 | slots past the pseudo slot keep the limited flux |
| RemapUtils.LimitComponents | remap/UtilesRemap-Impl.h:65-196 | the component loop computes LimitedComponents |
| RemapUtils.DerivationTurn | remap/UtilesRemap-Impl.h:200-218 | one turn of the derivation loop sets material m's mass and energy slots and nothing else |
| RemapUtils.DeriveFluxes | remap/UtilesRemap-Impl.h:200-218 | the derivation loops compute the bounded flux |
| RemapUtils.PlateauPenteFlux | remap/UtilesRemap-Impl.h:51-221 | zero flux when the displacement is 0, otherwise the bounded flux of the limited components |
| RemapUtils.ComputeFluxPP | remap/UtilesRemap-Impl.h:51-221 | for v ≤ 0 the flux is all zeros; otherwise nbmat components are limited with the main limiter and all dependent fluxes, mass included, are derived |
| RemapUtils.ComputeFluxPPPure | remap/UtilesRemap-Impl.h:223-392 | for v ≤ 0 the flux is all zeros; otherwise 2·nbmat components are limited with the pure limiter and the mass fluxes are kept, not derived |
| RemapUtils.UpwindFaceQuantities | remap/UtilesRemap-Impl.h:394-404 | only the width: one face value per component. What the value is: RemapUtils.UpwindIgnoresDownwindCell and UpwindWithoutGradientIsCellValue |
| RemapUtils.RemapFlux | remap/UtilesRemap-Impl.h:406-427 | only the width: one flux per component. What the flux is: RemapUtils.ParallelFaceCarriesNothing, RemapFluxWithoutPlateauPente and RemapFluxIsAntisymmetric |
| RemapUtils.UpwindIgnoresDownwindCell | remap/UtilesRemap-Impl.h:394-404 | when v·Δx > 0 the face value does not depend on the front cell, otherwise it does not depend on the back cell |
| RemapUtils.UpwindWithoutGradientIsCellValue | remap/UtilesRemap-Impl.h:400-403 | with zero gradients the face value is the back cell's phi iff v·Δx > 0, else the front cell's |
| RemapUtils.ParallelFaceCarriesNothing | remap/UtilesRemap-Impl.h:416-417 | a face whose normal is (numerically) orthogonal to the sweep direction carries zero flux |
| RemapUtils.RemapFluxWithoutPlateauPente | remap/UtilesRemap-Impl.h:415-426 | without plateau-pente the flux is the plateau-pente flux times v·dt |
| RemapUtils.RemapFluxIsAntisymmetric | remap/UtilesRemap-Impl.h:406-427 | the fluxes seen through opposite outer normals add to zero |
| RemapSweep.FaceSlopeTimesSpacingIsJump | remap/PhaseRemap2.cc:38-39 | each face slope times deltaxLagrange is Phi(front) - Phi(back) |
| RemapSweep.FaceSlope | remap/PhaseRemap2.cc:38-39 | only the width of one face slope. What the slope is: RemapSweep.FaceSlopeTimesSpacingIsJump |
| RemapSweep.GradPhiFace2AfterMeaning | remap/PhaseRemap2.cc:21-115 | order ≤ 1 writes nothing; faces outside the sweep keep their value; swept faces get the slope (Phi(front)-Phi(back))/deltaxLagrange |
| RemapSweep.SquaredDistanceSymmetric | remap/PhaseRemap2.cc:46-50 | the squared face length does not depend on the order of the two nodes and is ≥ 0 |
| RemapSweep.HalfWidth | remap/PhaseRemap2.cc:52-66 | no contract of its own: RemapSweep.HalfWidthIsMeanLength states that it is half the sum of the two face lengths across the sweep |
| RemapSweep.HalfWidthIsMeanLength | remap/PhaseRemap2.cc:52-66 | HvLagrange is half the sum of the right and left (x_then_y_n) or bottom and top face lengths, and non-negative when they are |
| RemapSweep.FaceSlopeLoop | remap/PhaseRemap2.cc:23-51 | the face loop writes the slope and the Lagrangian length of every swept face and leaves the other faces alone |
| RemapSweep.HalfWidthLoop | remap/PhaseRemap2.cc:52-66 | the cell loop writes the half-width of every cell |
| RemapSweep.SweepStencil | remap/PhaseRemap2.cc:128-147 | the stencil's cells are cells of the mesh and its four faces are faces of the cell |
| RemapSweep.StencilNeighbours | remap/PhaseRemap2.cc:136-147 | a missing neighbour (-1) above or below (left or right) is replaced by the cell itself, a present one is kept |
| RemapSweep.PureLimiterChoice | remap/PhaseRemap2.cc:148-156 | the pure limiter is chosen iff plateau-pente and the mixed limiter are on, all three cells are pure and they share the same pure material |
| RemapSweep.CellLimiter | remap/PhaseRemap2.cc:148-156 | no contract of its own: the limiter of a cell; RemapSweep.PureLimiterChoice states when it is the pure-cell limiter |
| RemapSweep.IsolatedPureCellHasPureNeighbourhood | remap/PhaseRemap2.cc:146-152 | a cell with no neighbour along the sweep is its own neighbourhood, pure iff the mixed limiter is on and the cell is pure |
| RemapSweep.CellGradients | remap/PhaseRemap2.cc:158-161 | every cell's gradient is the limited gradient of its stencil |
| RemapSweep.ArFluxes | remap/PhaseRemap2.cc:163-180 | every cell's deltaPhiFaceAr is the plateau-pente flux through its bottom (left) face |
| RemapSweep.AvFluxes | remap/PhaseRemap2.cc:182-198 | every cell's deltaPhiFaceAv is the plateau-pente flux through its top (right) face |
| RemapSweep.ArFlux | remap/PhaseRemap2.cc:166-181 | only the width of one cell's bottom (left) face flux. What it is: RemapSweep.ArFluxes and NoOutflowNoFaceFlux |
| RemapSweep.AvFlux | remap/PhaseRemap2.cc:183-198 | only the width of one cell's top (right) face flux. What it is: RemapSweep.AvFluxes and NoOutflowNoFaceFlux |
| RemapSweep.CellSlopeTurn | remap/PhaseRemap2.cc:128-199 | one cell's gradient, and with plateau-pente its two face fluxes; without plateau-pente those fluxes are left as they were |
| RemapSweep.CellSlopeLoop | remap/PhaseRemap2.cc:122-280 | the cell loop writes every gradient and, only with plateau-pente, every face flux |
| RemapSweep.NoOutflowNoFaceFlux | remap/PhaseRemap2.cc:163-199 | a face with non-positive outgoing velocity gets a zero plateau-pente flux |
| RemapSweep.FaceValues | remap/PhaseRemap2.cc:288-409 | the face value of every swept face |
| RemapSweep.FaceValue | remap/PhaseRemap2.cc:296-345 | only the width of one face value. What the value is: RemapSweep.FlatGradientFaceValueIsUpwindDensity and PlateauPenteFaceValue |
| RemapSweep.OrderThreeFaceValue | remap/PhaseRemap2.cc:321-345 | only the width of the third-order face value; it is RemapUtils.VecFluxOrdre3 of the six cells around the face, as RemapSweep.FaceValueTurn uses it at order 3 |
| RemapSweep.PhiFace2AfterMeaning | remap/PhaseRemap2.cc:288-409 | only orders 2 and 3 write phiFace2, and only on swept faces |
| RemapSweep.FlatGradientFaceValueIsUpwindDensity | remap/PhaseRemap2.cc:308-316 | order 2 without plateau-pente and with zero gradients gives the upwind cell's Uremap1/vLagrange |
| RemapSweep.PlateauPenteFaceValue | remap/PhaseRemap2.cc:317-320 | order 2 with plateau-pente gives deltaPhiFaceAv(upstream) - deltaPhiFaceAr(downstream) |
| RemapSweep.FaceValueTurn | remap/PhaseRemap2.cc:296-345 | one face's value by order and plateau-pente flag |
| RemapSweep.FaceValueLoop | remap/PhaseRemap2.cc:288-409 | the face loop writes the face value of every swept face and leaves the other faces alone |
| RemapSweep.BalanceDirectionIsSweepDirection | remap/PhaseRemap2.cc:417 | xThenYToDirection(!x_then_y_n) is the stencil's direction, ey when x_then_y_n and ex otherwise |
| RemapSweep.DirectionOf | remap/PhaseRemap2.cc:417 | no contract of its own: RemapSweep.BalanceDirectionIsSweepDirection states that it gives the stencil's direction (see Left out) |
| RemapSweep.Uremap2Cells | remap/PhaseRemap2.cc:416-453 | each cell's Uremap2 is Uremap1 minus its total flux |
| RemapSweep.CellReduction | remap/PhaseRemap2.cc:419-449 | only the width of one cell's total flux. What it sums: RemapSweep.CellReductionLoop, SharedFaceFluxesCancel and SweepConservesTotals |
| RemapSweep.NeighbourFlux | remap/PhaseRemap2.cc:426-438 | only the width of one neighbour face's flux. What it is: RemapSweep.SharedFaceFluxesCancel and ZeroFaceValuesSumToZero |
| RemapSweep.SweepConservesTotals | remap/PhaseRemap2.cc:416-453 | without boundary fluxes (FluxBC ≤ 0) and on a mesh whose neighbour relation is symmetric with opposite outer normals on each shared face, every component of Uremap2 summed over all cells equals the same sum of Uremap1: the sweep only moves mass, momentum and energy between cells |
| RemapSweep.ZeroFaceValuesSumToZero | remap/PhaseRemap2.cc:423-442 | faces carrying zero face values contribute nothing to reduction9 |
| RemapSweep.QuietCellIsUnchanged | remap/PhaseRemap2.cc:416-453 | without boundary fluxes, a cell whose neighbour faces all carry zero keeps Uremap1 |
| RemapSweep.BoundaryFluxesOnlyWhenSwitchedOn | remap/PhaseRemap2.cc:443-448 | with FluxBC ≤ 0 the boundary-flux helper has no effect on Uremap2 |
| RemapSweep.NeighbourSumIgnoresBoundary | remap/PhaseRemap2.cc:423-442 | the neighbour sum never calls the boundary-flux helper |
| RemapSweep.SharedFaceFluxesCancel | remap/PhaseRemap2.cc:423-442 | two cells sharing a face with opposite outer normals exchange opposite fluxes through it |
| RemapSweep.CellReductionLoop | remap/PhaseRemap2.cc:419-449 | the neighbour loop computes the cell's total flux, boundary flux included only when FluxBC > 0 |
| RemapSweep.Uremap2Loop | remap/PhaseRemap2.cc:416-453 | the cell loop computes Uremap2 of every cell |
| RemapSweep.EucclhydRemap.ComputeGradPhiFace2 | remap/PhaseRemap2.cc:21-115 | the job writes the face slopes, Lagrangian lengths and half-widths of the sweep, and nothing at order ≤ 1 |
| RemapSweep.EucclhydRemap.ComputeGradPhi2 | remap/PhaseRemap2.cc:122-280 | the job writes the limited gradients and, with plateau-pente, the face fluxes, and nothing at order ≤ 1 |
| RemapSweep.EucclhydRemap.ComputeUpwindFaceQuantitiesForProjection2 | remap/PhaseRemap2.cc:288-409 | the job writes the face value of every swept face |
| RemapSweep.EucclhydRemap.ComputeUremap2 | remap/PhaseRemap2.cc:416-453 | the job writes Uremap1 minus the total flux into every cell's Uremap2 |
| DualRemap.Partials | remap/UtilesDualRemap.cc:33-62 | one partial flux per material, averaged over the present face pairs |
| DualRemap.AbsentPairIsIgnored | remap/UtilesDualRemap.cc:33-57 | an absent face pair contributes nothing, whatever its cells hold |
| DualRemap.NoPairNoFlux | remap/UtilesDualRemap.cc:27-62 | with no present face pair every partial flux stays 0 |
| DualRemap.PenteBorneIsMeanOfPresentCells | remap/UtilesDualRemap.cc:810-853 | in the PB variants each partial is the mean of the present cells' dual fluxes, divided by nbcell only when it is non-zero |
| DualRemap.Divisor | remap/UtilesDualRemap.cc:810-834 | no contract of its own: DualRemap.PenteBorneIsMeanOfPresentCells states the mean it makes, over nbcell in the PB variants when nbcell is non-zero |
| DualRemap.ViaVolAgreesWithMassForConsistentFluxes | remap/UtilesDualRemap.cc:521-533 | when each mass flux is rLagrange times the volume flux, the ViaVol variant gives the same term as the mass variant |
| DualRemap.MaterialPartials | remap/UtilesDualRemap.cc:33-62 | one material's two partial fluxes |
| DualRemap.SideFluxes | remap/UtilesDualRemap.cc:19-67 | the material loop gives the partials of every material, and each side total is the sum of its partials |
| DualRemap.UpwindVelocity | remap/UtilesDualRemap.cc:249-303 | each of the three components is the upwind node's DualPhi, corrected by its gradient at order 2 |
| DualRemap.FaceVelocity | remap/UtilesDualRemap.cc:254-255 | no contract of its own: it is the definition that UpwindVelocity uses: the mean of the two nodes' DualPhi velocity components along the face's axis |
| DualRemap.SignOf | remap/UtilesDualRemap.cc:257-260 | no contract of its own: it is the definition that UpwindVelocity uses: +1 for a positive face velocity, -1 otherwise, zero included |
| DualRemap.NeighbourIsUpwind | remap/UtilesDualRemap.cc:262 | no contract of its own: it is the definition that UpwindVelocity and the four Remap.Get*UpwindVelocity methods use: a positive mass flux at the bottom and left, a negative one at the top and right |
| DualRemap.Corrected | remap/UtilesDualRemap.cc:263-281 | no contract of its own: it is the definition that UpwindVelocity uses; DualRemap.FirstOrderUpwindIsNodeValue states that at order 1 it is the node value itself |
| DualRemap.FirstOrderUpwindIsNodeValue | remap/UtilesDualRemap.cc:252-269 | at order 1 the upwind velocity is exactly the chosen node's DualPhi |
| DualRemap.UpwindIgnoresDownwindGradient | remap/UtilesDualRemap.cc:262-269 | the upwind velocity does not depend on the downwind node's gradient |
| DualRemap.Remap.RightAndLeftFlux | remap/UtilesDualRemap.cc:19-67 | the node's right and left partials and totals are written, with the x normal; every other node is unchanged |
| DualRemap.Remap.TopAndBottomFlux | remap/UtilesDualRemap.cc:136-192 | the node's top and bottom partials and totals are written, with the y normal; every other node is unchanged |
| DualRemap.Remap.GetBottomUpwindVelocity | remap/UtilesDualRemap.cc:249-303 | the bottom neighbour is upwind iff the bottom flux is > 0, and the node's bottom upwind velocity is written |
| DualRemap.Remap.GetTopUpwindVelocity | remap/UtilesDualRemap.cc:312-373 | the top neighbour is upwind iff the top flux is < 0, and the node's top upwind velocity is written |
| DualRemap.Remap.GetRightUpwindVelocity | remap/UtilesDualRemap.cc:375-438 | the right neighbour is upwind iff the right flux is < 0, and the node's right upwind velocity is written |
| DualRemap.Remap.GetLeftUpwindVelocity | remap/UtilesDualRemap.cc:440-504 | the left neighbour is upwind iff the left flux is > 0, and the node's left upwind velocity is written |
| EnergySolve.FvnrDerivIsSlope | vnr_remap/PhaseLagrange.cc:590-599 | fvnrderiv is the exact slope of fvnr along e when p moves with dpde |
| EnergySolve.Fvnr | vnr_remap/PhaseLagrange.cc:590-593 | no contract of its own: it is the residual of updateEnergyite; EnergySolve.DensityFormIsFvnr states the affine form of it that Newton solves, and Lagrange.DensityNewtonStops that a converged result makes it small |
| EnergySolve.FvnrDeriv | vnr_remap/PhaseLagrange.cc:598-599 | no contract of its own: it is the definition that EnergySolve.FvnrDerivIsSlope states is the exact slope of Fvnr |
| EnergySolve.FDerivIsSlope | vnr_remap/PhaseLagrange.cc:746-754 | fderiv is the exact slope of f along e when p moves with dpde |
| EnergySolve.F | vnr_remap/PhaseLagrange.cc:746-749 | no contract of its own: it is the residual of updateEnergycstsite; EnergySolve.CornerFormIsF states the affine form of it that Newton solves, and Lagrange.CornerNewtonStops that a converged result makes it small |
| EnergySolve.FDeriv | vnr_remap/PhaseLagrange.cc:753-754 | no contract of its own: it is the definition that EnergySolve.FDerivIsSlope states is the exact slope of F |
| EnergySolve.PseudoTerm | vnr_remap/PhaseLagrange.cc:537-557 | the mean of q(n+1) and q(n) when centred and the work is negative, q(n+1) when not centred and the work is negative, and 0 in every other case |
| EnergySolve.PseudoWorkIsNonPositive | vnr_remap/PhaseLagrange.cc:537-557 | the work of the selected pseudo term is never positive |
| EnergySolve.DensityFormIsFvnr | vnr_remap/PhaseLagrange.cc:590-599 | the affine residual of updateEnergyite has fvnr's value and fvnrderiv's slope |
| EnergySolve.CornerFormIsF | vnr_remap/PhaseLagrange.cc:746-754 | the affine residual of updateEnergycstsite has f's value and fderiv's slope |
| EnergySolve.AffineRootIsZero | vnr_remap/PhaseLagrange.cc:590-593 | the root of an affine residual zeroes it |
| EnergySolve.AffineNewtonStep | vnr_remap/PhaseLagrange.cc:656 | one Newton step on an affine residual lands on its root |
| EnergySolve.ClosedFormIsPerfectGasRoot | vnr_remap/PhaseLagrange.cc:558-566 | the num/den of updateEnergy is the root of the fvnr residual for a perfect gas, and den ≠ 0 |
| EnergySolve.ClosedFormSolvesEnergyEquation | vnr_remap/PhaseLagrange.cc:558-566 | the closed-form energy zeroes fvnr with the perfect-gas pressure and dpde |
| EnergySolve.ClosedFormEnergy | vnr_remap/PhaseLagrange.cc:558-566 | no contract of its own: it is num/den of updateEnergy; EnergySolve.ClosedFormIsPerfectGasRoot and ClosedFormSolvesEnergyEquation state that it zeroes fvnr for a perfect gas |
| EnergySolve.NewtonFrom | vnr_remap/PhaseLagrange.cc:645-659 | Newton stops within 50 iterations; it reports convergence only with the residual below epsilon, and the iteration cap iff it ran 50 iterations |
| EnergySolve.Newton | vnr_remap/PhaseLagrange.cc:645-659 | no contract of its own: it is EnergySolve.NewtonFrom started at e(n), iteration 0 and the uninitialised p, c and dpde, so NewtonFrom's contract is its; EnergySolve.NewtonSolve is proved to compute it |
| EnergySolve.NewtonSolve | vnr_remap/PhaseLagrange.cc:643-659 | the while loop computes Newton from the uninitialised start |
| EnergySolve.PerfectGasStepLands | vnr_remap/PhaseLagrange.cc:651-656 | for a perfect gas one step lands on the root, with a non-zero slope |
| EnergySolve.PerfectGasStep | vnr_remap/PhaseLagrange.cc:645-659 | for a perfect gas the loop ends at the root, converged or capped |
| EnergySolve.PerfectGasNewtonMatchesClosedForm | vnr_remap/PhaseLagrange.cc:529-573 | for a perfect gas the Newton energy of updateEnergyite equals the closed form of updateEnergy |
| EnergySolve.SmallFirstResidualSkipsTheLoop | vnr_remap/PhaseLagrange.cc:648-650 | when the first residual, computed from the uninitialised p and dpde, is below epsilon, no EOS is called and e, p, c and dpde stay at their start values |
| Lagrange.SumLoop | vnr_remap/PhaseLagrange.cc:458-467 | the sumR0 accumulation computes the sum |
| Lagrange.Split | vnr_remap/PhaseLagrange.cc:24-26 | each material's share is its fraction times the total |
| Lagrange.SplitAddsUp | vnr_remap/PhaseLagrange.cc:24-26 | the shares add up to the fraction sum times the total, that is to the total when the fractions sum to 1 |
| Lagrange.SplitLoop | vnr_remap/PhaseLagrange.cc:24-26 | the material loop computes Split |
| Lagrange.CellMassLoop | vnr_remap/PhaseLagrange.cc:18-28 | cell mass = euler volume × density, and each material mass = mass fraction × cell mass |
| Lagrange.NodeMassIsBetweenCellMasses | vnr_remap/PhaseLagrange.cc:42-53 | a node mass lies between the smallest and largest mass of its cells |
| Lagrange.NodeMassOfEqualCells | vnr_remap/PhaseLagrange.cc:42-53 | a node whose cells all have mass m has mass m |
| Lagrange.NodeMass | vnr_remap/PhaseLagrange.cc:42-53 | no contract of its own: it is the mean of the node's cell masses; Lagrange.NodeMassIsBetweenCellMasses and NodeMassOfEqualCells state its bounds |
| Lagrange.NodeMassLoop | vnr_remap/PhaseLagrange.cc:38-55 | every node mass is the mean of its cells' masses |
| Lagrange.Viscosity | vnr_remap/PhaseLagrange.cc:76-96 | q = 0 when divu ≥ 0, and q ≥ 0 under compression for non-negative inputs |
| Lagrange.ViscosityTermsAreNonNegative | vnr_remap/PhaseLagrange.cc:76-96 | both terms of q are non-negative under compression |
| Lagrange.ViscosityLoop | vnr_remap/PhaseLagrange.cc:66-123 | every cell's q and per-material fracvol × q, and the run continues iff no q is negative |
| Lagrange.UpdatedDensity | vnr_remap/PhaseLagrange.cc:469-477 | above the threshold, density × fracvol × volume is the material mass; at or below it the density is unchanged |
| Lagrange.UpdatedDensities | vnr_remap/PhaseLagrange.cc:469-477 | each material's density is its own Lagrange.UpdatedDensity; what that conserves: Lagrange.MeanDensityConservesMass and DensitiesCarryTheirMass |
| Lagrange.MeanDensityConservesMass | vnr_remap/PhaseLagrange.cc:469-477 | when every material is above the threshold, Σ fracvol × density times the volume is the cell's total mass |
| Lagrange.DensitiesCarryTheirMass | vnr_remap/PhaseLagrange.cc:469-477 | when every material is above the threshold, each material's density carries its own mass |
| Lagrange.DensityTurn | vnr_remap/PhaseLagrange.cc:469-477 | one material's density update |
| Lagrange.DensityLoop | vnr_remap/PhaseLagrange.cc:468-484 | the material densities are updated, the mean density is Σ fracvol × density, and the abort flag is set iff some material density is negative |
| Lagrange.MeanSpecificVolume | vnr_remap/PhaseLagrange.cc:501-504 | the mean of 1/a and 1/b lies between them and is positive |
| Lagrange.MaterialTau | vnr_remap/PhaseLagrange.cc:505-510 | tau_density of a material is non-zero iff both densities exceed the threshold, and never negative |
| Lagrange.MaterialTauVolume | vnr_remap/PhaseLagrange.cc:511-513 | above the threshold, the material's tau_volume × fracvol is the cell's; otherwise the previous value is kept |
| Lagrange.TauLoop | vnr_remap/PhaseLagrange.cc:505-513 | the material loop writes both per-material specific-volume variations |
| Lagrange.ClosedFormMaterialEnergy | vnr_remap/PhaseLagrange.cc:529-573 | inactive materials get 0; an active one gets the energy that zeroes fvnr for a perfect gas |
| Lagrange.ClosedFormLoop | vnr_remap/PhaseLagrange.cc:529-573 | the material loop of updateEnergy, with the cell energy Σ mass fraction × energy |
| Lagrange.DensityResidual | vnr_remap/PhaseLagrange.cc:612-640 | a material has an equation iff both densities exceed the threshold, starting at e(n) with density ρ(n+1) |
| Lagrange.DensityNewtonStops | vnr_remap/PhaseLagrange.cc:645-659 | the loop of updateEnergyite stops within 50 iterations, and a converged result has abs(fvnr) below the threshold |
| Lagrange.DensityNewtonAgreesWithClosedForm | vnr_remap/PhaseLagrange.cc:603-669 | for a perfect gas, updateEnergyite writes the closed form of updateEnergy |
| Lagrange.Written | vnr_remap/PhaseLagrange.cc:660-665 | what is written for a material: (0, old c, old p) with no equation, else Newton's e, c and p |
| Lagrange.SolveOne | vnr_remap/PhaseLagrange.cc:640-660 | one material's Newton solve, if it has an equation |
| Lagrange.Solve | vnr_remap/PhaseLagrange.cc:640-660 | no contract of its own: it is the definition that Lagrange.SolveOne is proved to compute; Lagrange.DensityNewtonStops and CornerNewtonStops state its iteration cap and exit test |
| Lagrange.NewtonCellLoop | vnr_remap/PhaseLagrange.cc:603-669 | every material's e, c and p are Newton's result, the cell energy is Σ mass fraction × e, and undefined is set iff some material's EOS had no result or its Newton slope was zero |
| Lagrange.Outcomes | vnr_remap/PhaseLagrange.cc:608-665 | the Newton outcome of every material of a cell |
| Lagrange.CornerTerms | vnr_remap/PhaseLagrange.cc:768-780 | the corner work dot(cqs, v)·dt of every node of the cell |
| Lagrange.CornerWorkLoop | vnr_remap/PhaseLagrange.cc:768-780 | the node loop computes the cell's corner work |
| Lagrange.CornerWorkScalesWithTimeStep | vnr_remap/PhaseLagrange.cc:768-780 | the corner work is dt times the work for a unit step |
| Lagrange.CornerResidual | vnr_remap/PhaseLagrange.cc:782-806 | a material has an equation iff its density at n+1 exceeds the threshold, starting at e(n) |
| Lagrange.CornerNewtonStops | vnr_remap/PhaseLagrange.cc:792-806 | the loop of updateEnergycstsite stops within 50 iterations, and a converged result has abs(f) below the threshold |
| Lagrange.CornerNewtonSolvesForPerfectGas | vnr_remap/PhaseLagrange.cc:758-816 | for a perfect gas, updateEnergycstsite writes an energy that zeroes f |
| Lagrange.CornerNewtonEndsAtRoot | vnr_remap/PhaseLagrange.cc:792-806 | for a perfect gas the Newton loop on f ends at the root of the affine residual |
| Lagrange.CornerRootSolvesF | vnr_remap/PhaseLagrange.cc:746-749 | the perfect-gas root of f's residual zeroes f |
| Lagrange.MaxFold | vnr_remap/PhaseLagrange.cc:937-940 | the running max is at least the start and every element, and is one of them |
| Lagrange.CellSpeed | vnr_remap/PhaseLagrange.cc:937-946 | above the energy threshold the sound speed is the perfect-gas one of material 0; otherwise it is the max of the old speed and the material speeds |
| Lagrange.VoidTerms | vnr_remap/PhaseLagrange.cc:951-955 | only Void materials contribute mass fraction × energy |
| Lagrange.NoVoidNoEnergyChange | vnr_remap/PhaseLagrange.cc:951-955 | without Void materials the cell energy is unchanged |
| Lagrange.MeanPressureIsBetweenMaterialPressures | vnr_remap/PhaseLagrange.cc:933-936 | with fractions summing to 1 the mean pressure lies between the material pressures' bounds |
| Lagrange.MeanPressureLoop | vnr_remap/PhaseLagrange.cc:933-940 | the material loop computes Σ fracvol × pressure and the max material speed |
| Lagrange.VoidEnergyLoop | vnr_remap/PhaseLagrange.cc:951-955 | the material loop adds the Void materials' energy |
| Lagrange.PressureCell | vnr_remap/PhaseLagrange.cc:931-957 | one cell of computePressionMoyenne: mean pressure, sound speed and energy |
| Lagrange.CorrectionTerms | vnr_remap/PhaseLagrange.cc:838-853 | one material's kinetic-energy and pseudo corrections at every corner of the cell |
| Lagrange.CornerCorrection | vnr_remap/PhaseLagrange.cc:842-852 | no contract of its own: one corner's kinetic-energy and pseudo corrections for one material; Lagrange.CorrectionTerms collects them and Lagrange.NoMotionNoCorrection states that they vanish without motion |
| Lagrange.NoMotionNoCorrection | vnr_remap/PhaseLagrange.cc:838-853 | with velocity and pseudo-viscosity unchanged in time a material's correction is 0 |
| Lagrange.CarriedCorrections | vnr_remap/PhaseLagrange.cc:832-855 | as written: an active material receives the running total of its own and all earlier active materials' corrections |
| Lagrange.CarriedIsRunningSum | vnr_remap/PhaseLagrange.cc:832-855 | as written, an active material i receives exactly the sum of the own corrections of materials 0..i |
| Lagrange.CarriedIsOwnWithOneActiveMaterial | vnr_remap/PhaseLagrange.cc:832-855 | with at most one active material the carried correction is each material's own, so the source is right on pure cells |
| Lagrange.ActiveWeighted | vnr_remap/PhaseLagrange.cc:856-858 | only active materials contribute mass fraction × energy to the cell energy |
| Lagrange.CorrectionLoop | vnr_remap/PhaseLagrange.cc:829-862 | as written, with the carried-over correction: each material's new energy and the cell energy over the active materials |
| Lagrange.OwnCorrections | vnr_remap/PhaseLagrange.cc:838-855 | as intended: each active material receives only its own correction |
| Lagrange.CorrectionLeaksIntoNextMaterial | vnr_remap/PhaseLagrange.cc:832-855 | with two active materials of corrections a ≠ 0 and b, the second receives a + b instead of b |
| Lagrange.OwnCorrectionLoop | vnr_remap/PhaseLagrange.cc:829-862 | the corrected material loop gives each active material its own correction, and the cell energy over the active materials |
| Lagrange.OwnCorrectionsAddUp | vnr_remap/PhaseLagrange.cc:855-858 | with own corrections, the cell energy changes by exactly the weighted sum of the materials' own corrections |
| VnrLagrange.RhoCells | vnr_remap/PhaseLagrange.cc:453-487 | every cell's volume is its sub-volume sum, its densities are updated and averaged, and the abort flag is set iff some density is negative |
| VnrLagrange.TauCells | vnr_remap/PhaseLagrange.cc:498-516 | every cell's mean specific-volume variations and both per-material ones |
| VnrLagrange.ClosedFormCells | vnr_remap/PhaseLagrange.cc:529-573 | the closed-form energy of every material of every cell, and each cell's energy |
| VnrLagrange.NewtonCells | vnr_remap/PhaseLagrange.cc:603-669 | the Newton results of every cell, with undefined set iff some material's EOS had no result or its Newton slope was zero |
| VnrLagrange.NewtonRow | vnr_remap/PhaseLagrange.cc:640-665 | one cell's material loop writes every material's Newton outcome and the cell energy, and reports undefined iff some material's EOS had no result or its Newton slope was zero |
| VnrLagrange.CornerSystem | vnr_remap/PhaseLagrange.cc:768-792 | every material of every cell gets the f equation built from its own inputs and its cell's corner work at n+1 and n |
| VnrLagrange.CornerWorkCells | vnr_remap/PhaseLagrange.cc:768-780 | the corner work of every cell |
| VnrLagrange.CornerEnergyCells | vnr_remap/PhaseLagrange.cc:758-816 | the corner work of every cell, then the Newton results on f |
| VnrLagrange.PressureCells | vnr_remap/PhaseLagrange.cc:931-957 | every cell's mean pressure, sound speed and Void-corrected energy |
| VnrLagrange.Activity | vnr_remap/PhaseLagrange.cc:837 | a material takes part in the correction iff its density at n+1 exceeds the threshold |
| VnrLagrange.CellCorrections | vnr_remap/PhaseLagrange.cc:836-853 | each active material's own correction is the sum of its corner terms; an inactive one gets 0 |
| VnrLagrange.CorrectionCells | vnr_remap/PhaseLagrange.cc:829-862 | as written: every active material's energy gets the correction carried over from the earlier active materials plus its own (Lagrange.CarriedCorrections), and the cell energy is the active materials' weighted sum |
| VnrLagrange.Vnr.ComputeCellMass | vnr_remap/PhaseLagrange.cc:18-28 | cell mass = euler volume × density, and each material mass = mass fraction × cell mass |
| VnrLagrange.Vnr.ComputeNodeMass | vnr_remap/PhaseLagrange.cc:38-55 | every node mass is the mean of its cells' masses |
| VnrLagrange.Vnr.ComputeArtificialViscosity | vnr_remap/PhaseLagrange.cc:66-123 | every cell's q and fracvol × q, and the run aborts iff some q is negative |
| VnrLagrange.Vnr.UpdateRho | vnr_remap/PhaseLagrange.cc:453-487 | volume, material and mean densities of every cell, and the run aborts iff some material density is negative |
| VnrLagrange.Vnr.ComputeTau | vnr_remap/PhaseLagrange.cc:498-516 | the mean and per-material specific-volume variations of every cell |
| VnrLagrange.Vnr.UpdateEnergy | vnr_remap/PhaseLagrange.cc:529-573 | every material energy is the closed form (0 when inactive), and each cell's energy is Σ mass fraction × energy |
| VnrLagrange.Vnr.DensityEquations | vnr_remap/PhaseLagrange.cc:612-640 | the fvnr equation of every active material of every cell |
| VnrLagrange.Vnr.UpdateEnergyIte | vnr_remap/PhaseLagrange.cc:603-669 | every material's e, c and p are the Newton results on fvnr, and undefined becomes set iff some material's EOS had no result or its Newton slope was zero |
| VnrLagrange.Vnr.UpdateEnergyCstsIte | vnr_remap/PhaseLagrange.cc:758-816 | every material's e, c and p are the Newton results on f with the corner work, and undefined becomes set iff some material's EOS had no result or its Newton slope was zero |
| VnrLagrange.Vnr.UpdateEnergyForTotalEnergyConservation | vnr_remap/PhaseLagrange.cc:829-862 | as written: each active material receives the running total of its own and the earlier active materials' corner corrections (see Findings), the others keep their energy, and each cell's energy is the active materials' weighted sum |
| VnrLagrange.Vnr.ComputePressionMoyenne | vnr_remap/PhaseLagrange.cc:931-957 | every cell's mean pressure, sound speed and Void-corrected energy |
| InitVariables.FirstMatch | initialisations/InitVariables.cc:34-129 | the first branch from i that accepts the scenario; none iff no branch accepts it |
| InitVariables.Dispatch | initialisations/InitVariables.cc:34-129 | no contract of its own: it is the first match of the branch chain; InitVariables.AbortsIffUnknown states that it finds no initialiser iff the test case is not one the chain names |
| InitVariables.AbortsIffUnknown | initialisations/InitVariables.cc:34-129 | the dispatch finds no initialiser iff the test case is not one the chain names |
| InitVariables.ShadowedNeverFires | initialisations/InitVariables.cc:34-129 | a branch that accepts only what an earlier one accepts never fires |
| InitVariables.FiresWhenFirst | initialisations/InitVariables.cc:34-129 | the first accepting branch is the one that fires |
| InitVariables.SecondRiderT45Unreachable | initialisations/InitVariables.cc:105-109 | the second RiderT45 branch never fires |
| InitVariables.MonoRiderDeformationTimeReverseCallsRider | initialisations/InitVariables.cc:96-97 | MonoRiderDeformationTimeReverse calls initVarRider, not initVarRiderMono |
| InitVariables.LastAbove | initialisations/InitVariables.cc:146-150 | imatpure is the last material above the threshold, or -1 if there is none |
| InitVariables.CountAbove | initialisations/InitVariables.cc:144-150 | matcell is at most the number of materials, and is 0 iff no material is above the threshold |
| InitVariables.Classify | initialisations/InitVariables.cc:152-158 | no contract of its own: InitVariables.MixedIffTwoAbove and PureIsTheOnlyAbove state what its mixte and pure mean |
| InitVariables.MixedIffTwoAbove | initialisations/InitVariables.cc:142-159 | a cell is mixed iff two materials are above the threshold, and then pure = -1 |
| InitVariables.PureIsTheOnlyAbove | initialisations/InitVariables.cc:152-158 | in a cell that is not mixed, a material is above the threshold iff it is the pure index |
| InitVariables.ZeroSlotsIgnored | initialisations/InitVariables.cc:142-159 | zeroed slots past the materials in use do not change the classification |
| InitVariables.SingleMaterialIsPure | initialisations/InitVariables.cc:130-159 | a (1, 0, 0) row with a threshold below 1 gives a pure cell of material 0 |
| InitVariables.CountAboveLoop | initialisations/InitVariables.cc:144-150 | the loop computes matcell and imatpure |
| InitVariables.SingleMaterialRow | initialisations/InitVariables.cc:133-139 | the first three slots become (1, 0, 0) and the others are kept |
| InitVariables.CellVariables.ZeroSlots | initialisations/InitVariables.cc:24-33 | every slot of fractions, mass fractions, densities, pressures and energies is 0 |
| InitVariables.CellVariables.FillSingleMaterial | initialisations/InitVariables.cc:130-141 | every cell's fraction and mass fraction rows start with (1, 0, 0) |
| InitVariables.CellVariables.ClassifyCells | initialisations/InitVariables.cc:142-159 | every cell's mixte and pure are its classification |
| InitVariables.CellVariables.InitVar | initialisations/InitVariables.cc:23-160 | aborts iff the test case is unknown, after zeroing; otherwise the initialiser's fields, the (1, 0, 0) fill when nbmat = 1, and every cell classified |
| InitVariables.ZeroRow | initialisations/InitVariables.cc:26-32 | the slot loop produces a zero row |
| TimeLoop.CflOf | vnr_remap/VnrRemap.cc:21-27 | CFL 0.05 with the node-speed weight 1 when projection is on, CFL 0.1 with weight 0 otherwise |
| TimeLoop.MinFrom | vnr_remap/VnrRemap.cc:51-55 | the min-reduction is at most the start and every element, and is one of them |
| TimeLoop.NextDeltaT | vnr_remap/VnrRemap.cc:57 | the new step is at most the reduction and at most 1.05 deltat_n, and is one of the two |
| TimeLoop.NextDeltaTIsCapped | vnr_remap/VnrRemap.cc:57 | the new step is at most 1.05 deltat_n and at most every cell's CFL bound, and is one of those or MaxDouble |
| TimeLoop.CellSums | vnr_remap/VnrRemap.cc:37-48 | the node loop sums the sub-volumes and the node speed terms |
| TimeLoop.ComputeDeltaT | vnr_remap/VnrRemap.cc:19-58 | deltat_nplus1 is min(min over cells of the CFL bound, 1.05 deltat_n), for any sound speeds and node speeds |
| TimeLoop.CellBoundTurn | vnr_remap/VnrRemap.cc:31-53 | one cell's CFL bound is TimeLoop.CellBound for every sound speed, a zero one included |
| TimeLoop.CellBound | vnr_remap/VnrRemap.cc:31-53 | the cell bound times the divisor w·uc + c_s is cfl·sqrt(V), with (cfl, w) = (0.05, 1) under projection and (0.1, 0) without; a zero divisor gives MaxDouble, which never lowers the min-reduction (the infinite floating-point quotient); no sign of the sound speed is required |
| TimeLoop.CflDivisor | vnr_remap/VnrRemap.cc:50-53 | no contract of its own: the divisor Aveccfleuler·uc + c_s of the cell bound |
| TimeLoop.PositiveSoundSpeedGivesPositiveDivisor | vnr_remap/VnrRemap.cc:44-53 | with a non-negative square root and a positive sound speed the divisor is positive |
| TimeLoop.ZeroSoundSpeedBoundUnderProjection | vnr_remap/VnrRemap.cc:24-53 | under projection a cell with zero sound speed and moving nodes has the finite bound 0.05·sqrt(V)/uc |
| TimeLoop.UnboundedCellDoesNotBind | vnr_remap/VnrRemap.cc:51-55 | a cell whose bound is MaxDouble leaves the min-reduction unchanged |
| TimeLoop.ComputeDeltaTinit | vnr_remap/VnrRemap.cc:78-99 | deltat_init is 1e-6 times the min over cells of the initial bound 0.1 sqrt(V)/c, for any sound speeds |
| TimeLoop.InitBoundTurn | vnr_remap/VnrRemap.cc:84-95 | one cell's initial bound is TimeLoop.InitBound for every sound speed, a zero one included |
| TimeLoop.InitBound | vnr_remap/VnrRemap.cc:84-95 | the initial cell bound times c_s is 0.1·sqrt(V); a zero sound speed gives MaxDouble (the infinite floating-point quotient) |
| TimeLoop.DeltaTinitIsSmall | vnr_remap/VnrRemap.cc:94-98 | deltat_init is at most 1e-6 times every cell's bound |
| TimeLoop.Vnr.SetUpTimeLoopN | vnr_remap/VnrRemap.cc:178-203 | the state is copied from the initial one and deltat_n starts as deltat_init |
| TimeLoop.Vnr.ChooseDeltaT | vnr_remap/VnrRemap.cc:226-237 | with the Lagrange phase the capped CFL step, without it deltat_nplus1 = deltat_n |
| TimeLoop.Vnr.ComputeTime | vnr_remap/VnrRemap.cc:68 | t_nplus1 = t_n + deltat_nplus1 |
| TimeLoop.Vnr.SwapSlots | vnr_remap/VnrRemap.cc:332-358 | time, step, x_then_y and state swap their n and n+1 slots; geometry swaps only without projection |
| TimeLoop.StartOfStep | vnr_remap/VnrRemap.cc:229-230 | when updateVelocitybackward runs, the n slot's node velocity becomes the backward velocity computed from the n slot, the geometry and deltat_n (vnr_remap/PhaseLagrange.cc:267-294 computes it); nothing else in the slot changes, and in every other case the slot is unchanged |
| TimeLoop.Vnr.Iterate | vnr_remap/VnrRemap.cc:214-358 | one pass counts n up by 1; with the Lagrange phase, the CSTS scheme and projection it first replaces the n-slot node velocity by the half-step-back velocity (StartOfStep); with the Lagrange phase the step is exactly the capped CFL step of the reduction over that start state (so at most 1.05 deltat_n), without it deltat_n; it continues iff n+1 < max and t_n + step < final time; the start state is advanced by that step, and on continuing the n and n+1 slots of state, x_then_y, time and step are swapped (geometry only without projection), so the n+1 slot holds the start state; on stopping the n slot holds the start state and the advanced state stays in the n+1 slots |
| TimeLoop.Vnr.ExecuteTimeLoopN | vnr_remap/VnrRemap.cc:211-358 | the loop ends with the continuation test false, the step never grows faster than 1.05 per iteration from deltat_init, and with projection the geometry is never swapped |

## Left out

- Kokkos `parallel_for` and `parallel_reduce` are sequential loops here; the
  reducers are left-to-right sums and minima.
- Output: `dumpVariables`, the VTK and energy files, console progress, timers,
  the `simulate` banner and the messages printed before an abort.
- Floating point: rounding, overflow, NaN (the self-comparison check of
  `computePressionMoyenne`) and division by zero. Operations whose source
  divides by a mesh or state quantity require it to be non-zero (spacings,
  volumes, densities, sound speeds, material masses of active materials).
  The time-step bounds are an exception: there a zero divisor makes the
  quotient infinite, which the model writes as MaxDouble; a zero divisor
  with a zero volume (a NaN quotient in floating point) is treated the
  same way.
  The Newton slope is not required to be non-zero either, see
  EnergySolve.NewtonFrom below.
- `sqrt` is a parameter; nothing about it is assumed beyond what a lemma
  states in its requires.
- Helpers whose bodies are not part of this model are parameters:
  `fluxLimiter`, `fluxLimiterPP`, `divideNoExcept`, `INT2Y`, `computeY0`,
  `computexgxd`, `computeygyd`, `ComputeFluxOrdre3`, `computeBoundaryFluxes`,
  `getTopCells`/`getBottomCells` and the other mesh queries. The
  `FacesLeftAndRight.h` and `FacesTopAndBottom.h` fragments are the node
  stencil datatype (two face pairs and a face count).
- The scenario initialisers (`initVarSOD`, `initVarRider`, ...) are one
  parameter of `InitVar`; only their dispatch is modelled.
- The geometry jobs `computeCornerNormal`, `updateCornerNormal`,
  `computeNodeVolume`, `computeSubVol`, `updatePosition`, `updateCellPos`,
  `computeDivU`, `updateVelocity*`, `computeEOS` over the cells, and the
  global-variable jobs are not modelled; their outputs are fields or
  parameters.
- `updateEnergycsts`, the non-iterative corner variant that the time loop no
  longer calls, is not modelled.
- The first remap direction (`PhaseRemap1.cc`), `remapVariables` and the
  dual remap jobs that call the dual-mesh utilities are not part of this
  model.
- TimeLoop.Vnr.ExecuteTimeLoopN: one iteration's physics (Lagrange phase and
  remap) is the parameter `advance`, the CFL reduction over the cells is
  the parameter `reduction`, and the velocity written by
  `updateVelocitybackward` (with `computeCornerNormal` and
  `computeNodeVolume` before it) is the parameter `backward`. Its contract therefore speaks of the time-step
  state machine, not of the state arrays.
- TimeLoop.ComputeDeltaT: the minimum starts from
  `numeric_limits<double>::max()`, written as the real MaxDouble.
- RemapSweep.DirectionOf: `xThenYToDirection` is not part of this model; it
  is taken as ex for true and ey for false, which agrees with the stencils
  of `computeGradPhi2`.
- Eos.ComputeEos: falling off the end of `computeEOSSL` and `computeEOS` is
  undefined behaviour in the source; the model returns an error instead of
  an arbitrary triple.
- EnergySolve.NewtonSolve: the first exit test reads `p` and `dpde` before
  they are assigned; the model takes what they hold as a parameter
  (`Uninitialised`), so every statement about Newton holds for any value.
  Nothing is claimed about convergence, only the iteration cap and the exit
  test.
- EnergySolve.NewtonFrom: on a zero slope (fvnrderiv or fderiv equal to 0)
  the model stops with status ZeroDerivative and keeps the last e, p, c and
  dpde, and the jobs set `undefined`. The source divides by that slope
  (vnr_remap/PhaseLagrange.cc:656 and 803) and goes on with an infinite or
  NaN energy, which this real-number model cannot represent.
- RemapSweep.SweepConservesTotals: conservation is stated for meshes whose
  neighbour relation is symmetric, with the two cells of a shared face
  seeing it through opposite outer normals (the predicate
  PairedNeighbours). The mesh construction that provides this is not part of
  this model.
- Lagrange.Viscosity: non-negativity is stated under the hypotheses that make
  both of its terms non-negative (compression, positive specific volume,
  non-negative speed and sub-volume sum, γ ≥ -1), not for all inputs.

## Findings

| source | as written | input that shows it | evidently intended | confidence | as-written member | corrected member |
|---|---|---|---|---|---|---|
| vnr_remap/PhaseLagrange.cc:832-855 | `correction` is declared once per cell, before the material loop, and never reset, so each active material's energy receives the sum of its own corner corrections and those of every earlier active material | a cell with two active materials whose own corrections are a ≠ 0 and b: the second material's energy changes by a + b | each material receives its own correction b, as the per-material terms (its fracvol, pressure, pseudo-viscosity and mass) indicate | medium, not executed | Lagrange.CorrectionLeaksIntoNextMaterial | Lagrange.OwnCorrectionsAddUp |

`Lagrange.CorrectionLoop` is the loop as written, and
`Lagrange.CarriedIsRunningSum` states what it gives each active material.
The job `VnrLagrange.Vnr.UpdateEnergyForTotalEnergyConservation` keeps that
loop, so the job behaves as the source does.
`Lagrange.OwnCorrectionLoop` restarts the correction for each material, and
`Lagrange.OwnCorrectionsAddUp` proves the intended property of that loop.
`Lagrange.CarriedIsOwnWithOneActiveMaterial` shows that the two loops agree
on cells with at most one active material.
