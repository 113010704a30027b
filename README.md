# Tank design calculators: a Dafny model

This project models the three calculators behind a tank design dashboard:

- **Optimizer.** `Optimization` models it. Given a shape, a target volume and the unit
  costs of the caps and of the lateral wall, it finds the tank that costs least. The shape
  is either a cylinder (label `"Cilindro (Padrão)"`) or a regular n-gonal prism (any other
  label). The answer is the closed-form Lagrange optimum: the optimal radius or side, the
  height, the minimum cost, the area constant `k_area` and the name of the dimension. The
  optimizer also samples 100 cost points from half to one and a half times the optimal
  dimension.
- **Mass integrator.** `Physics` models it. It takes the optimizer's tank and fills it
  with a fluid whose density falls linearly from `rhoBase` at the floor to `rhoTop` at the
  lid. From the exact integrals it computes the total mass and the height of the centre of
  mass, and it samples the density profile.
- **Newton-cooling simulator.** `Thermal` models it. It samples the analytic solution
  T(t) = T_amb + (T_0 − T_amb)·e^(−k t) at 100 times from 0 to the time span. It reports
  the first sampled time at which the temperature reaches the critical threshold, or
  nothing if no sample does.

All three are pure computations, so they are modelled as datatypes, functions and
lemmas. `Grid` models numpy's `linspace`. `Algebra` holds the real-arithmetic lemmas the
proofs use.

`Numerics` handles pi, the cube root `x ** (1/3)`, `tan` and `exp`. These are not
defined in the model. A `Transcendentals` value carries them, and its `Sound()` predicate
states the only facts the proofs use:

- pi > 0
- the cube root of a positive number is positive and cubes back to it
- tan(pi/n) > 0 for n ≥ 3
- exp(0) = 1, exp is positive, and exp is strictly increasing

So every result holds for the true functions.

What is proved, in short:

- **Optimum.** The height holds the volume exactly. All four numbers are positive. The
  dimension meets the Lagrange condition d³ = p·V·cLat / (4 k² cBase), where p is the
  perimeter factor (2π for the cylinder, n for the prism).
- **Shape relations.** The cylinder satisfies h = 2r·cBase/cLat. The prism satisfies
  h = 4 k cBase L / (n cLat), and the square prism is the classic box.
- **Minimum cost.** The minimum cost equals the plotted cost at the optimal dimension.
  That dimension is the unique global minimum of the plotted cost over all positive
  dimensions, so no plotted point lies below it.
- **Mass.** The mass is the trapezoid form V·(rhoBase + rhoTop)/2. The centre of mass,
  when it exists, is the trapezoid's centroid. With positive densities it lies strictly
  between a third and two thirds of the height. It sits at mid-height exactly for a
  uniform fluid.
- **Density profile.** It interpolates linearly from rhoBase to rhoTop.
- **Cooling curve.** It starts at T_0, stays between T_0 and T_amb, and moves
  monotonically towards T_amb.
- **Failure time.** It is absent exactly when no sample reaches the threshold. Otherwise
  it is the time of the first sample that does.

## Model

| member | source | states |
|---|---|---|
| Grid.Linspace | src/controllers/optimization_logic.py:36 | `num` samples, the first is `start`, the last is `stop`, and sample i is start + i·(stop − start)/(num − 1) |
| Grid.LinspaceOrdered | src/controllers/thermal_logic.py:7 | an ascending range gives a non-decreasing grid inside [start, stop], strictly increasing when start < stop |
| Optimization.ShapeOf | src/controllers/optimization_logic.py:8-13 | the cylinder is chosen exactly when the label is "Cilindro (Padrão)"; every other label is the prism with the given side count |
| Optimization.ShapeConstant | src/controllers/optimization_logic.py:9-15 | k_area (π, or n / (4 tan(π/n))) is positive |
| Optimization.PerimeterFactor | src/controllers/optimization_logic.py:25-28 | the lateral area per unit of dimension times height (2π or n) is positive |
| Optimization.LagrangeRadicand | src/controllers/optimization_logic.py:12-19 | the right-hand side p·V·cLat / (4 k² cBase) of the Lagrange condition is positive |
| Optimization.CylinderRadius | src/controllers/optimization_logic.py:12 | the optimal radius is positive and cubes to V·cLat / (2π cBase) |
| Optimization.PrismSide | src/controllers/optimization_logic.py:15-19 | the optimal side is positive and cubes to n·V·cLat / (4 k² cBase) |
| Optimization.OptimalDimension | src/controllers/optimization_logic.py:8-19 | both branches give a positive dimension meeting the common Lagrange condition |
| Optimization.OptimalHeight | src/controllers/optimization_logic.py:22 | no contract of its own; the height V / (k d²). CylinderOptimumNumbers and PrismOptimumNumbers prove it positive and that k d² times it is V, which `HoldsVolume` then states of the result |
| Optimization.OptimalGeometry.BaseArea | src/controllers/optimization_logic.py:23 | no contract of its own; the base area k_area·d². Physics.BaseAreaHoldsVolume proves it positive and that times the height it gives the volume, which is how physics_logic.py:11 reuses it |
| Optimization.CylinderOptimumNumbers | src/controllers/optimization_logic.py:22-30 | with k_area = π, the cylinder's height and cost are positive, the height holds the volume, and the cost equals the plotted cylinder cost |
| Optimization.PrismOptimumNumbers | src/controllers/optimization_logic.py:22-30 | the prism's height and cost are positive, the height holds the volume, and the cost equals the plotted prism cost |
| Optimization.CylinderOptimum | src/controllers/optimization_logic.py:8-32 | k_area = π; the radius meets the Lagrange condition; all numbers are positive; π r² h = V; the minimum cost equals the plotted cost at r; the name is "Raio (r)" |
| Optimization.PrismOptimum | src/controllers/optimization_logic.py:13-32 | k_area = n/(4 tan(π/n)); the side meets the Lagrange condition; all numbers are positive; k L² h = V; the minimum cost equals the plotted cost at L; the name is "Lado (L)" |
| Optimization.Optimum | src/controllers/optimization_logic.py:8-32 | the result of either branch satisfies `IsOptimumOf` for its shape |
| Optimization.OptimalDimensionUnique | src/controllers/optimization_logic.py:12-19 | a positive dimension meets the Lagrange condition exactly when it is the optimizer's dimension |
| Optimization.DimName | src/controllers/optimization_logic.py:10-16 | no contract of its own; CalculateOptimalGeometry states that the result is named "Raio (r)" for the cylinder and "Lado (L)" for the prism |
| Optimization.CalculateOptimalGeometry | src/controllers/optimization_logic.py:3-32 | for the shape the label selects: the area constant; a dimension meeting the Lagrange condition; four positive numbers; k·d²·h = V; minimum cost equal to the plotted cost at d; the dimension's name |
| Optimization.GenerateCostCurveData | src/controllers/optimization_logic.py:34-45 | 100 dimensions from 0.5·d to 1.5·d, all positive, each with the shape's cost at that dimension |
| Optimization.CylinderCurveCost | src/controllers/optimization_logic.py:39 | no contract of its own; CylinderCurveQuadratic puts it in the form a·d² + b/d, and OptimumMinimal proves it least at the optimal radius |
| Optimization.PrismCurveCost | src/controllers/optimization_logic.py:41-43 | no contract of its own; PrismCurveQuadratic puts it in the form a·d² + b/d, and OptimumMinimal proves it least at the optimal side |
| Optimization.ShapeCurveCost | src/controllers/optimization_logic.py:38-43 | no contract of its own; OptimumMinimal proves that the optimum is its unique global minimum for each shape |
| Optimization.CurveCost | src/controllers/optimization_logic.py:38-43 | no contract of its own; CostMinimal proves that the optimum is its unique global minimum for the selected label |
| Optimization.CylinderCurveQuadratic | src/controllers/optimization_logic.py:39 | the plotted cylinder cost is (2 k cBase)·d² + (p V cLat / k)/d, with k = π and p = 2π |
| Optimization.PrismCurveQuadratic | src/controllers/optimization_logic.py:41-43 | the plotted prism cost is (2 k cBase)·d² + (n V cLat / k)/d |
| Optimization.OptimumShapeRelation | src/controllers/optimization_logic.py:12-22 | at the optimum, h = 4 k cBase d / (p cLat) |
| Optimization.CylinderOptimumRelation | src/controllers/optimization_logic.py:12-22 | the optimal cylinder has h = 2 r cBase / cLat |
| Optimization.CylinderShapeRelation | src/controllers/optimization_logic.py:8-22 | what the cylinder label returns has h = 2 r cBase / cLat |
| Optimization.PrismShapeRelation | src/controllers/optimization_logic.py:15-22 | what a prism label returns has h = 4 k_area cBase L / (n cLat) |
| Optimization.SquareOptimumRelation | src/controllers/optimization_logic.py:15-22 | an optimal square prism (with tan(π/4) = 1) has k_area = 1, L² h = V and h = L cBase / cLat |
| Optimization.SquarePrismOptimum | src/controllers/optimization_logic.py:15-22 | what a 4-sided prism label returns has k_area = 1, L² h = V and h = L cBase / cLat |
| Optimization.OptimumMinimal | src/controllers/optimization_logic.py:36-43 | a shape's plotted cost at any positive dimension is at least the minimum cost, and equals it exactly at the optimal dimension |
| Optimization.CostMinimal | src/controllers/optimization_logic.py:30-43 | the optimum is the unique global minimum of the plotted cost over all positive dimensions |
| Optimization.CostCurveAroundOptimum | src/controllers/optimization_logic.py:34-45 | the plotted sweep has 100 strictly increasing dimensions from 0.5·d to 1.5·d, and no plotted cost is below the minimum cost |
| Optimization.DefaultCylinderRelation | app.py:34-36 | an optimal cylinder for the defaults V = 1000, cBase = 20, cLat = 10 has r³ = 250/π, h = 4r and cost 30000/r |
| Optimization.DefaultCylinder | app.py:34-36 | the default cylinder returned by the optimizer has r³ = 250/π, h = 4r and minimum cost 30000/r |
| Physics.CalculateMassProperties | src/controllers/physics_logic.py:4-21 | no contract of its own; MassOfOptimalTank, CentreOfMassBounds and UniformDensity state what it returns |
| Physics.Integrate | src/controllers/physics_logic.py:11-19 | no contract of its own; IntegratedMass states its mass and IntegratedCentre its centre of mass |
| Physics.GenerateDensityProfile | src/controllers/physics_logic.py:23-26 | 100 heights from 0 to h, with density rhoBase − B·z at each |
| Physics.IntegratedMass | src/controllers/physics_logic.py:12-15 | the mass integral equals the trapezoid form a·h·(rhoBase + rhoTop)/2, which is V·(rhoBase + rhoTop)/2 |
| Physics.IntegratedCentre | src/controllers/physics_logic.py:12-19 | for a non-zero base area, the centre of mass is absent exactly when rhoBase + rhoTop = 0; otherwise it is the trapezoid centroid h(rhoBase + 2 rhoTop)/(3(rhoBase + rhoTop)) |
| Physics.MomentOverMass | src/controllers/physics_logic.py:15-19 | the moment divided by the mass, as written, is the trapezoid centroid |
| Physics.GeometryMass | src/controllers/physics_logic.py:9-19 | over any geometry that holds the volume, the mass is V·(rhoBase + rhoTop)/2 and the centre of mass is the centroid or absent |
| Physics.MassOfOptimalTank | src/controllers/physics_logic.py:4-21 | the optimizer's height is reused; rhoBase is passed back unchanged; the gradient is (rhoBase − rhoTop)/h; the mass is V·(rhoBase + rhoTop)/2; the centre of mass is absent exactly when the densities cancel, and otherwise is the centroid over the optimal height |
| Physics.CentreOfMassBounds | src/controllers/physics_logic.py:15-19 | positive densities give a positive mass and h/3 < z_cm < 2h/3, hence 0 ≤ z_cm ≤ h; z_cm ≤ h/2 exactly when rhoTop ≤ rhoBase, and z_cm = h/2 exactly when they are equal |
| Physics.UniformDensity | src/controllers/physics_logic.py:12-19 | equal non-zero densities give gradient 0, mass V·rho and z_cm = h/2 |
| Physics.UniformCentroid | src/controllers/physics_logic.py:19 | the centroid of a uniform density is at half the height |
| Physics.DensityProfileEnds | src/controllers/physics_logic.py:23-26 | with B = (rhoBase − rhoTop)/h, the profile runs from 0 to h and from rhoBase to rhoTop, and sample i is rhoBase + (i/99)(rhoTop − rhoBase) |
| Physics.ProfileOfOptimalTank | src/controllers/physics_logic.py:21-26 | the profile drawn from the integrator's own outputs spans the optimal height and runs linearly from rhoBase to rhoTop |
| Thermal.Where | src/controllers/thermal_logic.py:12 | exactly the indices whose value reaches the threshold, in strictly increasing order |
| Thermal.WhereFirst | src/controllers/thermal_logic.py:12-13 | no index is reported exactly when every value is below the threshold; otherwise the first index reported is the least index that reaches it |
| Thermal.SimulateCooling | src/controllers/thermal_logic.py:3-15 | the times are `linspace(0, span, 100)`; there are 100 temperatures, each the analytic solution at its time |
| Thermal.Temperature | src/controllers/thermal_logic.py:9 | no contract of its own; TemperatureAtZero, TemperatureBetween and TemperatureMonotone state its start, its bounds and its monotonicity |
| Thermal.TemperatureAtZero | src/controllers/thermal_logic.py:9 | the curve starts at the initial temperature |
| Thermal.TemperatureBetween | src/controllers/thermal_logic.py:9 | at time ≥ 0 with k ≥ 0, the temperature lies between the ambient and the initial temperatures |
| Thermal.RelaxedBetween | src/controllers/thermal_logic.py:9 | scaling the initial gap by a factor in (0, 1] keeps the temperature between the ambient and the initial ones |
| Thermal.TemperatureMonotone | src/controllers/thermal_logic.py:9 | with k ≥ 0, the curve is non-decreasing towards a warmer ambient, non-increasing towards a cooler one, and constant at the ambient temperature when it starts there |
| Thermal.RelaxedMonotone | src/controllers/thermal_logic.py:9 | a smaller factor brings the temperature closer to the ambient one |
| Thermal.CoolingTimes | src/controllers/thermal_logic.py:7 | a span ≥ 0 gives 100 non-decreasing times from 0 to the span, all within [0, span] |
| Thermal.CoolingCurve | src/controllers/thermal_logic.py:7-9 | the sampled curve starts at T_0, stays between T_0 and T_amb, and is monotone towards T_amb (by the sign of T_0 − T_amb) |
| Thermal.FailureTime | src/controllers/thermal_logic.py:12-13 | the failure time is absent exactly when no sample reaches the threshold; otherwise it is the time of the first sample that does |
| Thermal.FailsAtOnce | src/controllers/thermal_logic.py:7-13 | a start at or above the threshold fails at time 0 |
| Thermal.FailureWithinSpan | src/controllers/thermal_logic.py:7-13 | a failure time, when there is one, lies within [0, time span] |

## Left out

- Floating point: every number is an exact real, so rounding, overflow, NaN and infinities are not modelled.
- pi, `** (1/3)`, `np.tan` and `np.exp` are not computed. The model takes them as a value constrained only by the facts listed under `Sound()`.
- Optimization.CalculateOptimalGeometry: requires a positive volume, positive unit costs and at least three sides for a prism. The source does not check these; the dashboard's inputs guarantee them (`app.py:31-36`: volume ≥ 10, costs ≥ 1, 3 to 12 sides). Outside that range the source does not fail uniformly, and the model says nothing about these cases. A radicand is negative exactly when an odd number of vol, c_base and c_lat are negative. On the cylinder path a negative radicand makes Python's `** (1/3)` return a complex number. On the prism path numpy floats are in use, so a negative radicand gives NaN instead. An even number of negative inputs gives a positive radicand and a real result. Two sides give finite positive numbers, because the rounded tan(π/2) is huge and k_area comes out near 3·10⁻¹⁷. One side gives a negative k_area, height and cost. Zero sides raise ZeroDivisionError at `np.pi / num_sides`.
- Optimization.GenerateCostCurveData: requires a positive optimal dimension, plus a non-zero k_area for the prism. Only the optimizer's own output, which meets both, is ever passed to it.
- Physics.CalculateMassProperties, Physics.Integrate, Thermal.Temperature, Optimization.CylinderCurveCost, Optimization.PrismCurveCost, Optimization.ShapeCurveCost, Optimization.CurveCost, Optimization.DimName, Optimization.OptimalHeight and Optimization.OptimalGeometry.BaseArea: none carries a contract of its own, because any contract would only restate its formula. The lemmas named in their rows above state what they compute.
- When rhoBase + rhoTop = 0 the exact mass is zero and the source divides by it. On the cylinder path the values are Python floats, and the division raises ZeroDivisionError. On the prism path `np.tan` makes every later value a numpy float, which does not raise. There the moment, area·h²·rhoTop/6, is non-zero unless both densities are zero, so the quotient is ±inf, or NaN when both densities are zero. The model reports an absent centre of mass (`None`) in every one of these cases.
- Thermal.TemperatureBetween: requires k ≥ 0 and a time ≥ 0. With a negative constant the curve moves away from the ambient temperature, and before time 0 it lies beyond the initial one.
- Thermal.TemperatureMonotone: requires k ≥ 0 (and t1 ≤ t2), for the same reason.
- Thermal.CoolingCurve: requires k ≥ 0 and a span ≥ 0.
- Thermal.CoolingTimes and Thermal.FailureWithinSpan: require a span ≥ 0. A negative span gives a descending grid.
- The dashboard keeps the span between 1 and 48 hours (the slider at `src/views/thermal_view.py:17`). It puts no lower bound on `k_const` (`src/views/thermal_view.py:19`), so a negative constant is reachable there, and the bounds and monotonicity lemmas say nothing about it. `SimulateCooling`, `FailureTime` and `FailsAtOnce` hold for every input.
- Optimization.SquareOptimumRelation and Optimization.SquarePrismOptimum: require tan(π/4) = 1, a fact `Sound()` does not provide.
- The dashboard's views, the 3D and 2D plots, the sidebar, the navigation and the UI helpers (`app.py`, `src/views/`, `src/utils/ui_helper.py`) are not part of this model.
