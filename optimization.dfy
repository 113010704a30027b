/** The tank cost optimizer: the closed-form Lagrange optimum of a closed tank of given
    volume whose two caps cost `cBase` and whose lateral wall costs `cLat` per unit area,
    for a cylinder or a regular n-gonal prism, and the cost-versus-dimension sweep drawn
    around that optimum. */
module Optimization {
  import opened Numerics
  import opened Grid
  import opened Algebra

  /** The selector label of the cylinder; every other label selects the prism branch. */
  const CylinderLabel: string := "Cilindro (Padrão)"

  datatype Shape = Cylinder | Prism(sides: int)

  /** The shape the selector chooses; the side count matters only for the prism. */
  function ShapeOf(geoType: string, numSides: int): (s: Shape)
    ensures s.Cylinder? <==> geoType == CylinderLabel
    ensures s.Prism? ==> s.sides == numSides
  {
    if geoType == CylinderLabel then Cylinder else Prism(numSides)
  }

  /** A prism needs at least three sides; the cylinder ignores its side count. */
  predicate WellFormed(s: Shape) {
    s.Prism? ==> s.sides >= 3
  }

  /** The inputs for which the closed form is defined: a well-formed shape, a positive
      volume and positive unit costs. */
  predicate ValidInputs(geoType: string, numSides: int, vol: real, cBase: real, cLat: real) {
    WellFormed(ShapeOf(geoType, numSides)) && vol > 0.0 && cBase > 0.0 && cLat > 0.0
  }

  /** k_area: the base area is k_area times the square of the characteristic dimension
      (pi for a circle of radius r, n / (4 tan(pi / n)) for a regular n-gon of side L). */
  function ShapeConstant(t: Transcendentals, s: Shape): (k: real)
    requires t.Sound() && WellFormed(s)
    ensures k > 0.0
  {
    match s
    case Cylinder => t.pi
    case Prism(n) => n as real / (4.0 * t.TanPiOver(n))
  }

  /** The perimeter of the cross-section per unit of the characteristic dimension
      (2 pi for the circle, n for the n-gon): the lateral area is this times d times h. */
  function PerimeterFactor(t: Transcendentals, s: Shape): (p: real)
    requires t.Sound() && WellFormed(s)
    ensures p > 0.0
  {
    match s
    case Cylinder => 2.0 * t.pi
    case Prism(n) => n as real
  }

  /** The Lagrange condition of the optimum, d^3 = p V cLat / (4 k^2 cBase): the cost
      2 k d^2 cBase + p V cLat / (k d) is stationary where d cubes to this number. */
  function LagrangeRadicand(t: Transcendentals, s: Shape, vol: real, cBase: real, cLat: real): (x: real)
    requires t.Sound() && WellFormed(s) && vol > 0.0 && cBase > 0.0 && cLat > 0.0
    ensures x > 0.0
  {
    var k := ShapeConstant(t, s);
    PrismRadicand(PerimeterFactor(t, s), k, vol, cBase, cLat);
    PerimeterFactor(t, s) * vol * cLat / (4.0 * Sq(k) * cBase)
  }

  /** The Lagrange condition spelled out with the shape's k_area `k` and perimeter factor `p`. */
  lemma LagrangeRadicandForm(t: Transcendentals, s: Shape, vol: real, cBase: real, cLat: real,
                             k: real, p: real)
    requires t.Sound() && WellFormed(s) && vol > 0.0 && cBase > 0.0 && cLat > 0.0
    requires k == ShapeConstant(t, s) && p == PerimeterFactor(t, s)
    ensures 4.0 * Sq(k) * cBase > 0.0
    ensures LagrangeRadicand(t, s, vol, cBase, cLat) == p * vol * cLat / (4.0 * Sq(k) * cBase)
  {
    PrismRadicand(p, k, vol, cBase, cLat);
  }

  /** The cylinder's optimal radius, the cube root of V cLat / (2 pi cBase). */
  function CylinderRadius(t: Transcendentals, vol: real, cBase: real, cLat: real): (r: real)
    requires t.Sound() && vol > 0.0 && cBase > 0.0 && cLat > 0.0
    ensures r > 0.0 && Cube(r) == (vol * cLat) / (2.0 * t.pi * cBase)
  {
    var x := (vol * cLat) / (2.0 * t.pi * cBase);
    CylinderRadicand(t.pi, 2.0 * t.pi, t.pi, vol, cBase, cLat);
    CubeRoot(t, x);
    t.cbrt(x)
  }

  /** The prism's optimal side, the cube root of n V cLat / (4 k^2 cBase). */
  function PrismSide(t: Transcendentals, n: int, vol: real, cBase: real, cLat: real): (l: real)
    requires t.Sound() && n >= 3 && vol > 0.0 && cBase > 0.0 && cLat > 0.0
    ensures l > 0.0
    ensures Cube(l) == (n as real * vol * cLat) / (4.0 * Sq(ShapeConstant(t, Prism(n))) * cBase)
  {
    var k := ShapeConstant(t, Prism(n));
    var x := (n as real * vol * cLat) / (4.0 * Sq(k) * cBase);
    PrismRadicand(n as real, k, vol, cBase, cLat);
    CubeRoot(t, x);
    t.cbrt(x)
  }

  /** The cylinder's Lagrange condition is the radicand of its radius. */
  lemma CylinderLagrange(t: Transcendentals, vol: real, cBase: real, cLat: real)
    requires t.Sound() && vol > 0.0 && cBase > 0.0 && cLat > 0.0
    ensures LagrangeRadicand(t, Cylinder, vol, cBase, cLat) == (vol * cLat) / (2.0 * t.pi * cBase)
  {
    var pi := t.pi;
    LagrangeRadicandForm(t, Cylinder, vol, cBase, cLat, pi, 2.0 * pi);
    CylinderRadicand(pi, 2.0 * pi, pi, vol, cBase, cLat);
  }

  /** The prism's Lagrange condition is the radicand of its side. */
  lemma PrismLagrange(t: Transcendentals, n: int, vol: real, cBase: real, cLat: real)
    requires t.Sound() && n >= 3 && vol > 0.0 && cBase > 0.0 && cLat > 0.0
    ensures LagrangeRadicand(t, Prism(n), vol, cBase, cLat)
            == (n as real * vol * cLat) / (4.0 * Sq(ShapeConstant(t, Prism(n))) * cBase)
  {
    LagrangeRadicandForm(t, Prism(n), vol, cBase, cLat, ShapeConstant(t, Prism(n)), n as real);
  }

  /** The optimal characteristic dimension: the radius of the cylinder or the side of the
      prism. Both branches meet the common Lagrange condition. */
  function OptimalDimension(t: Transcendentals, s: Shape, vol: real, cBase: real, cLat: real): (d: real)
    requires t.Sound() && WellFormed(s) && vol > 0.0 && cBase > 0.0 && cLat > 0.0
    ensures d > 0.0
    ensures Cube(d) == LagrangeRadicand(t, s, vol, cBase, cLat)
  {
    match s
    case Cylinder =>
      CylinderLagrange(t, vol, cBase, cLat);
      CylinderRadius(t, vol, cBase, cLat)
    case Prism(n) =>
      PrismLagrange(t, n, vol, cBase, cLat);
      PrismSide(t, n, vol, cBase, cLat)
  }

  /** What `calculate_optimal_geometry` returns. */
  datatype OptimalGeometry = OptimalGeometry(
    dim: real,
    height: real,
    minCost: real,
    kArea: real,
    dimName: string)
  {
    /** The base area, k_area d^2. */
    function BaseArea(): real {
      kArea * Sq(dim)
    }

    /** The base area k_area d^2 times the height is the volume. */
    predicate HoldsVolume(vol: real) {
      kArea * Sq(dim) * height == vol
    }
  }

  /** The cylinder's cost at radius `d` with the height that holds the volume, as the
      sweep evaluates it: 2 pi d^2 cBase + 2 V cLat / d. */
  function CylinderCurveCost(pi: real, vol: real, cBase: real, cLat: real, d: real): real
    requires d != 0.0
  {
    (2.0 * pi * Sq(d) * cBase) + (2.0 * vol * cLat / d)
  }

  /** The prism's cost at side `d` with the height that holds the volume, as the sweep
      evaluates it with the given k_area: 2 k d^2 cBase + (n d)(V / (k d^2)) cLat. */
  function PrismCurveCost(numSides: int, vol: real, cBase: real, cLat: real, kArea: real, d: real): real
    requires d != 0.0 && kArea != 0.0
  {
    NonZeroProduct(kArea, d);
    2.0 * kArea * Sq(d) * cBase + (numSides as real * d) * (vol / (kArea * Sq(d))) * cLat
  }

  /** The prism's sweep cost, spelled out. */
  lemma PrismCurveCostForm(n: int, vol: real, cBase: real, cLat: real, k: real, d: real)
    requires d != 0.0 && k != 0.0
    ensures k * Sq(d) != 0.0
    ensures PrismCurveCost(n, vol, cBase, cLat, k, d)
            == 2.0 * k * Sq(d) * cBase + (n as real * d) * OptimalHeight(k, d, vol) * cLat
  {
    NonZeroProduct(k, d);
  }

  /** The cylinder's sweep cost is a d^2 + b / d with a = 2 k cBase and b = p V cLat / k,
      for k = pi and p = 2 pi. */
  lemma CylinderCurveQuadratic(t: Transcendentals, k: real, p: real, vol: real, cBase: real, cLat: real, d: real)
    requires t.pi > 0.0 && k == t.pi && p == 2.0 * t.pi && d > 0.0
    ensures CylinderCurveCost(t.pi, vol, cBase, cLat, d) == (2.0 * k * cBase) * Sq(d) + (p * vol * cLat / k) / d
  {
    CylinderCurveForm(t.pi, k, p, vol, cBase, cLat, d);
  }

  /** The prism's sweep cost is a d^2 + b / d with a = 2 k cBase and b = n V cLat / k. */
  lemma PrismCurveQuadratic(n: int, p: real, vol: real, cBase: real, cLat: real, k: real, d: real)
    requires p == n as real && k > 0.0 && d > 0.0
    ensures PrismCurveCost(n, vol, cBase, cLat, k, d) == (2.0 * k * cBase) * Sq(d) + (p * vol * cLat / k) / d
  {
    HeightHoldsVolume(k, d, 1.0);
    PrismCurveCostForm(n, vol, cBase, cLat, k, d);
    PrismCurveForm(k, p, vol, cBase, cLat, d);
  }

  /** The cost the sweep plots at dimension `d` for a shape. */
  function ShapeCurveCost(t: Transcendentals, s: Shape, vol: real, cBase: real, cLat: real,
                          kArea: real, d: real): real
    requires d != 0.0 && (s.Prism? ==> kArea != 0.0)
  {
    match s
    case Cylinder => CylinderCurveCost(t.pi, vol, cBase, cLat, d)
    case Prism(n) => PrismCurveCost(n, vol, cBase, cLat, kArea, d)
  }

  /** The cost the sweep plots at dimension `d`, by the selector label. */
  function CurveCost(t: Transcendentals, geoType: string, numSides: int, vol: real,
                     cBase: real, cLat: real, kArea: real, d: real): real
    requires d != 0.0 && (geoType != CylinderLabel ==> kArea != 0.0)
  {
    ShapeCurveCost(t, ShapeOf(geoType, numSides), vol, cBase, cLat, kArea, d)
  }

  /** The height V / (k d^2) that holds the volume over a base of area k d^2. */
  function OptimalHeight(k: real, d: real, vol: real): real
    requires k * Sq(d) != 0.0
  {
    vol / (k * Sq(d))
  }

  /** The cylinder's height, holding the volume at radius `d`, and the cost of its two caps
      and wall are positive, and that cost is the sweep's cost at `d`. */
  lemma CylinderOptimumNumbers(t: Transcendentals, vol: real, cBase: real, cLat: real, d: real)
    requires t.Sound() && vol > 0.0 && cBase > 0.0 && cLat > 0.0 && d > 0.0
    ensures t.pi * Sq(d) > 0.0 && OptimalHeight(t.pi, d, vol) > 0.0
    ensures t.pi * Sq(d) * OptimalHeight(t.pi, d, vol) == vol
    ensures (2.0 * (t.pi * Sq(d)) * cBase) + ((2.0 * t.pi * d * OptimalHeight(t.pi, d, vol)) * cLat) > 0.0
    ensures (2.0 * (t.pi * Sq(d)) * cBase) + ((2.0 * t.pi * d * OptimalHeight(t.pi, d, vol)) * cLat)
            == CylinderCurveCost(t.pi, vol, cBase, cLat, d)
  {
    var pi := t.pi;
    HeightHoldsVolume(pi, d, vol);
    var h := vol / (pi * Sq(d));
    MulPos(2.0 * pi, d);
    MulPos(2.0 * pi * d, h);
    OptimumCostPositive(pi * Sq(d), 2.0 * pi * d * h, cBase, cLat);
    CylinderCost(pi, pi, vol, cBase, cLat, d, h);
  }

  /** The prism's height, holding the volume at side `d`, and the cost of its two caps and
      wall are positive, and that cost is the sweep's cost at `d`. */
  lemma PrismOptimumNumbers(n: int, k: real, vol: real, cBase: real, cLat: real, d: real)
    requires n >= 3 && k > 0.0 && vol > 0.0 && cBase > 0.0 && cLat > 0.0 && d > 0.0
    ensures k * Sq(d) > 0.0 && OptimalHeight(k, d, vol) > 0.0
    ensures k * Sq(d) * OptimalHeight(k, d, vol) == vol
    ensures (2.0 * (k * Sq(d)) * cBase) + (((n as real * d) * OptimalHeight(k, d, vol)) * cLat) > 0.0
    ensures (2.0 * (k * Sq(d)) * cBase) + (((n as real * d) * OptimalHeight(k, d, vol)) * cLat)
            == PrismCurveCost(n, vol, cBase, cLat, k, d)
  {
    HeightHoldsVolume(k, d, vol);
    var h := OptimalHeight(k, d, vol);
    MulPos(n as real, d);
    MulPos(n as real * d, h);
    OptimumCostPositive(k * Sq(d), (n as real * d) * h, cBase, cLat);
    PrismCost(k, n as real, vol, cBase, cLat, d, h);
    PrismCurveCostForm(n, vol, cBase, cLat, k, d);
  }

  /** The cylinder branch of the optimum: k_area = pi, r^3 = V cLat / (2 pi cBase),
      h = V / (pi r^2), cost 2 (pi r^2) cBase + (2 pi r h) cLat. */
  function CylinderOptimum(t: Transcendentals, vol: real, cBase: real, cLat: real): (g: OptimalGeometry)
    requires t.Sound() && vol > 0.0 && cBase > 0.0 && cLat > 0.0
    ensures g.kArea == ShapeConstant(t, Cylinder)
    ensures Cube(g.dim) == LagrangeRadicand(t, Cylinder, vol, cBase, cLat)
    ensures g.dim > 0.0 && g.height > 0.0 && g.kArea > 0.0 && g.minCost > 0.0
    ensures g.HoldsVolume(vol)
    ensures g.minCost == CylinderCurveCost(t.pi, vol, cBase, cLat, g.dim)
    ensures g.dimName == DimName(Cylinder)
  {
    var d := OptimalDimension(t, Cylinder, vol, cBase, cLat);
    CylinderOptimumNumbers(t, vol, cBase, cLat, d);
    OptimalGeometry(
      d,
      OptimalHeight(t.pi, d, vol),
      (2.0 * (t.pi * Sq(d)) * cBase) + ((2.0 * t.pi * d * OptimalHeight(t.pi, d, vol)) * cLat),
      t.pi,
      DimName(Cylinder))
  }

  /** The prism branch of the optimum: k_area = n / (4 tan(pi / n)),
      L^3 = n V cLat / (4 k^2 cBase), h = V / (k L^2), cost 2 (k L^2) cBase + (n L h) cLat. */
  function PrismOptimum(t: Transcendentals, n: int, vol: real, cBase: real, cLat: real): (g: OptimalGeometry)
    requires t.Sound() && n >= 3 && vol > 0.0 && cBase > 0.0 && cLat > 0.0
    ensures g.kArea == ShapeConstant(t, Prism(n))
    ensures Cube(g.dim) == LagrangeRadicand(t, Prism(n), vol, cBase, cLat)
    ensures g.dim > 0.0 && g.height > 0.0 && g.kArea > 0.0 && g.minCost > 0.0
    ensures g.HoldsVolume(vol)
    ensures g.minCost == PrismCurveCost(n, vol, cBase, cLat, g.kArea, g.dim)
    ensures g.dimName == DimName(Prism(n))
  {
    var k := ShapeConstant(t, Prism(n));
    var d := OptimalDimension(t, Prism(n), vol, cBase, cLat);
    PrismOptimumNumbers(n, k, vol, cBase, cLat, d);
    OptimalGeometry(
      d,
      OptimalHeight(k, d, vol),
      (2.0 * (k * Sq(d)) * cBase) + (((n as real * d) * OptimalHeight(k, d, vol)) * cLat),
      k,
      DimName(Prism(n)))
  }

  /** The name of the characteristic dimension, as the result labels it. */
  function DimName(s: Shape): string {
    if s.Cylinder? then "Raio (r)" else "Lado (L)"
  }

  /** What the closed form delivers for a shape: its k_area, a dimension meeting the
      Lagrange condition, four positive numbers, a height that holds the volume, the sweep's
      cost at the dimension and the dimension's name. */
  predicate IsOptimumOf(g: OptimalGeometry, t: Transcendentals, s: Shape, vol: real,
                        cBase: real, cLat: real)
    requires t.Sound() && WellFormed(s) && vol > 0.0 && cBase > 0.0 && cLat > 0.0
  {
    && g.kArea == ShapeConstant(t, s)
    && Cube(g.dim) == LagrangeRadicand(t, s, vol, cBase, cLat)
    && g.dim > 0.0 && g.height > 0.0 && g.kArea > 0.0 && g.minCost > 0.0
    && g.HoldsVolume(vol)
    && g.minCost == ShapeCurveCost(t, s, vol, cBase, cLat, g.kArea, g.dim)
    && g.dimName == DimName(s)
  }

  /** The closed-form optimum of a shape. */
  function Optimum(t: Transcendentals, s: Shape, vol: real, cBase: real, cLat: real): (g: OptimalGeometry)
    requires t.Sound() && WellFormed(s) && vol > 0.0 && cBase > 0.0 && cLat > 0.0
    ensures IsOptimumOf(g, t, s, vol, cBase, cLat)
  {
    match s
    case Cylinder => CylinderOptimum(t, vol, cBase, cLat)
    case Prism(n) => PrismOptimum(t, n, vol, cBase, cLat)
  }

  /** `calculate_optimal_geometry`: the optimum of the shape the label selects. The
      dimension meets the Lagrange condition, all four numbers are positive, the height
      holds the volume exactly, and the minimum cost is the sweep's own cost formula
      evaluated at the optimal dimension. */
  function CalculateOptimalGeometry(t: Transcendentals, geoType: string, numSides: int,
                                    vol: real, cBase: real, cLat: real): (g: OptimalGeometry)
    requires t.Sound() && ValidInputs(geoType, numSides, vol, cBase, cLat)
    ensures g.kArea == ShapeConstant(t, ShapeOf(geoType, numSides))
    ensures Cube(g.dim) == LagrangeRadicand(t, ShapeOf(geoType, numSides), vol, cBase, cLat)
    ensures g.dim > 0.0 && g.height > 0.0 && g.kArea > 0.0 && g.minCost > 0.0
    ensures g.HoldsVolume(vol)
    ensures g.minCost == CurveCost(t, geoType, numSides, vol, cBase, cLat, g.kArea, g.dim)
    ensures g.dimName == DimName(ShapeOf(geoType, numSides))
  {
    Optimum(t, ShapeOf(geoType, numSides), vol, cBase, cLat)
  }

  /** The optimal dimension is the only positive dimension meeting the Lagrange condition. */
  lemma OptimalDimensionUnique(t: Transcendentals, geoType: string, numSides: int,
                               vol: real, cBase: real, cLat: real, d: real)
    requires t.Sound() && ValidInputs(geoType, numSides, vol, cBase, cLat) && d > 0.0
    ensures Cube(d) == LagrangeRadicand(t, ShapeOf(geoType, numSides), vol, cBase, cLat)
            <==> d == CalculateOptimalGeometry(t, geoType, numSides, vol, cBase, cLat).dim
  {
    var g := CalculateOptimalGeometry(t, geoType, numSides, vol, cBase, cLat);
    if Cube(d) == LagrangeRadicand(t, ShapeOf(geoType, numSides), vol, cBase, cLat) {
      CubeInjective(d, g.dim);
    }
  }

  /** numpy's sweep of 100 dimensions from half to one and a half times the optimum, with
      the cost at each. */
  function GenerateCostCurveData(t: Transcendentals, optDim: real, vol: real, cBase: real,
                                 cLat: real, geoType: string, numSides: int,
                                 kArea: real): (r: (seq<real>, seq<real>))
    requires optDim > 0.0 && (geoType != CylinderLabel ==> kArea != 0.0)
    ensures r.0 == Linspace(optDim * 0.5, optDim * 1.5, Samples)
    ensures |r.1| == Samples
    ensures forall i :: 0 <= i < Samples ==>
              r.0[i] > 0.0 && r.1[i] == CurveCost(t, geoType, numSides, vol, cBase, cLat, kArea, r.0[i])
  {
    var dims := Linspace(optDim * 0.5, optDim * 1.5, Samples);
    LinspaceOrdered(optDim * 0.5, optDim * 1.5, Samples);
    var costs := seq(Samples, i requires 0 <= i < Samples =>
                       CurveCost(t, geoType, numSides, vol, cBase, cLat, kArea, dims[i]));
    (dims, costs)
  }

  // ---------------------------------------------------------------------------------
  // Properties of the optimum

  /** The shape relation of a shape's optimum: h = 4 k cBase d / (p cLat), where p is the
      shape's perimeter factor. */
  lemma OptimumShapeRelation(t: Transcendentals, s: Shape, vol: real, cBase: real, cLat: real,
                             g: OptimalGeometry, p: real)
    requires t.Sound() && WellFormed(s) && vol > 0.0 && cBase > 0.0 && cLat > 0.0
    requires IsOptimumOf(g, t, s, vol, cBase, cLat) && p == PerimeterFactor(t, s)
    ensures g.height == 4.0 * g.kArea * cBase * g.dim / (p * cLat)
  {
    OptimumLagrange(t, s, vol, cBase, cLat, g, p);
    GeometryHeight(g, p, vol, cBase, cLat);
  }

  /** The stationarity relation restated on the fields of an optimum. */
  lemma GeometryHeight(g: OptimalGeometry, p: real, vol: real, cBase: real, cLat: real)
    requires g.kArea > 0.0 && p > 0.0 && cBase > 0.0 && cLat > 0.0 && g.dim > 0.0
    requires 4.0 * Sq(g.kArea) * cBase > 0.0
    requires Cube(g.dim) == p * vol * cLat / (4.0 * Sq(g.kArea) * cBase)
    requires g.HoldsVolume(vol)
    ensures g.height == 4.0 * g.kArea * cBase * g.dim / (p * cLat)
  {
    HeightFromStationarity(g.kArea, p, vol, cBase, cLat, g.dim, g.height);
  }

  /** The optimal cylinder: h = 2 r cBase / cLat. */
  lemma CylinderOptimumRelation(t: Transcendentals, vol: real, cBase: real, cLat: real, g: OptimalGeometry)
    requires t.Sound() && vol > 0.0 && cBase > 0.0 && cLat > 0.0
    requires IsOptimumOf(g, t, Cylinder, vol, cBase, cLat)
    ensures g.height == 2.0 * g.dim * cBase / cLat
  {
    OptimumShapeRelation(t, Cylinder, vol, cBase, cLat, g, 2.0 * t.pi);
    CylinderHeightRatio(t.pi, g.kArea, 2.0 * t.pi, cBase, cLat, g.dim);
  }

  /** The cylinder's textbook relation h = 2 r cBase / cLat. */
  lemma CylinderShapeRelation(t: Transcendentals, numSides: int, vol: real, cBase: real, cLat: real)
    requires t.Sound() && ValidInputs(CylinderLabel, numSides, vol, cBase, cLat)
    ensures var g := CalculateOptimalGeometry(t, CylinderLabel, numSides, vol, cBase, cLat);
            g.height == 2.0 * g.dim * cBase / cLat
  {
    CylinderOptimumRelation(t, vol, cBase, cLat,
                            CalculateOptimalGeometry(t, CylinderLabel, numSides, vol, cBase, cLat));
  }

  /** The prism's relation h = 4 k_area cBase L / (n cLat). */
  lemma PrismShapeRelation(t: Transcendentals, geoType: string, numSides: int,
                           vol: real, cBase: real, cLat: real)
    requires t.Sound() && ValidInputs(geoType, numSides, vol, cBase, cLat)
    requires geoType != CylinderLabel
    ensures var g := CalculateOptimalGeometry(t, geoType, numSides, vol, cBase, cLat);
            g.height == 4.0 * g.kArea * cBase * g.dim / (numSides as real * cLat)
  {
    var g := CalculateOptimalGeometry(t, geoType, numSides, vol, cBase, cLat);
    OptimumShapeRelation(t, Prism(numSides), vol, cBase, cLat, g, numSides as real);
  }

  /** The optimal square prism when tan(pi/4) = 1: k_area = 1, L^2 h = V and
      h = L cBase / cLat. */
  lemma SquareOptimumRelation(t: Transcendentals, vol: real, cBase: real, cLat: real, g: OptimalGeometry)
    requires t.Sound() && vol > 0.0 && cBase > 0.0 && cLat > 0.0 && t.tan(t.pi / 4.0) == 1.0
    requires IsOptimumOf(g, t, Prism(4), vol, cBase, cLat)
    ensures g.kArea == 1.0 && Sq(g.dim) * g.height == vol && g.height == g.dim * cBase / cLat
  {
    assert t.TanPiOver(4) == 1.0;
    OptimumShapeRelation(t, Prism(4), vol, cBase, cLat, g, 4.0);
    SquareHeightRatio(cBase, cLat, g.dim);
  }

  /** A square prism (tan(pi/4) = 1) has k_area = 1, so the base is L^2 and the optimum is
      the classic box: L^2 h = V and h = L cBase / cLat. */
  lemma SquarePrismOptimum(t: Transcendentals, geoType: string, vol: real, cBase: real, cLat: real)
    requires t.Sound() && ValidInputs(geoType, 4, vol, cBase, cLat)
    requires geoType != CylinderLabel && t.tan(t.pi / 4.0) == 1.0
    ensures var g := CalculateOptimalGeometry(t, geoType, 4, vol, cBase, cLat);
            g.kArea == 1.0 && Sq(g.dim) * g.height == vol && g.height == g.dim * cBase / cLat
  {
    SquareOptimumRelation(t, vol, cBase, cLat, CalculateOptimalGeometry(t, geoType, 4, vol, cBase, cLat));
  }

  /** A shape's optimum is the unique global minimum of its sweep cost over all positive
      dimensions. */
  lemma OptimumMinimal(t: Transcendentals, s: Shape, vol: real, cBase: real, cLat: real,
                       g: OptimalGeometry, d: real)
    requires t.Sound() && WellFormed(s) && vol > 0.0 && cBase > 0.0 && cLat > 0.0 && d > 0.0
    requires IsOptimumOf(g, t, s, vol, cBase, cLat)
    ensures ShapeCurveCost(t, s, vol, cBase, cLat, g.kArea, d) >= g.minCost
    ensures ShapeCurveCost(t, s, vol, cBase, cLat, g.kArea, d) == g.minCost <==> d == g.dim
  {
    var p := PerimeterFactor(t, s);
    OptimumLagrange(t, s, vol, cBase, cLat, g, p);
    GeometryMinimal(g, p, vol, cBase, cLat, d);
    ShapeCurveQuadratic(t, s, vol, cBase, cLat, g, p, d);
  }

  /** The Lagrange condition of an optimum, spelled out on its fields. */
  lemma OptimumLagrange(t: Transcendentals, s: Shape, vol: real, cBase: real, cLat: real,
                        g: OptimalGeometry, p: real)
    requires t.Sound() && WellFormed(s) && vol > 0.0 && cBase > 0.0 && cLat > 0.0
    requires IsOptimumOf(g, t, s, vol, cBase, cLat) && p == PerimeterFactor(t, s)
    ensures 4.0 * Sq(g.kArea) * cBase > 0.0
    ensures Cube(g.dim) == p * vol * cLat / (4.0 * Sq(g.kArea) * cBase)
  {
    LagrangeRadicandForm(t, s, vol, cBase, cLat, g.kArea, p);
  }

  /** The stationary minimum restated on the fields of an optimum. */
  lemma GeometryMinimal(g: OptimalGeometry, p: real, vol: real, cBase: real, cLat: real, d: real)
    requires g.kArea > 0.0 && cBase > 0.0 && g.dim > 0.0 && d > 0.0
    requires 4.0 * Sq(g.kArea) * cBase > 0.0
    requires Cube(g.dim) == p * vol * cLat / (4.0 * Sq(g.kArea) * cBase)
    ensures (2.0 * g.kArea * cBase) * Sq(d) + (p * vol * cLat / g.kArea) / d
            >= (2.0 * g.kArea * cBase) * Sq(g.dim) + (p * vol * cLat / g.kArea) / g.dim
    ensures ((2.0 * g.kArea * cBase) * Sq(d) + (p * vol * cLat / g.kArea) / d
             == (2.0 * g.kArea * cBase) * Sq(g.dim) + (p * vol * cLat / g.kArea) / g.dim) <==> d == g.dim
  {
    StationaryMinimum(g.kArea, p, vol, cBase, cLat, g.dim, d);
  }

  /** The sweep's cost at `d` and at the optimum's dimension in the common form
      2 k cBase d^2 + (p V cLat / k) / d. */
  lemma ShapeCurveQuadratic(t: Transcendentals, s: Shape, vol: real, cBase: real, cLat: real,
                            g: OptimalGeometry, p: real, d: real)
    requires t.Sound() && WellFormed(s) && g.dim > 0.0 && d > 0.0
    requires g.kArea == ShapeConstant(t, s) && p == PerimeterFactor(t, s)
    ensures ShapeCurveCost(t, s, vol, cBase, cLat, g.kArea, d)
            == (2.0 * g.kArea * cBase) * Sq(d) + (p * vol * cLat / g.kArea) / d
    ensures ShapeCurveCost(t, s, vol, cBase, cLat, g.kArea, g.dim)
            == (2.0 * g.kArea * cBase) * Sq(g.dim) + (p * vol * cLat / g.kArea) / g.dim
  {
    match s
    case Cylinder =>
      CylinderCurveQuadratic(t, g.kArea, p, vol, cBase, cLat, d);
      CylinderCurveQuadratic(t, g.kArea, p, vol, cBase, cLat, g.dim);
    case Prism(n) =>
      PrismCurveQuadratic(n, p, vol, cBase, cLat, g.kArea, d);
      PrismCurveQuadratic(n, p, vol, cBase, cLat, g.kArea, g.dim);
  }

  /** The optimum is the unique global minimum of the cost over all positive dimensions. */
  lemma CostMinimal(t: Transcendentals, geoType: string, numSides: int,
                    vol: real, cBase: real, cLat: real, d: real)
    requires t.Sound() && ValidInputs(geoType, numSides, vol, cBase, cLat) && d > 0.0
    ensures var g := CalculateOptimalGeometry(t, geoType, numSides, vol, cBase, cLat);
            && CurveCost(t, geoType, numSides, vol, cBase, cLat, g.kArea, d) >= g.minCost
            && (CurveCost(t, geoType, numSides, vol, cBase, cLat, g.kArea, d) == g.minCost <==> d == g.dim)
  {
    OptimumMinimal(t, ShapeOf(geoType, numSides), vol, cBase, cLat,
                   CalculateOptimalGeometry(t, geoType, numSides, vol, cBase, cLat), d);
  }

  /** The plotted sweep: 100 strictly increasing dimensions from half to one and a half
      times the optimum, no plotted cost below the minimum cost. */
  lemma CostCurveAroundOptimum(t: Transcendentals, geoType: string, numSides: int,
                               vol: real, cBase: real, cLat: real)
    requires t.Sound() && ValidInputs(geoType, numSides, vol, cBase, cLat)
    ensures var g := CalculateOptimalGeometry(t, geoType, numSides, vol, cBase, cLat);
            var curve := GenerateCostCurveData(t, g.dim, vol, cBase, cLat, geoType, numSides, g.kArea);
            && |curve.0| == Samples && |curve.1| == Samples
            && curve.0[0] == 0.5 * g.dim && curve.0[Samples - 1] == 1.5 * g.dim
            && (forall i, j :: 0 <= i < j < Samples ==> curve.0[i] < curve.0[j])
            && (forall i :: 0 <= i < Samples ==> curve.1[i] >= g.minCost)
  {
    var g := CalculateOptimalGeometry(t, geoType, numSides, vol, cBase, cLat);
    var curve := GenerateCostCurveData(t, g.dim, vol, cBase, cLat, geoType, numSides, g.kArea);
    LinspaceOrdered(g.dim * 0.5, g.dim * 1.5, Samples);
    forall i | 0 <= i < Samples
      ensures curve.1[i] >= g.minCost
    {
      CostMinimal(t, geoType, numSides, vol, cBase, cLat, curve.0[i]);
    }
  }

  /** The default cylinder (V = 1000, cBase = 20, cLat = 10) of any optimum: r^3 = 250 / pi,
      h = 4 r and the cost is 30000 / r. */
  lemma DefaultCylinderRelation(t: Transcendentals, g: OptimalGeometry)
    requires t.Sound() && IsOptimumOf(g, t, Cylinder, 1000.0, 20.0, 10.0)
    ensures Cube(g.dim) == 250.0 / t.pi && g.height == 4.0 * g.dim && g.minCost == 30000.0 / g.dim
  {
    LagrangeRadicandForm(t, Cylinder, 1000.0, 20.0, 10.0, t.pi, 2.0 * t.pi);
    DefaultCylinderNumbers(t.pi, g.dim);
    CylinderOptimumRelation(t, 1000.0, 20.0, 10.0, g);
  }

  /** The default cylinder (V = 1000, cBase = 20, cLat = 10): r^3 = 250 / pi, h = 4 r and
      the minimum cost is 30000 / r. */
  lemma DefaultCylinder(t: Transcendentals, numSides: int)
    requires t.Sound()
    ensures var g := CalculateOptimalGeometry(t, CylinderLabel, numSides, 1000.0, 20.0, 10.0);
            && Cube(g.dim) == 250.0 / t.pi
            && g.height == 4.0 * g.dim
            && g.minCost == 30000.0 / g.dim
  {
    DefaultCylinderRelation(t, CalculateOptimalGeometry(t, CylinderLabel, numSides, 1000.0, 20.0, 10.0));
  }
}
