/** The mass integrator: the optimal tank filled with a fluid whose density falls linearly
    from `rhoBase` at the floor to `rhoTop` at the lid, its total mass and the height of
    its centre of mass from the exact integrals, and the density profile along the height. */
module Physics {
  import opened Numerics
  import opened Grid
  import opened Algebra
  import opened Optimization

  /** What `calculate_mass_properties` returns. The centre of mass is the moment divided by
      the total mass. It is `None` where that divisor is zero. On a zero divisor the
      cylinder path's Python floats raise ZeroDivisionError. The prism path's numpy floats
      give an infinite quotient instead, or NaN when both densities are zero. */
  datatype MassProperties = MassProperties(
    totalMass: real,
    zCm: Option<real>,
    height: real,
    rhoBase: real,
    gradient: real)

  /** The centroid height of a density falling linearly from `rhoBase` at 0 to `rhoTop` at
      `h`: the centroid of a trapezoid with parallel sides `rhoBase` and `rhoTop`. */
  function CentroidHeight(h: real, rhoBase: real, rhoTop: real): real
    requires rhoBase + rhoTop != 0.0
  {
    h * (rhoBase + 2.0 * rhoTop) / (3.0 * (rhoBase + rhoTop))
  }

  /** The mass and first-moment integrals over a tank of base area `areaBase` and height `h`
      of the density rho(z) = rhoBase - B z, B = (rhoBase - rhoTop) / h. */
  function Integrate(areaBase: real, h: real, rhoBase: real, rhoTop: real): MassProperties
    requires h != 0.0
  {
    var b := (rhoBase - rhoTop) / h;
    var mass := areaBase * (rhoBase * h - (b * Sq(h)) / 2.0);
    var moment := areaBase * ((rhoBase * Sq(h)) / 2.0 - (b * Cube(h)) / 3.0);
    MassProperties(mass, if mass == 0.0 then None else Some(moment / mass), h, rhoBase, b)
  }

  /** `calculate_mass_properties`: the optimizer's geometry for the same inputs, integrated. */
  function CalculateMassProperties(t: Transcendentals, geoType: string, numSides: int, vol: real,
                                   cBase: real, cLat: real, rhoBase: real, rhoTop: real): MassProperties
    requires t.Sound() && ValidInputs(geoType, numSides, vol, cBase, cLat)
  {
    var g := CalculateOptimalGeometry(t, geoType, numSides, vol, cBase, cLat);
    Integrate(g.BaseArea(), g.height, rhoBase, rhoTop)
  }

  /** `generate_density_profile`: 100 heights from 0 to h and the density at each. */
  function GenerateDensityProfile(h: real, rhoBase: real, b: real): (r: (seq<real>, seq<real>))
    ensures r.0 == Linspace(0.0, h, Samples)
    ensures |r.1| == Samples
    ensures forall i :: 0 <= i < Samples ==> r.1[i] == rhoBase - b * r.0[i]
  {
    var zs := Linspace(0.0, h, Samples);
    (zs, seq(Samples, i requires 0 <= i < Samples => rhoBase - b * zs[i]))
  }

  // ---------------------------------------------------------------------------------
  // The integrals over a tank of base area `a` and height `h`

  /** The mass integral is the exact trapezoid rule: base area times height times the mean
      of the two end densities, that is the volume times the mean density. */
  lemma IntegratedMass(a: real, h: real, vol: real, rhoBase: real, rhoTop: real)
    requires h != 0.0 && a * h == vol
    ensures Integrate(a, h, rhoBase, rhoTop).totalMass == a * h * (rhoBase + rhoTop) / 2.0
    ensures Integrate(a, h, rhoBase, rhoTop).totalMass == vol * (rhoBase + rhoTop) / 2.0
  {
    LinearDensityMass(a, h, rhoBase, rhoTop, (rhoBase - rhoTop) / h);
    assert a * h * (rhoBase + rhoTop) == vol * (rhoBase + rhoTop);
  }

  /** With a non-zero base area there is a centre of mass exactly when the end densities do
      not cancel, and it is the trapezoid's centroid. */
  lemma IntegratedCentre(a: real, h: real, rhoBase: real, rhoTop: real)
    requires a != 0.0 && h != 0.0
    ensures Integrate(a, h, rhoBase, rhoTop).zCm
            == if rhoBase + rhoTop == 0.0 then None else Some(CentroidHeight(h, rhoBase, rhoTop))
  {
    var b := (rhoBase - rhoTop) / h;
    LinearDensityMass(a, h, rhoBase, rhoTop, b);
    TrapezoidZero(a, h, rhoBase, rhoTop);
    if rhoBase + rhoTop != 0.0 {
      MomentOverMass(a, h, rhoBase, rhoTop);
    }
  }

  /** The moment over the mass, written as `calculate_mass_properties` computes them, is the
      trapezoid's centroid. */
  lemma MomentOverMass(a: real, h: real, rhoBase: real, rhoTop: real)
    requires a != 0.0 && h != 0.0 && rhoBase + rhoTop != 0.0
    ensures var b := (rhoBase - rhoTop) / h;
            a * (rhoBase * h - (b * Sq(h)) / 2.0) != 0.0 &&
            (a * ((rhoBase * Sq(h)) / 2.0 - (b * Cube(h)) / 3.0)) / (a * (rhoBase * h - (b * Sq(h)) / 2.0))
            == CentroidHeight(h, rhoBase, rhoTop)
  {
    var b := (rhoBase - rhoTop) / h;
    LinearDensityMass(a, h, rhoBase, rhoTop, b);
    LinearDensityMoment(a, h, rhoBase, rhoTop, b);
    CentroidQuotient(a, h, rhoBase, rhoTop);
  }

  // ---------------------------------------------------------------------------------
  // The mass properties of the optimal tank

  /** Over a geometry that holds the volume, the total mass is the volume times the mean
      density, and there is a centre of mass exactly when the end densities do not cancel:
      the trapezoid's centroid over the geometry's height. */
  lemma GeometryMass(g: OptimalGeometry, vol: real, rhoBase: real, rhoTop: real)
    requires g.kArea > 0.0 && g.dim > 0.0 && g.height > 0.0 && g.HoldsVolume(vol)
    ensures Integrate(g.BaseArea(), g.height, rhoBase, rhoTop).totalMass == vol * (rhoBase + rhoTop) / 2.0
    ensures Integrate(g.BaseArea(), g.height, rhoBase, rhoTop).zCm
            == if rhoBase + rhoTop == 0.0 then None else Some(CentroidHeight(g.height, rhoBase, rhoTop))
  {
    BaseAreaHoldsVolume(g, vol);
    IntegratedMass(g.BaseArea(), g.height, vol, rhoBase, rhoTop);
    IntegratedCentre(g.BaseArea(), g.height, rhoBase, rhoTop);
  }

  /** The base area of a geometry that holds the volume is positive, and times the height
      it gives the volume. */
  lemma BaseAreaHoldsVolume(g: OptimalGeometry, vol: real)
    requires g.kArea > 0.0 && g.dim > 0.0 && g.HoldsVolume(vol)
    ensures g.BaseArea() > 0.0 && g.BaseArea() * g.height == vol
  {
    SqPos(g.dim);
    MulPos(g.kArea, Sq(g.dim));
  }

  /** `calculate_mass_properties` reuses the optimizer's height, hands the base density back
      unchanged and reports the gradient over that height. Its total mass is the volume
      times the mean density; there is a centre of mass exactly when the end densities do
      not cancel, and it is the trapezoid's centroid over the optimal height. */
  lemma MassOfOptimalTank(t: Transcendentals, geoType: string, numSides: int, vol: real,
                          cBase: real, cLat: real, rhoBase: real, rhoTop: real)
    requires t.Sound() && ValidInputs(geoType, numSides, vol, cBase, cLat)
    ensures var g := CalculateOptimalGeometry(t, geoType, numSides, vol, cBase, cLat);
            var m := CalculateMassProperties(t, geoType, numSides, vol, cBase, cLat, rhoBase, rhoTop);
            && m.height == g.height && m.rhoBase == rhoBase
            && m.gradient == (rhoBase - rhoTop) / g.height
            && m.totalMass == vol * (rhoBase + rhoTop) / 2.0
            && (m.zCm.None? <==> rhoBase + rhoTop == 0.0)
            && (rhoBase + rhoTop != 0.0 ==> m.zCm == Some(CentroidHeight(g.height, rhoBase, rhoTop)))
  {
    GeometryMass(CalculateOptimalGeometry(t, geoType, numSides, vol, cBase, cLat), vol, rhoBase, rhoTop);
  }

  /** Positive end densities give a positive mass and a centre of mass strictly between a
      third and two thirds of the height, so within [0, h] whichever end is denser; it is at
      or below mid-height exactly when the base is at least as dense as the top, and at
      mid-height exactly when the two are equal. */
  lemma CentreOfMassBounds(t: Transcendentals, geoType: string, numSides: int, vol: real,
                           cBase: real, cLat: real, rhoBase: real, rhoTop: real)
    requires t.Sound() && ValidInputs(geoType, numSides, vol, cBase, cLat)
    requires rhoBase > 0.0 && rhoTop > 0.0
    ensures var g := CalculateOptimalGeometry(t, geoType, numSides, vol, cBase, cLat);
            var m := CalculateMassProperties(t, geoType, numSides, vol, cBase, cLat, rhoBase, rhoTop);
            && m.totalMass > 0.0
            && m.zCm.Some?
            && g.height / 3.0 < m.zCm.value < 2.0 * g.height / 3.0
            && 0.0 <= m.zCm.value <= g.height
            && (m.zCm.value <= g.height / 2.0 <==> rhoTop <= rhoBase)
            && (m.zCm.value == g.height / 2.0 <==> rhoTop == rhoBase)
  {
    var g := CalculateOptimalGeometry(t, geoType, numSides, vol, cBase, cLat);
    MassOfOptimalTank(t, geoType, numSides, vol, cBase, cLat, rhoBase, rhoTop);
    MulPos(vol, rhoBase + rhoTop);
    CentroidBounds(g.height, rhoBase, rhoTop, CentroidHeight(g.height, rhoBase, rhoTop));
  }

  /** A uniform fluid has no gradient and its centre of mass at exactly half the height. */
  lemma UniformDensity(t: Transcendentals, geoType: string, numSides: int, vol: real,
                       cBase: real, cLat: real, rho: real)
    requires t.Sound() && ValidInputs(geoType, numSides, vol, cBase, cLat) && rho != 0.0
    ensures var g := CalculateOptimalGeometry(t, geoType, numSides, vol, cBase, cLat);
            var m := CalculateMassProperties(t, geoType, numSides, vol, cBase, cLat, rho, rho);
            m.gradient == 0.0 && m.totalMass == vol * rho && m.zCm == Some(g.height / 2.0)
  {
    var g := CalculateOptimalGeometry(t, geoType, numSides, vol, cBase, cLat);
    MassOfOptimalTank(t, geoType, numSides, vol, cBase, cLat, rho, rho);
    UniformCentroid(g.height, rho);
  }

  /** The centroid of a uniform density is at half the height. */
  lemma UniformCentroid(h: real, rho: real)
    requires rho != 0.0
    ensures CentroidHeight(h, rho, rho) == h / 2.0
  {
    assert h * (rho + 2.0 * rho) == (h / 2.0) * (3.0 * (rho + rho));
  }

  /** The profile over a height h > 0 with the gradient B = (rhoBase - rhoTop) / h runs from
      0 to h, starts at rhoBase, ends at rhoTop and interpolates linearly between them. */
  lemma DensityProfileEnds(h: real, rhoBase: real, rhoTop: real)
    requires h > 0.0
    ensures var p := GenerateDensityProfile(h, rhoBase, (rhoBase - rhoTop) / h);
            && p.0[0] == 0.0 && p.0[Samples - 1] == h
            && p.1[0] == rhoBase && p.1[Samples - 1] == rhoTop
            && forall i :: 0 <= i < Samples ==>
                 p.1[i] == rhoBase + ((i as real) / 99.0) * (rhoTop - rhoBase)
  {
    var b := (rhoBase - rhoTop) / h;
    var p := GenerateDensityProfile(h, rhoBase, b);
    assert Step(0.0, h, Samples) == h / 99.0;
    forall i | 0 <= i < Samples
      ensures p.1[i] == rhoBase + ((i as real) / 99.0) * (rhoTop - rhoBase)
    {
      ProfileSample(h, rhoBase, rhoTop, b, i as real);
    }
    ProfileSample(h, rhoBase, rhoTop, b, 99.0);
  }

  /** The density at height x h / 99 is rhoBase + (x / 99) (rhoTop - rhoBase). */
  lemma ProfileSample(h: real, rhoBase: real, rhoTop: real, b: real, x: real)
    requires h != 0.0 && b == (rhoBase - rhoTop) / h
    ensures rhoBase - b * (0.0 + x * (h / 99.0)) == rhoBase + (x / 99.0) * (rhoTop - rhoBase)
  {
    GradientTimesHeight(h, rhoBase, rhoTop, b);
    assert b * (x * (h / 99.0)) == (x / 99.0) * (b * h);
  }

  /** The profile drawn from what `calculate_mass_properties` returns runs over the optimal
      height from the base density to the top density. */
  lemma ProfileOfOptimalTank(t: Transcendentals, geoType: string, numSides: int, vol: real,
                             cBase: real, cLat: real, rhoBase: real, rhoTop: real)
    requires t.Sound() && ValidInputs(geoType, numSides, vol, cBase, cLat)
    ensures var g := CalculateOptimalGeometry(t, geoType, numSides, vol, cBase, cLat);
            var m := CalculateMassProperties(t, geoType, numSides, vol, cBase, cLat, rhoBase, rhoTop);
            var p := GenerateDensityProfile(m.height, m.rhoBase, m.gradient);
            && p.0[0] == 0.0 && p.0[Samples - 1] == g.height
            && p.1[0] == rhoBase && p.1[Samples - 1] == rhoTop
            && forall i :: 0 <= i < Samples ==>
                 p.1[i] == rhoBase + ((i as real) / 99.0) * (rhoTop - rhoBase)
  {
    var g := CalculateOptimalGeometry(t, geoType, numSides, vol, cBase, cLat);
    MassOfOptimalTank(t, geoType, numSides, vol, cBase, cLat, rhoBase, rhoTop);
    DensityProfileEnds(g.height, rhoBase, rhoTop);
  }
}
