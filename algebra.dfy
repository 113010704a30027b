/** Real arithmetic behind the calculators' closed forms. Squares and cubes are the
    functions `Sq` and `Cube` (the source's `x**2` and `x**3`), and every fact about
    the closed forms is a lemma over plain real variables. Nonlinear real arithmetic is
    where the solver struggles. So several lemmas take a product as a parameter of its own
    (`p == x * y`), or a second name for a repeated factor (`k2 == k`, `pi2 == pi`). The
    solver then needs only linear steps and never multiplies out a repeated factor. */
module Algebra {

  /** x**2 */
  function Sq(x: real): real {
    x * x
  }

  /** x**3 */
  function Cube(x: real): real {
    Sq(x) * x
  }

  /** The product of two positive numbers, named `p`, is positive. */
  lemma ProductPositive(x: real, y: real, p: real)
    requires x > 0.0 && y > 0.0 && p == x * y
    ensures p > 0.0
  {
  }

  lemma MulNonNeg(x: real, y: real)
    requires x >= 0.0 && y >= 0.0
    ensures x * y >= 0.0
  {
  }

  lemma MulPos(x: real, y: real)
    requires x > 0.0 && y > 0.0
    ensures x * y > 0.0
  {
  }

  lemma DivPos(x: real, y: real)
    requires x > 0.0 && y > 0.0
    ensures x / y > 0.0
  {
  }

  lemma SqPos(x: real)
    requires x > 0.0
    ensures Sq(x) > 0.0
  {
    ProductPositive(x, x, Sq(x));
  }

  /** Cubing is strictly increasing on the positive numbers. */
  lemma CubeMonotone(x: real, y: real)
    requires 0.0 < x < y
    ensures Cube(x) < Cube(y)
  {
    // Cube(y) - Cube(x) == (y - x) * (y^2 + x y + x^2), and both factors are positive.
    var w := Sq(y) + x * y + Sq(x);
    SqPos(x);
    SqPos(y);
    MulPos(x, y);
    ProductPositive(y - x, w, Cube(y) - Cube(x));
  }

  /** Two positive numbers with the same cube are equal. */
  lemma CubeInjective(x: real, y: real)
    requires x > 0.0 && y > 0.0 && Cube(x) == Cube(y)
    ensures x == y
  {
    if x < y {
      CubeMonotone(x, y);
      assert false;
    } else if y < x {
      CubeMonotone(y, x);
      assert false;
    }
  }

  /** The cylinder's radicand V cLat / (2 pi cBase) is positive and is the common
      stationary point p V cLat / (4 k^2 cBase) with k = pi and p = 2 pi. */
  lemma CylinderRadicand(pi: real, p: real, k: real, vol: real, cBase: real, cLat: real)
    requires pi > 0.0 && vol > 0.0 && cBase > 0.0 && cLat > 0.0
    requires p == 2.0 * pi && k == pi
    ensures (vol * cLat) / (2.0 * pi * cBase) > 0.0
    ensures 4.0 * Sq(k) * cBase > 0.0
    ensures (vol * cLat) / (2.0 * pi * cBase) == p * vol * cLat / (4.0 * Sq(k) * cBase)
  {
    MulPos(vol, cLat);
    MulPos(2.0 * pi, cBase);
    DivPos(vol * cLat, 2.0 * pi * cBase);
    SqPos(k);
    MulPos(4.0 * Sq(k), cBase);
    LessCommonFactor(2.0 * pi, vol * cLat, 2.0 * pi * cBase, p * vol * cLat, 4.0 * Sq(k) * cBase);
  }

  /** a / b == (c a) / (c b) for c, b != 0, stated over named products. */
  lemma LessCommonFactor(c: real, a: real, b: real, ca: real, cb: real)
    requires c != 0.0 && b != 0.0 && ca == c * a && cb == c * b
    ensures a / b == ca / cb
  {
  }

  /** The prism's radicand n V cLat / (4 k^2 cBase) is positive. */
  lemma PrismRadicand(n: real, k: real, vol: real, cBase: real, cLat: real)
    requires n > 0.0 && k > 0.0 && vol > 0.0 && cBase > 0.0 && cLat > 0.0
    ensures 4.0 * Sq(k) * cBase > 0.0
    ensures (n * vol * cLat) / (4.0 * Sq(k) * cBase) > 0.0
  {
    MulPos(n, vol);
    MulPos(n * vol, cLat);
    SqPos(k);
    MulPos(4.0 * Sq(k), cBase);
    DivPos(n * vol * cLat, 4.0 * Sq(k) * cBase);
  }

  lemma SqNonNeg(x: real)
    ensures Sq(x) >= 0.0
  {
  }

  lemma SqNonZero(x: real)
    requires x != 0.0
    ensures Sq(x) > 0.0
  {
    if x > 0.0 {
      SqPos(x);
    } else {
      ProductPositive(-x, -x, Sq(x));
    }
  }

  /** The height V / (k d^2) is positive and holds the volume: (k d^2) h == V. */
  lemma HeightHoldsVolume(k: real, d: real, vol: real)
    requires k > 0.0 && d > 0.0 && vol > 0.0
    ensures k * Sq(d) > 0.0
    ensures vol / (k * Sq(d)) > 0.0
    ensures (k * Sq(d)) * (vol / (k * Sq(d))) == vol
  {
    SqPos(d);
    ProductPositive(k, Sq(d), k * Sq(d));
    DivPos(vol, k * Sq(d));
  }

  /** The cost of the optimum, two caps and the wall, is positive. */
  lemma OptimumCostPositive(areaBase: real, areaSide: real, cBase: real, cLat: real)
    requires areaBase > 0.0 && areaSide > 0.0 && cBase > 0.0 && cLat > 0.0
    ensures (2.0 * areaBase * cBase) + (areaSide * cLat) > 0.0
  {
    MulPos(2.0 * areaBase, cBase);
    MulPos(areaSide, cLat);
  }

  /** The cylinder's cost at the optimum, 2 (k d^2) cBase + (2 pi d h) cLat with k = pi and
      h = V / (k d^2), is the sweep's 2 pi d^2 cBase + 2 V cLat / d. */
  lemma CylinderCost(pi: real, k: real, vol: real, cBase: real, cLat: real, d: real, h: real)
    requires pi > 0.0 && k == pi && d > 0.0 && k * Sq(d) > 0.0 && h == vol / (k * Sq(d))
    ensures (2.0 * (k * Sq(d)) * cBase) + ((2.0 * pi * d * h) * cLat)
            == (2.0 * pi * Sq(d) * cBase) + (2.0 * vol * cLat / d)
  {
    SqPos(d);
    assert 2.0 * pi * d * h == 2.0 * vol / d;
  }

  /** The prism's cost at the optimum, 2 (k d^2) cBase + (n d h) cLat with h = V / (k d^2),
      is the sweep's 2 k d^2 cBase + (n d)(V / (k d^2)) cLat. */
  lemma PrismCost(k: real, n: real, vol: real, cBase: real, cLat: real, d: real, h: real)
    requires k * Sq(d) != 0.0 && h == vol / (k * Sq(d))
    ensures (2.0 * (k * Sq(d)) * cBase) + (((n * d) * h) * cLat)
            == 2.0 * k * Sq(d) * cBase + (n * d) * (vol / (k * Sq(d))) * cLat
  {
  }

  /** The sweep's cylinder cost 2 pi d^2 cBase + 2 V cLat / d is a d^2 + b / d with
      a = 2 k cBase and b = p V cLat / k, for k = pi and p = 2 pi. */
  lemma CylinderCurveForm(pi: real, k: real, p: real, vol: real, cBase: real, cLat: real, d: real)
    requires pi > 0.0 && k == pi && p == 2.0 * pi && d > 0.0
    ensures (2.0 * pi * Sq(d) * cBase) + (2.0 * vol * cLat / d)
            == (2.0 * k * cBase) * Sq(d) + (p * vol * cLat / k) / d
  {
    assert p * vol * cLat / k == 2.0 * vol * cLat;
  }

  /** The sweep's prism cost 2 k d^2 cBase + (n d)(V / (k d^2)) cLat is a d^2 + b / d with
      a = 2 k cBase and b = n V cLat / k. */
  lemma PrismCurveForm(k: real, n: real, vol: real, cBase: real, cLat: real, d: real)
    requires k > 0.0 && d > 0.0 && k * Sq(d) > 0.0
    ensures 2.0 * k * Sq(d) * cBase + (n * d) * (vol / (k * Sq(d))) * cLat
            == (2.0 * k * cBase) * Sq(d) + (n * vol * cLat / k) / d
  {
    SqPos(d);
    assert (n * d) * (vol / (k * Sq(d))) == (n * vol / k) / d;
  }

  /** The stationary point d^3 = p V cLat / (4 k^2 cBase), restated as 2 a d^3 = b for the
      cost a d^2 + b / d with a = 2 k cBase and b = p V cLat / k. */
  lemma StationaryCondition(k: real, p: real, vol: real, cBase: real, cLat: real, d: real)
    requires k > 0.0 && cBase > 0.0 && 4.0 * Sq(k) * cBase > 0.0
    requires Cube(d) == p * vol * cLat / (4.0 * Sq(k) * cBase)
    ensures 2.0 * (2.0 * k * cBase) * Cube(d) == p * vol * cLat / k
  {
    SqPos(k);
    MulPos(4.0 * Sq(k), cBase);
  }

  /** d^3 - 3 x^2 d + 2 x^3 factors as (d - x)^2 (d + 2 x). */
  lemma CubicFactor(d: real, x: real)
    ensures Sq(d - x) * (d + 2.0 * x) == Sq(d) * d - 3.0 * Sq(x) * d + 2.0 * Sq(x) * x
  {
  }

  /** The inequality below over named squares `sd` = d^2, `sx` = x^2 and `sdx` = (d - x)^2:
      the gap times d is a (d - x)^2 (d + 2 x). */
  lemma ReciprocalGap(a: real, b: real, x: real, d: real, sd: real, sx: real, sdx: real)
    requires a > 0.0 && x > 0.0 && d > 0.0
    requires sdx >= 0.0 && (d != x ==> sdx > 0.0) && (d == x ==> sdx == 0.0)
    requires sdx * (d + 2.0 * x) == sd * d - 3.0 * sx * d + 2.0 * sx * x
    requires b == (2.0 * a * sx) * x
    ensures a * sd + b / d >= a * sx + b / x
    ensures a * sd + b / d == a * sx + b / x <==> d == x
  {
    var gap := (a * sd + b / d) - (a * sx + b / x);
    var q := d + 2.0 * x;
    assert (b / d) * d == b;
    assert b / x == 2.0 * a * sx;
    assert gap * d == a * sd * d + b - a * sx * d - 2.0 * a * sx * d;
    assert gap * d == (a * sdx) * q;
    ProductNonNeg(a, sdx, a * sdx);
    ProductNonNeg(a * sdx, q, gap * d);
    if d != x {
      ProductPositive(a, sdx, a * sdx);
      ProductPositive(a * sdx, q, gap * d);
    }
  }

  /** For a, x, d > 0 with 2 a x^3 = b, a d^2 + b / d is at least its value at x, with
      equality only at d = x. */
  lemma QuadraticPlusReciprocalMin(a: real, b: real, x: real, d: real)
    requires a > 0.0 && x > 0.0 && d > 0.0
    requires 2.0 * a * Cube(x) == b
    ensures a * Sq(d) + b / d >= a * Sq(x) + b / x
    ensures a * Sq(d) + b / d == a * Sq(x) + b / x <==> d == x
  {
    CubicFactor(d, x);
    SqNonNeg(d - x);
    if d != x {
      SqNonZero(d - x);
    }
    ReciprocalGap(a, b, x, d, Sq(d), Sq(x), Sq(d - x));
  }

  /** At a dimension x meeting the Lagrange condition, the cost 2 k cBase d^2 + (p V cLat / k) / d
      takes its unique minimum over all positive d. */
  lemma StationaryMinimum(k: real, p: real, vol: real, cBase: real, cLat: real, x: real, d: real)
    requires k > 0.0 && cBase > 0.0 && x > 0.0 && d > 0.0 && 4.0 * Sq(k) * cBase > 0.0
    requires Cube(x) == p * vol * cLat / (4.0 * Sq(k) * cBase)
    ensures (2.0 * k * cBase) * Sq(d) + (p * vol * cLat / k) / d
            >= (2.0 * k * cBase) * Sq(x) + (p * vol * cLat / k) / x
    ensures ((2.0 * k * cBase) * Sq(d) + (p * vol * cLat / k) / d
             == (2.0 * k * cBase) * Sq(x) + (p * vol * cLat / k) / x) <==> d == x
  {
    StationaryCondition(k, p, vol, cBase, cLat, x);
    MulPos(2.0 * k, cBase);
    QuadraticPlusReciprocalMin(2.0 * k * cBase, p * vol * cLat / k, x, d);
  }

  /** The product of two non-negative numbers, named `p`, is non-negative. */
  lemma ProductNonNeg(x: real, y: real, p: real)
    requires x >= 0.0 && y >= 0.0 && p == x * y
    ensures p >= 0.0
  {
  }

  /** A non-zero common factor cancels from an equation. */
  lemma CancelFactor(c: real, x: real, y: real)
    requires c != 0.0 && c * x == c * y
    ensures x == y
  {
  }

  /** The relation below over named powers: `sd` = d^2, `cd` = d^3 and `sk` = k^2, with
      `k2` a second name for k so that no product repeats a factor. */
  lemma HeightCore(k: real, k2: real, sk: real, p: real, vol: real, cBase: real, cLat: real,
                   d: real, sd: real, cd: real, h: real)
    requires k > 0.0 && p > 0.0 && cBase > 0.0 && cLat > 0.0 && d > 0.0 && sd > 0.0
    requires cd == sd * d && k2 == k && sk == k * k2
    requires cd * (4.0 * sk * cBase) == p * vol * cLat
    requires k * sd * h == vol
    ensures h == 4.0 * k * cBase * d / (p * cLat)
  {
    assert (k * sd) * (4.0 * k2 * cBase * d) == (k * sd) * (p * cLat * h);
    ProductPositive(k, sd, k * sd);
    CancelFactor(k * sd, 4.0 * k2 * cBase * d, p * cLat * h);
    ProductPositive(p, cLat, p * cLat);
  }

  /** At the stationary point d^3 = p V cLat / (4 k^2 cBase), the height that holds the
      volume, k d^2 h = V, is 4 k cBase d / (p cLat). */
  lemma HeightFromStationarity(k: real, p: real, vol: real, cBase: real, cLat: real, d: real, h: real)
    requires k > 0.0 && p > 0.0 && cBase > 0.0 && cLat > 0.0 && d > 0.0
    requires 4.0 * Sq(k) * cBase > 0.0
    requires Cube(d) == p * vol * cLat / (4.0 * Sq(k) * cBase)
    requires k * Sq(d) * h == vol
    ensures h == 4.0 * k * cBase * d / (p * cLat)
  {
    SqPos(d);
    assert Cube(d) * (4.0 * Sq(k) * cBase) == p * vol * cLat;
    HeightCore(k, k, Sq(k), p, vol, cBase, cLat, d, Sq(d), Cube(d), h);
  }

  /** The general shape relation with the cylinder's k = pi and p = 2 pi. */
  lemma CylinderHeightRatio(pi: real, k: real, p: real, cBase: real, cLat: real, d: real)
    requires pi > 0.0 && k == pi && p == 2.0 * pi && cLat > 0.0
    ensures 4.0 * k * cBase * d / (p * cLat) == 2.0 * d * cBase / cLat
  {
  }

  /** The general shape relation with the square's k = 1 and p = 4. */
  lemma SquareHeightRatio(cBase: real, cLat: real, d: real)
    requires cLat > 0.0
    ensures 4.0 * 1.0 * cBase * d / (4.0 * cLat) == d * cBase / cLat
  {
  }

  /** r^3 (4 pi^2 20) = 2 pi 1000 10 gives r^3 = 250 / pi; `pi2` is a second name for pi. */
  lemma DefaultRadiusCore(pi: real, pi2: real, sp: real, c: real)
    requires pi > 0.0 && pi2 == pi && sp == pi * pi2
    requires c * (4.0 * sp * 20.0) == (2.0 * pi) * 1000.0 * 10.0
    ensures c == 250.0 / pi
  {
    assert pi * (80.0 * pi2 * c) == pi * 20000.0;
    assert 80.0 * pi2 * c == 20000.0;
  }

  /** With r^3 = 250 / pi, written c = sr r, the cost 2 pi r^2 20 + 2 1000 10 / r is
      30000 / r. */
  lemma DefaultCostCore(pi: real, r: real, sr: real, c: real)
    requires pi > 0.0 && r > 0.0 && c == sr * r && c == 250.0 / pi
    ensures (2.0 * pi * sr * 20.0) + (2.0 * 1000.0 * 10.0 / r) == 30000.0 / r
  {
    assert pi * c == 250.0;
    assert (40.0 * pi * sr) * r == 10000.0;
    assert 40.0 * pi * sr == 10000.0 / r;
  }

  /** The default cylinder V = 1000, cBase = 20, cLat = 10: r^3 = 250 / pi and the cost
      at r is 30000 / r. */
  lemma DefaultCylinderNumbers(pi: real, r: real)
    requires pi > 0.0 && r > 0.0 && 4.0 * Sq(pi) * 20.0 > 0.0
    requires Cube(r) == (2.0 * pi) * 1000.0 * 10.0 / (4.0 * Sq(pi) * 20.0)
    ensures Cube(r) == 250.0 / pi
    ensures (2.0 * pi * Sq(r) * 20.0) + (2.0 * 1000.0 * 10.0 / r) == 30000.0 / r
  {
    assert Cube(r) * (4.0 * Sq(pi) * 20.0) == (2.0 * pi) * 1000.0 * 10.0;
    DefaultRadiusCore(pi, pi, Sq(pi), Cube(r));
    DefaultCostCore(pi, r, Sq(r), Cube(r));
  }

  /** k d^2 is non-zero when k and d are. */
  lemma NonZeroProduct(k: real, d: real)
    requires k != 0.0 && d != 0.0
    ensures k * Sq(d) != 0.0
  {
    SqNonZero(d);
  }

  // ---------------------------------------------------------------------------------
  // The mass integrals of a linear density rho(z) = rhoBase - b z over [0, h]

  /** With b = (rhoBase - rhoTop) / h, b h is the density drop over the height. */
  lemma GradientTimesHeight(h: real, rhoBase: real, rhoTop: real, b: real)
    requires h != 0.0 && b == (rhoBase - rhoTop) / h
    ensures b * h == rhoBase - rhoTop
    ensures b * Sq(h) == (rhoBase - rhoTop) * h
    ensures b * Cube(h) == (rhoBase - rhoTop) * Sq(h)
  {
    assert b * Sq(h) == (b * h) * h;
    assert b * Cube(h) == (b * h) * Sq(h);
  }

  /** The mass integral A (rhoBase h - b h^2 / 2) is the trapezoid A h (rhoBase + rhoTop) / 2. */
  lemma LinearDensityMass(a: real, h: real, rhoBase: real, rhoTop: real, b: real)
    requires h != 0.0 && b == (rhoBase - rhoTop) / h
    ensures a * (rhoBase * h - (b * Sq(h)) / 2.0) == a * h * (rhoBase + rhoTop) / 2.0
  {
    GradientTimesHeight(h, rhoBase, rhoTop, b);
  }

  /** The moment integral A (rhoBase h^2 / 2 - b h^3 / 3) is A h^2 (rhoBase + 2 rhoTop) / 6. */
  lemma LinearDensityMoment(a: real, h: real, rhoBase: real, rhoTop: real, b: real)
    requires h != 0.0 && b == (rhoBase - rhoTop) / h
    ensures a * ((rhoBase * Sq(h)) / 2.0 - (b * Cube(h)) / 3.0)
            == a * Sq(h) * (rhoBase + 2.0 * rhoTop) / 6.0
  {
    GradientTimesHeight(h, rhoBase, rhoTop, b);
  }

  /** The trapezoid mass vanishes exactly when the two end densities cancel. */
  lemma TrapezoidZero(a: real, h: real, rhoBase: real, rhoTop: real)
    requires a != 0.0 && h != 0.0
    ensures a * h * (rhoBase + rhoTop) / 2.0 == 0.0 <==> rhoBase + rhoTop == 0.0
  {
    if rhoBase + rhoTop != 0.0 {
      assert a * h != 0.0;
      assert (a * h) * (rhoBase + rhoTop) != 0.0;
    }
  }

  /** Moment over mass: the A and one h cancel, leaving h (rhoBase + 2 rhoTop) / (3 (rhoBase + rhoTop)). */
  lemma CentroidQuotient(a: real, h: real, rhoBase: real, rhoTop: real)
    requires a != 0.0 && h != 0.0 && rhoBase + rhoTop != 0.0
    ensures a * h * (rhoBase + rhoTop) / 2.0 != 0.0
    ensures (a * Sq(h) * (rhoBase + 2.0 * rhoTop) / 6.0) / (a * h * (rhoBase + rhoTop) / 2.0)
            == h * (rhoBase + 2.0 * rhoTop) / (3.0 * (rhoBase + rhoTop))
  {
    TrapezoidZero(a, h, rhoBase, rhoTop);
    var m := a * h * (rhoBase + rhoTop) / 2.0;
    var c := h * (rhoBase + 2.0 * rhoTop) / (3.0 * (rhoBase + rhoTop));
    assert c * m == a * Sq(h) * (rhoBase + 2.0 * rhoTop) / 6.0 by {
      assert c * (3.0 * (rhoBase + rhoTop)) == h * (rhoBase + 2.0 * rhoTop);
      calc {
        c * m;
        (c * (3.0 * (rhoBase + rhoTop))) * (a * h) / 6.0;
        (h * (rhoBase + 2.0 * rhoTop)) * (a * h) / 6.0;
      }
    }
  }

  /** Between positive end densities the centroid h (rb + 2 rt) / (3 (rb + rt)) lies strictly
      between a third and two thirds of the height, and at or below half of it exactly when
      the top is no denser than the base. */
  lemma CentroidBounds(h: real, rhoBase: real, rhoTop: real, c: real)
    requires h > 0.0 && rhoBase > 0.0 && rhoTop > 0.0
    requires c == h * (rhoBase + 2.0 * rhoTop) / (3.0 * (rhoBase + rhoTop))
    ensures h / 3.0 < c < 2.0 * h / 3.0
    ensures c <= h / 2.0 <==> rhoTop <= rhoBase
    ensures c == h / 2.0 <==> rhoTop == rhoBase
  {
    var s := rhoBase + rhoTop;
    assert c * (3.0 * s) == h * (rhoBase + 2.0 * rhoTop);
    var low, high, mid := 3.0 * c - h, 2.0 * h - 3.0 * c, 3.0 * c - 1.5 * h;
    assert low * s == h * rhoTop;
    assert high * s == h * rhoBase;
    assert mid * s == 0.5 * h * (rhoTop - rhoBase);
    MulPos(h, rhoTop);
    MulPos(h, rhoBase);
    SignOfProduct(low, s);
    SignOfProduct(high, s);
    SignOfScaled(mid, s, h, rhoTop - rhoBase);
  }

  /** A product with a positive factor is positive only when the other factor is. */
  lemma SignOfProduct(x: real, s: real)
    requires s > 0.0 && x * s > 0.0
    ensures x > 0.0
  {
    if x <= 0.0 {
      MulNonNeg(-x, s);
    }
  }

  /** From x s == h y / 2 with s and h positive, x and y have the same sign. */
  lemma SignOfScaled(x: real, s: real, h: real, y: real)
    requires s > 0.0 && h > 0.0 && x * s == 0.5 * h * y
    ensures x <= 0.0 <==> y <= 0.0
    ensures x == 0.0 <==> y == 0.0
  {
    if x > 0.0 { MulPos(x, s); if y <= 0.0 { MulNonNeg(h, -y); } }
    if x < 0.0 { MulPos(-x, s); if y >= 0.0 { MulNonNeg(h, y); } }
  }

  // ---------------------------------------------------------------------------------
  // Newton cooling: a temperature gap scaled by a decay factor

  /** Scaling the gap b - a by a factor e in (0, 1] keeps it between 0 and b - a. */
  lemma ScaledGap(a: real, b: real, e: real)
    requires 0.0 < e <= 1.0
    ensures b >= a ==> 0.0 <= (b - a) * e <= b - a
    ensures b <= a ==> b - a <= (b - a) * e <= 0.0
  {
    if b >= a {
      MulNonNeg(b - a, e);
      MulNonNeg(b - a, 1.0 - e);
    } else {
      MulNonNeg(a - b, e);
      MulNonNeg(a - b, 1.0 - e);
    }
  }

  /** A smaller factor shrinks a non-negative gap b - a and raises a non-positive one. */
  lemma ScaledGapMonotone(a: real, b: real, e1: real, e2: real)
    requires e2 <= e1
    ensures b >= a ==> (b - a) * e2 <= (b - a) * e1
    ensures b <= a ==> (b - a) * e2 >= (b - a) * e1
  {
    if b >= a {
      MulNonNeg(b - a, e1 - e2);
    } else {
      MulNonNeg(a - b, e1 - e2);
    }
  }
}
