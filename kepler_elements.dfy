/** Two-body helpers of the Gauss method: the truncated Lagrange coefficients
    (`lagrangef`, `lagrangeg`) and the conversion of a Cartesian state
    (x, y, z, u, v, w) to the angular momentum (`kep_h_vec`, `kep_h_norm`),
    the semi-major axis (`semimajoraxis`) and the eccentricity
    (`eccentricity`).

    Square roots are not modelled: `semimajoraxis` and `eccentricity` take the
    radius |r| as a parameter, constrained by radius > 0 and
    radius * radius == x^2 + y^2 + z^2, and the eccentricity and the norm of the
    angular momentum are modelled by the radicands the source takes the root of. */
module KeplerElements {
  import opened Vectors

  // ---- Lagrange coefficients ----

  /** `lagrangef`: f = 1 - (mu / r^3) tau^2 / 2, the series of the Lagrange
      coefficient f cut after its second-order term. */
  function LagrangeF(mu: real, r2: real, tau: real): real
    requires r2 != 0.0
  {
    1.0 - 0.5 * (mu / (r2 * r2 * r2)) * (tau * tau)
  }

  /** `lagrangeg`: g = tau - (mu / r^3) tau^3 / 6, the series of g cut after
      its third-order term. */
  function LagrangeG(mu: real, r2: real, tau: real): real
    requires r2 != 0.0
  {
    tau - (1.0 / 6.0) * (mu / (r2 * r2 * r2)) * (tau * tau * tau)
  }

  /** Under an attracting body (mu / r^3 >= 0) f never exceeds its value 1 at
      the epoch, and stays below it away from the epoch when mu / r^3 > 0. */
  lemma LagrangeFBound(mu: real, r2: real, tau: real)
    requires r2 != 0.0
    ensures mu / (r2 * r2 * r2) >= 0.0 ==> LagrangeF(mu, r2, tau) <= 1.0
    ensures mu / (r2 * r2 * r2) > 0.0 && tau != 0.0 ==> LagrangeF(mu, r2, tau) < 1.0
  {
    SquareSign(mu / (r2 * r2 * r2), tau, tau * tau);
  }

  /** Under an attracting body g lags behind tau forward in time and runs
      ahead of it backward. */
  lemma LagrangeGBound(mu: real, r2: real, tau: real)
    requires r2 != 0.0
    ensures mu / (r2 * r2 * r2) >= 0.0 && tau >= 0.0 ==> LagrangeG(mu, r2, tau) <= tau
    ensures mu / (r2 * r2 * r2) >= 0.0 && tau <= 0.0 ==> LagrangeG(mu, r2, tau) >= tau
  {
    SquareNonnegative(tau, tau * tau);
    CubeSign(mu / (r2 * r2 * r2), tau, tau * tau);
  }

  lemma SquareSign(k: real, tau: real, tt: real)
    requires tt == tau * tau
    ensures k >= 0.0 ==> k * tt >= 0.0
    ensures k > 0.0 && tau != 0.0 ==> k * tt > 0.0
  {
    SquareNonnegative(tau, tt);
    if k > 0.0 && tau != 0.0 {
      SquarePositive(tau, tt);
      ProductPositive(k, tt, k * tt);
    } else if k >= 0.0 && k * tt < 0.0 {
      if k > 0.0 && tt > 0.0 {
        ProductPositive(k, tt, k * tt);
      }
    }
  }

  lemma CubeSign(k: real, tau: real, tt: real)
    requires tt == tau * tau && tt >= 0.0
    ensures k >= 0.0 && tau >= 0.0 ==> k * (tau * tau * tau) >= 0.0
    ensures k >= 0.0 && tau <= 0.0 ==> k * (tau * tau * tau) <= 0.0
  {
    if k >= 0.0 && tau >= 0.0 {
      assert tau * tau * tau == tt * tau;
      assert tt * tau >= 0.0;
      assert k * (tt * tau) >= 0.0;
    } else if k >= 0.0 && tau <= 0.0 {
      assert tau * tau * tau == tt * tau;
      assert tt * tau <= 0.0;
      assert k * (tt * tau) <= 0.0;
    }
  }

  /** At the epoch itself (tau = 0) the state is unchanged: f = 1 and g = 0. */
  lemma LagrangeAtEpoch(mu: real, r2: real)
    requires r2 != 0.0
    ensures LagrangeF(mu, r2, 0.0) == 1.0 && LagrangeG(mu, r2, 0.0) == 0.0
  {
  }

  /** Running time backwards: f is even in tau and g is odd. */
  lemma LagrangeTimeReversal(mu: real, r2: real, tau: real)
    requires r2 != 0.0
    ensures LagrangeF(mu, r2, -tau) == LagrangeF(mu, r2, tau)
    ensures LagrangeG(mu, r2, -tau) == -LagrangeG(mu, r2, tau)
  {
  }

  /** The denominator f1 g3 - f3 g1 of the velocity in the Gauss method, in
      closed form: with k = mu / r^3 and tau = tau3 - tau1 it is
      tau (1 - k tau^2 / 6 + k^2 tau1^2 tau3^2 / 12). */
  lemma {:induction false} LagrangeDeterminant(mu: real, r2: real, tau1: real, tau3: real)
    requires r2 != 0.0
    ensures var k := mu / (r2 * r2 * r2);
            var tau := tau3 - tau1;
            LagrangeF(mu, r2, tau1) * LagrangeG(mu, r2, tau3) - LagrangeF(mu, r2, tau3) * LagrangeG(mu, r2, tau1)
              == tau * (1.0 - k * tau * tau / 6.0 + k * k * tau1 * tau1 * tau3 * tau3 / 12.0)
  {
    var k := mu / (r2 * r2 * r2);
    DeterminantScalars(k, tau1, tau3,
                       LagrangeF(mu, r2, tau1), LagrangeG(mu, r2, tau3),
                       LagrangeF(mu, r2, tau3), LagrangeG(mu, r2, tau1));
  }

  lemma DeterminantScalars(k: real, t1: real, t3: real, f1: real, g3: real, f3: real, g1: real)
    requires f1 == 1.0 - 0.5 * k * (t1 * t1) && f3 == 1.0 - 0.5 * k * (t3 * t3)
    requires g1 == t1 - (1.0 / 6.0) * k * (t1 * t1 * t1) && g3 == t3 - (1.0 / 6.0) * k * (t3 * t3 * t3)
    ensures f1 * g3 - f3 * g1
         == (t3 - t1) * (1.0 - k * (t3 - t1) * (t3 - t1) / 6.0 + k * k * t1 * t1 * t3 * t3 / 12.0)
  {
  }

  /** For an arc short enough that mu tau^2 < 6 r^3 (with mu and r positive),
      the denominator f1 g3 - f3 g1 is not zero unless the arc is empty. */
  lemma {:induction false} ShortArcDeterminant(mu: real, r2: real, tau1: real, tau3: real)
    requires mu > 0.0 && r2 > 0.0 && tau1 != tau3
    requires mu * ((tau3 - tau1) * (tau3 - tau1)) < 6.0 * (r2 * r2 * r2)
    ensures LagrangeF(mu, r2, tau1) * LagrangeG(mu, r2, tau3) - LagrangeF(mu, r2, tau3) * LagrangeG(mu, r2, tau1) != 0.0
  {
    ProductPositive(r2, r2, r2 * r2);
    ProductPositive(r2 * r2, r2, r2 * r2 * r2);
    LagrangeDeterminant(mu, r2, tau1, tau3);
    ShortArcNonzero(mu, r2 * r2 * r2, mu / (r2 * r2 * r2), tau3 - tau1, tau1, tau3,
                    LagrangeF(mu, r2, tau1) * LagrangeG(mu, r2, tau3) - LagrangeF(mu, r2, tau3) * LagrangeG(mu, r2, tau1));
  }

  /** The closed form tau (1 - k tau^2 / 6 + k^2 tau1^2 tau3^2 / 12) is not
      zero when tau is not and k tau^2 < 6. */
  lemma ShortArcNonzero(mu: real, cube: real, k: real, tau: real, tau1: real, tau3: real, det: real)
    requires cube > 0.0 && k == mu / cube && tau == tau3 - tau1 && tau1 != tau3
    requires mu * (tau * tau) < 6.0 * cube
    requires det == tau * (1.0 - k * tau * tau / 6.0 + k * k * tau1 * tau1 * tau3 * tau3 / 12.0)
    ensures det != 0.0
  {
    var tt := tau * tau;
    var m := k * tau1 * tau3;
    var bracket := 1.0 - k * tau * tau / 6.0 + k * k * tau1 * tau1 * tau3 * tau3 / 12.0;
    BracketForms(k, tau, tau1, tau3, tt, m, bracket);
    ShortArcBracket(mu, cube, k, tt, m, bracket);
    NonzeroProduct(tau, bracket, det);
  }

  lemma NonzeroProduct(a: real, b: real, p: real)
    requires a != 0.0 && b > 0.0 && p == a * b
    ensures p != 0.0
  {
    if p == 0.0 {
      ProductZero(a, b, p);
    }
  }

  lemma BracketForms(k: real, tau: real, tau1: real, tau3: real, tt: real, m: real, bracket: real)
    requires tt == tau * tau && m == k * tau1 * tau3
    requires bracket == 1.0 - k * tau * tau / 6.0 + k * k * tau1 * tau1 * tau3 * tau3 / 12.0
    ensures bracket == 1.0 - k * tt / 6.0 + m * m / 12.0
  {
  }

  lemma ShortArcBracket(mu: real, cube: real, k: real, tt: real, m: real, bracket: real)
    requires cube > 0.0 && k == mu / cube && mu * tt < 6.0 * cube
    requires bracket == 1.0 - k * tt / 6.0 + m * m / 12.0
    ensures bracket > 0.0
  {
    SquareNonnegative(m, m * m);
    assert k * tt == (mu * tt) / cube;
    assert (mu * tt) / cube < 6.0;
  }

  // ---- angular momentum ----

  /** `kep_h_vec`: the specific angular momentum r x v of the state; it is
      perpendicular to both the position and the velocity. */
  function KepHVec(x: real, y: real, z: real, u: real, v: real, w: real): (h: Vec3)
    ensures Dot(h, Vec3(x, y, z)) == 0.0 && Dot(h, Vec3(u, v, w)) == 0.0
  {
    Vec3(y * w - z * v, z * u - x * w, x * v - y * u)
  }

  /** The angular momentum is the cross product of position and velocity. */
  lemma KepHVecIsCross(x: real, y: real, z: real, u: real, v: real, w: real)
    ensures KepHVec(x, y, z, u, v, w) == Cross(Vec3(x, y, z), Vec3(u, v, w))
  {
  }

  /** The squared norm of the angular momentum, the radicand of `kep_h_norm`
      and the `h2` of `eccentricity`. By Lagrange's identity it is
      |r|^2 |v|^2 - (r . v)^2; it is zero exactly when the angular momentum
      vector is. */
  function KepHNormSquared(x: real, y: real, z: real, u: real, v: real, w: real): (h2: real)
    ensures h2 >= 0.0
    ensures h2 == 0.0 <==> KepHVec(x, y, z, u, v, w) == Zero
    ensures h2 == NormSquared(Vec3(x, y, z)) * NormSquared(Vec3(u, v, w)) - Dot(Vec3(x, y, z), Vec3(u, v, w)) * Dot(Vec3(x, y, z), Vec3(u, v, w))
  {
    KepHVecIsCross(x, y, z, u, v, w);
    LagrangeIdentity(Vec3(x, y, z), Vec3(u, v, w));
    NormSquared(KepHVec(x, y, z, u, v, w))
  }

  // ---- semi-major axis and eccentricity ----

  /** The conditions under which `semimajoraxis` and `eccentricity` divide by
      non-zero numbers: a positive radius that is |r|, a non-zero mu, and an
      orbit that is not parabolic (2 / |r| != v^2 / mu). */
  predicate ValidState(x: real, y: real, z: real, u: real, v: real, w: real, mu: real, radius: real) {
    && radius > 0.0
    && radius * radius == x * x + y * y + z * z
    && mu != 0.0
    && 2.0 / radius - (u * u + v * v + w * w) / mu != 0.0
  }

  /** `semimajoraxis`: a = 1 / (2 / |r| - v^2 / mu). It satisfies the vis-viva
      equation v^2 / 2 - mu / |r| = -mu / (2 a). */
  function SemiMajorAxis(x: real, y: real, z: real, u: real, v: real, w: real, mu: real, radius: real): (a: real)
    requires ValidState(x, y, z, u, v, w, mu, radius)
    ensures a != 0.0
    ensures (u * u + v * v + w * w) / 2.0 - mu / radius == -mu / (2.0 * a)
  {
    var velSqr := u * u + v * v + w * w;
    VisViva(velSqr, mu, radius, 2.0 / radius - velSqr / mu);
    1.0 / (2.0 / radius - velSqr / mu)
  }

  lemma VisViva(velSqr: real, mu: real, radius: real, d: real)
    requires radius != 0.0 && mu != 0.0 && d != 0.0
    requires d == 2.0 / radius - velSqr / mu
    ensures 1.0 / d != 0.0
    ensures velSqr / 2.0 - mu / radius == -mu / (2.0 * (1.0 / d))
  {
    var a := 1.0 / d;
    assert a * d == 1.0;
    assert -mu / (2.0 * a) == -mu * d / 2.0;
    assert mu * (velSqr / mu) == velSqr;
    assert mu * (2.0 / radius) == 2.0 * (mu / radius);
  }

  /** The eccentricity vector (Laplace-Runge-Lenz vector divided by mu):
      e = ((v^2 - mu / |r|) r - (r . v) v) / mu. */
  function EccentricityVector(r: Vec3, vel: Vec3, mu: real, radius: real): Vec3
    requires mu != 0.0 && radius != 0.0
  {
    Scale(1.0 / mu, Sub(Scale(NormSquared(vel) - mu / radius, r), Scale(Dot(r, vel), vel)))
  }

  /** The radicand 1 - h^2 / (mu a) of `eccentricity`: it is the squared
      length of the eccentricity vector, so it is never negative and the
      square root the source takes is always defined. */
  function EccentricitySquared(x: real, y: real, z: real, u: real, v: real, w: real, mu: real, radius: real): (e2: real)
    requires ValidState(x, y, z, u, v, w, mu, radius)
    ensures e2 == NormSquared(EccentricityVector(Vec3(x, y, z), Vec3(u, v, w), mu, radius))
    ensures e2 >= 0.0
  {
    EccentricityIsLrlNorm(x, y, z, u, v, w, mu, radius);
    EccentricityRadicand(KepHNormSquared(x, y, z, u, v, w), mu, SemiMajorAxis(x, y, z, u, v, w, mu, radius))
  }

  /** The expression 1 - h^2 / (mu a) under the square root of `eccentricity`. */
  function EccentricityRadicand(h2: real, mu: real, a: real): real
    requires mu != 0.0 && a != 0.0
  {
    1.0 - h2 / (mu * a)
  }

  /** alpha^2 |r|^2 - 2 alpha (r . v)^2 + (r . v)^2 |v|^2, the squared length
      of alpha r - (r . v) v, from rr = |r|^2, q = |v|^2 and s = r . v. */
  function LrlInner(rr: real, q: real, s: real, alpha: real): real {
    alpha * alpha * rr - 2.0 * alpha * s * s + s * s * q
  }

  /** k^2 n: the squared length of a vector of squared length n scaled by k. */
  function ScaledSquare(k: real, n: real): real {
    k * k * n
  }

  lemma {:induction false} EccentricityIsLrlNorm(x: real, y: real, z: real, u: real, v: real, w: real, mu: real, radius: real)
    requires ValidState(x, y, z, u, v, w, mu, radius)
    ensures EccentricityRadicand(KepHNormSquared(x, y, z, u, v, w), mu, SemiMajorAxis(x, y, z, u, v, w, mu, radius))
         == NormSquared(EccentricityVector(Vec3(x, y, z), Vec3(u, v, w), mu, radius))
  {
    LrlNormExpanded(Vec3(x, y, z), Vec3(u, v, w), mu, radius);
    RadicandExpanded(x, y, z, u, v, w, mu, radius);
  }

  /** The radicand over |r|^2, |v|^2 and r . v. */
  lemma RadicandExpanded(x: real, y: real, z: real, u: real, v: real, w: real, mu: real, radius: real)
    requires ValidState(x, y, z, u, v, w, mu, radius)
    ensures EccentricityRadicand(KepHNormSquared(x, y, z, u, v, w), mu, SemiMajorAxis(x, y, z, u, v, w, mu, radius))
         == ScaledSquare(1.0 / mu, LrlInner(NormSquared(Vec3(x, y, z)), NormSquared(Vec3(u, v, w)),
                                            Dot(Vec3(x, y, z), Vec3(u, v, w)), NormSquared(Vec3(u, v, w)) - mu / radius))
  {
    EccentricityScalars(NormSquared(Vec3(x, y, z)), NormSquared(Vec3(u, v, w)), Dot(Vec3(x, y, z), Vec3(u, v, w)),
                        KepHNormSquared(x, y, z, u, v, w), mu, radius, 2.0 / radius - (u * u + v * v + w * w) / mu,
                        SemiMajorAxis(x, y, z, u, v, w, mu, radius), NormSquared(Vec3(u, v, w)) - mu / radius, 1.0 / mu,
                        LrlInner(NormSquared(Vec3(x, y, z)), NormSquared(Vec3(u, v, w)),
                                 Dot(Vec3(x, y, z), Vec3(u, v, w)), NormSquared(Vec3(u, v, w)) - mu / radius));
  }

  /** The squared length of the eccentricity vector over |r|^2, |v|^2 and r . v. */
  lemma LrlNormExpanded(rv: Vec3, vv: Vec3, mu: real, radius: real)
    requires mu != 0.0 && radius != 0.0
    ensures NormSquared(EccentricityVector(rv, vv, mu, radius))
         == ScaledSquare(1.0 / mu, LrlInner(NormSquared(rv), NormSquared(vv), Dot(rv, vv), NormSquared(vv) - mu / radius))
  {
    EccentricityVectorScaled(rv, vv, mu, radius);
    LrlInnerNorm(rv, vv, NormSquared(vv) - mu / radius);
  }

  lemma EccentricityVectorScaled(rv: Vec3, vv: Vec3, mu: real, radius: real)
    requires mu != 0.0 && radius != 0.0
    ensures NormSquared(EccentricityVector(rv, vv, mu, radius))
         == ScaledSquare(1.0 / mu, NormSquared(Sub(Scale(NormSquared(vv) - mu / radius, rv), Scale(Dot(rv, vv), vv))))
  {
    NormSquaredScale(1.0 / mu, Sub(Scale(NormSquared(vv) - mu / radius, rv), Scale(Dot(rv, vv), vv)));
  }

  lemma LrlInnerNorm(rv: Vec3, vv: Vec3, alpha: real)
    ensures NormSquared(Sub(Scale(alpha, rv), Scale(Dot(rv, vv), vv)))
         == LrlInner(NormSquared(rv), NormSquared(vv), Dot(rv, vv), alpha)
  {
    NormSquaredCombination(alpha, rv, Dot(rv, vv), vv);
  }

  /** The scalar identity behind EccentricityIsLrlNorm. */
  lemma EccentricityScalars(rr: real, q: real, s: real, h2: real, mu: real, radius: real,
                            d: real, a: real, alpha: real, im: real, lrl2: real)
    requires radius != 0.0 && mu != 0.0 && d != 0.0
    requires rr == radius * radius && h2 == rr * q - s * s
    requires d == 2.0 / radius - q / mu && a == 1.0 / d
    requires alpha == q - mu / radius && im == 1.0 / mu
    requires lrl2 == LrlInner(rr, q, s, alpha)
    ensures a != 0.0 && EccentricityRadicand(h2, mu, a) == ScaledSquare(im, lrl2)
  {
    RadicandPolynomial(rr, q, s, h2, mu, radius, d, a, alpha, im, lrl2);
  }

  lemma RadicandPolynomial(rr: real, q: real, s: real, h2: real, mu: real, radius: real,
                           d: real, a: real, alpha: real, im: real, lrl2: real)
    requires radius != 0.0 && mu != 0.0 && d != 0.0
    requires rr == radius * radius && h2 == rr * q - s * s
    requires d == 2.0 / radius - q / mu && a == 1.0 / d
    requires alpha == q - mu / radius && im == 1.0 / mu
    requires lrl2 == alpha * alpha * rr - 2.0 * alpha * s * s + s * s * q
    ensures a != 0.0 && 1.0 - h2 / (mu * a) == im * im * lrl2
  {
    var ir := 1.0 / radius;
    assert radius * ir == 1.0;
    assert mu * im == 1.0;
    assert a * d == 1.0;
    assert h2 / (mu * a) == h2 * d * im;
    assert d == 2.0 * ir - q * im;
    assert alpha == q - mu * ir;
    assert im * im * lrl2
        == im * im * q * q * rr - 2.0 * q * radius * im + 1.0 - q * s * s * im * im + 2.0 * ir * s * s * im;
  }

  /** A circular orbit, whose velocity is perpendicular to the radius with
      v^2 = mu / |r|, has eccentricity zero. */
  lemma {:induction false} CircularOrbit(x: real, y: real, z: real, u: real, v: real, w: real, mu: real, radius: real)
    requires ValidState(x, y, z, u, v, w, mu, radius)
    requires x * u + y * v + z * w == 0.0
    requires u * u + v * v + w * w == mu / radius
    ensures EccentricitySquared(x, y, z, u, v, w, mu, radius) == 0.0
  {
    var rv, vv := Vec3(x, y, z), Vec3(u, v, w);
    assert NormSquared(vv) - mu / radius == 0.0;
    assert Dot(rv, vv) == 0.0;
    assert EccentricityVector(rv, vv, mu, radius) == Zero;
  }
}
