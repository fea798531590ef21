/** The first-order Gauss method of preliminary orbit determination: from three
    observations of a body, each a line-of-sight unit vector and the observer's
    heliocentric position, estimate the body's position at the three epochs and
    its velocity at the middle one.

    The source runs the method as a script; here it is a method with the
    script's inputs as parameters: the lines of sight (`rho1`, `rho2`, `rho3` in
    the source), the observer positions (the rows of `R`), the time offsets
    tau1 and tau3 of the first and third observation from the second (seconds),
    the gravitational parameter mu, and the root r2* of the eighth-degree Gauss
    polynomial that the source finds with Newton's method.

    Where the source divides by zero (it would stop or carry inf/nan on), the
    model returns an error naming the quantity that vanished. */
module Gauss {
  import opened Vectors
  import opened KeplerElements

  datatype GaussError =
    | ZeroTimeSpan          // tau = tau3 - tau1 is zero
    | CoplanarLinesOfSight  // D0, the triple product of the lines of sight, is zero
    | ZeroTau3
    | ZeroDen1
    | ZeroRadius            // r2* is zero
    | ZeroTau1
    | ZeroDen3
    | SingularLagrange      // f1 g3 - f3 g1 is zero

  datatype Result<T> = Success(value: T) | Failure(error: GaussError)

  /** The three observations: lines of sight, observer positions and the
      time offsets from the middle observation. */
  datatype Observations = Observations(
    los1: Vec3, los2: Vec3, los3: Vec3,
    obs1: Vec3, obs2: Vec3, obs3: Vec3,
    tau1: real, tau3: real)

  /** The coefficients of the Gauss polynomial x^8 + a x^6 + b x^3 + c and the
      quantities A, B, E and |R2|^2 they are made of. */
  datatype Coefficients = Coefficients(A: real, B: real, E: real, R2Squared: real, a: real, b: real, c: real)

  /** The estimate: the Gauss polynomial whose root r2* is, the slant ranges,
      the heliocentric positions and the velocity at the middle observation. */
  datatype Estimate = Estimate(poly: Coefficients, rho1: real, rho2: real, rho3: real,
                               r1: Vec3, r2: Vec3, r3: Vec3, v2: Vec3)

  // ---- the specification of the method ----

  function Tau(o: Observations): real {
    o.tau3 - o.tau1
  }

  /** The array R: observer positions. */
  function ObserverPositions(o: Observations): seq<Vec3> {
    [o.obs1, o.obs2, o.obs3]
  }

  /** The array p: cross products of pairs of lines of sight. */
  function CrossProducts(o: Observations): seq<Vec3> {
    [Cross(o.los2, o.los3), Cross(o.los1, o.los3), Cross(o.los1, o.los2)]
  }

  /** D0 = rho1 . p[0]. */
  function D0(o: Observations): real {
    Dot(o.los1, CrossProducts(o)[0])
  }

  /** D[i, j] = R[i] . p[j]. */
  function DEntry(o: Observations, i: nat, j: nat): real
    requires i < 3 && j < 3
  {
    Dot(ObserverPositions(o)[i], CrossProducts(o)[j])
  }

  // The source's formulas, over the scalars it computes them from.

  /** A = (-D[0,1] tau3/tau + D[1,1] + D[2,1] tau1/tau) / D0. */
  function CoefA(d01: real, d11: real, d21: real, d0: real, tau1: real, tau3: real, tau: real): real
    requires tau != 0.0 && d0 != 0.0
  {
    (-d01 * (tau3 / tau) + d11 + d21 * (tau1 / tau)) / d0
  }

  /** B = (D[0,1] (tau3^2 - tau^2) tau3/tau + D[2,1] (tau^2 - tau1^2) tau1/tau) / (6 D0). */
  function CoefB(d01: real, d21: real, d0: real, tau1: real, tau3: real, tau: real): real
    requires tau != 0.0 && d0 != 0.0
  {
    (d01 * (tau3 * tau3 - tau * tau) * (tau3 / tau) + d21 * (tau * tau - tau1 * tau1) * (tau1 / tau)) / (6.0 * d0)
  }

  /** The coefficients a, b and c of the Gauss polynomial, from A, B, E and |R2|^2. */
  function PolynomialOf(capA: real, capB: real, capE: real, r2sq: real, mu: real): (k: Coefficients)
    ensures k.c <= 0.0
  {
    var c := -(mu * mu) * (capB * capB);
    ConstantTermNonPositive(mu, capB, c);
    Coefficients(capA, capB, capE, r2sq, -(capA * capA + 2.0 * capA * capE + r2sq), -2.0 * mu * capB * (capA + capE), c)
  }

  lemma ConstantTermNonPositive(mu: real, capB: real, c: real)
    requires c == -(mu * mu) * (capB * capB)
    ensures c <= 0.0
  {
    var m2, b2 := mu * mu, capB * capB;
    SquareNonnegative(mu, m2);
    SquareNonnegative(capB, b2);
    if m2 > 0.0 && b2 > 0.0 {
      ProductPositive(m2, b2, m2 * b2);
    }
  }

  function Num1(d10: real, d20: real, tau1: real, tau3: real, tau: real, mu: real, cube: real): real
    requires tau3 != 0.0
  {
    6.0 * (d20 * (tau1 / tau3) + d10 * (tau / tau3)) * cube + mu * d20 * (tau * tau - tau1 * tau1) * (tau1 / tau3)
  }

  function Den1(tau3: real, tau: real, mu: real, cube: real): real {
    6.0 * cube + mu * (tau * tau - tau3 * tau3)
  }

  function Num3(d02: real, d12: real, tau1: real, tau3: real, tau: real, mu: real, cube: real): real
    requires tau1 != 0.0
  {
    6.0 * (d02 * (tau3 / tau1) - d12 * (tau / tau1)) * cube + mu * d02 * (tau * tau - tau3 * tau3) * (tau3 / tau1)
  }

  function Den3(tau1: real, tau: real, mu: real, cube: real): real {
    6.0 * cube + mu * (tau * tau - tau1 * tau1)
  }

  /** `rho_1_` and `rho_3_`: ((num / den) - D[i,i]) / D0. */
  function OuterRange(num: real, den: real, dii: real, d0: real): real
    requires den != 0.0 && d0 != 0.0
  {
    ((num / den) - dii) / d0
  }

  /** `rho_2_` = A + mu B / r2*^3. */
  function MiddleRange(capA: real, capB: real, mu: real, cube: real): real
    requires cube != 0.0
  {
    capA + (mu * capB) / cube
  }

  /** v2 = (-f3 r1 + f1 r3) / (f1 g3 - f3 g1): the one vector v with
      (f1 g3 - f3 g1) v = -f3 r1 + f1 r3. */
  function Velocity(f1: real, g1: real, f3: real, g3: real, r1: Vec3, r3: Vec3): (v: Vec3)
    requires f1 * g3 - f3 * g1 != 0.0
    ensures Scale(f1 * g3 - f3 * g1, v) == Add(Scale(-f3, r1), Scale(f1, r3))
  {
    ScaleBack(f1 * g3 - f3 * g1, Add(Scale(-f3, r1), Scale(f1, r3)));
    Scale(1.0 / (f1 * g3 - f3 * g1), Add(Scale(-f3, r1), Scale(f1, r3)))
  }

  /** `mygaussfun`: the Gauss polynomial x^8 + a x^6 + b x^3 + c. */
  function GaussPolynomial(k: Coefficients, x: real): real {
    x * x * x * x * x * x * x * x + k.a * (x * x * x * x * x * x) + k.b * (x * x * x) + k.c
  }

  function Abs(t: real): (r: real)
    ensures r >= 0.0 && -r <= t <= r
  {
    if t < 0.0 then -t else t
  }

  /** `mygaussfun` at 0 is c <= 0, and from 1 + |a| + |b| + |c| on it is
      positive. When c < 0 (mu B != 0) it changes sign on (0, x), which by
      continuity brackets a root; when c = 0 the root may be 0 alone. */
  lemma {:induction false} GaussPolynomialSignChange(k: Coefficients, x: real)
    requires k.c <= 0.0
    requires x >= 1.0 + Abs(k.a) + Abs(k.b) + Abs(k.c)
    ensures GaussPolynomial(k, 0.0) <= 0.0
    ensures k.c < 0.0 ==> GaussPolynomial(k, 0.0) < 0.0
    ensures GaussPolynomial(k, x) > 0.0
  {
    PositiveBeyondBound(k, x);
  }

  /** Every root of `mygaussfun`, whatever the sign of c, lies below
      1 + |a| + |b| + |c|. */
  lemma {:induction false} GaussPolynomialRootBound(k: Coefficients, t: real)
    requires GaussPolynomial(k, t) == 0.0
    ensures t < 1.0 + Abs(k.a) + Abs(k.b) + Abs(k.c)
  {
    if t >= 1.0 + Abs(k.a) + Abs(k.b) + Abs(k.c) {
      PositiveBeyondBound(k, t);
    }
  }

  /** The polynomial is positive from 1 + |a| + |b| + |c| on. */
  lemma {:induction false} PositiveBeyondBound(k: Coefficients, x: real)
    requires x >= 1.0 + Abs(k.a) + Abs(k.b) + Abs(k.c)
    ensures GaussPolynomial(k, x) > 0.0
  {
    var s3 := x * x * x;
    var s6 := s3 * s3;
    PolynomialPowers(x, s3, s6, k.a, k.b, k.c, GaussPolynomial(k, x));
    PowersGrow(x, x * x, s3, s6);
    LargeArgument(x, x * x, s3, s6, k.a, k.b, k.c, Abs(k.a) + Abs(k.b) + Abs(k.c), GaussPolynomial(k, x));
  }

  /** The scalar core of PositiveBeyondBound: every lower-order term is
      outweighed by x^8 once x exceeds 1 + |a| + |b| + |c|. */
  lemma {:induction false} LargeArgument(x: real, xx: real, s3: real, s6: real, a: real, b: real, c: real, m: real, poly: real)
    requires m == Abs(a) + Abs(b) + Abs(c) && x >= 1.0 + m
    requires x <= xx && 1.0 <= s3 <= s6
    requires poly == s6 * xx + a * s6 + b * s3 + c
    ensures poly > 0.0
  {
    TermBounds(a, b, c, Abs(a), Abs(b), Abs(c), m, s3, s6);
    LeadingTermWins(xx, s6, m);
  }

  /** For x >= 1: x <= x^2, and 1 <= x^3 <= x^6. */
  lemma PowersGrow(x: real, xx: real, s3: real, s6: real)
    requires x >= 1.0 && xx == x * x && s3 == x * x * x && s6 == s3 * s3
    ensures x <= xx && 1.0 <= s3 <= s6
  {
    Monotone(1.0, x, x);
    assert s3 == xx * x;
    Monotone(1.0, xx, x);
    Monotone(1.0, s3, s3);
  }

  /** Each lower-order term is at least minus its bound times x^6. */
  lemma TermBounds(a: real, b: real, c: real, ra: real, rb: real, rc: real, m: real, s3: real, s6: real)
    requires -ra <= a && -rb <= b && -rc <= c && rb >= 0.0 && rc >= 0.0 && m == ra + rb + rc
    requires 1.0 <= s3 <= s6
    ensures a * s6 + b * s3 + c >= -(m * s6)
  {
    Monotone(-ra, a, s6);
    Monotone(-rb, b, s3);
    Monotone(s3, s6, rb);
    Monotone(1.0, s6, rc);
    var ta, tb, tc := a * s6, b * s3, c;
    assert ta >= -(ra * s6);
    assert tb >= -(rb * s3) && rb * s3 <= rb * s6;
    assert tc >= -(rc * s6);
    assert m * s6 == ra * s6 + rb * s6 + rc * s6;
  }

  /** s6 x^2 - m s6 > 0 when x^2 >= 1 + m and s6 >= 1. */
  lemma LeadingTermWins(xx: real, s6: real, m: real)
    requires xx >= 1.0 + m && s6 >= 1.0
    ensures s6 * xx - m * s6 > 0.0
  {
    Monotone(1.0, xx - m, s6);
    assert (xx - m) * s6 == s6 * xx - m * s6;
  }

  /** Multiplying both sides of u <= v by w >= 0 keeps the order. */
  lemma Monotone(u: real, v: real, w: real)
    requires u <= v && w >= 0.0
    ensures u * w <= v * w
  {
    assert v * w - u * w == (v - u) * w;
    if v - u > 0.0 && w > 0.0 {
      ProductPositive(v - u, w, (v - u) * w);
    }
  }

  // The method over the observations.

  /** The coefficients of the Gauss polynomial; they need a non-zero time
      span and lines of sight that are not coplanar. */
  function PolynomialCoefficients(o: Observations, mu: real): (r: Result<Coefficients>)
    ensures r.Failure? <==> Tau(o) == 0.0 || D0(o) == 0.0
    ensures r.Success? ==> r.value.c <= 0.0
  {
    var tau := Tau(o);
    if tau == 0.0 then Failure(ZeroTimeSpan)
    else if D0(o) == 0.0 then Failure(CoplanarLinesOfSight)
    else
      Success(PolynomialOf(CoefA(DEntry(o, 0, 1), DEntry(o, 1, 1), DEntry(o, 2, 1), D0(o), o.tau1, o.tau3, tau),
                           CoefB(DEntry(o, 0, 1), DEntry(o, 2, 1), D0(o), o.tau1, o.tau3, tau),
                           Dot(o.obs2, o.los2), Dot(o.obs2, o.obs2), mu))
  }

  /** The whole method, with its failures in the order the source meets the
      divisions. */
  function Solve(o: Observations, mu: real, r2star: real): Result<Estimate> {
    match PolynomialCoefficients(o, mu)
    case Failure(err) => Failure(err)
    case Success(k) =>
      var tau, cube := Tau(o), r2star * r2star * r2star;
      if o.tau3 == 0.0 then Failure(ZeroTau3)
      else if Den1(o.tau3, tau, mu, cube) == 0.0 then Failure(ZeroDen1)
      else if r2star == 0.0 then Failure(ZeroRadius)
      else if o.tau1 == 0.0 then Failure(ZeroTau1)
      else if Den3(o.tau1, tau, mu, cube) == 0.0 then Failure(ZeroDen3)
      else
        var rho1 := OuterRange(Num1(DEntry(o, 1, 0), DEntry(o, 2, 0), o.tau1, o.tau3, tau, mu, cube),
                               Den1(o.tau3, tau, mu, cube), DEntry(o, 0, 0), D0(o));
        var rho2 := MiddleRange(k.A, k.B, mu, cube);
        var rho3 := OuterRange(Num3(DEntry(o, 0, 2), DEntry(o, 1, 2), o.tau1, o.tau3, tau, mu, cube),
                               Den3(o.tau1, tau, mu, cube), DEntry(o, 2, 2), D0(o));
        var r1 := Add(o.obs1, Scale(rho1, o.los1));
        var r2 := Add(o.obs2, Scale(rho2, o.los2));
        var r3 := Add(o.obs3, Scale(rho3, o.los3));
        var f1, f3 := LagrangeF(mu, r2star, o.tau1), LagrangeF(mu, r2star, o.tau3);
        var g1, g3 := LagrangeG(mu, r2star, o.tau1), LagrangeG(mu, r2star, o.tau3);
        if f1 * g3 - f3 * g1 == 0.0 then Failure(SingularLagrange)
        else Success(Estimate(k, rho1, rho2, rho3, r1, r2, r3, Velocity(f1, g1, f3, g3, r1, r3)))
  }

  // ---- the method, as the source computes it ----

  /** Fills the 3 x 3 matrix D with D[i, j] = R[i] . p[j], row by row. */
  method FillD(R: array<Vec3>, p: array<Vec3>) returns (D: array2<real>)
    requires R.Length == 3 && p.Length == 3
    ensures D.Length0 == 3 && D.Length1 == 3
    ensures forall i, j :: 0 <= i < 3 && 0 <= j < 3 ==> D[i, j] == Dot(R[i], p[j])
  {
    D := new real[3, 3];
    for i := 0 to 3
      invariant forall i', j' :: 0 <= i' < i && 0 <= j' < 3 ==> D[i', j'] == Dot(R[i'], p[j'])
    {
      for j := 0 to 3
        invariant forall i', j' :: 0 <= i' < i && 0 <= j' < 3 ==> D[i', j'] == Dot(R[i'], p[j'])
        invariant forall j' :: 0 <= j' < j ==> D[i, j'] == Dot(R[i], p[j'])
      {
        D[i, j] := Dot(R[i], p[j]);
      }
    }
  }

  /** The Gauss method: builds R, p, D0 and D and the coefficients of the
      Gauss polynomial, then computes the slant ranges for the root r2*, the
      three positions and the velocity at the middle observation. */
  method GaussMethod(o: Observations, mu: real, r2star: real) returns (res: Result<Estimate>)
    ensures res == Solve(o, mu, r2star)
  {
    var R := new Vec3[3];
    R[0], R[1], R[2] := o.obs1, o.obs2, o.obs3;
    var tau1, tau3 := o.tau1, o.tau3;
    var tau := Tau(o);
    var p := new Vec3[3];
    p[0] := Cross(o.los2, o.los3);
    p[1] := Cross(o.los1, o.los3);
    p[2] := Cross(o.los1, o.los2);
    var d0 := Dot(o.los1, p[0]);
    var D := FillD(R, p);
    assert R[..] == ObserverPositions(o) && p[..] == CrossProducts(o);
    assert forall i, j :: 0 <= i < 3 && 0 <= j < 3 ==> D[i, j] == DEntry(o, i, j);
    if tau == 0.0 {
      return Failure(ZeroTimeSpan);
    }
    if d0 == 0.0 {
      return Failure(CoplanarLinesOfSight);
    }
    var capA := CoefA(D[0, 1], D[1, 1], D[2, 1], d0, tau1, tau3, tau);
    var capB := CoefB(D[0, 1], D[2, 1], d0, tau1, tau3, tau);
    var capE := Dot(R[1], o.los2);
    var r2sq := Dot(R[1], R[1]);
    var k := PolynomialOf(capA, capB, capE, r2sq, mu);
    res := RangesAndVelocity(o, mu, r2star, k, D, R);
  }

  /** The second half of the method: the slant ranges for the root r2*, the
      positions and the velocity, from the coefficients k and the matrix D. */
  method RangesAndVelocity(o: Observations, mu: real, r2star: real, k: Coefficients, D: array2<real>, R: array<Vec3>)
      returns (res: Result<Estimate>)
    requires D.Length0 == 3 && D.Length1 == 3 && R.Length == 3
    requires R[..] == ObserverPositions(o)
    requires forall i, j :: 0 <= i < 3 && 0 <= j < 3 ==> D[i, j] == DEntry(o, i, j)
    requires PolynomialCoefficients(o, mu) == Success(k)
    ensures res == Solve(o, mu, r2star)
  {
    var tau1, tau3, tau, d0 := o.tau1, o.tau3, Tau(o), D0(o);
    if tau3 == 0.0 {
      return Failure(ZeroTau3);
    }
    var cube := r2star * r2star * r2star;
    var num1 := Num1(D[1, 0], D[2, 0], tau1, tau3, tau, mu, cube);
    var den1 := Den1(tau3, tau, mu, cube);
    if den1 == 0.0 {
      return Failure(ZeroDen1);
    }
    var rho1 := OuterRange(num1, den1, D[0, 0], d0);
    if r2star == 0.0 {
      return Failure(ZeroRadius);
    }
    var rho2 := MiddleRange(k.A, k.B, mu, cube);
    if tau1 == 0.0 {
      return Failure(ZeroTau1);
    }
    var num3 := Num3(D[0, 2], D[1, 2], tau1, tau3, tau, mu, cube);
    var den3 := Den3(tau1, tau, mu, cube);
    if den3 == 0.0 {
      return Failure(ZeroDen3);
    }
    var rho3 := OuterRange(num3, den3, D[2, 2], d0);
    var r1 := Add(R[0], Scale(rho1, o.los1));
    var r2 := Add(R[1], Scale(rho2, o.los2));
    var r3 := Add(R[2], Scale(rho3, o.los3));
    var f1 := LagrangeF(mu, r2star, tau1);
    var f3 := LagrangeF(mu, r2star, tau3);
    var g1 := LagrangeG(mu, r2star, tau1);
    var g3 := LagrangeG(mu, r2star, tau3);
    if f1 * g3 - f3 * g1 == 0.0 {
      return Failure(SingularLagrange);
    }
    var v2 := Velocity(f1, g1, f3, g3, r1, r3);
    res := Success(Estimate(k, rho1, rho2, rho3, r1, r2, r3, v2));
  }

  // ---- properties ----

  /** Each p[j] is perpendicular to the two lines of sight it is made of. */
  lemma CrossProductsPerpendicular(o: Observations)
    ensures Dot(o.los2, CrossProducts(o)[0]) == 0.0 && Dot(o.los3, CrossProducts(o)[0]) == 0.0
    ensures Dot(o.los1, CrossProducts(o)[1]) == 0.0 && Dot(o.los3, CrossProducts(o)[1]) == 0.0
    ensures Dot(o.los1, CrossProducts(o)[2]) == 0.0 && Dot(o.los2, CrossProducts(o)[2]) == 0.0
  {
  }

  /** D0 is the triple product of the lines of sight, and the other two lines
      of sight meet their opposite p[j] in D0 up to sign. */
  lemma {:induction false} D0Forms(o: Observations)
    ensures D0(o) == Triple(o.los1, o.los2, o.los3)
    ensures Dot(o.los2, CrossProducts(o)[1]) == -D0(o)
    ensures Dot(o.los3, CrossProducts(o)[2]) == D0(o)
  {
    TripleSymmetries(o.los1, o.los2, o.los3);
    assert Dot(o.los2, CrossProducts(o)[1]) == Triple(o.los2, o.los1, o.los3);
    assert Dot(o.los3, CrossProducts(o)[2]) == Triple(o.los3, o.los1, o.los2);
  }

  /** The series coefficients c1 = (tau3 / tau) (1 + mu (tau^2 - tau3^2) / (6 r^3))
      and c3 = -(tau1 / tau) (1 + mu (tau^2 - tau1^2) / (6 r^3)) of the
      first-order Gauss method: the truncated g3 / (f1 g3 - f3 g1) and
      -g1 / (f1 g3 - f3 g1), with which r2 = c1 r1 + c3 r3. */
  function SeriesC1(tau1: real, tau3: real, tau: real, mu: real, cube: real): real
    requires tau != 0.0 && cube != 0.0
  {
    (tau3 / tau) * (1.0 + mu * (tau * tau - tau3 * tau3) / (6.0 * cube))
  }

  function SeriesC3(tau1: real, tau3: real, tau: real, mu: real, cube: real): real
    requires tau != 0.0 && cube != 0.0
  {
    -(tau1 / tau) * (1.0 + mu * (tau * tau - tau1 * tau1) / (6.0 * cube))
  }

  /** What a successful run of the method has established: the divisors tau,
      D0, tau1, tau3, r2* and its cube, den1 and den3 were non-zero (the last
      divisor, f1 g3 - f3 g1, is covered by SolveFailure), and the estimate
      is made of the source's formulas. */
  lemma {:induction false} SolveSuccess(o: Observations, mu: real, r2star: real)
    requires Solve(o, mu, r2star).Success?
    ensures var cube := r2star * r2star * r2star;
            && Tau(o) != 0.0 && D0(o) != 0.0 && o.tau1 != 0.0 && o.tau3 != 0.0 && r2star != 0.0 && cube != 0.0
            && Den1(o.tau3, Tau(o), mu, cube) != 0.0 && Den3(o.tau1, Tau(o), mu, cube) != 0.0
    ensures var e, cube := Solve(o, mu, r2star).value, r2star * r2star * r2star;
            && e.rho1 == OuterRange(Num1(DEntry(o, 1, 0), DEntry(o, 2, 0), o.tau1, o.tau3, Tau(o), mu, cube),
                                    Den1(o.tau3, Tau(o), mu, cube), DEntry(o, 0, 0), D0(o))
            && e.rho2 == MiddleRange(CoefA(DEntry(o, 0, 1), DEntry(o, 1, 1), DEntry(o, 2, 1), D0(o), o.tau1, o.tau3, Tau(o)),
                                     CoefB(DEntry(o, 0, 1), DEntry(o, 2, 1), D0(o), o.tau1, o.tau3, Tau(o)), mu, cube)
            && e.rho3 == OuterRange(Num3(DEntry(o, 0, 2), DEntry(o, 1, 2), o.tau1, o.tau3, Tau(o), mu, cube),
                                    Den3(o.tau1, Tau(o), mu, cube), DEntry(o, 2, 2), D0(o))
            && e.r1 == Add(o.obs1, Scale(e.rho1, o.los1))
            && e.r2 == Add(o.obs2, Scale(e.rho2, o.los2))
            && e.r3 == Add(o.obs3, Scale(e.rho3, o.los3))
  {
    CubeNonzero(r2star, r2star * r2star * r2star);
  }

  /** The method fails exactly when one of the quantities it divides by is
      zero: tau, D0, tau3, den1, r2*, tau1, den3 or f1 g3 - f3 g1. When it
      succeeds, the estimate carries the coefficients of the Gauss polynomial. */
  lemma SolveFailure(o: Observations, mu: real, r2star: real)
    ensures Solve(o, mu, r2star).Failure? <==>
              || Tau(o) == 0.0 || D0(o) == 0.0 || o.tau3 == 0.0
              || Den1(o.tau3, Tau(o), mu, r2star * r2star * r2star) == 0.0
              || r2star == 0.0 || o.tau1 == 0.0
              || Den3(o.tau1, Tau(o), mu, r2star * r2star * r2star) == 0.0
              || LagrangeF(mu, r2star, o.tau1) * LagrangeG(mu, r2star, o.tau3)
                 - LagrangeF(mu, r2star, o.tau3) * LagrangeG(mu, r2star, o.tau1) == 0.0
    ensures Solve(o, mu, r2star).Success? ==> PolynomialCoefficients(o, mu) == Success(Solve(o, mu, r2star).value.poly)
  {
    if PolynomialCoefficients(o, mu).Success? && o.tau3 != 0.0 && r2star != 0.0 && o.tau1 != 0.0 {
      CubeNonzero(r2star, r2star * r2star * r2star);
    }
  }

  lemma CubeNonzero(r: real, cube: real)
    requires r != 0.0 && cube == r * r * r
    ensures cube != 0.0
  {
    var sq := r * r;
    SquarePositive(r, sq);
    if cube == 0.0 {
      ProductZero(sq, r, cube);
    }
  }

  /** The slant ranges the method computes are exactly those that make the
      three positions satisfy r2 = c1 r1 + c3 r3 with the series coefficients:
      the heart of the Gauss method. */
  lemma {:induction false} CoplanarityCondition(o: Observations, mu: real, r2star: real)
    requires Solve(o, mu, r2star).Success?
    ensures var e := Solve(o, mu, r2star).value;
            var cube := r2star * r2star * r2star;
            && cube != 0.0
            && e.r2 == Add(Scale(SeriesC1(o.tau1, o.tau3, Tau(o), mu, cube), e.r1),
                           Scale(SeriesC3(o.tau1, o.tau3, Tau(o), mu, cube), e.r3))
  {
    SolveSuccess(o, mu, r2star);
    var e := Solve(o, mu, r2star).value;
    var tau, cube := Tau(o), r2star * r2star * r2star;
    var c1, c3 := SeriesC1(o.tau1, o.tau3, tau, mu, cube), SeriesC3(o.tau1, o.tau3, tau, mu, cube);
    var d00, d01, d02 := DEntry(o, 0, 0), DEntry(o, 0, 1), DEntry(o, 0, 2);
    var d10, d11, d12 := DEntry(o, 1, 0), DEntry(o, 1, 1), DEntry(o, 1, 2);
    var d20, d21, d22 := DEntry(o, 2, 0), DEntry(o, 2, 1), DEntry(o, 2, 2);
    var d0 := D0(o);
    FirstRowScalars(d00, d10, d20, d0, o.tau1, o.tau3, tau, mu, cube, e.rho1, e.rho2, e.rho3, c1, c3);
    SecondRowScalars(d01, d11, d21, d0, o.tau1, o.tau3, tau, mu, cube, e.rho1, e.rho2, e.rho3, c1, c3);
    ThirdRowScalars(d02, d12, d22, d0, o.tau1, o.tau3, tau, mu, cube, e.rho1, e.rho2, e.rho3, c1, c3);
    CoplanarityFromRows(o, e, c1, c3, d00, d01, d02, d10, d11, d12, d20, d21, d22, d0);
  }

  /** Positions on the three lines of sight whose residual c1 r1 - r2 + c3 r3
      is perpendicular to p[0], p[1] and p[2] satisfy r2 = c1 r1 + c3 r3.
      Row j is the Residual with y_i = D[i,j] and m_i = L_i . p[j], which is
      D0, -D0 or 0 (the last where L_i is one of the factors of p[j]). */
  lemma {:induction false} CoplanarityFromRows(o: Observations, e: Estimate, c1: real, c3: real,
                                               d00: real, d01: real, d02: real, d10: real, d11: real, d12: real,
                                               d20: real, d21: real, d22: real, d0: real)
    requires d0 == D0(o) && d0 != 0.0
    requires d00 == DEntry(o, 0, 0) && d01 == DEntry(o, 0, 1) && d02 == DEntry(o, 0, 2)
    requires d10 == DEntry(o, 1, 0) && d11 == DEntry(o, 1, 1) && d12 == DEntry(o, 1, 2)
    requires d20 == DEntry(o, 2, 0) && d21 == DEntry(o, 2, 1) && d22 == DEntry(o, 2, 2)
    requires e.r1 == Add(o.obs1, Scale(e.rho1, o.los1))
    requires e.r2 == Add(o.obs2, Scale(e.rho2, o.los2))
    requires e.r3 == Add(o.obs3, Scale(e.rho3, o.los3))
    requires Residual(c1, c3, e.rho1, e.rho2, e.rho3, d00, d10, d20, d0, 0.0, 0.0) == 0.0
    requires Residual(c1, c3, e.rho1, e.rho2, e.rho3, d01, d11, d21, 0.0, -d0, 0.0) == 0.0
    requires Residual(c1, c3, e.rho1, e.rho2, e.rho3, d02, d12, d22, 0.0, 0.0, d0) == 0.0
    ensures e.r2 == Add(Scale(c1, e.r1), Scale(c3, e.r3))
  {
    var w := Add(Sub(Scale(c1, e.r1), e.r2), Scale(c3, e.r3));
    var p := CrossProducts(o);
    CrossProductsPerpendicular(o);
    D0Forms(o);
    ResidualRow(o, e, c1, c3, p[0], d00, d10, d20, d0, 0.0, 0.0);
    ResidualRow(o, e, c1, c3, p[1], d01, d11, d21, 0.0, -d0, 0.0);
    ResidualRow(o, e, c1, c3, p[2], d02, d12, d22, 0.0, 0.0, d0);
    PerpendicularToCrossBasisIsZero(o.los1, o.los2, o.los3, w);
    assert w.x == 0.0 && w.y == 0.0 && w.z == 0.0;
  }

  /** One of the three equations: the residual is perpendicular to p. */
  lemma ResidualRow(o: Observations, e: Estimate, c1: real, c3: real, p: Vec3,
                    y1: real, y2: real, y3: real, m1: real, m2: real, m3: real)
    requires e.r1 == Add(o.obs1, Scale(e.rho1, o.los1))
    requires e.r2 == Add(o.obs2, Scale(e.rho2, o.los2))
    requires e.r3 == Add(o.obs3, Scale(e.rho3, o.los3))
    requires Dot(o.obs1, p) == y1 && Dot(o.obs2, p) == y2 && Dot(o.obs3, p) == y3
    requires Dot(o.los1, p) == m1 && Dot(o.los2, p) == m2 && Dot(o.los3, p) == m3
    requires Residual(c1, c3, e.rho1, e.rho2, e.rho3, y1, y2, y3, m1, m2, m3) == 0.0
    ensures Dot(Add(Sub(Scale(c1, e.r1), e.r2), Scale(c3, e.r3)), p) == 0.0
  {
    ResidualDot(o, e, c1, c3, p);
  }

  /** The residual c1 r1 - r2 + c3 r3 against a vector p, through the
      observer positions and the lines of sight. */
  lemma ResidualDot(o: Observations, e: Estimate, c1: real, c3: real, p: Vec3)
    requires e.r1 == Add(o.obs1, Scale(e.rho1, o.los1))
    requires e.r2 == Add(o.obs2, Scale(e.rho2, o.los2))
    requires e.r3 == Add(o.obs3, Scale(e.rho3, o.los3))
    ensures Dot(Add(Sub(Scale(c1, e.r1), e.r2), Scale(c3, e.r3)), p)
         == Residual(c1, c3, e.rho1, e.rho2, e.rho3, Dot(o.obs1, p), Dot(o.obs2, p), Dot(o.obs3, p),
                     Dot(o.los1, p), Dot(o.los2, p), Dot(o.los3, p))
  {
    DotCombination(c1, e.r1, e.r2, c3, e.r3, p);
    DotOnLine(o.obs1, e.rho1, o.los1, p);
    DotOnLine(o.obs2, e.rho2, o.los2, p);
    DotOnLine(o.obs3, e.rho3, o.los3, p);
  }

  /** c1 (y1 + rho1 m1) - (y2 + rho2 m2) + c3 (y3 + rho3 m3): the residual
      c1 r1 - r2 + c3 r3 dotted with a vector p, where y_i = R_i . p and
      m_i = L_i . p. */
  function Residual(c1: real, c3: real, rho1: real, rho2: real, rho3: real,
                    y1: real, y2: real, y3: real, m1: real, m2: real, m3: real): real
  {
    c1 * (y1 + rho1 * m1) - (y2 + rho2 * m2) + c3 * (y3 + rho3 * m3)
  }

  lemma FirstRowScalars(d00: real, d10: real, d20: real, d0: real, tau1: real, tau3: real, tau: real,
                        mu: real, cube: real, rho1: real, rho2: real, rho3: real, c1: real, c3: real)
    requires tau != 0.0 && tau3 != 0.0 && cube != 0.0 && d0 != 0.0 && Den1(tau3, tau, mu, cube) != 0.0
    requires rho1 == OuterRange(Num1(d10, d20, tau1, tau3, tau, mu, cube), Den1(tau3, tau, mu, cube), d00, d0)
    requires c1 == SeriesC1(tau1, tau3, tau, mu, cube) && c3 == SeriesC3(tau1, tau3, tau, mu, cube)
    ensures Residual(c1, c3, rho1, rho2, rho3, d00, d10, d20, d0, 0.0, 0.0) == 0.0
  {
    OuterRangeSolves(Num1(d10, d20, tau1, tau3, tau, mu, cube), Den1(tau3, tau, mu, cube), d00, d0, rho1);
    FirstRowSeries(d10, d20, tau1, tau3, tau, mu, cube);
  }

  /** The first row with rho1 eliminated: c1 num1 / den1 - D[1,0] + c3 D[2,0] = 0. */
  lemma FirstRowSeries(d10: real, d20: real, tau1: real, tau3: real, tau: real, mu: real, cube: real)
    requires tau != 0.0 && tau3 != 0.0 && cube != 0.0 && Den1(tau3, tau, mu, cube) != 0.0
    ensures SeriesC1(tau1, tau3, tau, mu, cube) * (Num1(d10, d20, tau1, tau3, tau, mu, cube) / Den1(tau3, tau, mu, cube))
            - d10 + SeriesC3(tau1, tau3, tau, mu, cube) * d20 == 0.0
  {
    var k, a, b, t := tau1 / tau, tau1 / tau3, tau / tau3, tau3 / tau;
    RatioChain(tau3, tau, tau1);
    RatioChain(tau3, tau, tau);
    FirstRowCore(d20, d10, k, a, b, t, 6.0 * cube, mu * (tau * tau - tau1 * tau1), mu * (tau * tau - tau3 * tau3),
                 Num1(d10, d20, tau1, tau3, tau, mu, cube), Den1(tau3, tau, mu, cube),
                 SeriesC1(tau1, tau3, tau, mu, cube), SeriesC3(tau1, tau3, tau, mu, cube));
  }

  /** The scalar core of FirstRowSeries, on plain variables: k = tau1 / tau,
      a = tau1 / tau3, b = tau / tau3, t = tau3 / tau, six = 6 r^3, and e1, e3
      the mu (tau^2 - tau_i^2) of c3 and den1. */
  lemma FirstRowCore(x: real, y: real, k: real, a: real, b: real, t: real, six: real, e1: real, e3: real,
                     num: real, den: real, c1: real, c3: real)
    requires six != 0.0 && den != 0.0 && den == six + e3
    requires num == (x * a + y * b) * six + (e1 * x) * a
    requires c1 == t * (1.0 + e3 / six) && c3 == -k * (1.0 + e1 / six)
    requires t * a == k && t * b == 1.0
    ensures c1 * (num / den) - y + c3 * x == 0.0
  {
    var w := (e1 * x) / six;
    OneOver(six, e3, den);
    CancelDenominator(t, num, den, six);
    DivideSum(x * a + y * b, e1 * x, a, six, num);
    ExpandFirstRow(t, a, b, x, y, w, k);
    ExpandFirstTerm(-k, e1, six, x, c3);
  }

  lemma ExpandFirstRow(t: real, a: real, b: real, x: real, y: real, w: real, k: real)
    requires t * a == k && t * b == 1.0
    ensures t * ((x * a + y * b) + w * a) == x * k + y + w * k
  {
    assert t * ((x * a + y * b) + w * a) == x * (t * a) + y * (t * b) + w * (t * a);
  }

  lemma SecondRowScalars(d01: real, d11: real, d21: real, d0: real, tau1: real, tau3: real, tau: real,
                         mu: real, cube: real, rho1: real, rho2: real, rho3: real, c1: real, c3: real)
    requires tau != 0.0 && cube != 0.0 && d0 != 0.0
    requires rho2 == MiddleRange(CoefA(d01, d11, d21, d0, tau1, tau3, tau), CoefB(d01, d21, d0, tau1, tau3, tau), mu, cube)
    requires c1 == SeriesC1(tau1, tau3, tau, mu, cube) && c3 == SeriesC3(tau1, tau3, tau, mu, cube)
    ensures Residual(c1, c3, rho1, rho2, rho3, d01, d11, d21, 0.0, -d0, 0.0) == 0.0
  {
  }

  lemma ThirdRowScalars(d02: real, d12: real, d22: real, d0: real, tau1: real, tau3: real, tau: real,
                        mu: real, cube: real, rho1: real, rho2: real, rho3: real, c1: real, c3: real)
    requires tau != 0.0 && tau1 != 0.0 && cube != 0.0 && d0 != 0.0 && Den3(tau1, tau, mu, cube) != 0.0
    requires rho3 == OuterRange(Num3(d02, d12, tau1, tau3, tau, mu, cube), Den3(tau1, tau, mu, cube), d22, d0)
    requires c1 == SeriesC1(tau1, tau3, tau, mu, cube) && c3 == SeriesC3(tau1, tau3, tau, mu, cube)
    ensures Residual(c1, c3, rho1, rho2, rho3, d02, d12, d22, 0.0, 0.0, d0) == 0.0
  {
    OuterRangeSolves(Num3(d02, d12, tau1, tau3, tau, mu, cube), Den3(tau1, tau, mu, cube), d22, d0, rho3);
    ThirdRowSeries(d02, d12, tau1, tau3, tau, mu, cube);
  }

  /** rho = ((num / den) - dii) / d0 solves dii + rho d0 = num / den. */
  lemma OuterRangeSolves(num: real, den: real, dii: real, d0: real, rho: real)
    requires den != 0.0 && d0 != 0.0 && rho == OuterRange(num, den, dii, d0)
    ensures dii + rho * d0 == num / den
  {
  }

  /** The third row with rho3 eliminated: c1 D[0,2] - D[1,2] + c3 num3 / den3 = 0. */
  lemma ThirdRowSeries(d02: real, d12: real, tau1: real, tau3: real, tau: real, mu: real, cube: real)
    requires tau != 0.0 && tau1 != 0.0 && cube != 0.0 && Den3(tau1, tau, mu, cube) != 0.0
    ensures SeriesC1(tau1, tau3, tau, mu, cube) * d02 - d12
            + SeriesC3(tau1, tau3, tau, mu, cube) * (Num3(d02, d12, tau1, tau3, tau, mu, cube) / Den3(tau1, tau, mu, cube)) == 0.0
  {
    var k, a, b, t := tau1 / tau, tau3 / tau1, tau / tau1, tau3 / tau;
    RatioChain(tau1, tau, tau3);
    RatioChain(tau1, tau, tau);
    ThirdRowCore(d02, d12, k, a, b, t, 6.0 * cube, mu * (tau * tau - tau1 * tau1), mu * (tau * tau - tau3 * tau3),
                 Num3(d02, d12, tau1, tau3, tau, mu, cube), Den3(tau1, tau, mu, cube),
                 SeriesC1(tau1, tau3, tau, mu, cube), SeriesC3(tau1, tau3, tau, mu, cube));
  }

  lemma RatioChain(x: real, y: real, z: real)
    requires x != 0.0 && y != 0.0
    ensures (x / y) * (z / x) == z / y
  {
  }

  /** The scalar core of ThirdRowSeries, on plain variables: k = tau1 / tau,
      a = tau3 / tau1, b = tau / tau1, t = tau3 / tau, six = 6 r^3, and e1, e3
      the mu (tau^2 - tau_i^2) of den3 and c1. */
  lemma ThirdRowCore(x: real, y: real, k: real, a: real, b: real, t: real, six: real, e1: real, e3: real,
                     num: real, den: real, c1: real, c3: real)
    requires six != 0.0 && den != 0.0 && den == six + e1
    requires num == (x * a - y * b) * six + (e3 * x) * a
    requires c1 == t * (1.0 + e3 / six) && c3 == -k * (1.0 + e1 / six)
    requires k * a == t && k * b == 1.0
    ensures c1 * x - y + c3 * (num / den) == 0.0
  {
    var w := (e3 * x) / six;
    OneOver(six, e1, den);
    CancelDenominator(-k, num, den, six);
    DivideSum(x * a - y * b, e3 * x, a, six, num);
    ExpandThirdTerm(k, a, b, x, y, w, t);
    ExpandFirstTerm(t, e3, six, x, c1);
  }

  lemma OneOver(six: real, e: real, den: real)
    requires six != 0.0 && den == six + e
    ensures 1.0 + e / six == den / six
  {
    assert six / six == 1.0;
    assert den / six == six / six + e / six;
  }

  lemma CancelDenominator(q: real, num: real, den: real, six: real)
    requires den != 0.0 && six != 0.0
    ensures (q * (den / six)) * (num / den) == q * (num / six)
  {
  }

  lemma DivideSum(u: real, m: real, a: real, six: real, num: real)
    requires six != 0.0 && num == u * six + m * a
    ensures num / six == u + (m / six) * a
  {
  }

  lemma ExpandThirdTerm(k: real, a: real, b: real, x: real, y: real, w: real, t: real)
    requires k * a == t && k * b == 1.0
    ensures -k * ((x * a - y * b) + w * a) == -x * t + y - w * t
  {
    assert -k * ((x * a - y * b) + w * a) == -x * (k * a) + y * (k * b) - w * (k * a);
  }

  lemma ExpandFirstTerm(t: real, e: real, six: real, x: real, c1: real)
    requires six != 0.0 && c1 == t * (1.0 + e / six)
    ensures c1 * x == x * t + ((e * x) / six) * t
  {
    assert (e / six) * x == (e * x) / six;
  }

  /** Each computed position lies on its line of sight: r_i - R_i = rho_i L_i,
      so r_i - R_i is parallel to L_i. */
  lemma {:induction false} PositionsOnLinesOfSight(o: Observations, mu: real, r2star: real)
    requires Solve(o, mu, r2star).Success?
    ensures var e := Solve(o, mu, r2star).value;
            && Sub(e.r1, o.obs1) == Scale(e.rho1, o.los1)
            && Sub(e.r2, o.obs2) == Scale(e.rho2, o.los2)
            && Sub(e.r3, o.obs3) == Scale(e.rho3, o.los3)
            && Cross(Sub(e.r1, o.obs1), o.los1) == Zero
            && Cross(Sub(e.r2, o.obs2), o.los2) == Zero
            && Cross(Sub(e.r3, o.obs3), o.los3) == Zero
  {
    SolveSuccess(o, mu, r2star);
    var e := Solve(o, mu, r2star).value;
    OffsetFromBase(o.obs1, e.rho1, o.los1);
    OffsetFromBase(o.obs2, e.rho2, o.los2);
    OffsetFromBase(o.obs3, e.rho3, o.los3);
  }

  /** The coefficients a, b and c in terms of A, B, E and |R2|^2. */
  lemma PolynomialFields(k: Coefficients, capA: real, capB: real, capE: real, r2sq: real, mu: real)
    requires k == PolynomialOf(capA, capB, capE, r2sq, mu)
    ensures k.A == capA && k.B == capB && k.E == capE && k.R2Squared == r2sq
    ensures k.a == -(k.A * k.A + 2.0 * k.A * k.E + k.R2Squared)
    ensures k.b == -2.0 * mu * k.B * (k.A + k.E)
    ensures k.c == -(mu * mu) * (k.B * k.B)
  {
  }

  /** A root r2* of the Gauss polynomial gives the distance of the body at the
      middle observation: for a unit line of sight, r2* is a root exactly when
      the position r2 the method builds from it has squared length r2*^2, that
      is length |r2*|. */
  lemma {:induction false} RootIffRadius(o: Observations, mu: real, r2star: real)
    requires Solve(o, mu, r2star).Success?
    requires NormSquared(o.los2) == 1.0
    ensures PolynomialCoefficients(o, mu).Success?
    ensures GaussPolynomial(PolynomialCoefficients(o, mu).value, r2star) == 0.0
        <==> NormSquared(Solve(o, mu, r2star).value.r2) == r2star * r2star
  {
    SolveSuccess(o, mu, r2star);
    var k := PolynomialCoefficients(o, mu).value;
    var e := Solve(o, mu, r2star).value;
    var cube := r2star * r2star * r2star;
    assert k == PolynomialOf(CoefA(DEntry(o, 0, 1), DEntry(o, 1, 1), DEntry(o, 2, 1), D0(o), o.tau1, o.tau3, Tau(o)),
                             CoefB(DEntry(o, 0, 1), DEntry(o, 2, 1), D0(o), o.tau1, o.tau3, Tau(o)),
                             Dot(o.obs2, o.los2), Dot(o.obs2, o.obs2), mu);
    PolynomialFields(k, CoefA(DEntry(o, 0, 1), DEntry(o, 1, 1), DEntry(o, 2, 1), D0(o), o.tau1, o.tau3, Tau(o)),
                     CoefB(DEntry(o, 0, 1), DEntry(o, 2, 1), D0(o), o.tau1, o.tau3, Tau(o)),
                     Dot(o.obs2, o.los2), Dot(o.obs2, o.obs2), mu);
    assert e.rho2 == MiddleRange(k.A, k.B, mu, cube) && e.r2 == Add(o.obs2, Scale(e.rho2, o.los2));
    NormSquaredOnLine(o.obs2, e.rho2, o.los2);
    RadiusPolynomial(r2star, cube, k, mu, e.rho2, NormSquared(o.los2), NormSquared(e.r2),
                     NormSquared(o.obs2), Dot(o.obs2, o.los2));
  }

  /** The scalar core of RootIffRadius: with rho2 = A + mu B / x^3,
      x^6 (|R2 + rho2 L2|^2 - x^2) is minus the Gauss polynomial at x. */
  lemma {:induction false} RadiusPolynomial(x: real, cube: real, k: Coefficients, mu: real, rho2: real, l2: real, n: real,
                                            r2sq: real, capE: real)
    requires x != 0.0 && cube == x * x * x && l2 == 1.0
    requires cube != 0.0 && rho2 == MiddleRange(k.A, k.B, mu, cube)
    requires r2sq == k.R2Squared && capE == k.E
    requires n == r2sq + 2.0 * rho2 * capE + rho2 * rho2 * l2
    requires k.a == -(k.A * k.A + 2.0 * k.A * k.E + k.R2Squared)
    requires k.b == -2.0 * mu * k.B * (k.A + k.E)
    requires k.c == -(mu * mu) * (k.B * k.B)
    ensures GaussPolynomial(k, x) == 0.0 <==> n == x * x
  {
    var sq := cube * cube;
    RadiusScalars(x, cube, sq, k.A, k.B, k.E, k.R2Squared, capE, r2sq, mu, rho2, l2, n, k.a, k.b, k.c, GaussPolynomial(k, x));
    SquarePositive(cube, sq);
    if GaussPolynomial(k, x) == 0.0 {
      ProductZero(sq, n - x * x, 0.0);
    }
  }

  lemma {:induction false} RadiusScalars(x: real, cube: real, sq: real, capA: real, capB: real, capE: real, r2sq: real,
                                         e0: real, r0: real, mu: real, rho2: real, l2: real, n: real,
                                         a: real, b: real, c: real, poly: real)
    requires cube == x * x * x && cube != 0.0 && sq == cube * cube
    requires rho2 == MiddleRange(capA, capB, mu, cube)
    requires e0 == capE && r0 == r2sq && l2 == 1.0
    requires n == r0 + 2.0 * rho2 * e0 + rho2 * rho2 * l2
    requires a == -(capA * capA + 2.0 * capA * capE + r2sq)
    requires b == -2.0 * mu * capB * (capA + capE)
    requires c == -(mu * mu) * (capB * capB)
    requires poly == x * x * x * x * x * x * x * x + a * (x * x * x * x * x * x) + b * (x * x * x) + c
    ensures sq * (n - x * x) == -poly
  {
    var m := mu * capB;
    var q := m / cube;
    QuotientTimes(m, cube, q);
    RangeSquare(n, r0, rho2, e0, l2, r2sq, capA, q, capE);
    PolynomialPowers(x, cube, sq, a, b, c, poly);
    CoefficientForms(mu, capB, m, capA, capE, b, c);
    RadiusIdentity(cube, q, m, capA, capE, r2sq, x * x, sq, n, a, b, c, poly);
  }

  lemma QuotientTimes(m: real, cube: real, q: real)
    requires cube != 0.0 && q == m / cube
    ensures q * cube == m
  {
  }

  lemma RangeSquare(n: real, r0: real, rho2: real, e0: real, l2: real, r2sq: real, capA: real, q: real, capE: real)
    requires n == r0 + 2.0 * rho2 * e0 + rho2 * rho2 * l2
    requires r0 == r2sq && e0 == capE && l2 == 1.0 && rho2 == capA + q
    ensures n == r2sq + 2.0 * (capA + q) * capE + (capA + q) * (capA + q)
  {
  }

  lemma CoefficientForms(mu: real, capB: real, m: real, capA: real, capE: real, b: real, c: real)
    requires m == mu * capB
    requires b == -2.0 * mu * capB * (capA + capE)
    requires c == -(mu * mu) * (capB * capB)
    ensures b == -2.0 * m * (capA + capE) && c == -(m * m)
  {
  }

  lemma PolynomialPowers(x: real, cube: real, sq: real, a: real, b: real, c: real, poly: real)
    requires cube == x * x * x && sq == cube * cube
    requires poly == x * x * x * x * x * x * x * x + a * (x * x * x * x * x * x) + b * (x * x * x) + c
    ensures poly == sq * (x * x) + a * sq + b * cube + c
  {
  }

  lemma RadiusIdentity(cube: real, q: real, m: real, capA: real, capE: real, r2sq: real, xx: real, sq: real,
                       n: real, a: real, b: real, c: real, poly: real)
    requires q * cube == m && sq == cube * cube
    requires n == r2sq + 2.0 * (capA + q) * capE + (capA + q) * (capA + q)
    requires poly == sq * xx + a * sq + b * cube + c
    requires a == -(capA * capA + 2.0 * capA * capE + r2sq)
    requires b == -2.0 * m * (capA + capE) && c == -(m * m)
    ensures sq * (n - xx) == -poly
  {
  }

  /** The velocity formula inverts the Lagrange relations r1 = f1 r2 + g1 v2
      and r3 = f3 r2 + g3 v2: from the two positions they give, it returns v2. */
  lemma {:induction false} VelocityRecovery(f1: real, g1: real, f3: real, g3: real, r2: Vec3, v: Vec3)
    requires f1 * g3 - f3 * g1 != 0.0
    ensures Velocity(f1, g1, f3, g3, Add(Scale(f1, r2), Scale(g1, v)), Add(Scale(f3, r2), Scale(g3, v))) == v
  {
    var det := f1 * g3 - f3 * g1;
    LagrangeCombination(f1, g1, f3, g3, r2, v);
    ScaleInverse(det, v);
  }

  /** -f3 (f1 r + g1 v) + f1 (f3 r + g3 v) = (f1 g3 - f3 g1) v. */
  lemma LagrangeCombination(f1: real, g1: real, f3: real, g3: real, r: Vec3, v: Vec3)
    ensures Add(Scale(-f3, Add(Scale(f1, r), Scale(g1, v))), Scale(f1, Add(Scale(f3, r), Scale(g3, v))))
         == Scale(f1 * g3 - f3 * g1, v)
  {
    CombinationComponent(f1, g1, f3, g3, r.x, v.x);
    CombinationComponent(f1, g1, f3, g3, r.y, v.y);
    CombinationComponent(f1, g1, f3, g3, r.z, v.z);
  }

  lemma CombinationComponent(f1: real, g1: real, f3: real, g3: real, r: real, v: real)
    ensures -f3 * (f1 * r + g1 * v) + f1 * (f3 * r + g3 * v) == (f1 * g3 - f3 * g1) * v
  {
  }

  /** For an arc short enough that mu tau^2 < 6 r2*^3, with the middle
      observation strictly between the other two, positive mu and r2*, and
      lines of sight that are not coplanar, the method succeeds: none of its
      divisors vanishes. */
  lemma {:induction false} ShortArcSucceeds(o: Observations, mu: real, r2star: real)
    requires mu > 0.0 && r2star > 0.0 && o.tau1 < 0.0 < o.tau3
    requires D0(o) != 0.0
    requires mu * (Tau(o) * Tau(o)) < 6.0 * (r2star * r2star * r2star)
    ensures Solve(o, mu, r2star).Success?
  {
    var tau, cube := Tau(o), r2star * r2star * r2star;
    ProductPositive(r2star, r2star, r2star * r2star);
    ProductPositive(r2star * r2star, r2star, cube);
    ShortArcDenominators(o.tau1, o.tau3, tau, mu, cube);
    ShortArcDeterminant(mu, r2star, o.tau1, o.tau3);
  }

  /** With t1 < 0 < t3, tau = t3 - t1 and positive mu and r^3, both
      denominators 6 r^3 + mu (tau^2 - t3^2) and 6 r^3 + mu (tau^2 - t1^2)
      are positive, as tau^2 exceeds both t1^2 and t3^2. */
  lemma ShortArcDenominators(t1: real, t3: real, tau: real, mu: real, cube: real)
    requires t1 < 0.0 < t3 && tau == t3 - t1 && mu > 0.0 && cube > 0.0
    ensures Den1(t3, tau, mu, cube) > 0.0 && Den3(t1, tau, mu, cube) > 0.0
  {
    var cross := -t1 * t3;
    ProductPositive(-t1, t3, cross);
    var t1sq, t3sq := t1 * t1, t3 * t3;
    SquarePositive(t1, t1sq);
    SquarePositive(t3, t3sq);
    assert tau * tau - t3 * t3 == t1sq + 2.0 * cross;
    assert tau * tau - t1 * t1 == t3sq + 2.0 * cross;
    ProductPositive(mu, t1sq + 2.0 * cross, mu * (tau * tau - t3 * t3));
    ProductPositive(mu, t3sq + 2.0 * cross, mu * (tau * tau - t1 * t1));
  }
}
