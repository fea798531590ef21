# Gauss's method of preliminary orbit determination, in Dafny

This project models the computational core of
`orbitdeterminator/kep_determination/gauss_method.py`. From three observations
of a body, the first-order Gauss method estimates the body's heliocentric
position at the three epochs and its velocity at the middle one. Each
observation is a line-of-sight unit vector and the observer's position. The
file also holds helpers for the calendar, sidereal time and Keplerian elements.

Five modules make up the model:

- `Vectors` (`vectors.dfy`): 3-vectors over `real` with `np.dot` (`Dot`) and
  `np.cross` (`Cross`), plus the identities the other modules use. These are
  Lagrange's identity, the symmetries of the triple product, and the
  reconstruction of a vector from three cross products.
- `JulianDate` (`julian_date.dfy`): `date_to_jd`. Each `math.trunc` of a
  floating-point product becomes an exact integer quotient rounded toward zero
  (`TruncDiv`). `365.25` is `1461/4` and `30.6001` is `306001/10000`.
- `SiderealTime` (`sidereal_time.dfy`): `gmst`, `gast` and `localsidtime`.
  `np.mod(x, 24.0)` is the floored remainder `x - 24 floor(x / 24)`.
- `KeplerElements` (`kepler_elements.dfy`): covers `lagrangef`, `lagrangeg`,
  `kep_h_vec`, `kep_h_norm`, `semimajoraxis` and `eccentricity`. It also proves
  the closed form of the determinant `f1 g3 - f3 g1`.
- `Gauss` (`gauss.dfy`): the module-level script of lines 351-476 becomes the
  method `GaussMethod`. It allocates the arrays `R` and `p`, fills the 3x3
  array `D` with a nested loop (`FillD`), and computes `A`, `B`, `E` and the
  coefficients of the Gauss polynomial. It then hands over to
  `RangesAndVelocity` for the slant ranges, the positions and the velocity. It is proved equal to the pure specification `Solve`, and the
  properties of the method are proved about `Solve`.

Where the script divides by a quantity that can be zero, the model returns
`Failure(e)`. This covers `tau`, `D0`, `tau3`, `den1`, `r2_star`, `tau1`, `den3`
and `f1 g3 - f3 g1`. `e` names the vanished quantity, and the checks run in
the order the script meets these divisions. The script itself would carry
`inf`/`nan` on.

The inputs the script gets from files, the ephemeris and a root finder become
parameters of `GaussMethod`:

- the lines of sight `rho1`, `rho2`, `rho3`;
- the observer positions `R`;
- `tau1` and `tau3` in seconds;
- `mu`;
- the root `r2_star`.

## Model

| member | source | states |
|---|---|---|
| JulianDate.GregorianCorrection | orbitdeterminator/kep_determination/gauss_method.py:128-145 | B is 0 for dates before 15 October 1582, judged on the unshifted year, month and day. From then on it is 2 - y/100 + y/400 for the shifted year y. |
| JulianDate.YearDays | orbitdeterminator/kep_determination/gauss_method.py:147-150 | C, the days of the whole years before the shifted year, is floor(1461 y / 4) = floor(365.25 y) for years of either sign. The -0.75 branch for negative years is what makes it a floor. |
| JulianDate.DateToJd | orbitdeterminator/kep_determination/gauss_method.py:96-156 | The Julian Day is an integer (B + C + D + 1720994) plus the day plus one half. |
| JulianDate.DocumentationExample | orbitdeterminator/kep_determination/gauss_method.py:122-125 | date_to_jd(1985, 2, 17.25) is exactly 2446113.75. |
| JulianDate.GregorianCutover | orbitdeterminator/kep_determination/gauss_method.py:135-145 | 15 October 1582 follows 4 October 1582 by one day, and October 1582 is 21 days long. |
| JulianDate.DayShift | orbitdeterminator/kep_determination/gauss_method.py:147-154 | Within one month and on one side of the cutover, adding x to the day adds exactly x to the Julian Day. |
| JulianDate.MonthDayValues | orbitdeterminator/kep_determination/gauss_method.py:152 | D = trunc(30.6001 (m + 1)) for the shifted months 3 to 14 gives the cumulative month starts 122, 153, ..., 459. |
| JulianDate.YearStep | orbitdeterminator/kep_determination/gauss_method.py:147-150 | C grows by 365 + (y/4 - (y-1)/4) days from year y-1 to year y: 366 when y is divisible by 4 and 365 otherwise. |
| JulianDate.GregorianMonthLength | orbitdeterminator/kep_determination/gauss_method.py:128-154 | From 15 October 1582 on, the Julian Days of the first of a month and of the next month differ by that month's length in the Gregorian calendar. This includes February 28 or 29 under the 4/100/400 rule. |
| JulianDate.JulianMonthLength | orbitdeterminator/kep_determination/gauss_method.py:128-154 | For months that end before the reform, the difference is the month's length in the Julian calendar, where every fourth year is a leap year. |
| SiderealTime.Mod24 | orbitdeterminator/kep_determination/gauss_method.py:48 | np.mod(x, 24) lies in [0, 24) and differs from x by a whole multiple of 24. |
| SiderealTime.Mod24Unique | orbitdeterminator/kep_determination/gauss_method.py:48 | Those two properties determine np.mod(x, 24). |
| SiderealTime.Mod24Periodic | orbitdeterminator/kep_determination/gauss_method.py:48 | Adding whole days of 24 hours does not change the reduced value. |
| SiderealTime.Gmst | orbitdeterminator/kep_determination/gauss_method.py:47-48 | Greenwich mean sidereal time lies in [0, 24). |
| SiderealTime.Gast | orbitdeterminator/kep_determination/gauss_method.py:53-55 | Greenwich apparent sidereal time lies in [0, 24). |
| SiderealTime.LocalSidTime | orbitdeterminator/kep_determination/gauss_method.py:58-59 | Local sidereal time lies in [0, 24). |
| SiderealTime.LongitudeFullTurn | orbitdeterminator/kep_determination/gauss_method.py:58-59 | Adding 360 degrees of longitude leaves the local sidereal time unchanged. |
| SiderealTime.GreenwichMeridian | orbitdeterminator/kep_determination/gauss_method.py:47-59 | At longitude 0 the local sidereal time is the Greenwich mean sidereal time. |
| SiderealTime.LongitudesCompose | orbitdeterminator/kep_determination/gauss_method.py:58-59 | Moving east by long1 and then by long2 gives the same local time as moving east by long1 + long2. |
| SiderealTime.GastWithoutNutation | orbitdeterminator/kep_determination/gauss_method.py:53-55 | With zero nutation in longitude, apparent sidereal time equals mean sidereal time. |
| SiderealTime.LocalSidTimeFromDate | orbitdeterminator/kep_determination/gauss_method.py:47-59 | Reducing gmst mod 24 before adding the longitude gives the same result as reducing once at the end. |
| KeplerElements.LagrangeFBound | orbitdeterminator/kep_determination/gauss_method.py:158-159 | When mu / r^3 >= 0, f = 1 - (mu / r^3) tau^2 / 2 is at most its epoch value 1, and strictly below it when mu / r^3 > 0 and tau != 0. |
| KeplerElements.LagrangeGBound | orbitdeterminator/kep_determination/gauss_method.py:161-162 | When mu / r^3 >= 0, g = tau - (mu / r^3) tau^3 / 6 is at most tau for tau >= 0 and at least tau for tau <= 0. |
| KeplerElements.LagrangeAtEpoch | orbitdeterminator/kep_determination/gauss_method.py:158-162 | f(0) = 1 and g(0) = 0. |
| KeplerElements.LagrangeTimeReversal | orbitdeterminator/kep_determination/gauss_method.py:158-162 | f is even in tau and g is odd. |
| KeplerElements.LagrangeDeterminant | orbitdeterminator/kep_determination/gauss_method.py:465-476 | With k = mu / r^3, the velocity's denominator f1 g3 - f3 g1 equals tau (1 - k tau^2 / 6 + k^2 tau1^2 tau3^2 / 12). |
| KeplerElements.ShortArcDeterminant | orbitdeterminator/kep_determination/gauss_method.py:465-476 | For positive mu and r, an arc with mu tau^2 < 6 r^3 and tau1 != tau3 has f1 g3 - f3 g1 != 0. |
| KeplerElements.KepHVec | orbitdeterminator/kep_determination/gauss_method.py:169-170 | The angular momentum vector is perpendicular to both the position and the velocity. |
| KeplerElements.KepHVecIsCross | orbitdeterminator/kep_determination/gauss_method.py:169-170 | kep_h_vec is the cross product r x v. |
| KeplerElements.KepHNormSquared | orbitdeterminator/kep_determination/gauss_method.py:166-167 | The radicand of kep_h_norm is ‖h‖^2 >= 0. It is zero exactly when h is the zero vector, and it equals ‖r‖^2 ‖v‖^2 - (r . v)^2. |
| KeplerElements.SemiMajorAxis | orbitdeterminator/kep_determination/gauss_method.py:172-175 | a is not zero and satisfies the vis-viva equation v^2 / 2 - mu / ‖r‖ = -mu / (2 a). |
| KeplerElements.EccentricitySquared | orbitdeterminator/kep_determination/gauss_method.py:177-181 | The radicand 1 - h2 / (mu a) of eccentricity is the squared length of the eccentricity vector ((v^2 - mu / ‖r‖) r - (r . v) v) / mu. It is therefore never negative, and the square root is defined. |
| KeplerElements.EccentricityIsLrlNorm | orbitdeterminator/kep_determination/gauss_method.py:177-181 | 1 - h2 / (mu a), with h2 and a computed as the source computes them, equals the squared eccentricity vector. |
| KeplerElements.CircularOrbit | orbitdeterminator/kep_determination/gauss_method.py:177-181 | A velocity perpendicular to the radius with v^2 = mu / ‖r‖ gives eccentricity 0. |
| Vectors.CrossPerpendicular | orbitdeterminator/kep_determination/gauss_method.py:379-381 | np.cross(a, b) is perpendicular to a and to b. |
| Vectors.LagrangeIdentity | orbitdeterminator/kep_determination/gauss_method.py:166-167 | ‖a x b‖^2 = ‖a‖^2 ‖b‖^2 - (a . b)^2. |
| Vectors.TripleSymmetries | orbitdeterminator/kep_determination/gauss_method.py:388 | The triple product is invariant under cyclic shifts and changes sign under a swap. |
| Vectors.PerpendicularToCrossBasisIsZero | orbitdeterminator/kep_determination/gauss_method.py:377-397 | A vector perpendicular to all three p[j] of non-coplanar lines of sight is zero. |
| Gauss.PolynomialOf | orbitdeterminator/kep_determination/gauss_method.py:417-419 | The constant term c = -(mu^2)(B^2) of the Gauss polynomial is <= 0. |
| Gauss.PolynomialCoefficients | orbitdeterminator/kep_determination/gauss_method.py:366-419 | Building the coefficients fails exactly when tau = 0 or D0 = 0, and when it succeeds c <= 0. |
| Gauss.FillD | orbitdeterminator/kep_determination/gauss_method.py:392-397 | The nested loop sets all nine entries D[i, j] = R[i] . p[j]. |
| Gauss.GaussMethod | orbitdeterminator/kep_determination/gauss_method.py:351-476 | The method is proved equal to the specification Solve. Solve has the same results, and the same failures in the same order. On success the estimate also carries the coefficients a, b, c of the polynomial the root is taken from. |
| Gauss.RangesAndVelocity | orbitdeterminator/kep_determination/gauss_method.py:437-476 | Given the coefficients PolynomialCoefficients computes and the filled D, the slant ranges, positions and velocity of the second half of the script give exactly Solve's result, with the failures on tau3, den1, r2*, tau1, den3 and f1 g3 - f3 g1 in that order. |
| Gauss.SolveFailure | orbitdeterminator/kep_determination/gauss_method.py:366-476 | The method fails exactly when one of tau, D0, tau3, den1, r2*, tau1, den3 or f1 g3 - f3 g1 is zero. When it succeeds, the coefficients in its estimate are those PolynomialCoefficients computes from the observations alone. |
| Gauss.CrossProductsPerpendicular | orbitdeterminator/kep_determination/gauss_method.py:377-381 | Each p[j] is perpendicular to the two lines of sight it is the cross product of. |
| Gauss.D0Forms | orbitdeterminator/kep_determination/gauss_method.py:388 | D0 is the triple product rho1 . (rho2 x rho3). rho2 . p[1] = -D0 and rho3 . p[2] = D0. |
| Gauss.CoplanarityCondition | orbitdeterminator/kep_determination/gauss_method.py:401-455 | The computed positions satisfy r2 = c1 r1 + c3 r3, with c1 = (tau3 / tau)(1 + mu (tau^2 - tau3^2) / (6 r2*^3)) and c3 = -(tau1 / tau)(1 + mu (tau^2 - tau1^2) / (6 r2*^3)). This is the relation the slant-range formulas solve. |
| Gauss.PositionsOnLinesOfSight | orbitdeterminator/kep_determination/gauss_method.py:453-455 | r_i - R_i = rho_i L_i, so each position lies on its observer's line of sight. |
| Gauss.GaussPolynomialSignChange | orbitdeterminator/kep_determination/gauss_method.py:417-422 | For the method's c <= 0, mygaussfun(0) = c <= 0, and it is < 0 when c < 0 (mu B != 0). mygaussfun(x) > 0 for every x >= 1 + abs(a) + abs(b) + abs(c). So when c < 0 the polynomial changes sign on (0, x), which by continuity brackets a root; when c = 0 (for instance all observer positions at the origin) x^8 + a x^6 + b x^3 may have no positive root. |
| Gauss.GaussPolynomialRootBound | orbitdeterminator/kep_determination/gauss_method.py:421-422 | Every root of mygaussfun, for any coefficients, is below 1 + abs(a) + abs(b) + abs(c). |
| Gauss.Velocity | orbitdeterminator/kep_determination/gauss_method.py:476 | v2 = (-f3 r1 + f1 r3) / (f1 g3 - f3 g1) is the vector that (f1 g3 - f3 g1) v2 = -f3 r1 + f1 r3 determines. |
| Gauss.RootIffRadius | orbitdeterminator/kep_determination/gauss_method.py:417-454 | For a unit middle line of sight, r2* is a root of the Gauss polynomial x^8 + a x^6 + b x^3 + c exactly when the computed r2 has squared length r2*^2, that is length abs(r2*). A negative root gives a position of length -r2*. |
| Gauss.VelocityRecovery | orbitdeterminator/kep_determination/gauss_method.py:476 | If r1 = f1 r2 + g1 v and r3 = f3 r2 + g3 v with f1 g3 - f3 g1 != 0, then v2 = (-f3 r1 + f1 r3) / (f1 g3 - f3 g1) equals v. |
| Gauss.ShortArcDenominators | orbitdeterminator/kep_determination/gauss_method.py:437-445 | With tau1 < 0 < tau3 and positive mu and r2*^3, den1 > 0 and den3 > 0. |
| Gauss.ShortArcSucceeds | orbitdeterminator/kep_determination/gauss_method.py:366-476 | The method succeeds for positive mu and r2*, tau1 < 0 < tau3, non-coplanar lines of sight and a short arc with mu tau^2 < 6 r2*^3. |

## Left out

- `load_data_mpc` is not modelled. It parses a file and delegates to `numpy.genfromtxt`, which is I/O plus a library call.
- The JPL DE430 ephemeris read through `jplephem` is not modelled because it is an external data source. The observer positions are inputs of `GaussMethod`.
- `scipy.optimize.newton`, which finds `r2_star`, is a foreign numerical solver. The root `r2_star` is a parameter. `Gauss.RootIffRadius` states what a root of the polynomial means, and nothing requires the parameter to be a root.
- `cosinedirectors` and `observerpos` are left out because they are trigonometry. The lines of sight and observer positions are inputs.
- The cosine in `gast` is left out. `SiderealTime.Gast` takes cos(epsilon) as a parameter. The source's comment gives epsilon in degrees while `np.cos` reads radians; no cosine is modelled, so that mismatch is not modelled either.
- The call sites that add `observerpos` to the Earth's position pass the parallax constant C into the parameter for S. This is not modelled, since `observerpos` is outside the model.
- Square roots are left out:
  - `KeplerElements.SemiMajorAxis` takes the radius ‖r‖ as a parameter satisfying radius > 0 and radius^2 = x^2 + y^2 + z^2.
  - `kep_h_norm` is modelled by its radicand, `KeplerElements.KepHNormSquared`.
  - `eccentricity` is modelled by its radicand, `KeplerElements.EccentricitySquared`.
- KeplerElements.SemiMajorAxis: the model requires a positive radius, a non-zero mu and a non-parabolic state (2/‖r‖ != v^2/mu), where the source would divide by zero. The same holds for `KeplerElements.EccentricitySquared`, which divides by mu a.
- Gauss.GaussPolynomialSignChange: states the change of sign only. The existence of a root in between (the intermediate value theorem) and the convergence of `newton` to it are not proved.
- KeplerElements.LagrangeF, KeplerElements.LagrangeG: require r2 != 0, where the source divides by zero in mu / r2**3. `GaussMethod` returns `Failure(ZeroRadius)` before it reaches them.
- Gauss.GaussMethod: degenerate divisions return a `Failure` naming the zero divisor instead of numpy's `inf`/`nan`.
- The script driver is not modelled: the hard-coded observation indices, the MPC file name, the observatory constants, the printing and the 3-D plots.
- The commented-out sidereal-time example in the file is inert code and is not modelled.
- All of `radec_LS_test_satobs.py` is left out. It is a script that calls functions absent from `gauss_method.py`, and it uses `scipy.optimize.least_squares`, `astropy` and matplotlib.
- IEEE floating-point rounding is not modelled. Every quantity is a mathematical `real`, and the constants 365.25 and 30.6001 are taken as the exact decimals they denote.
