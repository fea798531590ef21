/** Sidereal time in hours: `gmst`, `gast` and `localsidtime`. Each is an
    affine formula reduced with `np.mod(·, 24.0)`, which for a positive divisor
    is the floored remainder x - 24 * floor(x / 24). The cosine of the
    obliquity that `gast` computes with `np.cos` is a parameter here. */
module SiderealTime {

  /** `np.mod(x, 24.0)`: the representative of x in [0, 24) that differs from
      x by a whole number of days of 24 hours. */
  function Mod24(x: real): (r: real)
    ensures 0.0 <= r < 24.0
    ensures x - r == 24.0 * ((x - r) / 24.0).Floor as real
  {
    var k := (x / 24.0).Floor;
    assert (x - (x - 24.0 * k as real)) / 24.0 == k as real;
    x - 24.0 * k as real
  }

  /** Mod24 is characterised by its two properties: the one value in [0, 24)
      that differs from x by a whole multiple of 24 hours. */
  lemma Mod24Unique(x: real, r: real, k: int)
    requires 0.0 <= r < 24.0
    requires x == r + 24.0 * k as real
    ensures Mod24(x) == r
  {
    var f := (x / 24.0).Floor;
    assert x / 24.0 == r / 24.0 + k as real;
    assert k as real <= x / 24.0 < k as real + 1.0;
    assert f == k;
  }

  /** Whole days do not change the reduced value. */
  lemma {:induction false} Mod24Periodic(x: real, k: int)
    ensures Mod24(x + 24.0 * k as real) == Mod24(x)
  {
    var r := Mod24(x);
    var j := ((x - r) / 24.0).Floor;
    Mod24Unique(x + 24.0 * k as real, r, j + k);
  }

  /** Reducing a part of a sum first does not change the reduced sum. */
  lemma {:induction false} Mod24OfSum(a: real, b: real)
    ensures Mod24(Mod24(a) + b) == Mod24(a + b)
  {
    var r := Mod24(a);
    var j := ((a - r) / 24.0).Floor;
    Mod24Periodic(r + b, j);
    assert r + b + 24.0 * j as real == a + b;
  }

  /** `gmst`: Greenwich mean sidereal time (hours) at universal time `ut`
      (hours) of the day whose 0h UT has Julian Day `jd0`. */
  function Gmst(jd0: real, ut: real): (g: real)
    ensures 0.0 <= g < 24.0
  {
    Mod24(6.656306 + 0.0657098242 * (jd0 - 2445700.5) + 1.0027379093 * ut)
  }

  /** `gast`: Greenwich apparent sidereal time, the mean sidereal time shifted
      by the nutation in longitude `deltaLambda` (hours) times the cosine of the
      obliquity of the ecliptic, passed in as `cosEpsilon`. */
  function Gast(jd0: real, ut: real, deltaLambda: real, cosEpsilon: real): (g: real)
    ensures 0.0 <= g < 24.0
  {
    Mod24(Gmst(jd0, ut) + deltaLambda * cosEpsilon)
  }

  /** `localsidtime`: local sidereal time (hours) from Greenwich sidereal time
      and a longitude in degrees east of Greenwich (15 degrees per hour). */
  function LocalSidTime(gmstHours: real, longitude: real): (l: real)
    ensures 0.0 <= l < 24.0
  {
    Mod24(gmstHours + longitude / 15.0)
  }

  // ---- properties ----

  /** A full turn of longitude gives the same local sidereal time. */
  lemma {:induction false} LongitudeFullTurn(g: real, longitude: real)
    ensures LocalSidTime(g, longitude + 360.0) == LocalSidTime(g, longitude)
  {
    assert g + (longitude + 360.0) / 15.0 == (g + longitude / 15.0) + 24.0 * (1 as real);
    Mod24Periodic(g + longitude / 15.0, 1);
  }

  /** On the Greenwich meridian the local sidereal time is the Greenwich one. */
  lemma {:induction false} GreenwichMeridian(jd0: real, ut: real)
    ensures LocalSidTime(Gmst(jd0, ut), 0.0) == Gmst(jd0, ut)
  {
    var g := Gmst(jd0, ut);
    Mod24Unique(g + 0.0 / 15.0, g, 0);
  }

  /** Moving east by two longitudes in turn is moving east by their sum. */
  lemma {:induction false} LongitudesCompose(g: real, long1: real, long2: real)
    ensures LocalSidTime(LocalSidTime(g, long1), long2) == LocalSidTime(g, long1 + long2)
  {
    Mod24OfSum(g + long1 / 15.0, long2 / 15.0);
    assert g + long1 / 15.0 + long2 / 15.0 == g + (long1 + long2) / 15.0;
  }

  /** Without nutation the apparent sidereal time is the mean one. */
  lemma {:induction false} GastWithoutNutation(jd0: real, ut: real, cosEpsilon: real)
    ensures Gast(jd0, ut, 0.0, cosEpsilon) == Gmst(jd0, ut)
  {
    var g := Gmst(jd0, ut);
    Mod24Unique(g + 0.0 * cosEpsilon, g, 0);
  }

  /** Local sidereal time differs from the mean formula shifted by the
      longitude by a whole number of days. */
  lemma {:induction false} LocalSidTimeFromDate(jd0: real, ut: real, longitude: real)
    ensures LocalSidTime(Gmst(jd0, ut), longitude)
         == Mod24(6.656306 + 0.0657098242 * (jd0 - 2445700.5) + 1.0027379093 * ut + longitude / 15.0)
  {
    Mod24OfSum(6.656306 + 0.0657098242 * (jd0 - 2445700.5) + 1.0027379093 * ut, longitude / 15.0);
  }
}
