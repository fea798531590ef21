/** Three-dimensional real vectors and the products the orbit computations use
    (numpy's `np.dot`, `np.cross` and the element-wise `+`, `-` and scalar `*`
    on 3-arrays), with the sign facts about real products that the proofs need.

    The sign lemmas name every product as a variable (`p == a * b`): the solver
    reasons about a named product far more reliably than about a comparison
    written on the product itself. */
module Vectors {

  datatype Vec3 = Vec3(x: real, y: real, z: real)

  const Zero := Vec3(0.0, 0.0, 0.0)

  function Add(a: Vec3, b: Vec3): Vec3 {
    Vec3(a.x + b.x, a.y + b.y, a.z + b.z)
  }

  function Sub(a: Vec3, b: Vec3): Vec3 {
    Vec3(a.x - b.x, a.y - b.y, a.z - b.z)
  }

  function Scale(k: real, a: Vec3): Vec3 {
    Vec3(k * a.x, k * a.y, k * a.z)
  }

  function Dot(a: Vec3, b: Vec3): real {
    a.x * b.x + a.y * b.y + a.z * b.z
  }

  function Cross(a: Vec3, b: Vec3): Vec3 {
    Vec3(a.y * b.z - a.z * b.y, a.z * b.x - a.x * b.z, a.x * b.y - a.y * b.x)
  }

  /** The scalar triple product a . (b x c). */
  function Triple(a: Vec3, b: Vec3, c: Vec3): real {
    Dot(a, Cross(b, c))
  }

  // ---- signs of real products ----

  lemma ProductPositive(a: real, b: real, p: real)
    requires a > 0.0 && b > 0.0 && p == a * b
    ensures p > 0.0
  {
  }

  lemma SquareNonnegative(a: real, s: real)
    requires s == a * a
    ensures s >= 0.0
  {
    if a > 0.0 {
      ProductPositive(a, a, s);
    } else if a < 0.0 {
      ProductPositive(-a, -a, s);
    }
  }

  lemma SquarePositive(a: real, s: real)
    requires a != 0.0 && s == a * a
    ensures s > 0.0
  {
    if a > 0.0 {
      ProductPositive(a, a, s);
    } else {
      ProductPositive(-a, -a, s);
    }
  }

  /** A product of reals vanishes only when a factor does. */
  lemma ProductZero(a: real, b: real, p: real)
    requires p == a * b && p == 0.0
    ensures a == 0.0 || b == 0.0
  {
    if a != 0.0 && b != 0.0 {
      if a > 0.0 && b > 0.0 {
        ProductPositive(a, b, p);
      } else if a > 0.0 {
        ProductPositive(a, -b, -p);
      } else if b > 0.0 {
        ProductPositive(-a, b, -p);
      } else {
        ProductPositive(-a, -b, p);
      }
    }
  }

  // ---- lengths ----

  /** The squared length: never negative, and zero only for the zero vector. */
  function NormSquared(a: Vec3): (n: real)
    ensures n >= 0.0
    ensures n == 0.0 <==> a == Zero
  {
    DotSelf(a);
    Dot(a, a)
  }

  lemma DotSelf(a: Vec3)
    ensures Dot(a, a) >= 0.0
    ensures a != Zero ==> Dot(a, a) > 0.0
  {
    var sx, sy, sz := a.x * a.x, a.y * a.y, a.z * a.z;
    SquareNonnegative(a.x, sx);
    SquareNonnegative(a.y, sy);
    SquareNonnegative(a.z, sz);
    if a.x != 0.0 {
      SquarePositive(a.x, sx);
    }
    if a.y != 0.0 {
      SquarePositive(a.y, sy);
    }
    if a.z != 0.0 {
      SquarePositive(a.z, sz);
    }
    assert Dot(a, a) == sx + sy + sz;
  }

  // ---- linearity ----

  /** The dot product with a point b + t l of a line. */
  lemma DotOnLine(b: Vec3, t: real, l: Vec3, p: Vec3)
    ensures Dot(Add(b, Scale(t, l)), p) == Dot(b, p) + t * Dot(l, p)
  {
  }

  /** The dot product of a combination k a - b + j c. */
  lemma DotCombination(k: real, a: Vec3, b: Vec3, j: real, c: Vec3, p: Vec3)
    ensures Dot(Add(Sub(Scale(k, a), b), Scale(j, c)), p) == k * Dot(a, p) - Dot(b, p) + j * Dot(c, p)
  {
  }

  /** The squared length of a point b + t l of a line, expanded. */
  lemma NormSquaredOnLine(b: Vec3, t: real, l: Vec3)
    ensures NormSquared(Add(b, Scale(t, l))) == NormSquared(b) + 2.0 * t * Dot(b, l) + t * t * NormSquared(l)
  {
    OnLineScalars(b.x, b.y, b.z, t, l.x, l.y, l.z);
  }

  lemma OnLineScalars(bx: real, b_y: real, bz: real, t: real, lx: real, ly: real, lz: real)
    ensures (bx + t * lx) * (bx + t * lx) + (b_y + t * ly) * (b_y + t * ly) + (bz + t * lz) * (bz + t * lz)
         == (bx * bx + b_y * b_y + bz * bz) + 2.0 * t * (bx * lx + b_y * ly + bz * lz) + t * t * (lx * lx + ly * ly + lz * lz)
  {
  }

  /** The squared length of a combination k a - j b, expanded. */
  lemma NormSquaredCombination(k: real, a: Vec3, j: real, b: Vec3)
    ensures NormSquared(Sub(Scale(k, a), Scale(j, b)))
         == k * k * NormSquared(a) - 2.0 * k * j * Dot(a, b) + j * j * NormSquared(b)
  {
    CombinationScalars(k, a.x, a.y, a.z, j, b.x, b.y, b.z);
  }

  lemma CombinationScalars(k: real, ax: real, ay: real, az: real, j: real, bx: real, b_y: real, bz: real)
    ensures (k * ax - j * bx) * (k * ax - j * bx) + (k * ay - j * b_y) * (k * ay - j * b_y)
            + (k * az - j * bz) * (k * az - j * bz)
         == k * k * (ax * ax + ay * ay + az * az) - 2.0 * k * j * (ax * bx + ay * b_y + az * bz)
            + j * j * (bx * bx + b_y * b_y + bz * bz)
  {
  }

  /** Scaling by k scales the squared length by k^2. */
  lemma NormSquaredScale(k: real, a: Vec3)
    ensures NormSquared(Scale(k, a)) == k * k * NormSquared(a)
  {
    ScaleScalars(k, a.x, a.y, a.z);
  }

  lemma ScaleScalars(k: real, ax: real, ay: real, az: real)
    ensures (k * ax) * (k * ax) + (k * ay) * (k * ay) + (k * az) * (k * az) == k * k * (ax * ax + ay * ay + az * az)
  {
  }

  // ---- cross and triple products ----

  /** The cross product is perpendicular to both of its factors. */
  lemma CrossPerpendicular(a: Vec3, b: Vec3)
    ensures Dot(Cross(a, b), a) == 0.0 && Dot(Cross(a, b), b) == 0.0
  {
  }

  /** The triple product is invariant under cyclic rotation and changes sign
      when two factors are swapped. */
  lemma TripleSymmetries(a: Vec3, b: Vec3, c: Vec3)
    ensures Triple(a, b, c) == Triple(b, c, a) == Triple(c, a, b)
    ensures Triple(b, a, c) == -Triple(a, b, c)
    ensures Triple(a, c, b) == -Triple(a, b, c)
  {
    TripleExpanded(a, b, c);
    TripleExpanded(b, c, a);
    TripleExpanded(c, a, b);
    TripleExpanded(b, a, c);
    TripleExpanded(a, c, b);
  }

  lemma TripleExpanded(a: Vec3, b: Vec3, c: Vec3)
    ensures Triple(a, b, c) == a.x * b.y * c.z - a.x * b.z * c.y + a.y * b.z * c.x
                             - a.y * b.x * c.z + a.z * b.x * c.y - a.z * b.y * c.x
  {
  }

  /** Lagrange's identity: |a x b|^2 = |a|^2 |b|^2 - (a . b)^2. */
  lemma LagrangeIdentity(a: Vec3, b: Vec3)
    ensures NormSquared(Cross(a, b)) == NormSquared(a) * NormSquared(b) - Dot(a, b) * Dot(a, b)
  {
    var ax, ay, az, bx, b_y, bz := a.x, a.y, a.z, b.x, b.y, b.z;
    assert NormSquared(Cross(a, b))
        == (ay * bz - az * b_y) * (ay * bz - az * b_y) + (az * bx - ax * bz) * (az * bx - ax * bz)
         + (ax * b_y - ay * bx) * (ax * b_y - ay * bx);
  }

  /** Any vector w is recovered from its products with the three cross products
      b x c, a x c and a x b, scaled by the triple product of a, b and c:
      (w . (b x c)) a - (w . (a x c)) b + (w . (a x b)) c = (a . (b x c)) w. */
  lemma CrossBasisExpansion(a: Vec3, b: Vec3, c: Vec3, w: Vec3)
    ensures Add(Sub(Scale(Dot(w, Cross(b, c)), a), Scale(Dot(w, Cross(a, c)), b)), Scale(Dot(w, Cross(a, b)), c))
         == Scale(Triple(a, b, c), w)
  {
    var k0, k1, k2 := Dot(w, Cross(b, c)), Dot(w, Cross(a, c)), Dot(w, Cross(a, b));
    var t := Triple(a, b, c);
    DotCross(w, b, c);
    DotCross(w, a, c);
    DotCross(w, a, b);
    DotCross(a, b, c);
    CrossBasisScalars(a.x, a.y, a.z, b.x, b.y, b.z, c.x, c.y, c.z, w.x, w.y, w.z, k0, k1, k2, t);
    CombineComponents(a, b, c, w, k0, k1, k2, t);
  }

  /** The product of w with b x c, written out. */
  lemma DotCross(w: Vec3, b: Vec3, c: Vec3)
    ensures Dot(w, Cross(b, c))
         == w.x * (b.y * c.z - b.z * c.y) + w.y * (b.z * c.x - b.x * c.z) + w.z * (b.x * c.y - b.y * c.x)
  {
  }

  /** CrossBasisExpansion written out over scalars. */
  lemma CrossBasisScalars(ax: real, ay: real, az: real, bx: real, b_y: real, bz: real,
                          cx: real, cy: real, cz: real, wx: real, wy: real, wz: real,
                          k0: real, k1: real, k2: real, t: real)
    requires k0 == wx * (b_y * cz - bz * cy) + wy * (bz * cx - bx * cz) + wz * (bx * cy - b_y * cx)
    requires k1 == wx * (ay * cz - az * cy) + wy * (az * cx - ax * cz) + wz * (ax * cy - ay * cx)
    requires k2 == wx * (ay * bz - az * b_y) + wy * (az * bx - ax * bz) + wz * (ax * b_y - ay * bx)
    requires t == ax * (b_y * cz - bz * cy) + ay * (bz * cx - bx * cz) + az * (bx * cy - b_y * cx)
    ensures k0 * ax - k1 * bx + k2 * cx == t * wx
    ensures k0 * ay - k1 * b_y + k2 * cy == t * wy
    ensures k0 * az - k1 * bz + k2 * cz == t * wz
  {
  }

  lemma CombineComponents(a: Vec3, b: Vec3, c: Vec3, w: Vec3, k0: real, k1: real, k2: real, t: real)
    requires k0 * a.x - k1 * b.x + k2 * c.x == t * w.x
    requires k0 * a.y - k1 * b.y + k2 * c.y == t * w.y
    requires k0 * a.z - k1 * b.z + k2 * c.z == t * w.z
    ensures Add(Sub(Scale(k0, a), Scale(k1, b)), Scale(k2, c)) == Scale(t, w)
  {
  }

  /** If a, b and c are not coplanar, a vector perpendicular to all three of
      b x c, a x c and a x b is the zero vector. */
  lemma {:induction false} PerpendicularToCrossBasisIsZero(a: Vec3, b: Vec3, c: Vec3, w: Vec3)
    requires Triple(a, b, c) != 0.0
    requires Dot(w, Cross(b, c)) == 0.0 && Dot(w, Cross(a, c)) == 0.0 && Dot(w, Cross(a, b)) == 0.0
    ensures w == Zero
  {
    var k0, k1, k2 := Dot(w, Cross(b, c)), Dot(w, Cross(a, c)), Dot(w, Cross(a, b));
    var t := Triple(a, b, c);
    var lhs := Add(Sub(Scale(k0, a), Scale(k1, b)), Scale(k2, c));
    assert lhs == Scale(t, w) by {
      CrossBasisExpansion(a, b, c, w);
    }
    assert lhs.x == t * w.x && lhs.y == t * w.y && lhs.z == t * w.z;
    ComponentVanishes(a.x, b.x, c.x, w.x, k0, k1, k2, t);
    ComponentVanishes(a.y, b.y, c.y, w.y, k0, k1, k2, t);
    ComponentVanishes(a.z, b.z, c.z, w.z, k0, k1, k2, t);
  }

  lemma ComponentVanishes(ax: real, bx: real, cx: real, wx: real, k0: real, k1: real, k2: real, t: real)
    requires k0 == 0.0 && k1 == 0.0 && k2 == 0.0 && t != 0.0
    requires k0 * ax - k1 * bx + k2 * cx == t * wx
    ensures wx == 0.0
  {
    var p := t * wx;
    assert k0 * ax == 0.0 && k1 * bx == 0.0 && k2 * cx == 0.0;
    ProductZero(t, wx, p);
  }

  /** A point b + t l of a line, less its base point, is t l, which is
      parallel to l. */
  lemma OffsetFromBase(b: Vec3, t: real, l: Vec3)
    ensures Sub(Add(b, Scale(t, l)), b) == Scale(t, l)
    ensures Cross(Sub(Add(b, Scale(t, l)), b), l) == Zero
  {
    assert Sub(Add(b, Scale(t, l)), b) == Scale(t, l);
  }

  /** Scaling by d and then by 1 / d gives back the vector. */
  lemma ScaleInverse(d: real, a: Vec3)
    requires d != 0.0
    ensures Scale(1.0 / d, Scale(d, a)) == a
  {
    InverseProduct(d, a.x);
    InverseProduct(d, a.y);
    InverseProduct(d, a.z);
  }

  /** Scaling by 1 / d and then by d gives back the vector. */
  lemma ScaleBack(d: real, a: Vec3)
    requires d != 0.0
    ensures Scale(d, Scale(1.0 / d, a)) == a
  {
    assert d * (1.0 / d) == 1.0;
    assert d * ((1.0 / d) * a.x) == a.x;
    assert d * ((1.0 / d) * a.y) == a.y;
    assert d * ((1.0 / d) * a.z) == a.z;
  }

  lemma InverseProduct(d: real, t: real)
    requires d != 0.0
    ensures (1.0 / d) * (d * t) == t
  {
    assert (1.0 / d) * d == 1.0;
  }
}
