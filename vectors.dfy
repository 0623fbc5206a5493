/** Three-component real vectors, used as free vectors, points and colours.
    This is the small part of the vector algebra that the renderer needs;
    `real` stands in for the floating-point arithmetic of the original. */
module Vectors {

  datatype Vec3 = Vec3(x: real, y: real, z: real)

  /** A point in space and an RGB colour share the representation of a vector. */
  type Point3 = Vec3
  type Color = Vec3

  const Zero := Vec3(0.0, 0.0, 0.0)

  function Add(u: Vec3, v: Vec3): Vec3 {
    Vec3(u.x + v.x, u.y + v.y, u.z + v.z)
  }

  function Sub(u: Vec3, v: Vec3): Vec3 {
    Vec3(u.x - v.x, u.y - v.y, u.z - v.z)
  }

  /** Negation `-v`; the program does not negate vectors, but the model states with it that
      reversing a ray's direction does not change the hit test. */
  function Neg(v: Vec3): Vec3 {
    Vec3(-v.x, -v.y, -v.z)
  }

  /** Scalar multiplication `k * v` (and `v * k`). */
  function Scale(k: real, v: Vec3): Vec3 {
    Vec3(k * v.x, k * v.y, k * v.z)
  }

  /** Scalar division `v / k`. */
  function Div(v: Vec3, k: real): Vec3
    requires k != 0.0
  {
    Vec3(v.x / k, v.y / k, v.z / k)
  }

  function Dot(u: Vec3, v: Vec3): real {
    u.x * v.x + u.y * v.y + u.z * v.z
  }

  /** Cross product; the program does not use it, but the model states with it that two
      vectors are parallel. */
  function Cross(u: Vec3, v: Vec3): Vec3 {
    Vec3(u.y * v.z - u.z * v.y, u.z * v.x - u.x * v.z, u.x * v.y - u.y * v.x)
  }

  /** Squared Euclidean distance between two points. */
  function DistanceSquared(p: Point3, q: Point3): real {
    Dot(Sub(p, q), Sub(p, q))
  }

  /** The product of two equal reals is never negative, and is positive unless they are zero.
      The two factors are separate parameters so that the solver sees a product of two
      terms rather than a power. */
  lemma ProductOfEqualsNonnegative(a: real, b: real)
    requires a == b
    ensures a * b >= 0.0
    ensures a != 0.0 ==> a * b > 0.0
  {
    if a < 0.0 {
      assert a * b == (-a) * (-b);
    }
  }

  lemma DotSelfNonnegativeAux(v: Vec3, w: Vec3)
    requires w == v
    ensures Dot(v, w) >= 0.0
    ensures v != Zero ==> Dot(v, w) > 0.0
    ensures v == Zero ==> Dot(v, w) == 0.0
  {
    ProductOfEqualsNonnegative(v.x, w.x);
    ProductOfEqualsNonnegative(v.y, w.y);
    ProductOfEqualsNonnegative(v.z, w.z);
    assert v.x * w.x >= 0.0 && v.y * w.y >= 0.0 && v.z * w.z >= 0.0;
    assert Dot(v, w) == v.x * w.x + v.y * w.y + v.z * w.z;
    if v.x != 0.0 {
      assert v.x * w.x > 0.0;
    } else if v.y != 0.0 {
      assert v.y * w.y > 0.0;
    } else if v.z != 0.0 {
      assert v.z * w.z > 0.0;
    }
  }

  lemma PositiveProduct(a: real, b: real)
    requires a > 0.0 && b > 0.0
    ensures a * b > 0.0
  {
  }

  /** Multiplying by the square of a non-zero `k` keeps the sign of `x`. The two copies of `k`
      are tied by two inequalities, so that the solver keeps `k * k2` a product of two
      factors. */
  lemma SquareFactorKeepsSign(k: real, k2: real, x: real)
    requires k <= k2 <= k && k != 0.0
    ensures k * k2 * x >= 0.0 <==> x >= 0.0
  {
    if k > 0.0 {
      PositiveProduct(k, k2);
    } else {
      PositiveProduct(-k, -k2);
      assert k * k2 == (-k) * (-k2);
    }
    var p := k * k2;
    if x < 0.0 {
      PositiveProduct(p, -x);
    } else if x > 0.0 {
      PositiveProduct(p, x);
    }
  }

  /** A squared length is never negative, and is zero only for the zero vector. */
  lemma DotSelfNonnegative(v: Vec3)
    ensures Dot(v, v) >= 0.0
    ensures Dot(v, v) == 0.0 <==> v == Zero
  {
    DotSelfNonnegativeAux(v, v);
  }

  lemma DotScale(k: real, u: Vec3, v: Vec3)
    ensures Dot(Scale(k, u), v) == k * Dot(u, v)
    ensures Dot(u, Scale(k, v)) == k * Dot(u, v)
  {
  }

  lemma DotScaleBoth(k: real, u: Vec3, v: Vec3)
    ensures Dot(Scale(k, u), Scale(k, v)) == k * k * Dot(u, v)
  {
  }

  /** `(t d - w) . (t d - w) = t^2 (d . d) - 2 t (d . w) + w . w`. */
  lemma DotScaledDifference(t: real, d: Vec3, w: Vec3)
    ensures Dot(Sub(Scale(t, d), w), Sub(Scale(t, d), w))
         == t * t * Dot(d, d) - 2.0 * t * Dot(d, w) + Dot(w, w)
  {
  }

  lemma CrossScale(k: real, u: Vec3, v: Vec3)
    ensures Cross(u, Scale(k, v)) == Scale(k, Cross(u, v))
  {
    var w := Scale(k, v);
    assert w.x == k * v.x && w.y == k * v.y && w.z == k * v.z;
    MultiplyLeftFactor(k, u.y, v.z, u.z, v.y);
    MultiplyLeftFactor(k, u.z, v.x, u.x, v.z);
    MultiplyLeftFactor(k, u.x, v.y, u.y, v.x);
    var c := Cross(u, v);
    assert Cross(u, w).x == k * c.x;
    assert Cross(u, w).y == k * c.y;
    assert Cross(u, w).z == k * c.z;
  }

  lemma MultiplyLeftFactor(k: real, a: real, b: real, c: real, d: real)
    ensures a * (k * b) - c * (k * d) == k * (a * b - c * d)
  {
  }
}
