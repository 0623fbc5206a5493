/** The ray/sphere test: the sphere equation along the ray's line is a quadratic in the
    parameter `t`, and the test reports whether that quadratic has a real root by the
    sign of its discriminant alone. */
module Intersection {
  import opened Vectors
  import opened Rays

  /** `a = d . d`, the coefficient of `t * t`. */
  function CoefficientA(r: Ray): real {
    Dot(r.direction, r.direction)
  }

  /** `b = -2 d . (C - Q)`, the coefficient of `t`. */
  function CoefficientB(center: Point3, r: Ray): real {
    -2.0 * Dot(r.direction, Sub(center, r.origin))
  }

  /** `c = (C - Q) . (C - Q) - radius * radius`, the constant term. */
  function CoefficientC(center: Point3, radius: real, r: Ray): real {
    Dot(Sub(center, r.origin), Sub(center, r.origin)) - radius * radius
  }

  /** The discriminant `b * b - 4 * a * c` of a quadratic. */
  function QuadraticDiscriminant(a: real, b: real, c: real): real {
    b * b - 4.0 * a * c
  }

  /** The discriminant of the quadratic along the ray. */
  function Discriminant(center: Point3, radius: real, r: Ray): real {
    QuadraticDiscriminant(CoefficientA(r), CoefficientB(center, r), CoefficientC(center, radius, r))
  }

  /** `hit_sphere`: true when the discriminant is not negative. */
  function HitSphere(center: Point3, radius: real, r: Ray): bool {
    Discriminant(center, radius, r) >= 0.0
  }

  /** Along the ray the squared distance to the centre, less the squared radius, is the
      quadratic `a t^2 + b t + c`: the derivation the coefficients come from. */
  lemma {:induction false} QuadraticAlongRay(center: Point3, radius: real, r: Ray, t: real)
    ensures DistanceSquared(At(r, t), center) - radius * radius
         == CoefficientA(r) * t * t + CoefficientB(center, r) * t + CoefficientC(center, radius, r)
  {
    var d, oc := r.direction, Sub(center, r.origin);
    assert Sub(At(r, t), center) == Sub(Scale(t, d), oc);
    DotScaledDifference(t, d, oc);
  }

  /** If the quadratic is not positive at some `t` and `a` is not negative, the
      discriminant is not negative: it is `(2 a t + b)^2 - 4 a (a t^2 + b t + c)`. */
  lemma DiscriminantAtNonpositivePoint(a: real, b: real, c: real, t: real)
    requires a >= 0.0
    requires a * t * t + b * t + c <= 0.0
    ensures QuadraticDiscriminant(a, b, c) >= 0.0
  {
    var e, q := 2.0 * a * t + b, a * t * t + b * t + c;
    assert QuadraticDiscriminant(a, b, c) == e * e - 4.0 * a * q;
    ProductOfEqualsNonnegative(e, e);
    assert a * (-q) >= 0.0;
  }

  /** Every point of the line that lies inside the sphere or on it makes the test report a
      hit; in particular every intersection point, at any parameter, negative ones included. */
  lemma {:induction false} PointInsideIsHit(center: Point3, radius: real, r: Ray, t: real)
    requires DistanceSquared(At(r, t), center) <= radius * radius
    ensures HitSphere(center, radius, r)
  {
    QuadraticAlongRay(center, radius, r, t);
    DotSelfNonnegative(r.direction);
    DiscriminantAtNonpositivePoint(CoefficientA(r), CoefficientB(center, r), CoefficientC(center, radius, r), t);
  }

  /** The parameter of the point of the line closest to the centre, `-b / (2 a)`. */
  function ClosestParameter(center: Point3, r: Ray): real
    requires r.direction != Zero
  {
    DotSelfNonnegative(r.direction);
    Dot(r.direction, Sub(center, r.origin)) / CoefficientA(r)
  }

  /** A non-zero direction gives a positive leading coefficient. */
  lemma NonzeroDirectionPositiveA(r: Ray)
    requires r.direction != Zero
    ensures CoefficientA(r) > 0.0
  {
    DotSelfNonnegative(r.direction);
  }

  /** The closest parameter `q` satisfies `a q = d . (C - Q)`, so `b = -2 a q`. */
  lemma ClosestParameterIsVertex(center: Point3, r: Ray)
    requires r.direction != Zero
    ensures CoefficientB(center, r) == -2.0 * CoefficientA(r) * ClosestParameter(center, r)
  {
    NonzeroDirectionPositiveA(r);
    var a, h := CoefficientA(r), Dot(r.direction, Sub(center, r.origin));
    assert a * (h / a) == h;
  }

  /** `ClosestParameter` earns its name: no point of the line is nearer the centre than the
      point at that parameter. */
  lemma {:induction false} ClosestIsClosest(center: Point3, r: Ray, t: real)
    requires r.direction != Zero
    ensures DistanceSquared(At(r, ClosestParameter(center, r)), center) <= DistanceSquared(At(r, t), center)
  {
    var q := ClosestParameter(center, r);
    QuadraticAlongRay(center, 0.0, r, t);
    QuadraticAlongRay(center, 0.0, r, q);
    ClosestParameterIsVertex(center, r);
    NonzeroDirectionPositiveA(r);
    VertexIsMinimum(CoefficientA(r), CoefficientB(center, r), CoefficientC(center, 0.0, r), q, t);
  }

  /** A quadratic with `a >= 0` and `b = -2 a q` takes its least value at `q`: the
      difference is `a (t - q)^2`. */
  lemma VertexIsMinimum(a: real, b: real, c: real, q: real, t: real)
    requires a >= 0.0 && b == -2.0 * a * q
    ensures a * q * q + b * q + c <= a * t * t + b * t + c
  {
    var e := t - q;
    assert (a * t * t + b * t + c) - (a * q * q + b * q + c) == a * (e * e);
    ProductOfEqualsNonnegative(e, e);
    assert a * (e * e) >= 0.0;
  }

  /** When `b = -2 a q`, i.e. `q` is the vertex of the quadratic, the discriminant is `-4 a`
      times the quadratic's value at `q`. */
  lemma DiscriminantAtVertex(a: real, b: real, c: real, q: real)
    requires b == -2.0 * a * q
    ensures QuadraticDiscriminant(a, b, c) == -4.0 * a * (a * q * q + b * q + c)
  {
  }

  /** If the quadratic's value at the vertex is `distSq - radiusSq`, then `-4 a` times that
      value is `4 a (radiusSq - distSq)`. */
  lemma FactorNegation(a: real, vertexValue: real, distSq: real, radiusSq: real)
    requires vertexValue == distSq - radiusSq
    ensures -4.0 * a * vertexValue == 4.0 * a * (radiusSq - distSq)
  {
  }

  /** For a non-zero direction the discriminant is `4 a (radius^2 - dist^2)`, where `dist`
      is the distance from the centre to the closest point of the line. */
  lemma {:induction false} DiscriminantAtClosestPoint(center: Point3, radius: real, r: Ray)
    requires r.direction != Zero
    ensures CoefficientA(r) > 0.0
    ensures Discriminant(center, radius, r)
         == 4.0 * CoefficientA(r) * (radius * radius - DistanceSquared(At(r, ClosestParameter(center, r)), center))
  {
    NonzeroDirectionPositiveA(r);
    var a, b, c := CoefficientA(r), CoefficientB(center, r), CoefficientC(center, radius, r);
    var q := ClosestParameter(center, r);
    ClosestParameterIsVertex(center, r);
    QuadraticAlongRay(center, radius, r, q);
    DiscriminantAtVertex(a, b, c, q);
    FactorNegation(a, a * q * q + b * q + c, DistanceSquared(At(r, q), center), radius * radius);
  }

  lemma PositiveFactorKeepsSign(a: real, x: real)
    requires a > 0.0
    ensures 4.0 * a * x >= 0.0 <==> x >= 0.0
    ensures 4.0 * a * x == 0.0 <==> x == 0.0
  {
    if x < 0.0 {
      assert a * (-x) > 0.0;
    } else if x > 0.0 {
      assert a * x > 0.0;
    }
  }

  /** For a non-zero direction the test reports a hit exactly when the closest point of
      the line to the centre lies within the radius: the line meets the sphere. */
  lemma {:induction false} HitIffClosestPointWithin(center: Point3, radius: real, r: Ray)
    requires r.direction != Zero
    ensures HitSphere(center, radius, r)
        <==> DistanceSquared(At(r, ClosestParameter(center, r)), center) <= radius * radius
  {
    DiscriminantAtClosestPoint(center, radius, r);
    PositiveFactorKeepsSign(CoefficientA(r),
      radius * radius - DistanceSquared(At(r, ClosestParameter(center, r)), center));
  }

  /** A line that only touches the sphere has a zero discriminant, and the test counts it. */
  lemma {:induction false} TangentIsHit(center: Point3, radius: real, r: Ray)
    requires r.direction != Zero
    requires DistanceSquared(At(r, ClosestParameter(center, r)), center) == radius * radius
    ensures Discriminant(center, radius, r) == 0.0
    ensures HitSphere(center, radius, r)
  {
    DiscriminantAtClosestPoint(center, radius, r);
    PositiveFactorKeepsSign(CoefficientA(r),
      radius * radius - DistanceSquared(At(r, ClosestParameter(center, r)), center));
  }

  /** A ray that starts inside the sphere, or on it, hits it whatever its direction. */
  lemma {:induction false} OriginInsideHits(center: Point3, radius: real, r: Ray)
    requires DistanceSquared(r.origin, center) <= radius * radius
    ensures HitSphere(center, radius, r)
  {
    AtOrigin(r);
    PointInsideIsHit(center, radius, r, 0.0);
  }

  /** Scaling the direction by a non-zero factor `k` multiplies the discriminant by `k * k`
      and so leaves the result unchanged. */
  lemma {:induction false} ScaledDirection(center: Point3, radius: real, r: Ray, k: real)
    requires k != 0.0
    ensures Discriminant(center, radius, Ray(r.origin, Scale(k, r.direction)))
         == k * k * Discriminant(center, radius, r)
    ensures HitSphere(center, radius, Ray(r.origin, Scale(k, r.direction)))
        == HitSphere(center, radius, r)
  {
    var d, oc := r.direction, Sub(center, r.origin);
    var s := Ray(r.origin, Scale(k, d));
    DotScaleBoth(k, d, d);
    assert CoefficientA(s) == k * k * CoefficientA(r);
    DotScale(k, d, oc);
    assert CoefficientB(center, s) == k * CoefficientB(center, r);
    var a, b, c := CoefficientA(r), CoefficientB(center, r), CoefficientC(center, radius, r);
    assert CoefficientC(center, radius, s) == c;
    ScaleDiscriminant(k, a, b, c);
    assert Discriminant(center, radius, s) == QuadraticDiscriminant(k * k * a, k * b, c);
    SquareFactorKeepsSign(k, k, Discriminant(center, radius, r));
  }

  lemma ScaleDiscriminant(k: real, a: real, b: real, c: real)
    ensures QuadraticDiscriminant(k * k * a, k * b, c) == k * k * QuadraticDiscriminant(a, b, c)
  {
  }

  /** Reversing the direction leaves the result unchanged: the test is on the whole line. */
  lemma {:induction false} NegatedDirection(center: Point3, radius: real, r: Ray)
    ensures HitSphere(center, radius, Ray(r.origin, Neg(r.direction)))
        == HitSphere(center, radius, r)
  {
    assert Neg(r.direction) == Scale(-1.0, r.direction);
    ScaledDirection(center, radius, r, -1.0);
  }

  /** A negative radius is accepted, and behaves as its absolute value. */
  lemma NegativeRadius(center: Point3, radius: real, r: Ray)
    ensures HitSphere(center, -radius, r) == HitSphere(center, radius, r)
  {
  }

  lemma ZeroDirectionCoefficientA(r: Ray)
    requires r.direction == Zero
    ensures CoefficientA(r) == 0.0
  {
    assert CoefficientA(r) == Dot(Zero, Zero);
  }

  lemma ZeroDirectionCoefficientB(center: Point3, r: Ray)
    requires r.direction == Zero
    ensures CoefficientB(center, r) == 0.0
  {
    assert CoefficientB(center, r) == -2.0 * Dot(Zero, Sub(center, r.origin));
  }

  /** The degenerate ray with a zero direction is counted as a hit: all coefficients but
      `c` vanish, so the discriminant is zero. */
  lemma {:induction false} ZeroDirectionHits(center: Point3, radius: real, r: Ray)
    requires r.direction == Zero
    ensures HitSphere(center, radius, r)
  {
    ZeroDirectionCoefficientA(r);
    ZeroDirectionCoefficientB(center, r);
    ConstantQuadraticDiscriminant(CoefficientA(r), CoefficientB(center, r), CoefficientC(center, radius, r));
  }

  lemma ConstantQuadraticDiscriminant(a: real, b: real, c: real)
    requires a == 0.0 && b == 0.0
    ensures QuadraticDiscriminant(a, b, c) == 0.0
  {
  }

  /** A ray aimed exactly at the centre hits, from wherever it starts. */
  lemma {:induction false} AimedAtCenterHits(center: Point3, radius: real, r: Ray)
    requires r.direction == Sub(center, r.origin)
    ensures HitSphere(center, radius, r)
  {
    assert At(r, 1.0) == center;
    assert Sub(center, center) == Zero;
    assert DistanceSquared(center, center) == Dot(Zero, Zero) == 0.0;
    PointInsideIsHit(center, radius, r, 1.0);
  }

  /** A ray pointed at the centre hits whatever the direction's magnitude, and even when it
      points exactly away from it. */
  lemma {:induction false} AimedAtCenterAnyMagnitudeHits(center: Point3, radius: real, q: Point3, k: real)
    requires k != 0.0
    ensures HitSphere(center, radius, Ray(q, Scale(k, Sub(center, q))))
  {
    var r := Ray(q, Sub(center, q));
    AimedAtCenterHits(center, radius, r);
    ScaledDirection(center, radius, r, k);
  }
}
