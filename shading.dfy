/** `ray_color`: the colour seen along a ray in the one-sphere scene. A ray that meets the
    sphere is flat red; any other ray gets the sky, a vertical blend from white at the
    bottom to light blue at the top. */
module Shading {
  import opened Vectors
  import opened Rays
  import opened Intersection

  /** The scene: one sphere of radius 0.5 centred one unit down the negative z axis. */
  const SceneCenter: Point3 := Vec3(0.0, 0.0, -1.0)
  const SceneRadius: real := 0.5

  const HitColor: Color := Vec3(1.0, 0.0, 0.0)
  const White: Color := Vec3(1.0, 1.0, 1.0)
  const SkyBlue: Color := Vec3(0.5, 0.7, 1.0)

  /** `u` is the unit vector of `v`, `v / |v|`, characterised without a square root: it has
      length one, is parallel to `v` and points the same way. */
  predicate IsUnitOf(u: Vec3, v: Vec3) {
    Dot(u, u) == 1.0 && Cross(u, v) == Zero && Dot(u, v) > 0.0
  }

  /** `a = 0.5 * (y + 1)`, the blend weight of the sky colour. */
  function BlendFactor(y: real): real {
    0.5 * (y + 1.0)
  }

  /** `(1 - a) * start + a * end`. */
  function Lerp(start: Color, end: Color, a: real): Color {
    Add(Scale(1.0 - a, start), Scale(a, end))
  }

  /** The colours of the sky: blue channel one, red between one half and one, and green
      tied to red along the segment from white to light blue. */
  predicate OnSkyGradient(c: Color) {
    c.z == 1.0 && 0.5 <= c.x <= 1.0 && c.y == 0.4 + 0.6 * c.x
  }

  predicate ChannelsInUnitRange(c: Color) {
    0.0 <= c.x <= 1.0 && 0.0 <= c.y <= 1.0 && 0.0 <= c.z <= 1.0
  }

  /** `ray_color`, given `unitDirection`, the value `unit_vector(r.direction())` that it
      computes (and uses only when the ray misses). The result is red exactly for the rays
      that hit the sphere; every other result lies on the line through white and light
      blue, its red channel falling linearly with the unit direction's height. */
  function RayColor(r: Ray, unitDirection: Vec3): (c: Color)
    ensures c == HitColor <==> HitSphere(SceneCenter, SceneRadius, r)
    ensures !HitSphere(SceneCenter, SceneRadius, r) ==>
              c.z == 1.0 && c.x == 0.75 - 0.25 * unitDirection.y && c.y == 0.4 + 0.6 * c.x
  {
    if HitSphere(SceneCenter, SceneRadius, r) then HitColor
    else Lerp(White, SkyBlue, BlendFactor(unitDirection.y))
  }

  /** The blend weight lies in [0, 1] exactly when the height lies in [-1, 1]. */
  lemma BlendFactorRange(y: real)
    ensures 0.0 <= BlendFactor(y) <= 1.0 <==> -1.0 <= y <= 1.0
  {
  }

  /** The blend starts at its first colour and ends at its second. */
  lemma LerpEndpoints(start: Color, end: Color)
    ensures Lerp(start, end, 0.0) == start
    ensures Lerp(start, end, 1.0) == end
  {
  }

  lemma SquareAtMostOne(y: real)
    requires y * y <= 1.0
    ensures -1.0 <= y <= 1.0
  {
    if y > 1.0 {
      PositiveProduct(y - 1.0, y - 1.0);
    } else if y < -1.0 {
      PositiveProduct(-1.0 - y, -1.0 - y);
    }
  }

  /** Every component of a unit vector lies in [-1, 1]; in particular its height does. */
  lemma UnitComponentBounds(u: Vec3, v: Vec3)
    requires IsUnitOf(u, v)
    ensures -1.0 <= u.x <= 1.0 && -1.0 <= u.y <= 1.0 && -1.0 <= u.z <= 1.0
  {
    ProductOfEqualsNonnegative(u.x, u.x);
    ProductOfEqualsNonnegative(u.y, u.y);
    ProductOfEqualsNonnegative(u.z, u.z);
    assert u.x * u.x + u.y * u.y + u.z * u.z == 1.0;
    SquareAtMostOne(u.x);
    SquareAtMostOne(u.y);
    SquareAtMostOne(u.z);
  }

  /** A ray that misses has a non-zero direction, so its unit vector exists. */
  lemma MissHasNonzeroDirection(r: Ray)
    requires !HitSphere(SceneCenter, SceneRadius, r)
    ensures r.direction != Zero
    ensures Dot(r.direction, r.direction) > 0.0
  {
    if r.direction == Zero {
      ZeroDirectionHits(SceneCenter, SceneRadius, r);
    }
    DotSelfNonnegative(r.direction);
  }

  /** On a miss, with the true unit direction, the colour is a sky colour, with every
      channel in [0, 1]. */
  lemma {:induction false} MissIsSky(r: Ray, unitDirection: Vec3)
    requires !HitSphere(SceneCenter, SceneRadius, r)
    requires IsUnitOf(unitDirection, r.direction)
    ensures OnSkyGradient(RayColor(r, unitDirection))
    ensures ChannelsInUnitRange(RayColor(r, unitDirection))
  {
    UnitComponentBounds(unitDirection, r.direction);
  }

  /** Whatever the ray, provided the unit direction is the true one whenever it is used, the
      colour is red or a sky colour, with every channel in [0, 1]. */
  lemma {:induction false} RayColorInRange(r: Ray, unitDirection: Vec3)
    requires !HitSphere(SceneCenter, SceneRadius, r) ==> IsUnitOf(unitDirection, r.direction)
    ensures RayColor(r, unitDirection) == HitColor || OnSkyGradient(RayColor(r, unitDirection))
    ensures ChannelsInUnitRange(RayColor(r, unitDirection))
  {
    if !HitSphere(SceneCenter, SceneRadius, r) {
      MissIsSky(r, unitDirection);
    }
  }

  /** A missing ray whose unit direction points straight down is white, one pointing
      straight up is light blue. */
  lemma SkyAtExtremes(r: Ray, unitDirection: Vec3)
    requires !HitSphere(SceneCenter, SceneRadius, r)
    ensures unitDirection.y == -1.0 ==> RayColor(r, unitDirection) == White
    ensures unitDirection.y == 1.0 ==> RayColor(r, unitDirection) == SkyBlue
  {
  }

  /** Scaling a vector by a positive factor keeps its unit vector. */
  lemma {:induction false} IsUnitOfScaled(u: Vec3, v: Vec3, k: real)
    requires k > 0.0 && IsUnitOf(u, v)
    ensures IsUnitOf(u, Scale(k, v))
  {
    CrossScale(k, u, v);
    assert Scale(k, Zero) == Zero;
    DotScale(k, u, v);
    PositiveProduct(k, Dot(u, v));
  }

  /** Rays along the same direction scaled by a positive factor get the same colour. */
  lemma {:induction false} RayColorScaleInvariant(r: Ray, unitDirection: Vec3, k: real)
    requires k > 0.0
    requires IsUnitOf(unitDirection, r.direction)
    ensures IsUnitOf(unitDirection, Scale(k, r.direction))
    ensures RayColor(Ray(r.origin, Scale(k, r.direction)), unitDirection) == RayColor(r, unitDirection)
  {
    IsUnitOfScaled(unitDirection, r.direction, k);
    ScaledDirection(SceneCenter, SceneRadius, r, k);
  }

  /** The unit vector of a vertical vector `(0, k, 0)` with `k > 0` is `(0, 1, 0)`. */
  lemma UnitOfUpward(u: Vec3, k: real)
    requires k > 0.0 && IsUnitOf(u, Vec3(0.0, k, 0.0))
    ensures u == Vec3(0.0, 1.0, 0.0)
  {
    var v := Vec3(0.0, k, 0.0);
    assert Cross(u, v).x == -(u.z * k) && Cross(u, v).z == u.x * k;
    if u.z != 0.0 {
      if u.z > 0.0 { PositiveProduct(u.z, k); } else { PositiveProduct(-u.z, k); }
    }
    if u.x != 0.0 {
      if u.x > 0.0 { PositiveProduct(u.x, k); } else { PositiveProduct(-u.x, k); }
    }
    assert u.y * k > 0.0;
    if u.y <= 0.0 {
      PositiveProduct(-u.y, k);
    }
    assert u.y * u.y == 1.0;
    if u.y > 1.0 {
      PositiveProduct(u.y - 1.0, u.y + 1.0);
    } else if u.y < 1.0 {
      PositiveProduct(1.0 - u.y, u.y + 1.0);
    }
  }

  /** A ray from the camera's centre parallel to the image plane (no z component) misses
      the sphere: its discriminant is `-3 d . d`. */
  lemma {:induction false} SidewaysRayMisses(r: Ray)
    requires r.origin == Zero && r.direction.z == 0.0 && r.direction != Zero
    ensures !HitSphere(SceneCenter, SceneRadius, r)
  {
    CameraRayCoefficients(r);
    NonzeroDirectionPositiveA(r);
    MissWhenNoLinearTerm(SceneCenter, SceneRadius, r);
  }

  /** With no linear term and positive `a` and `c`, the discriminant `-4 a c` is negative. */
  lemma MissWhenNoLinearTerm(center: Point3, radius: real, r: Ray)
    requires CoefficientA(r) > 0.0 && CoefficientB(center, r) == 0.0
    requires CoefficientC(center, radius, r) > 0.0
    ensures !HitSphere(center, radius, r)
  {
    NegativeDiscriminantWithoutLinearTerm(CoefficientA(r), CoefficientB(center, r),
      CoefficientC(center, radius, r));
  }

  /** For a ray from the camera's centre the discriminant is `4 d.z^2 - 3 d . d`. */
  lemma {:induction false} CameraRayDiscriminant(r: Ray)
    requires r.origin == Zero
    ensures Discriminant(SceneCenter, SceneRadius, r)
         == 4.0 * r.direction.z * r.direction.z - 3.0 * Dot(r.direction, r.direction)
  {
    CameraRayCoefficients(r);
    CameraQuadraticDiscriminant(CoefficientA(r), CoefficientB(SceneCenter, r),
      CoefficientC(SceneCenter, SceneRadius, r), r.direction.z);
  }

  lemma CameraQuadraticDiscriminant(a: real, b: real, c: real, z: real)
    requires b == 2.0 * z && c == 0.75
    ensures QuadraticDiscriminant(a, b, c) == 4.0 * z * z - 3.0 * a
  {
  }

  /** For a ray from the camera's centre, `b = 2 d.z` and `c = 1 - 0.25`. */
  lemma CameraRayCoefficients(r: Ray)
    requires r.origin == Zero
    ensures CoefficientB(SceneCenter, r) == 2.0 * r.direction.z
    ensures CoefficientC(SceneCenter, SceneRadius, r) == 0.75
  {
  }

  lemma NegativeDiscriminantWithoutLinearTerm(a: real, b: real, c: real)
    requires a > 0.0 && b == 0.0 && c > 0.0
    ensures QuadraticDiscriminant(a, b, c) < 0.0
  {
    PositiveProduct(a, c);
  }

  lemma SquareAtLeastOne(a: real)
    requires a >= 1.0
    ensures a * a >= 1.0
  {
    assert a * a - 1.0 == (a - 1.0) * (a + 1.0);
    if a > 1.0 {
      PositiveProduct(a - 1.0, a + 1.0);
    }
  }

  /** The test is on the whole line: a ray from the camera pointing straight away from the
      sphere still reports a hit, although none of its points ahead of the camera comes
      within the radius (`BehindCameraPointsOutside`). */
  lemma {:induction false} BehindCameraHits()
    ensures HitSphere(SceneCenter, SceneRadius, Ray(Zero, Vec3(0.0, 0.0, 1.0)))
  {
    var r := Ray(Zero, Vec3(0.0, 0.0, 1.0));
    CameraRayDiscriminant(r);
    assert Dot(r.direction, r.direction) == 1.0;
  }

  /** No point of the ray along `(0, 0, 1)` at a parameter `t >= 0` lies within the radius:
      both intersections are behind the camera. */
  lemma {:induction false} BehindCameraPointsOutside(t: real)
    requires t >= 0.0
    ensures DistanceSquared(At(Ray(Zero, Vec3(0.0, 0.0, 1.0)), t), SceneCenter) > SceneRadius * SceneRadius
  {
    var r := Ray(Zero, Vec3(0.0, 0.0, 1.0));
    assert Sub(At(r, t), SceneCenter) == Vec3(0.0, 0.0, t + 1.0);
    assert DistanceSquared(At(r, t), SceneCenter) == (t + 1.0) * (t + 1.0);
    SquareAtLeastOne(t + 1.0);
  }

  /** Looking straight up from the camera's centre shows light blue. */
  lemma {:induction false} StraightUpIsSkyBlue(k: real, unitDirection: Vec3)
    requires k > 0.0 && IsUnitOf(unitDirection, Vec3(0.0, k, 0.0))
    ensures RayColor(Ray(Zero, Vec3(0.0, k, 0.0)), unitDirection) == SkyBlue
  {
    SidewaysRayMisses(Ray(Zero, Vec3(0.0, k, 0.0)));
    UnitOfUpward(unitDirection, k);
  }
}
