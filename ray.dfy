/** The ray value type: an origin point and a direction vector, and the point
    reached after parameter `t` along the ray. */
module Rays {
  import opened Vectors

  /** The two-argument constructor stores `origin` and `direction` unchanged, and the
      destructors `origin` and `direction` are the accessors. Nothing is validated: any
      direction, the zero vector included, makes a ray. */
  datatype Ray = Ray(origin: Point3, direction: Vec3)

  /** `origin + t * direction`, for every real `t`. */
  function At(r: Ray, t: real): Point3 {
    Add(r.origin, Scale(t, r.direction))
  }

  /** The parameter at which the ray's line reaches `p`: the inverse of `At` along the line
      (a reference definition, not part of the ray type). */
  function ParameterOf(r: Ray, p: Point3): real
    requires Dot(r.direction, r.direction) != 0.0
  {
    Dot(Sub(p, r.origin), r.direction) / Dot(r.direction, r.direction)
  }

  lemma AtOrigin(r: Ray)
    ensures At(r, 0.0) == r.origin
  {
  }

  /** Moving a further `s` along the ray adds `s` times the direction: `At` is affine. */
  lemma AtAffine(r: Ray, t: real, s: real)
    ensures At(r, t + s) == Add(At(r, t), Scale(s, r.direction))
  {
  }

  /** A zero direction is accepted, and then every parameter gives the origin. */
  lemma AtZeroDirection(r: Ray, t: real)
    requires r.direction == Zero
    ensures At(r, t) == r.origin
  {
  }

  /** Every point `At` returns lies on the line through the origin along the direction. */
  lemma AtOnLine(r: Ray, t: real)
    ensures Cross(Sub(At(r, t), r.origin), r.direction) == Zero
  {
  }

  /** For a non-zero direction the parameter is recovered from the point it gives. */
  lemma {:induction false} ParameterOfAt(r: Ray, t: real)
    requires Dot(r.direction, r.direction) != 0.0
    ensures ParameterOf(r, At(r, t)) == t
  {
    var d := r.direction;
    assert Sub(At(r, t), r.origin) == Scale(t, d);
    DotScale(t, d, d);
    assert Dot(Sub(At(r, t), r.origin), d) == t * Dot(d, d);
  }

  /** Distinct parameters give distinct points unless the direction is zero. */
  lemma AtInjective(r: Ray, t: real, s: real)
    requires r.direction != Zero
    requires At(r, t) == At(r, s)
    ensures t == s
  {
    DotSelfNonnegative(r.direction);
    ParameterOfAt(r, t);
    ParameterOfAt(r, s);
  }
}
