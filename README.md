# One-weekend ray tracer: a verified model

This project models the small ray caster in `raytracer-cpp/src/one-weekend/`. The
program sets up a 400-pixel-wide 16:9 image and a pinhole camera at the origin. It casts
one ray through every pixel centre, row by row, and colours each pixel:

- red if the ray's line meets a sphere of radius 0.5 centred at `(0, 0, -1)`;
- otherwise a sky colour, blended from white at the bottom to light blue at the top by the
  height of the ray's unit direction.

Floating-point numbers are modelled by Dafny's exact `real`.

The modules follow the program:

- `Vectors` (`vectors.dfy`): the three-real vector with the operations the program uses:
  sum, difference, scaling, division and dot product. It adds two operations the program
  does not use: the cross product, which states that two vectors are parallel, and
  negation, which states that reversing a direction changes nothing. It also holds a few
  algebraic facts about them.
- `Rays` (`ray.dfy`): the `ray` value type and `at(t)`.
- `Intersection` (`hit_sphere.dfy`): `hit_sphere`, the discriminant sign test of the
  quadratic `a t^2 + b t + c` along the ray. Its geometric meaning is proved without square
  roots. For a non-zero direction the discriminant equals `4 a (r^2 - dist^2)`, where
  `dist` is the distance from the centre to the closest point of the line. So the test
  reports a hit exactly when the infinite line meets the sphere, whichever way the ray
  points. The test does not look at the sign of `t`, so a sphere behind the camera counts
  as a hit.
- `Shading` (`shading.dfy`): `ray_color`. `unit_vector` would need a square root, so
  `RayColor` takes the unit direction as an argument. The predicate `IsUnitOf` defines it
  by its properties: length one, parallel to the direction, and pointing the same way.
- `CameraSetup` (`camera.dfy`): the set-up steps at the top of `main`, as the method
  `SetupCamera`. It is proved against the predicate `IsCameraFor`, which states what the
  set-up computes: the clamped image height, square pixels, and the half-pixel inset of
  the first pixel centre.
- `Render` (`render.dfy`): the nested pixel loop, as the method `EmitPixels`. The output
  stream is modelled as the sequence of emitted pixels: coordinates and colour, in
  emission order. The loop is proved equal to the recursive specification `Scan`.
  `RenderImage` is the whole of `main`.

`int(x)` in the height computation truncates toward zero; `TruncateToInt` models that.
For the positive quotients the program produces, truncation is the floor.

## Model

| member | source | states |
|---|---|---|
| Rays.At | raytracer-cpp/src/one-weekend/ray.h:15 | `at(t)` is the point `origin + t * direction` of the ray |
| Rays.AtOrigin | raytracer-cpp/src/one-weekend/ray.h:15 | `at(0)` is the origin |
| Rays.AtAffine | raytracer-cpp/src/one-weekend/ray.h:15 | `at(t + s) = at(t) + s * direction` for all reals |
| Rays.AtZeroDirection | raytracer-cpp/src/one-weekend/ray.h:9-15 | a zero direction is accepted by the constructor and then `at(t)` is the origin for every `t` |
| Rays.AtOnLine | raytracer-cpp/src/one-weekend/ray.h:15 | every point `at(t)` lies on the line through the origin along the direction |
| Rays.ParameterOfAt | raytracer-cpp/src/one-weekend/ray.h:15 | for a non-zero direction the parameter is recovered from the point `at(t)` |
| Rays.AtInjective | raytracer-cpp/src/one-weekend/ray.h:15 | for a non-zero direction, distinct parameters give distinct points |
| Intersection.CoefficientA | raytracer-cpp/src/one-weekend/main.cpp:22 | `a = d . d`, the coefficient of `t^2` |
| Intersection.CoefficientB | raytracer-cpp/src/one-weekend/main.cpp:21-23 | `b = -2 d . (C - Q)`, the coefficient of `t` |
| Intersection.CoefficientC | raytracer-cpp/src/one-weekend/main.cpp:21-24 | `c = (C - Q) . (C - Q) - radius^2`, the constant term |
| Intersection.Discriminant | raytracer-cpp/src/one-weekend/main.cpp:21-30 | `b^2 - 4 a c` of the ray's quadratic |
| Intersection.HitSphere | raytracer-cpp/src/one-weekend/main.cpp:20-32 | `hit_sphere`: the discriminant is not negative (its meaning is proved by the lemmas below) |
| Intersection.QuadraticAlongRay | raytracer-cpp/src/one-weekend/main.cpp:21-24 | along the ray, squared distance to the centre minus radius squared is `a t^2 + b t + c` with the program's `a`, `b`, `c` |
| Intersection.DiscriminantAtNonpositivePoint | raytracer-cpp/src/one-weekend/main.cpp:30 | a quadratic with `a >= 0` that is not positive somewhere has a non-negative discriminant |
| Intersection.PointInsideIsHit | raytracer-cpp/src/one-weekend/main.cpp:20-32 | if any point of the line (at any parameter) is inside or on the sphere, `hit_sphere` is true |
| Intersection.NonzeroDirectionPositiveA | raytracer-cpp/src/one-weekend/main.cpp:22 | `a = d . d` is positive for a non-zero direction |
| Intersection.ClosestParameterIsVertex | raytracer-cpp/src/one-weekend/main.cpp:22-23 | the closest-point parameter `q` satisfies `b = -2 a q` |
| Intersection.DiscriminantAtClosestPoint | raytracer-cpp/src/one-weekend/main.cpp:21-30 | for a non-zero direction, `a > 0` and the discriminant is `4 a (r^2 - dist^2(closest point, centre))` |
| Intersection.ClosestIsClosest | raytracer-cpp/src/one-weekend/main.cpp:21-23 | no point of the line is nearer the centre than the point at `ClosestParameter` |
| Intersection.HitIffClosestPointWithin | raytracer-cpp/src/one-weekend/main.cpp:20-32 | for a non-zero direction, `hit_sphere` holds exactly when the line comes within the radius of the centre |
| Intersection.TangentIsHit | raytracer-cpp/src/one-weekend/main.cpp:26-31 | a line that only touches the sphere has a zero discriminant and counts as a hit |
| Intersection.OriginInsideHits | raytracer-cpp/src/one-weekend/main.cpp:21-31 | a ray whose origin is inside or on the sphere hits for every direction |
| Intersection.ScaledDirection | raytracer-cpp/src/one-weekend/main.cpp:22-31 | scaling the direction by any non-zero `k` multiplies the discriminant by `k^2` and leaves the result unchanged |
| Intersection.ScaleDiscriminant | raytracer-cpp/src/one-weekend/main.cpp:30 | the discriminant of `(k^2 a, k b, c)` is `k^2` times that of `(a, b, c)` |
| Intersection.NegatedDirection | raytracer-cpp/src/one-weekend/main.cpp:23-31 | reversing the direction leaves the result unchanged |
| Intersection.NegativeRadius | raytracer-cpp/src/one-weekend/main.cpp:20-24 | a negative radius gives the same result as its absolute value |
| Intersection.ZeroDirectionCoefficientA | raytracer-cpp/src/one-weekend/main.cpp:22 | a zero direction gives `a = 0` |
| Intersection.ZeroDirectionCoefficientB | raytracer-cpp/src/one-weekend/main.cpp:23 | a zero direction gives `b = 0` |
| Intersection.ZeroDirectionHits | raytracer-cpp/src/one-weekend/main.cpp:21-31 | the degenerate zero-direction ray counts as a hit |
| Intersection.AimedAtCenterHits | raytracer-cpp/src/one-weekend/main.cpp:20-32 | a ray aimed exactly at the centre hits from any origin |
| Intersection.AimedAtCenterAnyMagnitudeHits | raytracer-cpp/src/one-weekend/main.cpp:20-32 | a ray whose direction is any non-zero multiple of `C - Q` hits |
| Shading.BlendFactor | raytracer-cpp/src/one-weekend/main.cpp:39 | the blend weight `a = 0.5 (y + 1)` from the unit direction's height |
| Shading.Lerp | raytracer-cpp/src/one-weekend/main.cpp:40 | the blend `(1 - a) * start + a * end` |
| Shading.RayColor | raytracer-cpp/src/one-weekend/main.cpp:34-41 | the colour is `(1, 0, 0)` exactly when `hit_sphere((0,0,-1), 0.5, r)`. On a miss it is a sky colour: blue 1, red `0.75 - 0.25 y` for the unit direction's height `y`, and green tied to red |
| Shading.BlendFactorRange | raytracer-cpp/src/one-weekend/main.cpp:39 | `a = 0.5 (y + 1)` lies in `[0, 1]` exactly when `y` lies in `[-1, 1]` |
| Shading.LerpEndpoints | raytracer-cpp/src/one-weekend/main.cpp:40 | the blend gives its first colour at `a = 0` and its second at `a = 1` |
| Shading.UnitComponentBounds | raytracer-cpp/src/one-weekend/main.cpp:38 | every component of a unit vector, its height included, lies in `[-1, 1]` |
| Shading.MissHasNonzeroDirection | raytracer-cpp/src/one-weekend/main.cpp:35-38 | a ray that misses has a non-zero direction, so its unit vector exists |
| Shading.MissIsSky | raytracer-cpp/src/one-weekend/main.cpp:38-40 | on a miss, with the true unit direction, the colour is on the white-to-blue gradient with channels in `[0, 1]` |
| Shading.RayColorInRange | raytracer-cpp/src/one-weekend/main.cpp:34-41 | every colour is red or a sky colour, with channels in `[0, 1]` |
| Shading.SkyAtExtremes | raytracer-cpp/src/one-weekend/main.cpp:39-40 | on a miss, height `-1` gives white and height `1` gives `(0.5, 0.7, 1.0)` |
| Shading.IsUnitOfScaled | raytracer-cpp/src/one-weekend/main.cpp:38 | scaling a vector by a positive factor keeps its unit vector |
| Shading.RayColorScaleInvariant | raytracer-cpp/src/one-weekend/main.cpp:34-41 | rays whose directions differ by a positive factor get the same colour |
| Shading.UnitOfUpward | raytracer-cpp/src/one-weekend/main.cpp:38 | the unit vector of `(0, k, 0)`, `k > 0`, is `(0, 1, 0)` |
| Shading.SidewaysRayMisses | raytracer-cpp/src/one-weekend/main.cpp:35 | a ray from the camera centre with a non-zero direction that has no `z` component misses the scene's sphere |
| Shading.MissWhenNoLinearTerm | raytracer-cpp/src/one-weekend/main.cpp:30-31 | with `a > 0`, `b = 0` and `c > 0` the test reports a miss |
| Shading.CameraRayDiscriminant | raytracer-cpp/src/one-weekend/main.cpp:21-30 | for a ray from the camera centre, the scene's discriminant is `4 d.z^2 - 3 d . d` |
| Shading.CameraRayCoefficients | raytracer-cpp/src/one-weekend/main.cpp:23-24 | for a ray from the camera centre, `b = 2 d.z` and `c = 0.75` |
| Shading.BehindCameraHits | raytracer-cpp/src/one-weekend/main.cpp:35 | a ray from the camera pointing straight away from the sphere still reports a hit |
| Shading.BehindCameraPointsOutside | raytracer-cpp/src/one-weekend/ray.h:15 | that ray has no point at `t >= 0` within the radius |
| Shading.StraightUpIsSkyBlue | raytracer-cpp/src/one-weekend/main.cpp:34-41 | looking straight up from the camera shows `(0.5, 0.7, 1.0)` |
| CameraSetup.TruncateToInt | raytracer-cpp/src/one-weekend/main.cpp:48 | `int(x)` truncates toward zero: the floor for `x >= 0`, the ceiling for `x < 0` |
| CameraSetup.ImageHeight | raytracer-cpp/src/one-weekend/main.cpp:48-49 | the height is at least 1. It is the whole part of `width / aspect` when that is at least 1, and 1 otherwise |
| CameraSetup.SquarePixels | raytracer-cpp/src/one-weekend/main.cpp:54-64 | with the viewport sized by the grid ratio, the horizontal and vertical pixel steps are equal, and `width` such steps span the viewport width |
| CameraSetup.IsCameraFor | raytracer-cpp/src/one-weekend/main.cpp:45-70 | the camera the set-up derives from its constants: clamped height, camera at the origin, viewport width from the grid ratio, square pixel steps and the half-pixel inset of the first centre |
| CameraSetup.SetupCamera | raytracer-cpp/src/one-weekend/main.cpp:45-70 | the set-up yields the camera `IsCameraFor` describes. That covers the clamped height, camera at the origin and viewport width `vh * (w / h)`. It also covers square pixel steps `(s, 0, 0)` and `(0, -s, 0)` and the first centre half a pixel inside the upper-left corner |
| CameraSetup.PixelCenter | raytracer-cpp/src/one-weekend/main.cpp:79-80 | the centre `pixel00 + i * delta_u + j * delta_v` of pixel `(i, j)` |
| CameraSetup.PixelRay | raytracer-cpp/src/one-weekend/main.cpp:79-82 | the ray from the camera centre towards that pixel centre |
| CameraSetup.PixelCenterPosition | raytracer-cpp/src/one-weekend/main.cpp:67-82 | pixel `(i, j)` is centred `i + 1/2` pixels from the left edge and `j + 1/2` pixels from the top edge; its ray starts at the camera and points at that centre |
| CameraSetup.PixelCentersSymmetric | raytracer-cpp/src/one-weekend/main.cpp:54-80 | pixel `(i, j)` and its mirror `(w-1-i, h-1-j)` average to the viewport centre `(0, 0, -focal)` |
| CameraSetup.PixelCenterInsideViewport | raytracer-cpp/src/one-weekend/main.cpp:54-80 | for a positive viewport height, every pixel centre of the image lies strictly inside the viewport |
| CameraSetup.ReferenceImageHeight | raytracer-cpp/src/one-weekend/main.cpp:45-49 | width 400 at 16:9 gives 225 rows |
| CameraSetup.ReferenceCamera | raytracer-cpp/src/one-weekend/main.cpp:45-70 | the program's own constants give viewport `32/9` by `2`, pixel side `2/225` and first centre `(-16/9 + 1/225, 1 - 1/225, -1)` |
| CameraSetup.GridRatioNotNominal | raytracer-cpp/src/one-weekend/main.cpp:45-54 | the camera of a 401-pixel-wide 16:9 image has 225 rows and viewport width `2 * 401 / 225`, which differs from `2 * 16 / 9`: the viewport follows the rounded grid |
| Render.Shade | raytracer-cpp/src/one-weekend/main.cpp:79-84 | the colour of pixel `(i, j)`: `ray_color` of its ray |
| Render.ScanRow | raytracer-cpp/src/one-weekend/main.cpp:78-86 | row `j` holds its pixels left to right: entry `i` is pixel `(i, j)` with its colour |
| Render.Scan | raytracer-cpp/src/one-weekend/main.cpp:75-87 | the first `rows` rows hold `rows * width` pixels |
| Render.ScanPosition | raytracer-cpp/src/one-weekend/main.cpp:75-87 | row-major order: pixel `(i, j)` is emitted at position `j * width + i` |
| Render.ScanLayout | raytracer-cpp/src/one-weekend/main.cpp:75-87 | the whole image has `width * height` pixels, each `(i, j)` at position `j * width + i` |
| Render.EmitPixels | raytracer-cpp/src/one-weekend/main.cpp:75-87 | the nested loop (rows outer, columns inner) emits exactly `Scan` of all rows |
| Render.RenderImage | raytracer-cpp/src/one-weekend/main.cpp:43-89 | the program sets up the camera of its configuration. It emits `width * height` pixels in row-major order, pixel `(i, j)` coloured by the ray through its centre |
| Render.ScanColors | raytracer-cpp/src/one-weekend/main.cpp:75-87 | every emitted colour is red exactly when its pixel's ray hits; otherwise a sky colour, channels in `[0, 1]` |
| Render.ShadeColor | raytracer-cpp/src/one-weekend/main.cpp:79-84 | one pixel's colour is red exactly when its ray hits; otherwise a sky colour, channels in `[0, 1]` |
| Render.NearAxisRayHits | raytracer-cpp/src/one-weekend/main.cpp:35-36 | the ray along `(1/225, 0, -1)` from the camera hits the sphere |
| Render.CornerRayMisses | raytracer-cpp/src/one-weekend/main.cpp:35-38 | the ray along `(-399/225, 224/225, -1)` from the camera misses the sphere |
| Render.ReferencePixelRay | raytracer-cpp/src/one-weekend/main.cpp:79-82 | with the program's constants, pixel `(i, j)` looks along `(-16/9 + (i + 1/2) 2/225, 1 - (j + 1/2) 2/225, -1)` |
| Render.ReferenceCenterPixelIsRed | raytracer-cpp/src/one-weekend/main.cpp:79-84 | pixel `(200, 112)` looks along `(1/225, 0, -1)` and is red |
| Render.ReferenceCornerPixelIsSky | raytracer-cpp/src/one-weekend/main.cpp:79-84 | the upper-left pixel misses the sphere and shows a sky colour |

## Left out

- `vulkan-learning/main.cpp` is not part of this model. It is window creation and
  foreign-API plumbing.
- Floating-point rounding is not modelled: all arithmetic is exact `real`. This covers the
  `float` parameters `radius` of `hit_sphere` and `t` of `at`, their promotion to `double`,
  and any sign flip of the discriminant that rounding could cause.
- `vec3.h` and `color.h` are not part of this model. The vector operations are defined
  directly on a three-real datatype.
- `unit_vector` needs a square root, so it is not computed. `RayColor` receives its value,
  and `Shade`, `EmitPixels` and `RenderImage` receive the function as the parameter
  `unitVector`. The colour lemmas assume it satisfies `IsUnitOf`, stated by
  `IsUnitVectorFunction`.
- `write_color` is not modelled: no channel quantisation to 0..255 and no text formatting.
  The emitted sequence of pixels and colours stands for the bytes written to `std::cout`.
- The `P3` header line, the progress lines on `std::clog` and the final "Done." line are
  not modelled; they are I/O only.
- The default constructor `ray()` is not modelled: its fields take `vec3`'s default value,
  which is defined in `vec3.h`.
- `int` is modelled as an unbounded integer. The program's values (400 by 225) are far
  from the 32-bit limits, and an out-of-range conversion in `int(x)` is not modelled.
- Intersection.ZeroDirectionHits: states only that the zero-direction ray counts as a hit,
  not that its discriminant is exactly zero, which also holds.
- CameraSetup.SetupCamera: requires a width of at least 1 and a non-zero aspect ratio. A
  zero width or aspect ratio is a divisor, and would yield an infinity or NaN in floating
  point, which `real` cannot represent. Negative widths are excluded too: the program would
  clamp the height to 1 and emit nothing, but the row-major layout in the model counts
  `rows * width` pixels, which needs a width that is not negative. The program's only
  configuration (400 and 16/9) meets the requirement.
- Render.RenderImage: has the same requirement as `SetupCamera`, for the same reason.
