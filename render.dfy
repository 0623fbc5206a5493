/** The body of the program: set up the camera, then visit the pixels row by row, top row
    first and left to right within a row, casting one ray through each pixel centre and
    emitting its colour. The output stream is modelled by the sequence of emitted pixels. */
module Render {
  import opened Vectors
  import opened Rays
  import opened Intersection
  import opened Shading
  import opened CameraSetup

  /** One emitted pixel: its column `i`, its row `j` and its colour. */
  datatype Pixel = Pixel(i: int, j: int, color: Color)

  /** `unitVector` returns the unit vector of every non-zero vector (it stands for
      `unit_vector`). */
  ghost predicate IsUnitVectorFunction(unitVector: Vec3 -> Vec3) {
    forall v :: v != Zero ==> IsUnitOf(unitVector(v), v)
  }

  /** The colour of pixel `(i, j)`: `ray_color` of the ray through its centre. */
  function Shade(cam: Camera, unitVector: Vec3 -> Vec3, i: int, j: int): Color {
    var r := PixelRay(cam, i, j);
    RayColor(r, unitVector(r.direction))
  }

  /** The first `n` pixels of row `j`, left to right. */
  function ScanRow(cam: Camera, unitVector: Vec3 -> Vec3, j: int, n: nat): (row: seq<Pixel>)
    ensures |row| == n
    ensures forall i :: 0 <= i < n ==> row[i] == Pixel(i, j, Shade(cam, unitVector, i, j))
  {
    if n == 0 then []
    else ScanRow(cam, unitVector, j, n - 1) + [Pixel(n - 1, j, Shade(cam, unitVector, n - 1, j))]
  }

  /** The first `rows` full rows of the image, top to bottom. */
  function Scan(cam: Camera, unitVector: Vec3 -> Vec3, rows: nat): (pixels: seq<Pixel>)
    requires cam.imageWidth >= 0
    ensures |pixels| == rows * cam.imageWidth
  {
    if rows == 0 then []
    else Scan(cam, unitVector, rows - 1) + ScanRow(cam, unitVector, rows - 1, cam.imageWidth)
  }

  lemma RowStart(j: int, w: int, i: int)
    requires 0 <= j && 0 <= i < w
    ensures j * w + i < (j + 1) * w
    ensures 0 <= j * w
  {
  }

  /** Row-major order: pixel `(i, j)` of the first `rows` rows is emitted at position
      `j * width + i`. */
  lemma {:induction false} ScanPosition(cam: Camera, unitVector: Vec3 -> Vec3, rows: nat, i: int, j: int)
    requires cam.imageWidth >= 0
    requires 0 <= j < rows && 0 <= i < cam.imageWidth
    ensures 0 <= j * cam.imageWidth + i < |Scan(cam, unitVector, rows)|
    ensures Scan(cam, unitVector, rows)[j * cam.imageWidth + i] == Pixel(i, j, Shade(cam, unitVector, i, j))
    decreases rows
  {
    var w := cam.imageWidth;
    var prefix := Scan(cam, unitVector, rows - 1);
    assert Scan(cam, unitVector, rows) == prefix + ScanRow(cam, unitVector, rows - 1, w);
    RowStart(j, w, i);
    if j < rows - 1 {
      ScanPosition(cam, unitVector, rows - 1, i, j);
      RowStart(rows - 1, w, 0);
    } else {
      assert |prefix| == j * w;
    }
  }

  /** `pixels` holds pixel `(i, j)` of `cam`'s image, with its colour, at position
      `j * width + i`. */
  predicate EmittedAt(pixels: seq<Pixel>, cam: Camera, unitVector: Vec3 -> Vec3, i: int, j: int) {
    0 <= j * cam.imageWidth + i < |pixels|
    && pixels[j * cam.imageWidth + i] == Pixel(i, j, Shade(cam, unitVector, i, j))
  }

  /** Row-major layout of the whole image: `width * height` pixels, pixel `(i, j)` at
      position `j * width + i`. */
  lemma {:induction false} ScanLayout(cam: Camera, unitVector: Vec3 -> Vec3)
    requires cam.imageWidth >= 0 && cam.imageHeight >= 0
    ensures |Scan(cam, unitVector, cam.imageHeight)| == cam.imageWidth * cam.imageHeight
    ensures forall j, i :: 0 <= j < cam.imageHeight && 0 <= i < cam.imageWidth ==>
              EmittedAt(Scan(cam, unitVector, cam.imageHeight), cam, unitVector, i, j)
  {
    forall j, i | 0 <= j < cam.imageHeight && 0 <= i < cam.imageWidth
      ensures EmittedAt(Scan(cam, unitVector, cam.imageHeight), cam, unitVector, i, j)
    {
      ScanPosition(cam, unitVector, cam.imageHeight, i, j);
    }
  }

  /** The nested pixel loop: rows top to bottom, and within a row columns left to right,
      one ray from the camera centre through each pixel centre. */
  method EmitPixels(cam: Camera, unitVector: Vec3 -> Vec3) returns (pixels: seq<Pixel>)
    requires cam.imageWidth >= 0 && cam.imageHeight >= 0
    ensures pixels == Scan(cam, unitVector, cam.imageHeight)
  {
    pixels := [];
    var j := 0;
    while j < cam.imageHeight
      invariant 0 <= j <= cam.imageHeight
      invariant pixels == Scan(cam, unitVector, j)
    {
      var i := 0;
      while i < cam.imageWidth
        invariant 0 <= i <= cam.imageWidth
        invariant pixels == Scan(cam, unitVector, j) + ScanRow(cam, unitVector, j, i)
      {
        var pixelCenter := PixelCenter(cam, i, j);
        var rayDirection := Sub(pixelCenter, cam.center);
        var r := Ray(cam.center, rayDirection);
        var pixelColor := RayColor(r, unitVector(r.direction));
        pixels := pixels + [Pixel(i, j, pixelColor)];
        i := i + 1;
      }
      j := j + 1;
    }
  }

  /** The whole program: the camera of `cfg`, then every pixel of the image in row-major
      order. `unitVector` stands for `unit_vector`. */
  method RenderImage(cfg: Config, unitVector: Vec3 -> Vec3) returns (cam: Camera, pixels: seq<Pixel>)
    requires cfg.imageWidth >= 1 && cfg.aspectRatio != 0.0
    ensures IsCameraFor(cfg, cam)
    ensures pixels == Scan(cam, unitVector, cam.imageHeight)
    ensures |pixels| == cam.imageWidth * cam.imageHeight
    ensures forall j, i :: 0 <= j < cam.imageHeight && 0 <= i < cam.imageWidth ==>
              EmittedAt(pixels, cam, unitVector, i, j)
  {
    cam := SetupCamera(cfg);
    pixels := EmitPixels(cam, unitVector);
    ScanLayout(cam, unitVector);
  }

  /** Every emitted colour is red exactly when its pixel's ray hits the sphere; given a true
      unit-vector function, every other colour is a sky colour, and all channels lie in
      [0, 1]. */
  lemma {:induction false} ScanColors(cam: Camera, unitVector: Vec3 -> Vec3, rows: nat, k: int)
    requires cam.imageWidth >= 0 && IsUnitVectorFunction(unitVector)
    requires 0 <= k < |Scan(cam, unitVector, rows)|
    ensures var p := Scan(cam, unitVector, rows)[k];
            (p.color == HitColor <==> HitSphere(SceneCenter, SceneRadius, PixelRay(cam, p.i, p.j)))
            && (p.color == HitColor || OnSkyGradient(p.color))
            && ChannelsInUnitRange(p.color)
    decreases rows
  {
    var w := cam.imageWidth;
    var prefix := Scan(cam, unitVector, rows - 1);
    assert Scan(cam, unitVector, rows) == prefix + ScanRow(cam, unitVector, rows - 1, w);
    if k < |prefix| {
      ScanColors(cam, unitVector, rows - 1, k);
    } else {
      var i := k - |prefix|;
      assert Scan(cam, unitVector, rows)[k] == Pixel(i, rows - 1, Shade(cam, unitVector, i, rows - 1));
      ShadeColor(cam, unitVector, i, rows - 1);
    }
  }

  /** The colour of one pixel is red exactly when its ray hits; otherwise, given a true
      unit-vector function, a sky colour; its channels lie in [0, 1]. */
  lemma {:induction false} ShadeColor(cam: Camera, unitVector: Vec3 -> Vec3, i: int, j: int)
    requires IsUnitVectorFunction(unitVector)
    ensures Shade(cam, unitVector, i, j) == HitColor <==> HitSphere(SceneCenter, SceneRadius, PixelRay(cam, i, j))
    ensures Shade(cam, unitVector, i, j) == HitColor || OnSkyGradient(Shade(cam, unitVector, i, j))
    ensures ChannelsInUnitRange(Shade(cam, unitVector, i, j))
  {
    var r := PixelRay(cam, i, j);
    if !HitSphere(SceneCenter, SceneRadius, r) {
      MissHasNonzeroDirection(r);
    }
    RayColorInRange(r, unitVector(r.direction));
  }

  /** The ray along `(1/225, 0, -1)` from the camera centre hits the sphere. */
  lemma {:induction false} NearAxisRayHits()
    ensures HitSphere(SceneCenter, SceneRadius, Ray(Zero, Vec3(1.0 / 225.0, 0.0, -1.0)))
  {
    var r := Ray(Zero, Vec3(1.0 / 225.0, 0.0, -1.0));
    CameraRayDiscriminant(r);
    assert Dot(r.direction, r.direction) == 50626.0 / 50625.0;
  }

  /** The ray along `(-399/225, 224/225, -1)` from the camera centre misses the sphere. */
  lemma {:induction false} CornerRayMisses()
    ensures !HitSphere(SceneCenter, SceneRadius, Ray(Zero, Vec3(-399.0 / 225.0, 224.0 / 225.0, -1.0)))
  {
    var r := Ray(Zero, Vec3(-399.0 / 225.0, 224.0 / 225.0, -1.0));
    CameraRayDiscriminant(r);
    assert Dot(r.direction, r.direction) == 260002.0 / 50625.0;
  }

  /** With the reference camera, the ray of pixel `(i, j)` starts at the origin and points
      at `(-16/9 + (i + 1/2) 2/225, 1 - (j + 1/2) 2/225, -1)`. */
  lemma {:induction false} ReferencePixelRay(cam: Camera, i: int, j: int)
    requires IsCameraFor(ReferenceConfig, cam)
    ensures PixelRay(cam, i, j)
         == Ray(Zero, Vec3(-16.0 / 9.0 + (i as real + 0.5) * (2.0 / 225.0),
                           1.0 - (j as real + 0.5) * (2.0 / 225.0), -1.0))
  {
    ReferenceCamera(cam);
    PixelCenterPosition(ReferenceConfig, cam, i, j);
  }

  /** With the reference camera, the pixel `(200, 112)` just right of the image centre looks
      along `(1/225, 0, -1)` and is red. */
  lemma {:induction false} ReferenceCenterPixelIsRed(cam: Camera, unitVector: Vec3 -> Vec3)
    requires IsCameraFor(ReferenceConfig, cam)
    ensures PixelRay(cam, 200, 112) == Ray(Zero, Vec3(1.0 / 225.0, 0.0, -1.0))
    ensures Shade(cam, unitVector, 200, 112) == HitColor
  {
    ReferencePixelRay(cam, 200, 112);
    NearAxisRayHits();
  }

  /** With the reference camera, the upper-left pixel looks above the sphere and shows the
      sky. */
  lemma {:induction false} ReferenceCornerPixelIsSky(cam: Camera, unitVector: Vec3 -> Vec3)
    requires IsCameraFor(ReferenceConfig, cam) && IsUnitVectorFunction(unitVector)
    ensures PixelRay(cam, 0, 0) == Ray(Zero, Vec3(-399.0 / 225.0, 224.0 / 225.0, -1.0))
    ensures !HitSphere(SceneCenter, SceneRadius, PixelRay(cam, 0, 0))
    ensures OnSkyGradient(Shade(cam, unitVector, 0, 0))
  {
    ReferencePixelRay(cam, 0, 0);
    CornerRayMisses();
    var r := PixelRay(cam, 0, 0);
    MissHasNonzeroDirection(r);
    MissIsSky(r, unitVector(r.direction));
  }
}
