/** The image and camera set-up at the start of the program: the image height follows
    from the width and the aspect ratio, the viewport is sized to the pixel grid, and the
    centre of the upper-left pixel sits half a pixel inside the viewport's corner. */
module CameraSetup {
  import opened Vectors
  import opened Rays

  /** The constants the set-up starts from. */
  datatype Config = Config(imageWidth: int, aspectRatio: real, focalLength: real, viewportHeight: real)

  /** The values the program uses: width 400, aspect ratio 16:9, focal length 1, viewport
      height 2. */
  const ReferenceConfig := Config(400, 16.0 / 9.0, 1.0, 2.0)

  /** What the set-up computes and the pixel loop reads. */
  datatype Camera = Camera(
    imageWidth: int,
    imageHeight: int,
    center: Point3,
    viewportWidth: real,
    pixelDeltaU: Vec3,
    pixelDeltaV: Vec3,
    pixel00: Point3)

  /** The conversion `int(x)` from a floating-point value: truncation toward zero. */
  function TruncateToInt(x: real): (n: int)
    ensures 0.0 <= x ==> n as real <= x < n as real + 1.0
    ensures x < 0.0 ==> n as real - 1.0 < x <= n as real
  {
    if x >= 0.0 then x.Floor else -((-x).Floor)
  }

  /** The image height: the whole part of `width / aspect`, but at least one row. */
  function ImageHeight(imageWidth: int, aspectRatio: real): (h: int)
    requires aspectRatio != 0.0
    ensures h >= 1
    ensures imageWidth as real / aspectRatio >= 1.0 ==>
              h as real <= imageWidth as real / aspectRatio < h as real + 1.0
    ensures imageWidth as real / aspectRatio < 1.0 ==> h == 1
  {
    var t := TruncateToInt(imageWidth as real / aspectRatio);
    if t < 1 then 1 else t
  }

  /** The side of a pixel on the viewport, `viewport_height / image_height`. */
  function PixelSize(cfg: Config, cam: Camera): real
    requires cam.imageHeight >= 1
  {
    cfg.viewportHeight / cam.imageHeight as real
  }

  /** `cam` is the camera the set-up derives from `cfg`: the clamped height; the camera at
      the origin; a viewport as wide as the pixel grid's own width-to-height ratio makes it,
      so that pixels are square with side `PixelSize`, stepping right along `x` and down
      along `y`; and the first pixel centre half a pixel in from the upper-left corner of
      the viewport, which lies `focalLength` in front of the camera. */
  predicate IsCameraFor(cfg: Config, cam: Camera)
    requires cfg.aspectRatio != 0.0
  {
    cam.imageWidth == cfg.imageWidth
    && cam.imageHeight == ImageHeight(cfg.imageWidth, cfg.aspectRatio)
    && cam.center == Zero
    && cam.viewportWidth == cfg.viewportHeight * (cfg.imageWidth as real / cam.imageHeight as real)
    && cam.pixelDeltaU == Vec3(PixelSize(cfg, cam), 0.0, 0.0)
    && cam.pixelDeltaV == Vec3(0.0, -PixelSize(cfg, cam), 0.0)
    && cam.pixel00 == Vec3(-cam.viewportWidth / 2.0 + PixelSize(cfg, cam) / 2.0,
                           cfg.viewportHeight / 2.0 - PixelSize(cfg, cam) / 2.0,
                           -cfg.focalLength)
  }

  /** Dividing the viewport width, sized by the grid ratio `w / h`, into `w` columns gives
      the same step as dividing its height into `h` rows; so `w` pixels of that side span
      the viewport width. */
  lemma SquarePixels(viewportHeight: real, w: real, h: real)
    requires w > 0.0 && h > 0.0
    ensures viewportHeight * (w / h) / w == viewportHeight / h
    ensures w * (viewportHeight / h) == viewportHeight * (w / h)
  {
    var q := w / h;
    assert q * h == w;
    assert (viewportHeight * q) * h == viewportHeight * w;
  }

  /** The set-up of the image and the camera, in the program's order of steps. */
  method SetupCamera(cfg: Config) returns (cam: Camera)
    requires cfg.imageWidth >= 1 && cfg.aspectRatio != 0.0
    ensures IsCameraFor(cfg, cam)
  {
    var aspectRatio := cfg.aspectRatio;
    var imageWidth := cfg.imageWidth;
    var imageHeight := TruncateToInt(imageWidth as real / aspectRatio);
    imageHeight := if imageHeight < 1 then 1 else imageHeight;

    var focalLength := cfg.focalLength;
    var viewportHeight := cfg.viewportHeight;
    var viewportWidth := viewportHeight * (imageWidth as real / imageHeight as real);
    var cameraCenter := Zero;

    var viewportU := Vec3(viewportWidth, 0.0, 0.0);
    var viewportV := Vec3(0.0, -viewportHeight, 0.0);

    var pixelDeltaU := Div(viewportU, imageWidth as real);
    var pixelDeltaV := Div(viewportV, imageHeight as real);

    var viewportUpperLeft :=
      Sub(Sub(Sub(cameraCenter, Vec3(0.0, 0.0, focalLength)), Div(viewportU, 2.0)), Div(viewportV, 2.0));
    var pixel00 := Add(viewportUpperLeft, Scale(0.5, Add(pixelDeltaU, pixelDeltaV)));

    SquarePixels(viewportHeight, imageWidth as real, imageHeight as real);
    cam := Camera(imageWidth, imageHeight, cameraCenter, viewportWidth, pixelDeltaU, pixelDeltaV, pixel00);
  }

  /** The centre of pixel `(i, j)`: `pixel00 + i * delta_u + j * delta_v`. */
  function PixelCenter(cam: Camera, i: int, j: int): Point3 {
    Add(Add(cam.pixel00, Scale(i as real, cam.pixelDeltaU)), Scale(j as real, cam.pixelDeltaV))
  }

  /** The ray through the centre of pixel `(i, j)`, from the camera centre. */
  function PixelRay(cam: Camera, i: int, j: int): Ray {
    Ray(cam.center, Sub(PixelCenter(cam, i, j), cam.center))
  }

  /** Pixel `(i, j)` is centred `i + 1/2` pixels right of the viewport's left edge and
      `j + 1/2` pixels below its top edge; its ray starts at the origin and points at it. */
  lemma {:induction false} PixelCenterPosition(cfg: Config, cam: Camera, i: int, j: int)
    requires cfg.aspectRatio != 0.0 && IsCameraFor(cfg, cam)
    ensures PixelCenter(cam, i, j)
         == Vec3(-cam.viewportWidth / 2.0 + (i as real + 0.5) * PixelSize(cfg, cam),
                 cfg.viewportHeight / 2.0 - (j as real + 0.5) * PixelSize(cfg, cam),
                 -cfg.focalLength)
    ensures PixelRay(cam, i, j) == Ray(Zero, PixelCenter(cam, i, j))
  {
    var s := PixelSize(cfg, cam);
    assert Scale(i as real, cam.pixelDeltaU) == Vec3(i as real * s, 0.0, 0.0);
    assert Scale(j as real, cam.pixelDeltaV) == Vec3(0.0, -(j as real * s), 0.0);
  }

  /** The pixel grid is centred on the view axis: the centres of pixel `(i, j)` and of the
      pixel mirrored through the middle of the image average to the viewport's centre. */
  lemma {:induction false} PixelCentersSymmetric(cfg: Config, cam: Camera, i: int, j: int)
    requires cfg.imageWidth >= 1 && cfg.aspectRatio != 0.0 && IsCameraFor(cfg, cam)
    ensures Add(PixelCenter(cam, i, j), PixelCenter(cam, cam.imageWidth - 1 - i, cam.imageHeight - 1 - j))
         == Vec3(0.0, 0.0, -2.0 * cfg.focalLength)
  {
    var s := PixelSize(cfg, cam);
    var w, h := cam.imageWidth as real, cam.imageHeight as real;
    PixelCenterPosition(cfg, cam, i, j);
    PixelCenterPosition(cfg, cam, cam.imageWidth - 1 - i, cam.imageHeight - 1 - j);
    SquarePixels(cfg.viewportHeight, w, h);
    assert w * s == cam.viewportWidth;
    assert h * s == cfg.viewportHeight;
    assert (i as real + 0.5) * s + ((w - 1.0 - i as real) + 0.5) * s == w * s;
    assert (j as real + 0.5) * s + ((h - 1.0 - j as real) + 0.5) * s == h * s;
  }

  lemma ScaleStrictlyBetween(a: real, b: real, s: real)
    requires 0.0 < a < b && s > 0.0
    ensures 0.0 < a * s < b * s
  {
    PositiveProduct(a, s);
    PositiveProduct(b - a, s);
  }

  /** For a positive viewport height, every pixel centre of the image lies strictly inside
      the viewport rectangle. */
  lemma {:induction false} PixelCenterInsideViewport(cfg: Config, cam: Camera, i: int, j: int)
    requires cfg.imageWidth >= 1 && cfg.aspectRatio != 0.0 && IsCameraFor(cfg, cam)
    requires cfg.viewportHeight > 0.0
    requires 0 <= i < cam.imageWidth && 0 <= j < cam.imageHeight
    ensures -cam.viewportWidth / 2.0 < PixelCenter(cam, i, j).x < cam.viewportWidth / 2.0
    ensures -cfg.viewportHeight / 2.0 < PixelCenter(cam, i, j).y < cfg.viewportHeight / 2.0
  {
    var s := PixelSize(cfg, cam);
    var w, h := cam.imageWidth as real, cam.imageHeight as real;
    PixelCenterPosition(cfg, cam, i, j);
    SquarePixels(cfg.viewportHeight, w, h);
    assert h * s == cfg.viewportHeight;
    ScaleStrictlyBetween(i as real + 0.5, w, s);
    ScaleStrictlyBetween(j as real + 0.5, h, s);
  }

  /** With the reference constants the image is 400 by 225 pixels. */
  lemma ReferenceImageHeight()
    ensures ImageHeight(400, 16.0 / 9.0) == 225
  {
    assert 400.0 / (16.0 / 9.0) == 225.0;
  }

  /** The reference camera: a viewport of 32/9 by 2 with pixels of side 2/225. */
  lemma {:induction false} ReferenceCamera(cam: Camera)
    requires IsCameraFor(ReferenceConfig, cam)
    ensures cam == Camera(400, 225, Zero, 32.0 / 9.0, Vec3(2.0 / 225.0, 0.0, 0.0),
                          Vec3(0.0, -2.0 / 225.0, 0.0),
                          Vec3(-16.0 / 9.0 + 1.0 / 225.0, 1.0 - 1.0 / 225.0, -1.0))
  {
    ReferenceImageHeight();
    assert cam.imageHeight == 225;
    assert PixelSize(ReferenceConfig, cam) == 2.0 / 225.0;
  }

  /** The viewport follows the rounded pixel grid, not the nominal aspect ratio: the camera
      of a 401-pixel-wide 16:9 image still has 225 rows, and a viewport wider than 16:9. */
  lemma {:induction false} GridRatioNotNominal(cam: Camera)
    requires IsCameraFor(Config(401, 16.0 / 9.0, 1.0, 2.0), cam)
    ensures cam.imageHeight == 225
    ensures cam.viewportWidth == 2.0 * (401.0 / 225.0)
    ensures cam.viewportWidth != 2.0 * (16.0 / 9.0)
  {
    assert 401.0 / (16.0 / 9.0) == 225.5625;
    assert cam.imageHeight == 225;
  }
}
