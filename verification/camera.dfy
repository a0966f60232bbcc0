/**
 * The camera: a canvas of hsize x vsize pixels seen through a field of view,
 * the size of one pixel one unit in front of the eye, the ray through the
 * centre of each pixel, and the render loop that shades every pixel once.
 * `tan` and the square root are parameters; the render loop colours each
 * ray with the world's `color_at`.
 */
module Cameras {
  import opened Util
  import opened Tuples
  import opened Matrices
  import opened Rays
  import C = Colors
  import Cv = Canvases
  import W = Worlds

  datatype Camera = Camera(hsize: nat, vsize: nat, fov: real, transform: Matrix,
                           pixelSize: real, halfWidth: real, halfHeight: real)

  /** What `pixel_size` returns: half the height and width of the view one unit away, and the pixel size. */
  datatype View = View(halfHeight: real, halfWidth: real, pixelSize: real)

  function MaxReal(a: real, b: real): real { if a >= b then a else b }

  /**
   * How a view covers the field of view: the pixels tile it exactly
   * (pixel_size * hsize is the whole width, pixel_size * vsize the whole
   * height), the pixel size is the whole view 2 * half_view over the longer
   * side, and the longer side spans the whole view.
   */
  predicate Tiles(view: View, h: real, v: real, halfView: real)
    requires h > 0.0 && v > 0.0
  {
    && view.pixelSize * h == 2.0 * view.halfWidth
    && view.pixelSize * v == 2.0 * view.halfHeight
    && view.pixelSize == 2.0 * halfView / MaxReal(h, v)
    && (h >= v ==> view.halfWidth == halfView)
    && (h < v ==> view.halfHeight == halfView)
  }

  /**
   * `pixel_size`: the half extents and the pixel size for half_view =
   * tan(fov / 2). The source divides by the sizes, so both must be positive.
   */
  function PixelSize(hsize: nat, vsize: nat, fov: real, tan: real -> real): (view: View)
    requires hsize > 0 && vsize > 0
    ensures Tiles(view, hsize as real, vsize as real, tan(fov / 2.0))
  {
    ViewFor(hsize as real, vsize as real, tan(fov / 2.0))
  }

  /** The body of `pixel_size` over the canvas sizes as reals and the half view. */
  function ViewFor(h: real, v: real, halfView: real): (r: View)
    requires h > 0.0 && v > 0.0
    ensures Tiles(r, h, v, halfView)
  {
    RatioAtLeastOne(h, v);
    if h / v >= 1.0 then WideView(h, v, halfView) else TallView(h, v, halfView)
  }

  /** The wide branch: the width spans the whole view, the height is divided by the aspect ratio. */
  function WideView(h: real, v: real, halfView: real): (r: View)
    requires h >= v > 0.0
    ensures Tiles(r, h, v, halfView)
  {
    var aspect := h / v;
    DivMul(halfView * 2.0, h);
    DivByRatio(halfView, h, v);
    assert (halfView * 2.0) / h * v == 2.0 * (halfView * v / h);
    View(halfView / aspect, halfView, (halfView * 2.0) / h)
  }

  /** The tall branch: the height spans the whole view, the width is multiplied by the aspect ratio. */
  function TallView(h: real, v: real, halfView: real): (r: View)
    requires v > h > 0.0
    ensures Tiles(r, h, v, halfView)
  {
    var aspect := h / v;
    var ps := (halfView * aspect * 2.0) / h;
    DivMul(halfView * aspect * 2.0, h);
    ScaledRatioOver(halfView * 2.0, h, v);
    assert halfView * aspect * 2.0 == halfView * 2.0 * aspect;
    DivMul(2.0 * halfView, v);
    View(halfView, halfView * aspect, ps)
  }

  /** `Camera::new`: the identity transform and the view derived from the field of view. */
  function New(hsize: nat, vsize: nat, fov: real, tan: real -> real): (c: Camera)
    requires hsize > 0 && vsize > 0
    ensures c.hsize == hsize && c.vsize == vsize && c.fov == fov && c.transform == Identity()
    ensures Tiles(View(c.halfHeight, c.halfWidth, c.pixelSize), hsize as real, vsize as real, tan(fov / 2.0))
  {
    var v := PixelSize(hsize, vsize, fov, tan);
    Camera(hsize, vsize, fov, Identity(), v.pixelSize, v.halfWidth, v.halfHeight)
  }

  /**
   * The offset arithmetic of `ray_for_pixel`: the centre of pixel (x, y) on
   * the plane z = -1 in camera space; x grows to the left and y downwards
   * from the top-left corner (half_width, half_height).
   */
  function Target(c: Camera, x: nat, y: nat): (p: Tuple)
    ensures IsPoint(p) && p.z == -1.0
  {
    var offsetX := (x as real + 0.5) * c.pixelSize;
    var offsetY := (y as real + 0.5) * c.pixelSize;
    Point(c.halfWidth - offsetX, c.halfHeight - offsetY, -1.0)
  }

  /** The eye and the pixel centre, taken to world space by the inverse of the camera transform. */
  function Eye(c: Camera): Tuple
    requires IsMat4(c.transform) && Det(c.transform) != 0.0
  {
    MulTuple(Inverse(c.transform), Point(0.0, 0.0, 0.0))
  }

  function PixelInWorld(c: Camera, x: nat, y: nat): Tuple
    requires IsMat4(c.transform) && Det(c.transform) != 0.0
  {
    MulTuple(Inverse(c.transform), Target(c, x, y))
  }

  /**
   * What `ray_for_pixel` needs: an invertible transform (the adjugate
   * divides by the determinant), a difference that is a vector (`norm`
   * asserts it) and of non-zero length (the source would divide by zero).
   */
  predicate CanCast(c: Camera, x: nat, y: nat, sqrt: real -> real)
  {
    && IsMat4(c.transform) && Det(c.transform) != 0.0
    && IsVector(Sub(PixelInWorld(c, x, y), Eye(c)))
    && Magnitude(Sub(PixelInWorld(c, x, y), Eye(c)), sqrt) != 0.0
  }

  /** `ray_for_pixel`: from the eye through the centre of pixel (x, y), with a unit-length direction. */
  function RayForPixel(c: Camera, x: nat, y: nat, sqrt: real -> real): (r: Ray)
    requires CanCast(c, x, y, sqrt)
    ensures r.origin == Eye(c)
    ensures IsVector(r.direction)
    ensures Scale(r.direction, Magnitude(Sub(PixelInWorld(c, x, y), Eye(c)), sqrt)) == Sub(PixelInWorld(c, x, y), Eye(c))
  {
    var pixel := PixelInWorld(c, x, y);
    var origin := Eye(c);
    Ray(origin, Normalize(Sub(pixel, origin), sqrt))
  }

  /**
   * What `render` needs to get through: every pixel's ray can be cast, and
   * the world can colour it (a hit it meets has a vector normal and can be
   * lit by the first light).
   */
  predicate CanRender<O>(c: Camera, w: W.World<O>, shapes: W.Shapes<O>, sqrt: real -> real)
  {
    forall x: nat, y: nat :: x < c.hsize && y < c.vsize ==>
      CanCast(c, x, y, sqrt) && W.CanColor(w, RayForPixel(c, x, y, sqrt), shapes, sqrt)
  }

  /** The colour the world gives the ray through pixel (x, y). */
  function PixelColor<O>(c: Camera, w: W.World<O>, shapes: W.Shapes<O>, sqrt: real -> real, pow: (real, real) -> real,
                         x: nat, y: nat): C.Color
    requires CanRender(c, w, shapes, sqrt) && x < c.hsize && y < c.vsize
  {
    W.ColorAt(w, RayForPixel(c, x, y, sqrt), shapes, sqrt, pow)
  }

  /**
   * `render`: one pass over the rows and, in each row, over the columns,
   * writing the world's colour for the ray through every pixel into a fresh
   * canvas of the camera's size.
   */
  method Render<O>(c: Camera, w: W.World<O>, shapes: W.Shapes<O>, sqrt: real -> real, pow: (real, real) -> real)
    returns (image: Cv.Canvas)
    requires CanRender(c, w, shapes, sqrt)
    ensures Cv.Valid(image) && image.width == c.hsize && image.height == c.vsize
    ensures forall x: nat, y: nat :: x < c.hsize && y < c.vsize ==>
              Cv.PixelAt(image, x, y) == Some(W.ColorAt(w, RayForPixel(c, x, y, sqrt), shapes, sqrt, pow))
  {
    image := Cv.New(c.hsize, c.vsize);
    var y := 0;
    while y < c.vsize
      invariant 0 <= y <= c.vsize
      invariant Cv.Valid(image) && image.width == c.hsize && image.height == c.vsize
      invariant forall x2: nat, y2: nat :: x2 < c.hsize && y2 < y ==>
                  Cv.PixelAt(image, x2, y2) == Some(PixelColor(c, w, shapes, sqrt, pow, x2, y2))
    {
      image := RenderRow(c, w, shapes, sqrt, pow, image, y);
      y := y + 1;
    }
  }

  /** One row of `render`: row y gets the world's colours, every other pixel is kept. */
  method RenderRow<O>(c: Camera, w: W.World<O>, shapes: W.Shapes<O>, sqrt: real -> real, pow: (real, real) -> real,
                      image: Cv.Canvas, y: nat) returns (out: Cv.Canvas)
    requires CanRender(c, w, shapes, sqrt) && y < c.vsize
    requires Cv.Valid(image) && image.width == c.hsize && image.height == c.vsize
    ensures Cv.Valid(out) && out.width == c.hsize && out.height == c.vsize
    ensures forall x2: nat, y2: nat :: x2 < c.hsize && y2 < c.vsize && y2 != y ==>
              Cv.PixelAt(out, x2, y2) == Cv.PixelAt(image, x2, y2)
    ensures forall x2: nat :: x2 < c.hsize ==> Cv.PixelAt(out, x2, y) == Some(PixelColor(c, w, shapes, sqrt, pow, x2, y))
  {
    out := image;
    var x := 0;
    while x < c.hsize
      invariant 0 <= x <= c.hsize
      invariant Cv.Valid(out) && out.width == c.hsize && out.height == c.vsize
      invariant forall x2: nat, y2: nat :: x2 < c.hsize && y2 < c.vsize && y2 != y ==>
                  Cv.PixelAt(out, x2, y2) == Cv.PixelAt(image, x2, y2)
      invariant forall x2: nat :: x2 < x ==> Cv.PixelAt(out, x2, y) == Some(PixelColor(c, w, shapes, sqrt, pow, x2, y))
    {
      var color := PixelColor(c, w, shapes, sqrt, pow, x, y);
      var next := Cv.WritePixel(out, x, y, color).value;
      Cv.ReadAfterWrite(out, x, y, color);
      forall x2: nat, y2: nat | x2 < c.hsize && y2 < c.vsize && (x2 != x || y2 != y)
        ensures Cv.PixelAt(next, x2, y2) == Cv.PixelAt(out, x2, y2)
      {
        Cv.WriteFrame(out, x, y, color, x2, y2);
      }
      out := next;
      x := x + 1;
    }
  }

  // ---------------------------------------------------------------- lemmas

  // DivMul, DivByRatio, ScaledRatioOver and RatioAtLeastOne are arithmetic
  // proof aids with no counterpart in the tracer: the real-number facts the
  // pixel-size branches need, stated once so that the solver is not asked
  // to find them inside the larger camera contexts.
  lemma DivMul(x: real, h: real)
    requires h != 0.0
    ensures x / h * h == x
  {
  }

  lemma DivByRatio(x: real, h: real, v: real)
    requires h != 0.0 && v != 0.0
    ensures x / (h / v) == x * v / h
  {
    assert (h / v) * v == h;
    assert (x * v / h) * (h / v) == x;
  }

  lemma ScaledRatioOver(x: real, h: real, v: real)
    requires h != 0.0 && v != 0.0
    ensures x * (h / v) / h == x / v
  {
    assert x * (h / v) == x * h / v;
  }

  lemma RatioAtLeastOne(h: real, v: real)
    requires h > 0.0 && v > 0.0
    ensures h / v >= 1.0 <==> h >= v
  {
    assert (h / v) * v == h;
  }

  /**
   * A camera whose pixel size and half extents agree the way `pixel_size`
   * makes them agree: the pixels exactly tile the view.
   */
  predicate Calibrated(c: Camera)
  {
    && c.hsize > 0 && c.vsize > 0
    && c.pixelSize * (c.hsize as real) == 2.0 * c.halfWidth
    && c.pixelSize * (c.vsize as real) == 2.0 * c.halfHeight
  }

  /** Every camera `new` builds is calibrated. */
  lemma NewIsCalibrated(hsize: nat, vsize: nat, fov: real, tan: real -> real)
    requires hsize > 0 && vsize > 0
    ensures Calibrated(New(hsize, vsize, fov, tan))
  {
    var view := PixelSize(hsize, vsize, fov, tan);
    assert Tiles(view, hsize as real, vsize as real, tan(fov / 2.0));
  }

  /** `pixel_size_horizontal_canvas` and `pixel_size_vertical_canvas`: with tan(fov / 2) = 1, both are 0.01. */
  lemma PixelSizeExamples(fov: real, tan: real -> real)
    requires tan(fov / 2.0) == 1.0
    ensures PixelSize(200, 125, fov, tan).pixelSize == 0.01
    ensures PixelSize(125, 200, fov, tan).pixelSize == 0.01
  {
    var wide, tall := PixelSize(200, 125, fov, tan), PixelSize(125, 200, fov, tan);
    assert MaxReal(200.0, 125.0) == 200.0 && MaxReal(125.0, 200.0) == 200.0;
  }

  /** Swapping the sides of the canvas does not change the pixel size. */
  lemma PixelSizeSymmetric(hsize: nat, vsize: nat, fov: real, tan: real -> real)
    requires hsize > 0 && vsize > 0
    ensures PixelSize(hsize, vsize, fov, tan).pixelSize == PixelSize(vsize, hsize, fov, tan).pixelSize
  {
    assert MaxReal(hsize as real, vsize as real) == MaxReal(vsize as real, hsize as real);
  }

  /**
   * Pixel centres are symmetric about the middle of a calibrated camera:
   * column x and column hsize - 1 - x sit at opposite x, and likewise for rows.
   */
  lemma TargetsSymmetric(c: Camera, x: nat, y: nat)
    requires Calibrated(c) && x < c.hsize && y < c.vsize
    ensures Target(c, c.hsize - 1 - x, y).x == -Target(c, x, y).x
    ensures Target(c, x, c.vsize - 1 - y).y == -Target(c, x, y).y
  {
    var ps := c.pixelSize;
    assert ((c.hsize - 1 - x) as real + 0.5) * ps == (c.hsize as real) * ps - (x as real + 0.5) * ps;
    assert ((c.vsize - 1 - y) as real + 0.5) * ps == (c.vsize as real) * ps - (y as real + 0.5) * ps;
  }

  /**
   * With a positive pixel size, every pixel centre of a calibrated camera
   * lies strictly inside the view: |x| < half_width and |y| < half_height.
   */
  lemma TargetsInsideView(c: Camera, x: nat, y: nat)
    requires Calibrated(c) && x < c.hsize && y < c.vsize && c.pixelSize > 0.0
    ensures -c.halfWidth < Target(c, x, y).x < c.halfWidth
    ensures -c.halfHeight < Target(c, x, y).y < c.halfHeight
  {
    var ps := c.pixelSize;
    PositiveProduct(x as real + 0.5, ps);
    PositiveProduct(c.hsize as real - (x as real + 0.5), ps);
    PositiveProduct(y as real + 0.5, ps);
    PositiveProduct(c.vsize as real - (y as real + 0.5), ps);
  }

  // Arithmetic proof aid with no counterpart in the tracer: a product of positive reals is positive.
  lemma PositiveProduct(a: real, b: real)
    requires a > 0.0 && b > 0.0
    ensures a * b > 0.0
  {
  }

  /** A positive half view gives a positive pixel size. */
  lemma PixelSizePositive(hsize: nat, vsize: nat, fov: real, tan: real -> real)
    requires hsize > 0 && vsize > 0 && tan(fov / 2.0) > 0.0
    ensures PixelSize(hsize, vsize, fov, tan).pixelSize > 0.0
  {
  }

  /** For odd sizes 2a + 1 and 2b + 1, the centre pixel (a, b) lies straight ahead at (0, 0, -1). */
  lemma CentreTarget(c: Camera, a: nat, b: nat)
    requires Calibrated(c) && c.hsize == 2 * a + 1 && c.vsize == 2 * b + 1
    ensures Target(c, a, b) == Point(0.0, 0.0, -1.0)
  {
    var ps := c.pixelSize;
    assert (a as real + 0.5) * ps * 2.0 == (c.hsize as real) * ps;
    assert (b as real + 0.5) * ps * 2.0 == (c.vsize as real) * ps;
  }

  /** An untransformed camera sits at the origin. */
  lemma UntransformedEye(c: Camera)
    requires c.transform == Identity()
    ensures IsMat4(c.transform) && Det(c.transform) != 0.0
    ensures Eye(c) == Point(0.0, 0.0, 0.0)
  {
    Transformations.IdentityInverse();
    MulIdentity(Identity(), Point(0.0, 0.0, 0.0));
  }

  /** An untransformed camera's pixels are where the camera-space targets are. */
  lemma UntransformedPixel(c: Camera, x: nat, y: nat)
    requires c.transform == Identity()
    ensures IsMat4(c.transform) && Det(c.transform) != 0.0
    ensures PixelInWorld(c, x, y) == Target(c, x, y)
  {
    Transformations.IdentityInverse();
    MulIdentity(Identity(), Target(c, x, y));
  }

  /** So the ray of an untransformed camera leaves the origin towards the target. */
  lemma Untransformed(c: Camera, x: nat, y: nat)
    requires c.transform == Identity()
    ensures IsMat4(c.transform) && Det(c.transform) != 0.0
    ensures Sub(PixelInWorld(c, x, y), Eye(c)) == Vector(Target(c, x, y).x, Target(c, x, y).y, -1.0)
  {
    UntransformedEye(c);
    UntransformedPixel(c, x, y);
    var t := Target(c, x, y);
    assert Sub(t, Point(0.0, 0.0, 0.0)) == Vector(t.x, t.y, -1.0);
  }

  /** Straight down -z is already of unit length. */
  lemma StraightDownIsUnit(sqrt: real -> real)
    requires sqrt(1.0) == 1.0
    ensures Magnitude(Vector(0.0, 0.0, -1.0), sqrt) == 1.0
    ensures Normalize(Vector(0.0, 0.0, -1.0), sqrt) == Vector(0.0, 0.0, -1.0)
  {
    assert Dot(Vector(0.0, 0.0, -1.0), Vector(0.0, 0.0, -1.0)) == 1.0;
  }

  /**
   * A calibrated, untransformed camera with odd sizes 2a + 1 and 2b + 1 casts
   * the ray through the centre pixel (a, b) from the origin straight down -z.
   */
  lemma CentreRay(c: Camera, a: nat, b: nat, sqrt: real -> real)
    requires Calibrated(c) && c.hsize == 2 * a + 1 && c.vsize == 2 * b + 1
    requires c.transform == Identity()
    requires sqrt(1.0) == 1.0
    ensures CanCast(c, a, b, sqrt)
    ensures RayForPixel(c, a, b, sqrt) == Ray(Point(0.0, 0.0, 0.0), Vector(0.0, 0.0, -1.0))
  {
    CentreTarget(c, a, b);
    Untransformed(c, a, b);
    UntransformedEye(c);
    var d := Sub(PixelInWorld(c, a, b), Eye(c));
    assert d == Vector(0.0, 0.0, -1.0);
    StraightDownIsUnit(sqrt);
  }

  /** `ray_center_canvas`: on a 201 x 101 camera, pixel (100, 50) looks straight down -z from the origin. */
  lemma CentreRayExample(c: Camera, fov: real, tan: real -> real, sqrt: real -> real)
    requires c == New(201, 101, fov, tan)
    requires sqrt(1.0) == 1.0
    ensures CanCast(c, 100, 50, sqrt)
    ensures RayForPixel(c, 100, 50, sqrt) == Ray(Point(0.0, 0.0, 0.0), Vector(0.0, 0.0, -1.0))
  {
    NewIsCalibrated(201, 101, fov, tan);
    CentreRay(c, 100, 50, sqrt);
  }
}
