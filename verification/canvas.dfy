/**
 * The canvas: a row-major buffer of width * height colours. A write or a
 * read outside the canvas is a failed assertion in the tracer; here it is
 * `None`.
 */
module Canvases {
  import opened Util
  import C = Colors

  datatype Canvas = Canvas(width: nat, height: nat, pixels: seq<C.Color>)

  /** The buffer holds exactly one colour per coordinate pair. */
  predicate Valid(c: Canvas)
  {
    |c.pixels| == c.width * c.height
  }

  /** `Canvas::new`: width * height pixels, all `Color::default()`. */
  function New(width: nat, height: nat): (c: Canvas)
    ensures Valid(c) && c.width == width && c.height == height
    ensures forall i :: 0 <= i < |c.pixels| ==> c.pixels[i] == C.Default
  {
    Canvas(width, height, seq(width * height, _ => C.Default))
  }

  predicate InBounds(c: Canvas, x: nat, y: nat)
  {
    x < c.width && y < c.height
  }

  /** `to_xy`: the row-major index of (x, y). */
  function ToXY(c: Canvas, x: nat, y: nat): nat
  {
    x + y * c.width
  }

  /** `write_pixel`: the pixel at (x, y) replaced, or the failed assertion when out of bounds. */
  function WritePixel(c: Canvas, x: nat, y: nat, color: C.Color): (r: Option<Canvas>)
    requires Valid(c)
    ensures r.Some? <==> InBounds(c, x, y)
    ensures r.Some? ==> Valid(r.value) && r.value.width == c.width && r.value.height == c.height
  {
    if InBounds(c, x, y) then
      IndexInRange(c, x, y);
      Some(c.(pixels := c.pixels[ToXY(c, x, y) := color]))
    else None
  }

  /** `pixel_at`: the colour at (x, y), or the failed assertion when out of bounds. */
  function PixelAt(c: Canvas, x: nat, y: nat): (r: Option<C.Color>)
    requires Valid(c)
    ensures r.Some? <==> InBounds(c, x, y)
  {
    if InBounds(c, x, y) then
      IndexInRange(c, x, y);
      Some(c.pixels[ToXY(c, x, y)])
    else None
  }

  // ---------------------------------------------------------------- lemmas

  /** A coordinate pair inside the canvas indexes inside the buffer. */
  lemma IndexInRange(c: Canvas, x: nat, y: nat)
    requires InBounds(c, x, y)
    ensures ToXY(c, x, y) < c.width * c.height
  {
    assert (y + 1) * c.width == y * c.width + c.width;
    assert (y + 1) * c.width <= c.height * c.width by {
      MulMonotone(y + 1, c.height, c.width);
    }
  }

  // Arithmetic proof aid with no counterpart in the tracer: multiplication by a natural number is monotone.
  lemma MulMonotone(a: nat, b: nat, k: nat)
    requires a <= b
    ensures a * k <= b * k
  {
  }

  /** Going up one row or more moves the index past a whole row. */
  lemma RowsApart(a: nat, b: nat, w: nat)
    requires a < b
    ensures a * w + w <= b * w
  {
    MulMonotone(a + 1, b, w);
  }

  /** Distinct coordinate pairs inside the canvas have distinct indices. */
  lemma ToXYInjective(c: Canvas, x1: nat, y1: nat, x2: nat, y2: nat)
    requires InBounds(c, x1, y1) && InBounds(c, x2, y2)
    requires ToXY(c, x1, y1) == ToXY(c, x2, y2)
    ensures x1 == x2 && y1 == y2
  {
    if y1 < y2 {
      RowsApart(y1, y2, c.width);
    } else if y2 < y1 {
      RowsApart(y2, y1, c.width);
    }
  }

  /** Every index of the buffer is the index of one coordinate pair inside the canvas. */
  lemma ToXYOnto(c: Canvas, i: nat)
    requires i < c.width * c.height
    ensures c.width > 0 && InBounds(c, i % c.width, i / c.width)
    ensures ToXY(c, i % c.width, i / c.width) == i
  {
    var w := c.width;
    assert w > 0;
    var x, y := i % w, i / w;
    assert i == x + y * w;
    if y >= c.height {
      MulMonotone(c.height, y, w);
    }
  }

  /** A fresh canvas is black everywhere. */
  lemma NewIsBlack(width: nat, height: nat, x: nat, y: nat)
    requires x < width && y < height
    ensures PixelAt(New(width, height), x, y) == Some(C.Black())
  {
    C.DefaultIsBlack();
    IndexInRange(New(width, height), x, y);
  }

  /** Reading back the pixel just written gives the colour written. */
  lemma ReadAfterWrite(c: Canvas, x: nat, y: nat, color: C.Color)
    requires Valid(c) && InBounds(c, x, y)
    ensures PixelAt(WritePixel(c, x, y, color).value, x, y) == Some(color)
  {
    IndexInRange(c, x, y);
    var i := ToXY(c, x, y);
    var c2 := WritePixel(c, x, y, color).value;
    assert c2.pixels == c.pixels[i := color];
    assert ToXY(c2, x, y) == i;
  }

  /** A write changes no other pixel. */
  lemma WriteFrame(c: Canvas, x: nat, y: nat, color: C.Color, x2: nat, y2: nat)
    requires Valid(c) && InBounds(c, x, y)
    requires x2 != x || y2 != y
    ensures PixelAt(WritePixel(c, x, y, color).value, x2, y2) == PixelAt(c, x2, y2)
  {
    IndexInRange(c, x, y);
    var i := ToXY(c, x, y);
    var c2 := WritePixel(c, x, y, color).value;
    assert c2.pixels == c.pixels[i := color];
    if InBounds(c, x2, y2) {
      IndexInRange(c, x2, y2);
      var j := ToXY(c, x2, y2);
      if j == i {
        ToXYInjective(c, x, y, x2, y2);
      }
      assert ToXY(c2, x2, y2) == j;
      assert c2.pixels[j] == c.pixels[j];
    }
  }

  /** Writing the same pixel twice keeps only the second colour. */
  lemma WriteOverwrites(c: Canvas, x: nat, y: nat, first: C.Color, second: C.Color)
    requires Valid(c) && InBounds(c, x, y)
    ensures WritePixel(WritePixel(c, x, y, first).value, x, y, second) == WritePixel(c, x, y, second)
  {
    IndexInRange(c, x, y);
    var i := ToXY(c, x, y);
    assert c.pixels[i := first][i := second] == c.pixels[i := second];
  }

  /** `test_coords`: red written at (0, 0) of a 40 x 40 canvas is read back. */
  lemma WriteReadExample()
    ensures WritePixel(New(40, 40), 0, 0, C.New(1.0, 0.0, 0.0)).Some?
    ensures PixelAt(WritePixel(New(40, 40), 0, 0, C.New(1.0, 0.0, 0.0)).value, 0, 0) == Some(C.New(1.0, 0.0, 0.0))
  {
    ReadAfterWrite(New(40, 40), 0, 0, C.New(1.0, 0.0, 0.0));
  }
}
