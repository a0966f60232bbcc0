/**
 * Procedural patterns: a colour for every point, decided by the parity of
 * floored coordinates (stripes, checkers, rings) or by the fractional part
 * of x (gradient), after the point has been taken into the pattern's own
 * space. The ring's square root is a parameter.
 */
module Patterns {
  import opened Tuples
  import opened Matrices
  import opened Transformations
  import C = Colors

  datatype PatternType =
    | Stripe(a: C.Color, b: C.Color)
    | Gradient(a: C.Color, b: C.Color)
    | Ring(a: C.Color, b: C.Color)
    | Checker(a: C.Color, b: C.Color)
    | TestPattern

  datatype Pattern = Pattern(pType: PatternType, transform: Matrix)

  // ------------------------------------------------------- float helpers

  /** Rounding toward zero, as a float-to-integer truncation does. */
  function Trunc(x: real): int
  {
    if x >= 0.0 then x.Floor else -((-x).Floor)
  }

  /** Rust's `%` on f64: the remainder of the truncated quotient, with the sign of the dividend. */
  function FMod(a: real, b: real): real
    requires b != 0.0
  {
    a - b * (Trunc(a / b) as real)
  }

  /** `n.floor() % 2.0 == 0.0` for an integer-valued n. */
  predicate EvenFloat(n: int)
  {
    FMod(n as real, 2.0) == 0.0
  }

  // ------------------------------------------------------------ patterns

  /** `stripped`, `gradient`, `ring`, `checker` and `test_pattern`: the identity transform. */
  function Striped(a: C.Color, b: C.Color): Pattern { Pattern(Stripe(a, b), Identity()) }
  function GradientPattern(a: C.Color, b: C.Color): Pattern { Pattern(Gradient(a, b), Identity()) }
  function RingPattern(a: C.Color, b: C.Color): Pattern { Pattern(Ring(a, b), Identity()) }
  function CheckerPattern(a: C.Color, b: C.Color): Pattern { Pattern(Checker(a, b), Identity()) }
  function Test(): Pattern { Pattern(TestPattern, Identity()) }

  /** `with_transform`: only the transform is replaced. */
  function WithTransform(pat: Pattern, m: Matrix): (r: Pattern)
    ensures r.pType == pat.pType && r.transform == m
  {
    pat.(transform := m)
  }

  /** `colors`: the two colours of a two-colour pattern, none for the test pattern. */
  function Colors(pat: Pattern): (cs: seq<C.Color>)
    ensures pat.pType.TestPattern? <==> cs == []
    ensures !pat.pType.TestPattern? ==> cs == [pat.pType.a, pat.pType.b]
  {
    match pat.pType
    case Stripe(a, b) => [a, b]
    case Gradient(a, b) => [a, b]
    case Ring(a, b) => [a, b]
    case Checker(a, b) => [a, b]
    case TestPattern => []
  }

  /** The distance of a point from the y axis, which the rings are centred on. */
  function Distance(p: Tuple, sqrt: real -> real): real
  {
    sqrt(p.x * p.x + p.z * p.z)
  }

  /** `color_at`: the colour of the pattern at a point given in pattern space. */
  function ColorAt(pat: Pattern, p: Tuple, sqrt: real -> real): C.Color
  {
    match pat.pType
    case Stripe(a, b) => if EvenFloat(p.x.Floor) then a else b
    case Gradient(a, b) => C.Add(a, C.Scale(C.Sub(b, a), p.x - p.x.Floor as real))
    case Ring(a, b) => if EvenFloat(Distance(p, sqrt).Floor) then a else b
    case Checker(a, b) => if EvenFloat(p.x.Floor + p.y.Floor + p.z.Floor) then a else b
    case TestPattern => C.New(p.x, p.y, p.z)
  }

  /**
   * `pattern_at_shape`: the world point is taken into the object's space by
   * the shape's stored inverse transform, then into the pattern's space by
   * the inverse of the pattern transform.
   */
  function PatternAtShape(pat: Pattern, shapeInverse: Matrix, worldPoint: Tuple, sqrt: real -> real): C.Color
    requires IsMat4(shapeInverse) && IsMat4(pat.transform) && Det(pat.transform) != 0.0
  {
    var objectPoint := MulTuple(shapeInverse, worldPoint);
    var patternPoint := MulTuple(Inverse(pat.transform), objectPoint);
    ColorAt(pat, patternPoint, sqrt)
  }

  // ---------------------------------------------------------------- lemmas

  /** Halving a non-negative integer and flooring is integer division. */
  lemma HalfFloor(m: int)
    requires m >= 0
    ensures ((m as real) / 2.0).Floor == m / 2
  {
    var q, r := m / 2, m % 2;
    assert m as real == 2.0 * (q as real) + (r as real);
    assert (m as real) / 2.0 == q as real + (r as real) / 2.0;
  }

  /** The float test `n % 2.0 == 0.0` is integer evenness, for negative n as well. */
  lemma EvenFloatIsEven(n: int)
    ensures EvenFloat(n) <==> n % 2 == 0
  {
    if n >= 0 {
      HalfFloor(n);
      assert Trunc((n as real) / 2.0) == n / 2;
      assert FMod(n as real, 2.0) == (n % 2) as real;
    } else {
      HalfFloor(-n);
      assert -((n as real) / 2.0) == ((-n) as real) / 2.0;
      assert Trunc((n as real) / 2.0) == -((-n) / 2);
      assert FMod(n as real, 2.0) == -(((-n) % 2) as real);
    }
  }

  /** Stripes alternate with the integer part of x: a where it is even, b where it is odd. */
  lemma StripeParity(a: C.Color, b: C.Color, m: Matrix, p: Tuple, sqrt: real -> real)
    ensures ColorAt(Pattern(Stripe(a, b), m), p, sqrt) == if p.x.Floor % 2 == 0 then a else b
  {
    EvenFloatIsEven(p.x.Floor);
  }

  /** Moving by a whole number of units shifts the floor by the same number. */
  lemma FloorShift(x: real, n: int)
    ensures (x + n as real).Floor == x.Floor + n
  {
    var f := x.Floor;
    assert f as real <= x < f as real + 1.0;
    assert (f + n) as real <= x + n as real < (f + n) as real + 1.0;
  }

  /**
   * Stripes depend on x alone and repeat every 2 units of it: two points
   * whose x differ by 2 have the same colour, whatever their y and z.
   */
  lemma {:induction false} StripePeriodic(a: C.Color, b: C.Color, m: Matrix, p: Tuple, q: Tuple, sqrt: real -> real)
    requires q.x == p.x + 2.0
    ensures ColorAt(Pattern(Stripe(a, b), m), p, sqrt) == ColorAt(Pattern(Stripe(a, b), m), q, sqrt)
  {
    FloorShift(p.x, 2);
    var n := p.x.Floor;
    assert q.x.Floor == n + 2;
    assert (n + 2) % 2 == n % 2;
    EvenFloatIsEven(n);
    EvenFloatIsEven(n + 2);
  }

  /** `a_stripe_pattern_is_alternating_in_x`: 0 and 0.9 are white; 1, -0.1 and -1 black; -1.1 white again. */
  lemma StripeAlternatesExample(white: C.Color, black: C.Color, sqrt: real -> real)
    ensures ColorAt(Striped(white, black), Point(0.0, 0.0, 0.0), sqrt) == white
    ensures ColorAt(Striped(white, black), Point(0.9, 0.0, 0.0), sqrt) == white
    ensures ColorAt(Striped(white, black), Point(1.0, 0.0, 0.0), sqrt) == black
    ensures ColorAt(Striped(white, black), Point(-0.1, 0.0, 0.0), sqrt) == black
    ensures ColorAt(Striped(white, black), Point(-1.0, 0.0, 0.0), sqrt) == black
    ensures ColorAt(Striped(white, black), Point(-1.1, 0.0, 0.0), sqrt) == white
  {
    var m := Identity();
    StripeParity(white, black, m, Point(0.9, 0.0, 0.0), sqrt);
    StripeParity(white, black, m, Point(1.0, 0.0, 0.0), sqrt);
    StripeParity(white, black, m, Point(-0.1, 0.0, 0.0), sqrt);
    StripeParity(white, black, m, Point(-1.0, 0.0, 0.0), sqrt);
    StripeParity(white, black, m, Point(-1.1, 0.0, 0.0), sqrt);
    StripeParity(white, black, m, Point(0.0, 0.0, 0.0), sqrt);
    assert (0.9).Floor == 0 && (-0.1).Floor == -1 && (-1.1).Floor == -2;
  }

  /**
   * The gradient interpolates channel by channel between its two colours by
   * the fractional part of x, and is exactly the first colour at integer x.
   */
  lemma GradientInterpolates(a: C.Color, b: C.Color, m: Matrix, p: Tuple, sqrt: real -> real)
    ensures var f := p.x - p.x.Floor as real;
            var c := ColorAt(Pattern(Gradient(a, b), m), p, sqrt);
            && 0.0 <= f < 1.0
            && C.R(c) == (1.0 - f) * C.R(a) + f * C.R(b)
            && C.G(c) == (1.0 - f) * C.G(a) + f * C.G(b)
            && C.B(c) == (1.0 - f) * C.B(a) + f * C.B(b)
    ensures p.x == p.x.Floor as real ==> ColorAt(Pattern(Gradient(a, b), m), p, sqrt) == a
  {
  }

  /** `a_gradient_linearly_interpolates_between_colors`: from white to black, a quarter of the way is 0.75 grey. */
  lemma GradientExample(sqrt: real -> real)
    ensures ColorAt(GradientPattern(C.White(), C.Black()), Point(0.0, 0.0, 0.0), sqrt) == C.White()
    ensures ColorAt(GradientPattern(C.White(), C.Black()), Point(0.25, 0.0, 0.0), sqrt) == C.New(0.75, 0.75, 0.75)
    ensures ColorAt(GradientPattern(C.White(), C.Black()), Point(0.5, 0.0, 0.0), sqrt) == C.New(0.5, 0.5, 0.5)
    ensures ColorAt(GradientPattern(C.White(), C.Black()), Point(0.75, 0.0, 0.0), sqrt) == C.New(0.25, 0.25, 0.25)
  {
    assert (0.25).Floor == 0 && (0.5).Floor == 0 && (0.75).Floor == 0;
  }

  /** Rings alternate with the integer part of the distance from the y axis. */
  lemma RingParity(a: C.Color, b: C.Color, m: Matrix, p: Tuple, sqrt: real -> real)
    ensures ColorAt(Pattern(Ring(a, b), m), p, sqrt)
         == if Distance(p, sqrt).Floor % 2 == 0 then a else b
  {
    EvenFloatIsEven(Distance(p, sqrt).Floor);
  }

  /** `a_ring_should_extend_in_both_x_and_z`: white at the centre, black at distance 1 along x or z. */
  lemma RingExample(white: C.Color, black: C.Color, sqrt: real -> real)
    requires sqrt(0.0) == 0.0 && sqrt(1.0) == 1.0
    ensures ColorAt(RingPattern(white, black), Point(0.0, 0.0, 0.0), sqrt) == white
    ensures ColorAt(RingPattern(white, black), Point(1.0, 0.0, 0.0), sqrt) == black
    ensures ColorAt(RingPattern(white, black), Point(0.0, 0.0, 1.0), sqrt) == black
  {
    var m := Identity();
    RingParity(white, black, m, Point(0.0, 0.0, 0.0), sqrt);
    RingParity(white, black, m, Point(1.0, 0.0, 0.0), sqrt);
    RingParity(white, black, m, Point(0.0, 0.0, 1.0), sqrt);
  }

  /** Checkers alternate with the parity of the sum of the three floored coordinates. */
  lemma CheckerParity(a: C.Color, b: C.Color, m: Matrix, p: Tuple, sqrt: real -> real)
    ensures ColorAt(Pattern(Checker(a, b), m), p, sqrt)
         == if (p.x.Floor + p.y.Floor + p.z.Floor) % 2 == 0 then a else b
  {
    EvenFloatIsEven(p.x.Floor + p.y.Floor + p.z.Floor);
  }

  /** `checkers_should_repeat_in_x`, `_in_y` and `_in_z`: 0.99 is still white and 1.01 is black. */
  lemma CheckerExample(white: C.Color, black: C.Color, sqrt: real -> real)
    ensures ColorAt(CheckerPattern(white, black), Point(0.99, 0.0, 0.0), sqrt) == white
    ensures ColorAt(CheckerPattern(white, black), Point(1.01, 0.0, 0.0), sqrt) == black
    ensures ColorAt(CheckerPattern(white, black), Point(0.0, 0.99, 0.0), sqrt) == white
    ensures ColorAt(CheckerPattern(white, black), Point(0.0, 1.01, 0.0), sqrt) == black
    ensures ColorAt(CheckerPattern(white, black), Point(0.0, 0.0, 0.99), sqrt) == white
    ensures ColorAt(CheckerPattern(white, black), Point(0.0, 0.0, 1.01), sqrt) == black
  {
    var m := Identity();
    assert (0.99).Floor == 0 && (1.01).Floor == 1 && (0.0).Floor == 0;
    CheckerParity(white, black, m, Point(0.99, 0.0, 0.0), sqrt);
    CheckerParity(white, black, m, Point(1.01, 0.0, 0.0), sqrt);
    CheckerParity(white, black, m, Point(0.0, 0.99, 0.0), sqrt);
    CheckerParity(white, black, m, Point(0.0, 1.01, 0.0), sqrt);
    CheckerParity(white, black, m, Point(0.0, 0.0, 0.99), sqrt);
    CheckerParity(white, black, m, Point(0.0, 0.0, 1.01), sqrt);
  }

  /** The test pattern shows the point's coordinates as a colour. */
  lemma TestPatternShowsPoint(m: Matrix, p: Tuple, sqrt: real -> real)
    ensures C.R(ColorAt(Pattern(TestPattern, m), p, sqrt)) == p.x
    ensures C.G(ColorAt(Pattern(TestPattern, m), p, sqrt)) == p.y
    ensures C.B(ColorAt(Pattern(TestPattern, m), p, sqrt)) == p.z
  {
  }

  /** With identity transforms on both the shape and the pattern, the world point is used as it is. */
  lemma IdentityTransformsChangeNothing(pat: Pattern, p: Tuple, sqrt: real -> real)
    requires pat.transform == Identity()
    ensures Det(pat.transform) != 0.0
    ensures PatternAtShape(pat, Identity(), p, sqrt) == ColorAt(pat, p, sqrt)
  {
    IdentityInverse();
    MulIdentity(Identity(), p);
  }

  // Arithmetic proof aid with no counterpart in the tracer: multiplying by the reciprocal is dividing.
  lemma TimesReciprocal(x: real, k: real)
    requires k != 0.0
    ensures x * (1.0 / k) == x / k
  {
  }

  /** Scaling by the reciprocal of k divides every coordinate of a point by k. */
  lemma ScalingByReciprocal(k: real, p: Tuple)
    requires k != 0.0 && IsPoint(p)
    ensures MulTuple(Scaling(1.0 / k, 1.0 / k, 1.0 / k), p) == Point(p.x / k, p.y / k, p.z / k)
  {
    ScalingApplied(1.0 / k, 1.0 / k, 1.0 / k, p);
    TimesReciprocal(p.x, k);
    TimesReciprocal(p.y, k);
    TimesReciprocal(p.z, k);
  }

  /** Scaling the shape by s divides the point by s before the pattern sees it. */
  lemma ScaledShape(pat: Pattern, k: real, p: Tuple, sqrt: real -> real)
    requires k != 0.0 && IsPoint(p) && pat.transform == Identity()
    ensures Det(Scaling(k, k, k)) != 0.0 && Det(pat.transform) != 0.0
    ensures PatternAtShape(pat, Inverse(Scaling(k, k, k)), p, sqrt) == ColorAt(pat, Point(p.x / k, p.y / k, p.z / k), sqrt)
  {
    ScalingInverse(k, k, k);
    IdentityInverse();
    var op := MulTuple(Scaling(1.0 / k, 1.0 / k, 1.0 / k), p);
    ScalingByReciprocal(k, p);
    MulIdentity(Identity(), op);
  }

  /** Scaling the pattern by s divides the point by s before the pattern is evaluated. */
  lemma ScaledPattern(pat: Pattern, k: real, p: Tuple, sqrt: real -> real)
    requires k != 0.0 && IsPoint(p) && pat.transform == Scaling(k, k, k)
    ensures Det(pat.transform) != 0.0
    ensures PatternAtShape(pat, Identity(), p, sqrt) == ColorAt(pat, Point(p.x / k, p.y / k, p.z / k), sqrt)
  {
    ScalingInverse(k, k, k);
    MulIdentity(Identity(), p);
    ScalingByReciprocal(k, p);
  }

  /** A shape scaled by s and a pattern moved by d along x: the point is divided by s, then moved back by d. */
  lemma ScaledShapeMovedPattern(pat: Pattern, k: real, d: real, p: Tuple, sqrt: real -> real)
    requires k != 0.0 && IsPoint(p) && pat.transform == Translation(d, 0.0, 0.0)
    ensures Det(Scaling(k, k, k)) != 0.0 && Det(pat.transform) != 0.0
    ensures PatternAtShape(pat, Inverse(Scaling(k, k, k)), p, sqrt)
         == ColorAt(pat, Point(p.x / k - d, p.y / k, p.z / k), sqrt)
  {
    ScalingInverse(k, k, k);
    TranslationInverse(d, 0.0, 0.0);
    var op := MulTuple(Scaling(1.0 / k, 1.0 / k, 1.0 / k), p);
    ScalingByReciprocal(k, p);
    TranslationApplied(-d, -0.0, -0.0, op);
  }

  /** `stripes_with_an_object_transformation`: on a sphere scaled by 2, the world point x = 1.5 is white. */
  lemma ObjectTransformExample(white: C.Color, black: C.Color, pat: Pattern, k: real, p: Tuple, sqrt: real -> real)
    requires pat == Striped(white, black)
    requires k == 2.0 && p == Point(1.5, 0.0, 0.0)
    ensures Det(Scaling(k, k, k)) != 0.0 && Det(pat.transform) != 0.0
    ensures PatternAtShape(pat, Inverse(Scaling(k, k, k)), p, sqrt) == white
  {
    assert Point(p.x / k, p.y / k, p.z / k) == Point(0.75, 0.0, 0.0);
    ScaledShape(pat, k, p, sqrt);
    StripeParity(white, black, pat.transform, Point(0.75, 0.0, 0.0), sqrt);
    assert (0.75).Floor == 0;
    assert pat == Pattern(Stripe(white, black), pat.transform);
  }

  /** `stripes_with_a_pattern_transformation`: a stripe pattern scaled by 2 shows white at x = 1.5. */
  lemma PatternTransformExample(white: C.Color, black: C.Color, pat: Pattern, k: real, p: Tuple, sqrt: real -> real)
    requires pat == WithTransform(Striped(white, black), Scaling(k, k, k))
    requires k == 2.0 && p == Point(1.5, 0.0, 0.0)
    ensures Det(pat.transform) != 0.0
    ensures PatternAtShape(pat, Identity(), p, sqrt) == white
  {
    assert Point(p.x / k, p.y / k, p.z / k) == Point(0.75, 0.0, 0.0);
    ScaledPattern(pat, k, p, sqrt);
    StripeParity(white, black, pat.transform, Point(0.75, 0.0, 0.0), sqrt);
    assert (0.75).Floor == 0;
    assert pat == Pattern(Stripe(white, black), pat.transform);
  }

  /**
   * `stripes_with_both_object_and_pattern_transformation`: on a sphere scaled
   * by 2, a stripe pattern moved by 0.5 along x shows white at x = 2.5.
   */
  lemma BothTransformsExample(white: C.Color, black: C.Color, pat: Pattern, k: real, d: real, p: Tuple, sqrt: real -> real)
    requires pat == WithTransform(Striped(white, black), Translation(d, 0.0, 0.0))
    requires k == 2.0 && d == 0.5 && p == Point(2.5, 0.0, 0.0)
    ensures Det(Scaling(k, k, k)) != 0.0 && Det(pat.transform) != 0.0
    ensures PatternAtShape(pat, Inverse(Scaling(k, k, k)), p, sqrt) == white
  {
    assert Point(p.x / k - d, p.y / k, p.z / k) == Point(0.75, 0.0, 0.0);
    ScaledShapeMovedPattern(pat, k, d, p, sqrt);
    StripeParity(white, black, pat.transform, Point(0.75, 0.0, 0.0), sqrt);
    assert (0.75).Floor == 0;
    assert pat == Pattern(Stripe(white, black), pat.transform);
  }
}
