/**
 * Colours are tuples with w = 0 whose x, y, z components are read as red,
 * green and blue.
 */
module Colors {
  import T = Tuples

  datatype Color = Color(t: T.Tuple)

  /** A colour built by `New` (or derived from such colours) has w = 0. */
  predicate WellFormed(c: Color) { T.IsVector(c.t) }

  function New(r: real, g: real, b: real): (c: Color)
    ensures WellFormed(c)
    ensures R(c) == r && G(c) == g && B(c) == b
  {
    Color(T.Vector(r, g, b))
  }

  function R(c: Color): real { c.t.x }
  function G(c: Color): real { c.t.y }
  function B(c: Color): real { c.t.z }

  /** `Color::default()` is the all-zero tuple, which is black. */
  const Default: Color := Color(T.Zero)

  function Black(): Color { New(0.0, 0.0, 0.0) }
  function White(): Color { New(1.0, 1.0, 1.0) }

  function Add(a: Color, b: Color): Color { Color(T.Add(a.t, b.t)) }
  function Sub(a: Color, b: Color): Color { Color(T.Sub(a.t, b.t)) }

  /** `Mul<f64>`: the underlying tuple is scaled. */
  function Scale(a: Color, s: real): Color { Color(T.Scale(a.t, s)) }

  /** `Mul<Color>`: the Hadamard (channel-wise) product, always a well-formed colour. */
  function Hadamard(a: Color, b: Color): (c: Color)
    ensures WellFormed(c)
  {
    New(a.t.x * b.t.x, a.t.y * b.t.y, a.t.z * b.t.z)
  }

  // ---------------------------------------------------------------- lemmas

  /** Channels are read back as written. */
  lemma ChannelsRoundTrip(c: Color)
    requires WellFormed(c)
    ensures New(R(c), G(c), B(c)) == c
  {
  }

  lemma DefaultIsBlack()
    ensures Default == Black()
  {
  }

  /** Addition and subtraction work channel by channel; black is the additive identity. */
  lemma AddSubChannelwise(a: Color, b: Color)
    ensures R(Add(a, b)) == R(a) + R(b) && G(Add(a, b)) == G(a) + G(b) && B(Add(a, b)) == B(a) + B(b)
    ensures R(Sub(a, b)) == R(a) - R(b) && G(Sub(a, b)) == G(a) - G(b) && B(Sub(a, b)) == B(a) - B(b)
    ensures WellFormed(a) && WellFormed(b) ==> WellFormed(Add(a, b)) && WellFormed(Sub(a, b))
    ensures Add(a, Black()) == a && Add(Black(), a) == a && Sub(a, Black()) == a
    ensures Sub(a, a) == Default
  {
  }

  /** The Hadamard product is channel-wise and commutative, and white is its identity. */
  lemma HadamardProperties(a: Color, b: Color)
    ensures R(Hadamard(a, b)) == R(a) * R(b)
    ensures G(Hadamard(a, b)) == G(a) * G(b)
    ensures B(Hadamard(a, b)) == B(a) * B(b)
    ensures Hadamard(a, b) == Hadamard(b, a)
    ensures WellFormed(a) ==> Hadamard(a, White()) == a && Hadamard(White(), a) == a
  {
  }

  /** Scaling is channel-wise; scaling by zero gives black and by one changes nothing. */
  lemma ScaleProperties(a: Color, s: real)
    ensures R(Scale(a, s)) == R(a) * s && G(Scale(a, s)) == G(a) * s && B(Scale(a, s)) == B(a) * s
    ensures WellFormed(a) ==> WellFormed(Scale(a, s))
    ensures Scale(a, 0.0) == Default
    ensures Scale(a, 1.0) == a
  {
  }

  /** Scaling by two factors does not depend on their order. */
  lemma ScaleCommutes(a: Color, s: real, t: real)
    ensures Scale(Scale(a, s), t) == Scale(Scale(a, t), s)
  {
    T.ScaleTwice(a.t, s, t);
    T.ScaleTwice(a.t, t, s);
    assert s * t == t * s;
  }

  /** Scaling passes through the Hadamard product. */
  lemma HadamardScale(a: Color, b: Color, s: real)
    ensures Hadamard(a, Scale(b, s)) == Scale(Hadamard(a, b), s)
  {
    var x, y := a.t, b.t;
    assert x.x * (y.x * s) == (x.x * y.x) * s;
    assert x.y * (y.y * s) == (x.y * y.y) * s;
    assert x.z * (y.z * s) == (x.z * y.z) * s;
  }

  /** Scaling distributes over addition and keeps black black. */
  lemma ScaleDistributes(a: Color, b: Color, s: real)
    ensures Scale(Add(a, b), s) == Add(Scale(a, s), Scale(b, s))
    ensures Scale(Black(), s) == Black()
  {
  }
}
