/**
 * Homogeneous 4-component tuples: a point has w = 1, a vector has w = 0.
 * The Rust `assert!(self.w == 0.0)` checks of the vector-only operations
 * become preconditions: a failing assertion is a programmer error there.
 */
module Tuples {
  import opened Util

  datatype Tuple = Tuple(x: real, y: real, z: real, w: real)

  predicate IsPoint(t: Tuple) { t.w == 1.0 }
  predicate IsVector(t: Tuple) { t.w == 0.0 }

  function Point(x: real, y: real, z: real): (p: Tuple)
    ensures IsPoint(p) && !IsVector(p)
  {
    Tuple(x, y, z, 1.0)
  }

  function Vector(x: real, y: real, z: real): (v: Tuple)
    ensures IsVector(v) && !IsPoint(v)
  {
    Tuple(x, y, z, 0.0)
  }

  const Zero: Tuple := Tuple(0.0, 0.0, 0.0, 0.0)

  function Add(a: Tuple, b: Tuple): Tuple
  {
    Tuple(a.x + b.x, a.y + b.y, a.z + b.z, a.w + b.w)
  }

  function Sub(a: Tuple, b: Tuple): Tuple
  {
    Tuple(a.x - b.x, a.y - b.y, a.z - b.z, a.w - b.w)
  }

  function Neg(a: Tuple): Tuple
  {
    Tuple(-a.x, -a.y, -a.z, -a.w)
  }

  /** `Mul<f64>`: every component, w included, is multiplied. */
  function Scale(a: Tuple, s: real): Tuple
  {
    Tuple(a.x * s, a.y * s, a.z * s, a.w * s)
  }

  /** `Div<f64>`: every component, w included, is divided. */
  function Div(a: Tuple, s: real): Tuple
    requires s != 0.0
  {
    Tuple(a.x / s, a.y / s, a.z / s, a.w / s)
  }

  /** `Mul<Tuple>`: the four-term sum over all components, w included. */
  function Dot4(a: Tuple, b: Tuple): real
  {
    a.x * b.x + a.y * b.y + a.z * b.z + a.w * b.w
  }

  /**
   * `dot`: only the receiver is checked to be a vector, and w is ignored.
   * Because the receiver has w = 0, it agrees with the four-term product
   * whatever the argument's w is.
   */
  function Dot(a: Tuple, b: Tuple): (r: real)
    requires IsVector(a)
    ensures r == Dot4(a, b)
  {
    a.x * b.x + a.y * b.y + a.z * b.z
  }

  /** Right-handed cross product of two vectors. */
  function Cross(a: Tuple, b: Tuple): (r: Tuple)
    requires IsVector(a) && IsVector(b)
    ensures IsVector(r)
  {
    Vector(a.y * b.z - a.z * b.y, a.z * b.x - a.x * b.z, a.x * b.y - a.y * b.x)
  }

  /** `reflect`: v - n * 2 * (v . n), both operands vectors. */
  function Reflect(v: Tuple, n: Tuple): (r: Tuple)
    requires IsVector(v) && IsVector(n)
    ensures IsVector(r)
  {
    Sub(v, Scale(Scale(n, 2.0), Dot(v, n)))
  }

  /** `mag`: the Euclidean length, with the square root supplied by the caller. */
  function Magnitude(v: Tuple, sqrt: real -> real): real
    requires IsVector(v)
  {
    sqrt(Dot(v, v))
  }

  /** `norm`: v divided by its magnitude; the source divides by zero for a zero vector. */
  function Normalize(v: Tuple, sqrt: real -> real): (r: Tuple)
    requires IsVector(v) && Magnitude(v, sqrt) != 0.0
    ensures IsVector(r)
    ensures Scale(r, Magnitude(v, sqrt)) == v
  {
    Div(v, Magnitude(v, sqrt))
  }

  /** `PartialEq`: componentwise FltEq on all four components. */
  predicate ApproxEq(a: Tuple, b: Tuple)
  {
    FltEq(a.x, b.x) && FltEq(a.y, b.y) && FltEq(a.z, b.z) && FltEq(a.w, b.w)
  }

  // ---------------------------------------------------------------- lemmas

  /** The homogeneous coordinate tracks the kind of the result. */
  lemma PointVectorArithmetic(p: Tuple, q: Tuple, u: Tuple, v: Tuple)
    requires IsPoint(p) && IsPoint(q) && IsVector(u) && IsVector(v)
    ensures IsVector(Sub(p, q))
    ensures IsPoint(Add(p, u)) && IsPoint(Add(u, p)) && IsPoint(Sub(p, u))
    ensures IsVector(Add(u, v)) && IsVector(Sub(u, v)) && IsVector(Neg(u))
    ensures !IsPoint(Add(p, q)) && !IsVector(Add(p, q))
  {
  }

  lemma NegInvolution(a: Tuple)
    ensures Neg(Neg(a)) == a
    ensures Add(a, Neg(a)) == Zero
    ensures Sub(a, a) == Zero
    ensures Sub(Zero, a) == Neg(a)
  {
  }

  lemma CrossAntiCommutative(a: Tuple, b: Tuple)
    requires IsVector(a) && IsVector(b)
    ensures Cross(b, a) == Neg(Cross(a, b))
    ensures Cross(a, a) == Zero
  {
  }

  /** The cross product is perpendicular to both operands. */
  lemma CrossIsOrthogonal(a: Tuple, b: Tuple)
    requires IsVector(a) && IsVector(b)
    ensures Dot(a, Cross(a, b)) == 0.0 && Dot(b, Cross(a, b)) == 0.0
  {
  }

  /** The four-term product is linear in its left operand. */
  lemma DotLinear(u: Tuple, v: Tuple, t: Tuple, s: real)
    ensures Dot4(Add(u, v), t) == Dot4(u, t) + Dot4(v, t)
    ensures Dot4(Scale(u, s), t) == s * Dot4(u, t)
  {
  }

  /** ... and in its right operand. */
  lemma DotLinearRight(t: Tuple, u: Tuple, v: Tuple, s: real)
    ensures Dot4(t, Add(u, v)) == Dot4(t, u) + Dot4(t, v)
    ensures Dot4(t, Scale(u, s)) == Dot4(t, u) * s
  {
  }

  /** Scaling twice is scaling by the product of the factors. */
  lemma ScaleTwice(a: Tuple, s: real, t: real)
    ensures Scale(Scale(a, s), t) == Scale(a, s * t)
  {
  }

  /** `dot` ignores the argument's w: only the receiver is required to be a vector. */
  lemma DotIgnoresArgumentW(a: Tuple, b: Tuple, w: real)
    requires IsVector(a)
    ensures Dot(a, b) == Dot(a, b.(w := w))
    ensures Dot4(b, a) == Dot(a, b)
  {
  }

  /** The cross products of the tracer's tests. */
  lemma CrossAxes()
    ensures Cross(Vector(1.0, 2.0, 3.0), Vector(2.0, 3.0, 4.0)) == Vector(-1.0, 2.0, -1.0)
    ensures Cross(Vector(1.0, 0.0, 0.0), Vector(0.0, 1.0, 0.0)) == Vector(0.0, 0.0, 1.0)
  {
    var a, b := Vector(1.0, 2.0, 3.0), Vector(2.0, 3.0, 4.0);
    assert a == Tuple(1.0, 2.0, 3.0, 0.0) && b == Tuple(2.0, 3.0, 4.0, 0.0);
    var c := Cross(a, b);
    assert c.x == 2.0 * 4.0 - 3.0 * 3.0;
    assert c.y == 3.0 * 2.0 - 1.0 * 4.0;
    assert c.z == 1.0 * 3.0 - 2.0 * 2.0;
    var u, v := Vector(1.0, 0.0, 0.0), Vector(0.0, 1.0, 0.0);
    assert u == Tuple(1.0, 0.0, 0.0, 0.0) && v == Tuple(0.0, 1.0, 0.0, 0.0);
    var d := Cross(u, v);
    assert d.x == 0.0 * 0.0 - 0.0 * 1.0;
    assert d.y == 0.0 * 0.0 - 1.0 * 0.0;
    assert d.z == 1.0 * 1.0 - 0.0 * 0.0;
  }

  /** Reflecting about the y axis mirrors the y component only. */
  lemma ReflectAboutY(v: Tuple)
    requires IsVector(v)
    ensures Reflect(v, Vector(0.0, 1.0, 0.0)) == Vector(v.x, -v.y, v.z)
  {
  }

  lemma ReflectAt45Degrees()
    ensures Reflect(Vector(1.0, -1.0, 0.0), Vector(0.0, 1.0, 0.0)) == Vector(1.0, 1.0, 0.0)
  {
    ReflectAboutY(Vector(1.0, -1.0, 0.0));
  }

  /**
   * Reflecting straight down off a 45-degree slanted normal (s, s, 0) with
   * s * s = 1/2, that is s = sqrt(2) / 2, sends the vector along x.
   */
  lemma ReflectSlanted(s: real)
    requires s * s == 0.5
    ensures Reflect(Vector(0.0, -1.0, 0.0), Vector(s, s, 0.0)) == Vector(1.0, 0.0, 0.0)
  {
    var v, n := Vector(0.0, -1.0, 0.0), Vector(s, s, 0.0);
    assert Dot(v, n) == -s;
    assert Scale(Scale(n, 2.0), -s) == Tuple(-1.0, -1.0, 0.0, 0.0);
  }

  /**
   * About a unit normal, reflection negates the normal component, keeps the
   * length, and undoing it is reflecting again.
   */
  lemma ReflectAboutUnitNormal(v: Tuple, n: Tuple)
    requires IsVector(v) && IsVector(n) && Dot(n, n) == 1.0
    ensures Dot(Reflect(v, n), n) == -Dot(v, n)
    ensures Dot(Reflect(v, n), Reflect(v, n)) == Dot(v, v)
    ensures Reflect(Reflect(v, n), n) == v
  {
    var d := Dot(v, n);
    var r := Reflect(v, n);
    assert r == Tuple(v.x - n.x * 2.0 * d, v.y - n.y * 2.0 * d, v.z - n.z * 2.0 * d, 0.0);
    calc {
      Dot(r, n);
      (v.x - n.x * 2.0 * d) * n.x + (v.y - n.y * 2.0 * d) * n.y + (v.z - n.z * 2.0 * d) * n.z;
      d - 2.0 * d * (n.x * n.x + n.y * n.y + n.z * n.z);
      -d;
    }
    calc {
      Dot(r, r);
      Dot(v, v) - 4.0 * d * d + 4.0 * d * d * (n.x * n.x + n.y * n.y + n.z * n.z);
      Dot(v, v);
    }
  }

  /** With a genuine square root, a normalised vector has unit length. */
  lemma NormalizeIsUnit(v: Tuple, sqrt: real -> real)
    requires IsVector(v)
    requires sqrt(Dot(v, v)) > 0.0 && sqrt(Dot(v, v)) * sqrt(Dot(v, v)) == Dot(v, v)
    ensures Dot(Normalize(v, sqrt), Normalize(v, sqrt)) == 1.0
  {
    var m := sqrt(Dot(v, v));
    var n := Normalize(v, sqrt);
    assert n.x * m == v.x && n.y * m == v.y && n.z * m == v.z && n.w == 0.0;
    calc {
      Dot(n, n) * (m * m);
      (n.x * m) * (n.x * m) + (n.y * m) * (n.y * m) + (n.z * m) * (n.z * m);
      Dot(v, v);
      1.0 * (m * m);
    }
    assert m * m > 0.0;
  }

  /** Equality of tuples is reflexive and symmetric, and exact equality implies it. */
  lemma ApproxEqProperties(a: Tuple, b: Tuple)
    ensures ApproxEq(a, a)
    ensures ApproxEq(a, b) <==> ApproxEq(b, a)
    ensures ApproxEq(a, b) <==> FltEq(a.x, b.x) && FltEq(a.y, b.y) && FltEq(a.z, b.z) && FltEq(a.w, b.w)
  {
  }
}
