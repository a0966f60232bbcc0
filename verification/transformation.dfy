/**
 * Affine transformation matrices (translation, scaling, rotation about an
 * axis, shearing) and the fluent builders that left-multiply an existing
 * matrix by one of them. Every builder starts from the identity and
 * overwrites a few entries, so the bottom row stays (0, 0, 0, 1).
 *
 * The rotations take the angle together with the cosine and sine functions:
 * the model never evaluates a trigonometric function itself.
 */
module Transformations {
  import opened Util
  import opened Tuples
  import opened Matrices
  import opened Polynomials
  import Adjugate

  /** The identity with (0,3), (1,3), (2,3) set to x, y, z. */
  function Translation(x: real, y: real, z: real): (m: Matrix)
    ensures IsMat4(m)
  {
    New4([1.0, 0.0, 0.0, x, 0.0, 1.0, 0.0, y, 0.0, 0.0, 1.0, z, 0.0, 0.0, 0.0, 1.0])
  }

  /** The identity with the first three diagonal entries set to x, y, z. */
  function Scaling(x: real, y: real, z: real): (m: Matrix)
    ensures IsMat4(m)
  {
    New4([x, 0.0, 0.0, 0.0, 0.0, y, 0.0, 0.0, 0.0, 0.0, z, 0.0, 0.0, 0.0, 0.0, 1.0])
  }

  /** Rotation about x by the angle whose cosine is c and sine is s. */
  function XRotation(c: real, s: real): (m: Matrix)
    ensures IsMat4(m)
  {
    New4([1.0, 0.0, 0.0, 0.0, 0.0, c, -s, 0.0, 0.0, s, c, 0.0, 0.0, 0.0, 0.0, 1.0])
  }

  /** Rotation about y by the angle whose cosine is c and sine is s. */
  function YRotation(c: real, s: real): (m: Matrix)
    ensures IsMat4(m)
  {
    New4([c, 0.0, s, 0.0, 0.0, 1.0, 0.0, 0.0, -s, 0.0, c, 0.0, 0.0, 0.0, 0.0, 1.0])
  }

  /** Rotation about z by the angle whose cosine is c and sine is s. */
  function ZRotation(c: real, s: real): (m: Matrix)
    ensures IsMat4(m)
  {
    New4([c, -s, 0.0, 0.0, s, c, 0.0, 0.0, 0.0, 0.0, 1.0, 0.0, 0.0, 0.0, 0.0, 1.0])
  }

  /** `rotation_x(r)`: the cosine and sine of r come from the caller's functions. */
  function RotX(angle: real, cos: real -> real, sin: real -> real): (m: Matrix)
    ensures IsMat4(m)
  {
    XRotation(cos(angle), sin(angle))
  }

  function RotY(angle: real, cos: real -> real, sin: real -> real): (m: Matrix)
    ensures IsMat4(m)
  {
    YRotation(cos(angle), sin(angle))
  }

  function RotZ(angle: real, cos: real -> real, sin: real -> real): (m: Matrix)
    ensures IsMat4(m)
  {
    ZRotation(cos(angle), sin(angle))
  }

  /** The identity with the six off-diagonal entries of the upper 3x3 block set. */
  function Shearing(xy: real, xz: real, yx: real, yz: real, zx: real, zy: real): (m: Matrix)
    ensures IsMat4(m)
  {
    New4([1.0, xy, xz, 0.0, yx, 1.0, yz, 0.0, zx, zy, 1.0, 0.0, 0.0, 0.0, 0.0, 1.0])
  }

  // ------------------------------------------------------------ builders

  /** `Mat4::translation(self, ..)`: the new transform is applied after `m`. */
  function ThenTranslate(m: Matrix, x: real, y: real, z: real): (r: Matrix)
    requires IsMat4(m)
    ensures IsMat4(r)
  {
    Mul(Translation(x, y, z), m)
  }

  function ThenScale(m: Matrix, x: real, y: real, z: real): (r: Matrix)
    requires IsMat4(m)
    ensures IsMat4(r)
  {
    Mul(Scaling(x, y, z), m)
  }

  function ThenRotX(m: Matrix, angle: real, cos: real -> real, sin: real -> real): (r: Matrix)
    requires IsMat4(m)
    ensures IsMat4(r)
  {
    Mul(RotX(angle, cos, sin), m)
  }

  function ThenRotY(m: Matrix, angle: real, cos: real -> real, sin: real -> real): (r: Matrix)
    requires IsMat4(m)
    ensures IsMat4(r)
  {
    Mul(RotY(angle, cos, sin), m)
  }

  function ThenRotZ(m: Matrix, angle: real, cos: real -> real, sin: real -> real): (r: Matrix)
    requires IsMat4(m)
    ensures IsMat4(r)
  {
    Mul(RotZ(angle, cos, sin), m)
  }

  function ThenShear(m: Matrix, xy: real, xz: real, yx: real, yz: real, zx: real, zy: real): (r: Matrix)
    requires IsMat4(m)
    ensures IsMat4(r)
  {
    Mul(Shearing(xy, xz, yx, yz, zx, zy), m)
  }

  // ------------------------------------------------------------ lemmas

  /** A translation adds w times the offset: points move, vectors do not. */
  lemma TranslationApplied(x: real, y: real, z: real, t: Tuple)
    ensures MulTuple(Translation(x, y, z), t) == Tuple(t.x + x * t.w, t.y + y * t.w, t.z + z * t.w, t.w)
    ensures IsPoint(t) ==> MulTuple(Translation(x, y, z), t) == Tuple(t.x + x, t.y + y, t.z + z, 1.0)
    ensures IsVector(t) ==> MulTuple(Translation(x, y, z), t) == t
  {
    var m := Translation(x, y, z);
    assert RowTuple(m, 0) == Tuple(1.0, 0.0, 0.0, x) && RowTuple(m, 1) == Tuple(0.0, 1.0, 0.0, y);
    assert RowTuple(m, 2) == Tuple(0.0, 0.0, 1.0, z) && RowTuple(m, 3) == Tuple(0.0, 0.0, 0.0, 1.0);
  }

  lemma TranslationExamples()
    ensures MulTuple(Translation(5.0, -3.0, 2.0), Point(-3.0, 4.0, 5.0)) == Point(2.0, 1.0, 7.0)
    ensures MulTuple(Translation(5.0, -3.0, 2.0), Vector(-3.0, 4.0, 5.0)) == Vector(-3.0, 4.0, 5.0)
  {
    TranslationApplied(5.0, -3.0, 2.0, Point(-3.0, 4.0, 5.0));
    TranslationApplied(5.0, -3.0, 2.0, Vector(-3.0, 4.0, 5.0));
  }

  /** Translating back by the opposite offset undoes a translation. */
  lemma TranslationUndone(x: real, y: real, z: real)
    ensures Mul(Translation(-x, -y, -z), Translation(x, y, z)) == Identity()
  {
    var a, b, id := Translation(-x, -y, -z), Translation(x, y, z), Identity();
    forall r, c | 0 <= r < 4 && 0 <= c < 4
      ensures Mul(a, b)[r][c] == id[r][c]
    {
      assert RowTuple(a, 0) == Tuple(1.0, 0.0, 0.0, -x) && RowTuple(a, 1) == Tuple(0.0, 1.0, 0.0, -y);
      assert RowTuple(a, 2) == Tuple(0.0, 0.0, 1.0, -z) && RowTuple(a, 3) == Tuple(0.0, 0.0, 0.0, 1.0);
      assert ColumnTuple(b, 0) == Tuple(1.0, 0.0, 0.0, 0.0) && ColumnTuple(b, 1) == Tuple(0.0, 1.0, 0.0, 0.0);
      assert ColumnTuple(b, 2) == Tuple(0.0, 0.0, 1.0, 0.0) && ColumnTuple(b, 3) == Tuple(x, y, z, 1.0);
    }
    Mat4Ext(Mul(a, b), id);
  }

  /** A translation has determinant 1, so the source's inverse of it is defined. */
  lemma TranslationDet(x: real, y: real, z: real)
    ensures Det(Translation(x, y, z)) == 1.0
  {
    var m := Translation(x, y, z);
    assert m[0] == [1.0, 0.0, 0.0, x] && m[1] == [0.0, 1.0, 0.0, y];
    assert m[2] == [0.0, 0.0, 1.0, z] && m[3] == [0.0, 0.0, 0.0, 1.0];
    CofactorClosed4(m, 0, 0);
    CofactorClosed4(m, 0, 3);
    assert Cofactor(m, 0, 0) == Det3Poly(1.0, 0.0, y, 0.0, 1.0, z, 0.0, 0.0, 1.0) == 1.0;
    assert Cofactor(m, 0, 3) == -Det3Poly(0.0, 1.0, 0.0, 0.0, 0.0, 1.0, 0.0, 0.0, 0.0) == 0.0;
    Det4Closed(m);
  }

  /** The inverse of a translation is the translation by the opposite offset. */
  lemma TranslationInverse(x: real, y: real, z: real)
    ensures Det(Translation(x, y, z)) != 0.0
    ensures Inverse(Translation(x, y, z)) == Translation(-x, -y, -z)
  {
    var m, back := Translation(x, y, z), Translation(-x, -y, -z);
    TranslationDet(x, y, z);
    var inv := Inverse(m);
    Adjugate.MulInverse(m);
    TranslationUndone(x, y, z);
    MulAssoc(back, m, inv);
    MulIdentity(back, Zero);
    MulIdentity(inv, Zero);
  }

  /** `t.inverse() * p` moves the test point back: (-3, 4, 5) goes to (-8, 7, 3). */
  lemma TranslationInverseExample(x: real, y: real, z: real)
    requires x == 5.0 && y == -3.0 && z == 2.0
    ensures Det(Translation(x, y, z)) != 0.0
    ensures MulTuple(Inverse(Translation(x, y, z)), Point(-3.0, 4.0, 5.0)) == Point(-8.0, 7.0, 3.0)
  {
    TranslationInverse(x, y, z);
    TranslationApplied(-5.0, 3.0, -2.0, Point(-3.0, 4.0, 5.0));
  }

  /** The identity is the translation by nothing, so it is its own inverse. */
  lemma IdentityInverse()
    ensures Det(Identity()) != 0.0
    ensures Inverse(Identity()) == Identity()
  {
    var m := Translation(0.0, 0.0, 0.0);
    forall r, c | 0 <= r < 4 && 0 <= c < 4
      ensures m[r][c] == if r == c then 1.0 else 0.0
    {
    }
    IdentityExt(m);
    TranslationInverse(0.0, 0.0, 0.0);
    assert Translation(-0.0, -0.0, -0.0) == m;
  }

  /** Scaling by the reciprocal factors undoes a scaling. */
  lemma ScalingUndone(x: real, y: real, z: real)
    requires x != 0.0 && y != 0.0 && z != 0.0
    ensures Mul(Scaling(1.0 / x, 1.0 / y, 1.0 / z), Scaling(x, y, z)) == Identity()
  {
    var a, b, id := Scaling(1.0 / x, 1.0 / y, 1.0 / z), Scaling(x, y, z), Identity();
    assert (1.0 / x) * x == 1.0 && (1.0 / y) * y == 1.0 && (1.0 / z) * z == 1.0;
    forall r, c | 0 <= r < 4 && 0 <= c < 4
      ensures Mul(a, b)[r][c] == id[r][c]
    {
      assert RowTuple(a, 0) == Tuple(1.0 / x, 0.0, 0.0, 0.0) && RowTuple(a, 1) == Tuple(0.0, 1.0 / y, 0.0, 0.0);
      assert RowTuple(a, 2) == Tuple(0.0, 0.0, 1.0 / z, 0.0) && RowTuple(a, 3) == Tuple(0.0, 0.0, 0.0, 1.0);
      assert ColumnTuple(b, 0) == Tuple(x, 0.0, 0.0, 0.0) && ColumnTuple(b, 1) == Tuple(0.0, y, 0.0, 0.0);
      assert ColumnTuple(b, 2) == Tuple(0.0, 0.0, z, 0.0) && ColumnTuple(b, 3) == Tuple(0.0, 0.0, 0.0, 1.0);
    }
    Mat4Ext(Mul(a, b), id);
  }

  /** A scaling's determinant is the product of its factors. */
  lemma ScalingDet(x: real, y: real, z: real)
    ensures Det(Scaling(x, y, z)) == x * y * z
  {
    var m := Scaling(x, y, z);
    assert m[0] == [x, 0.0, 0.0, 0.0] && m[1] == [0.0, y, 0.0, 0.0];
    assert m[2] == [0.0, 0.0, z, 0.0] && m[3] == [0.0, 0.0, 0.0, 1.0];
    CofactorClosed4(m, 0, 0);
    assert Cofactor(m, 0, 0) == Det3Poly(y, 0.0, 0.0, 0.0, z, 0.0, 0.0, 0.0, 1.0) == y * z;
    Det4Closed(m);
  }

  /** A scaling by non-zero factors is invertible, and its inverse scales by the reciprocals. */
  lemma ScalingInverse(x: real, y: real, z: real)
    requires x != 0.0 && y != 0.0 && z != 0.0
    ensures Det(Scaling(x, y, z)) != 0.0
    ensures Inverse(Scaling(x, y, z)) == Scaling(1.0 / x, 1.0 / y, 1.0 / z)
  {
    var m, back := Scaling(x, y, z), Scaling(1.0 / x, 1.0 / y, 1.0 / z);
    ScalingDet(x, y, z);
    assert x * y * z != 0.0;
    var inv := Inverse(m);
    Adjugate.MulInverse(m);
    ScalingUndone(x, y, z);
    MulAssoc(back, m, inv);
    MulIdentity(back, Zero);
    MulIdentity(inv, Zero);
  }

  /** Scaling multiplies each spatial component by its own factor and keeps w. */
  lemma ScalingApplied(x: real, y: real, z: real, t: Tuple)
    ensures MulTuple(Scaling(x, y, z), t) == Tuple(t.x * x, t.y * y, t.z * z, t.w)
  {
    var m := Scaling(x, y, z);
    assert RowTuple(m, 0) == Tuple(x, 0.0, 0.0, 0.0) && RowTuple(m, 1) == Tuple(0.0, y, 0.0, 0.0);
    assert RowTuple(m, 2) == Tuple(0.0, 0.0, z, 0.0) && RowTuple(m, 3) == Tuple(0.0, 0.0, 0.0, 1.0);
  }

  /** The scaling tests, including reflection as scaling by -1. */
  lemma ScalingExamples()
    ensures MulTuple(Scaling(2.0, 3.0, 4.0), Point(-4.0, 6.0, 8.0)) == Point(-8.0, 18.0, 32.0)
    ensures MulTuple(Scaling(-1.0, 1.0, 1.0), Point(2.0, 3.0, 4.0)) == Point(-2.0, 3.0, 4.0)
  {
    ScalingApplied(2.0, 3.0, 4.0, Point(-4.0, 6.0, 8.0));
    ScalingApplied(-1.0, 1.0, 1.0, Point(2.0, 3.0, 4.0));
  }

  /** Shearing moves each spatial component in proportion to the other two. */
  lemma ShearingApplied(xy: real, xz: real, yx: real, yz: real, zx: real, zy: real, t: Tuple)
    ensures MulTuple(Shearing(xy, xz, yx, yz, zx, zy), t)
         == Tuple(t.x + xy * t.y + xz * t.z, yx * t.x + t.y + yz * t.z, zx * t.x + zy * t.y + t.z, t.w)
  {
    var m := Shearing(xy, xz, yx, yz, zx, zy);
    assert RowTuple(m, 0) == Tuple(1.0, xy, xz, 0.0) && RowTuple(m, 1) == Tuple(yx, 1.0, yz, 0.0);
    assert RowTuple(m, 2) == Tuple(zx, zy, 1.0, 0.0) && RowTuple(m, 3) == Tuple(0.0, 0.0, 0.0, 1.0);
  }

  lemma ShearingExample()
    ensures MulTuple(Shearing(1.0, 0.0, 0.0, 0.0, 0.0, 0.0), Point(2.0, 3.0, 4.0)) == Point(5.0, 3.0, 4.0)
  {
    ShearingApplied(1.0, 0.0, 0.0, 0.0, 0.0, 0.0, Point(2.0, 3.0, 4.0));
  }

  /** Rotation about x keeps x and w, and turns (y, z) by the given cosine and sine. */
  lemma XRotationApplied(c: real, s: real, t: Tuple)
    ensures MulTuple(XRotation(c, s), t) == Tuple(t.x, c * t.y - s * t.z, s * t.y + c * t.z, t.w)
  {
    var m := XRotation(c, s);
    assert RowTuple(m, 0) == Tuple(1.0, 0.0, 0.0, 0.0) && RowTuple(m, 1) == Tuple(0.0, c, -s, 0.0);
    assert RowTuple(m, 2) == Tuple(0.0, s, c, 0.0) && RowTuple(m, 3) == Tuple(0.0, 0.0, 0.0, 1.0);
  }

  /** Rotation about y keeps y and w, and turns (z, x) by the given cosine and sine. */
  lemma YRotationApplied(c: real, s: real, t: Tuple)
    ensures MulTuple(YRotation(c, s), t) == Tuple(c * t.x + s * t.z, t.y, -s * t.x + c * t.z, t.w)
  {
    var m := YRotation(c, s);
    assert RowTuple(m, 0) == Tuple(c, 0.0, s, 0.0) && RowTuple(m, 1) == Tuple(0.0, 1.0, 0.0, 0.0);
    assert RowTuple(m, 2) == Tuple(-s, 0.0, c, 0.0) && RowTuple(m, 3) == Tuple(0.0, 0.0, 0.0, 1.0);
  }

  /** Rotation about z keeps z and w, and turns (x, y) by the given cosine and sine. */
  lemma ZRotationApplied(c: real, s: real, t: Tuple)
    ensures MulTuple(ZRotation(c, s), t) == Tuple(c * t.x - s * t.y, s * t.x + c * t.y, t.z, t.w)
  {
    var m := ZRotation(c, s);
    assert RowTuple(m, 0) == Tuple(c, -s, 0.0, 0.0) && RowTuple(m, 1) == Tuple(s, c, 0.0, 0.0);
    assert RowTuple(m, 2) == Tuple(0.0, 0.0, 1.0, 0.0) && RowTuple(m, 3) == Tuple(0.0, 0.0, 0.0, 1.0);
  }

  /** A quarter turn (cosine 0, sine 1) about x takes the y axis to the z axis. */
  lemma QuarterTurnX()
    ensures MulTuple(XRotation(0.0, 1.0), Point(0.0, 1.0, 0.0)) == Point(0.0, 0.0, 1.0)
  {
    XRotationApplied(0.0, 1.0, Point(0.0, 1.0, 0.0));
  }

  /** A quarter turn (cosine 0, sine 1) about y takes the z axis to the x axis. */
  lemma QuarterTurnY()
    ensures MulTuple(YRotation(0.0, 1.0), Point(0.0, 0.0, 1.0)) == Point(1.0, 0.0, 0.0)
  {
    YRotationApplied(0.0, 1.0, Point(0.0, 0.0, 1.0));
  }

  /** A quarter turn (cosine 0, sine 1) about z takes the y axis to the negative x axis. */
  lemma QuarterTurnZ()
    ensures MulTuple(ZRotation(0.0, 1.0), Point(0.0, 1.0, 0.0)) == Point(-1.0, 0.0, 0.0)
  {
    ZRotationApplied(0.0, 1.0, Point(0.0, 1.0, 0.0));
  }

  /** Turning back by the opposite sine undoes a rotation about x when c^2 + s^2 = 1. */
  lemma XRotationUndone(c: real, s: real)
    requires c * c + s * s == 1.0
    ensures Mul(XRotation(c, -s), XRotation(c, s)) == Identity()
  {
    var a, b, id := XRotation(c, -s), XRotation(c, s), Identity();
    forall r, k | 0 <= r < 4 && 0 <= k < 4
      ensures Mul(a, b)[r][k] == id[r][k]
    {
      assert RowTuple(a, 0) == Tuple(1.0, 0.0, 0.0, 0.0) && RowTuple(a, 1) == Tuple(0.0, c, s, 0.0);
      assert RowTuple(a, 2) == Tuple(0.0, -s, c, 0.0) && RowTuple(a, 3) == Tuple(0.0, 0.0, 0.0, 1.0);
      assert ColumnTuple(b, 0) == Tuple(1.0, 0.0, 0.0, 0.0) && ColumnTuple(b, 1) == Tuple(0.0, c, s, 0.0);
      assert ColumnTuple(b, 2) == Tuple(0.0, -s, c, 0.0) && ColumnTuple(b, 3) == Tuple(0.0, 0.0, 0.0, 1.0);
    }
    Mat4Ext(Mul(a, b), id);
  }

  /** The determinant of a rotation about x is c^2 + s^2. */
  lemma XRotationDet(c: real, s: real)
    ensures Det(XRotation(c, s)) == c * c + s * s
  {
    var m := XRotation(c, s);
    assert m[0] == [1.0, 0.0, 0.0, 0.0] && m[1] == [0.0, c, -s, 0.0];
    assert m[2] == [0.0, s, c, 0.0] && m[3] == [0.0, 0.0, 0.0, 1.0];
    CofactorClosed4(m, 0, 0);
    assert Cofactor(m, 0, 0) == Det3Poly(c, -s, 0.0, s, c, 0.0, 0.0, 0.0, 1.0) == c * c + s * s;
    Det4Closed(m);
  }

  /** The inverse of a genuine rotation about x (c^2 + s^2 = 1) rotates in the opposite direction. */
  lemma XRotationInverse(c: real, s: real)
    requires c * c + s * s == 1.0
    ensures Det(XRotation(c, s)) != 0.0
    ensures Inverse(XRotation(c, s)) == XRotation(c, -s)
  {
    var m, back := XRotation(c, s), XRotation(c, -s);
    XRotationDet(c, s);
    var inv := Inverse(m);
    Adjugate.MulInverse(m);
    XRotationUndone(c, s);
    MulAssoc(back, m, inv);
    MulIdentity(back, Zero);
    MulIdentity(inv, Zero);
  }

  /** Applied to a tuple, the inverse turns (y, z) back by the same angle. */
  lemma XRotationInverseApplied(c: real, s: real, t: Tuple)
    requires c * c + s * s == 1.0
    ensures Det(XRotation(c, s)) != 0.0
    ensures MulTuple(Inverse(XRotation(c, s)), t) == Tuple(t.x, c * t.y + s * t.z, c * t.z - s * t.y, t.w)
  {
    XRotationInverse(c, s);
    XRotationApplied(c, -s, t);
  }

  // ------------------------------------------------------ the bottom row

  /** The bottom row of an affine transform. */
  predicate KeepsW(m: Matrix)
    requires IsMat4(m)
  {
    m[3] == [0.0, 0.0, 0.0, 1.0]
  }

  /** Every builder keeps the bottom row (0, 0, 0, 1). */
  lemma BuildersKeepW(x: real, y: real, z: real, c: real, s: real, xy: real, xz: real, yx: real, yz: real, zx: real, zy: real)
    ensures KeepsW(Identity()) && KeepsW(Translation(x, y, z)) && KeepsW(Scaling(x, y, z))
    ensures KeepsW(XRotation(c, s)) && KeepsW(YRotation(c, s)) && KeepsW(ZRotation(c, s))
    ensures KeepsW(Shearing(xy, xz, yx, yz, zx, zy))
  {
  }

  /** A matrix with that bottom row keeps w, so points stay points and vectors stay vectors. */
  lemma KeepsWPreservesKind(m: Matrix, t: Tuple)
    requires IsMat4(m) && KeepsW(m)
    ensures MulTuple(m, t).w == t.w
    ensures IsPoint(t) ==> IsPoint(MulTuple(m, t))
    ensures IsVector(t) ==> IsVector(MulTuple(m, t))
  {
    assert RowTuple(m, 3) == Tuple(0.0, 0.0, 0.0, 1.0);
  }

  /** Products of such matrices keep the bottom row, so a whole builder chain does. */
  lemma KeepsWClosedUnderMul(a: Matrix, b: Matrix)
    requires IsMat4(a) && IsMat4(b) && KeepsW(a) && KeepsW(b)
    ensures KeepsW(Mul(a, b))
  {
    assert RowTuple(a, 3) == Tuple(0.0, 0.0, 0.0, 1.0);
    assert ColumnTuple(b, 0).w == 0.0 && ColumnTuple(b, 1).w == 0.0;
    assert ColumnTuple(b, 2).w == 0.0 && ColumnTuple(b, 3).w == 1.0;
  }

  /**
   * A builder left-multiplies, so the transform added last is applied last:
   * m.translation(..).scaling(..) translates a tuple first and then scales it.
   */
  lemma BuilderChainOrder(m: Matrix, t: Tuple, x: real, y: real, z: real, sx: real, sy: real, sz: real)
    requires IsMat4(m)
    ensures MulTuple(ThenTranslate(m, x, y, z), t) == MulTuple(Translation(x, y, z), MulTuple(m, t))
    ensures MulTuple(ThenScale(ThenTranslate(m, x, y, z), sx, sy, sz), t)
         == MulTuple(Scaling(sx, sy, sz), MulTuple(Translation(x, y, z), MulTuple(m, t)))
  {
    MulTupleAssoc(Translation(x, y, z), m, t);
    MulTupleAssoc(Scaling(sx, sy, sz), ThenTranslate(m, x, y, z), t);
  }

  /**
   * The rotation and shearing builders left-multiply too: the rotation (by
   * the cosine and sine of the angle) or the shear is applied after `m`.
   */
  lemma RotationBuildersApplyLast(m: Matrix, t: Tuple, angle: real, cos: real -> real, sin: real -> real)
    requires IsMat4(m)
    ensures MulTuple(ThenRotX(m, angle, cos, sin), t) == MulTuple(XRotation(cos(angle), sin(angle)), MulTuple(m, t))
    ensures MulTuple(ThenRotY(m, angle, cos, sin), t) == MulTuple(YRotation(cos(angle), sin(angle)), MulTuple(m, t))
    ensures MulTuple(ThenRotZ(m, angle, cos, sin), t) == MulTuple(ZRotation(cos(angle), sin(angle)), MulTuple(m, t))
  {
    MulTupleAssoc(RotX(angle, cos, sin), m, t);
    MulTupleAssoc(RotY(angle, cos, sin), m, t);
    MulTupleAssoc(RotZ(angle, cos, sin), m, t);
  }

  lemma ShearBuilderAppliesLast(m: Matrix, t: Tuple, xy: real, xz: real, yx: real, yz: real, zx: real, zy: real)
    requires IsMat4(m)
    ensures MulTuple(ThenShear(m, xy, xz, yx, yz, zx, zy), t)
         == MulTuple(Shearing(xy, xz, yx, yz, zx, zy), MulTuple(m, t))
  {
    MulTupleAssoc(Shearing(xy, xz, yx, yz, zx, zy), m, t);
  }

  /** Starting a chain from the identity gives the plain transform. */
  lemma BuilderFromIdentity(x: real, y: real, z: real)
    ensures ThenTranslate(Identity(), x, y, z) == Translation(x, y, z)
  {
    var t := Translation(x, y, z);
    MulIdentity(t, Zero);
  }

  lemma BuilderFromIdentityScale(x: real, y: real, z: real)
    ensures ThenScale(Identity(), x, y, z) == Scaling(x, y, z)
  {
    var t := Scaling(x, y, z);
    MulIdentity(t, Zero);
  }
}
