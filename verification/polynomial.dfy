/**
 * Polynomial identities over plain reals behind the matrix proofs: the
 * cofactor expansion of a 4x4 determinant gives the same polynomial along
 * every row and a row multiplied against the cofactors of a different row
 * sums to zero. Each proof spells out the products as monomials written
 * in one fixed order, so that only linear reasoning over them remains.
 */
module Polynomials {

  /** The 3x3 determinant, expanded along the first row. */
  function Det3Poly(a: real, b: real, c: real, d: real, e: real, f: real, g: real, h: real, i: real): real
  {
    a * (e * i - h * f) - b * (d * i - g * f) + c * (d * h - g * e)
  }

  /** The cofactor sign of position (r, c), with k = r + c: negative exactly when k is odd. */
  function Sign(k: nat): real
  {
    if k % 2 == 1 then -1.0 else 1.0
  }

  /** The 4x4 determinant as its 24 signed products, one entry from each row and column. */
  function Det4Poly(a00: real, a01: real, a02: real, a03: real, a10: real, a11: real, a12: real, a13: real, a20: real, a21: real, a22: real, a23: real, a30: real, a31: real, a32: real, a33: real): real
  {
    a00 * a11 * a22 * a33 - a00 * a11 * a23 * a32 - a00 * a12 * a21 * a33
       + a00 * a12 * a23 * a31 + a00 * a13 * a21 * a32 - a00 * a13 * a22 * a31
       - a01 * a10 * a22 * a33 + a01 * a10 * a23 * a32 + a01 * a12 * a20 * a33
       - a01 * a12 * a23 * a30 - a01 * a13 * a20 * a32 + a01 * a13 * a22 * a30
       + a02 * a10 * a21 * a33 - a02 * a10 * a23 * a31 - a02 * a11 * a20 * a33
       + a02 * a11 * a23 * a30 + a02 * a13 * a20 * a31 - a02 * a13 * a21 * a30
       - a03 * a10 * a21 * a32 + a03 * a10 * a22 * a31 + a03 * a11 * a20 * a32
       - a03 * a11 * a22 * a30 - a03 * a12 * a20 * a31 + a03 * a12 * a21 * a30
  }

  /** Expanding along row 0 gives the determinant polynomial. */
  lemma LaplaceRowPoly0(a00: real, a01: real, a02: real, a03: real, a10: real, a11: real, a12: real, a13: real, a20: real, a21: real, a22: real, a23: real, a30: real, a31: real, a32: real, a33: real)
    ensures a00 * (Sign(0) * Det3Poly(a11, a12, a13, a21, a22, a23, a31, a32, a33))
       + a01 * (Sign(1) * Det3Poly(a10, a12, a13, a20, a22, a23, a30, a32, a33))
       + a02 * (Sign(2) * Det3Poly(a10, a11, a13, a20, a21, a23, a30, a31, a33))
       + a03 * (Sign(3) * Det3Poly(a10, a11, a12, a20, a21, a22, a30, a31, a32))
      == Det4Poly(a00, a01, a02, a03, a10, a11, a12, a13, a20, a21, a22, a23, a30, a31, a32, a33)
  {
    assert a00 * (Sign(0) * Det3Poly(a11, a12, a13, a21, a22, a23, a31, a32, a33))
      == a00 * a11 * a22 * a33 - a00 * a11 * a23 * a32 - a00 * a12 * a21 * a33
          + a00 * a12 * a23 * a31 + a00 * a13 * a21 * a32 - a00 * a13 * a22 * a31;
    assert a01 * (Sign(1) * Det3Poly(a10, a12, a13, a20, a22, a23, a30, a32, a33))
      == -(a01 * a10 * a22 * a33) + a01 * a10 * a23 * a32 + a01 * a12 * a20 * a33
          - a01 * a12 * a23 * a30 - a01 * a13 * a20 * a32 + a01 * a13 * a22 * a30;
    assert a02 * (Sign(2) * Det3Poly(a10, a11, a13, a20, a21, a23, a30, a31, a33))
      == a02 * a10 * a21 * a33 - a02 * a10 * a23 * a31 - a02 * a11 * a20 * a33
          + a02 * a11 * a23 * a30 + a02 * a13 * a20 * a31 - a02 * a13 * a21 * a30;
    assert a03 * (Sign(3) * Det3Poly(a10, a11, a12, a20, a21, a22, a30, a31, a32))
      == -(a03 * a10 * a21 * a32) + a03 * a10 * a22 * a31 + a03 * a11 * a20 * a32
          - a03 * a11 * a22 * a30 - a03 * a12 * a20 * a31 + a03 * a12 * a21 * a30;
  }

  /** Expanding along row 1 gives the determinant polynomial. */
  lemma LaplaceRowPoly1(a00: real, a01: real, a02: real, a03: real, a10: real, a11: real, a12: real, a13: real, a20: real, a21: real, a22: real, a23: real, a30: real, a31: real, a32: real, a33: real)
    ensures a10 * (Sign(1) * Det3Poly(a01, a02, a03, a21, a22, a23, a31, a32, a33))
       + a11 * (Sign(2) * Det3Poly(a00, a02, a03, a20, a22, a23, a30, a32, a33))
       + a12 * (Sign(3) * Det3Poly(a00, a01, a03, a20, a21, a23, a30, a31, a33))
       + a13 * (Sign(4) * Det3Poly(a00, a01, a02, a20, a21, a22, a30, a31, a32))
      == Det4Poly(a00, a01, a02, a03, a10, a11, a12, a13, a20, a21, a22, a23, a30, a31, a32, a33)
  {
    assert a10 * (Sign(1) * Det3Poly(a01, a02, a03, a21, a22, a23, a31, a32, a33))
      == -(a01 * a10 * a22 * a33) + a01 * a10 * a23 * a32 + a02 * a10 * a21 * a33
          - a02 * a10 * a23 * a31 - a03 * a10 * a21 * a32 + a03 * a10 * a22 * a31;
    assert a11 * (Sign(2) * Det3Poly(a00, a02, a03, a20, a22, a23, a30, a32, a33))
      == a00 * a11 * a22 * a33 - a00 * a11 * a23 * a32 - a02 * a11 * a20 * a33
          + a02 * a11 * a23 * a30 + a03 * a11 * a20 * a32 - a03 * a11 * a22 * a30;
    assert a12 * (Sign(3) * Det3Poly(a00, a01, a03, a20, a21, a23, a30, a31, a33))
      == -(a00 * a12 * a21 * a33) + a00 * a12 * a23 * a31 + a01 * a12 * a20 * a33
          - a01 * a12 * a23 * a30 - a03 * a12 * a20 * a31 + a03 * a12 * a21 * a30;
    assert a13 * (Sign(4) * Det3Poly(a00, a01, a02, a20, a21, a22, a30, a31, a32))
      == a00 * a13 * a21 * a32 - a00 * a13 * a22 * a31 - a01 * a13 * a20 * a32
          + a01 * a13 * a22 * a30 + a02 * a13 * a20 * a31 - a02 * a13 * a21 * a30;
  }

  /** Expanding along row 2 gives the determinant polynomial. */
  lemma LaplaceRowPoly2(a00: real, a01: real, a02: real, a03: real, a10: real, a11: real, a12: real, a13: real, a20: real, a21: real, a22: real, a23: real, a30: real, a31: real, a32: real, a33: real)
    ensures a20 * (Sign(2) * Det3Poly(a01, a02, a03, a11, a12, a13, a31, a32, a33))
       + a21 * (Sign(3) * Det3Poly(a00, a02, a03, a10, a12, a13, a30, a32, a33))
       + a22 * (Sign(4) * Det3Poly(a00, a01, a03, a10, a11, a13, a30, a31, a33))
       + a23 * (Sign(5) * Det3Poly(a00, a01, a02, a10, a11, a12, a30, a31, a32))
      == Det4Poly(a00, a01, a02, a03, a10, a11, a12, a13, a20, a21, a22, a23, a30, a31, a32, a33)
  {
    assert a20 * (Sign(2) * Det3Poly(a01, a02, a03, a11, a12, a13, a31, a32, a33))
      == a01 * a12 * a20 * a33 - a01 * a13 * a20 * a32 - a02 * a11 * a20 * a33
          + a02 * a13 * a20 * a31 + a03 * a11 * a20 * a32 - a03 * a12 * a20 * a31;
    assert a21 * (Sign(3) * Det3Poly(a00, a02, a03, a10, a12, a13, a30, a32, a33))
      == -(a00 * a12 * a21 * a33) + a00 * a13 * a21 * a32 + a02 * a10 * a21 * a33
          - a02 * a13 * a21 * a30 - a03 * a10 * a21 * a32 + a03 * a12 * a21 * a30;
    assert a22 * (Sign(4) * Det3Poly(a00, a01, a03, a10, a11, a13, a30, a31, a33))
      == a00 * a11 * a22 * a33 - a00 * a13 * a22 * a31 - a01 * a10 * a22 * a33
          + a01 * a13 * a22 * a30 + a03 * a10 * a22 * a31 - a03 * a11 * a22 * a30;
    assert a23 * (Sign(5) * Det3Poly(a00, a01, a02, a10, a11, a12, a30, a31, a32))
      == -(a00 * a11 * a23 * a32) + a00 * a12 * a23 * a31 + a01 * a10 * a23 * a32
          - a01 * a12 * a23 * a30 - a02 * a10 * a23 * a31 + a02 * a11 * a23 * a30;
  }

  /** Expanding along row 3 gives the determinant polynomial. */
  lemma LaplaceRowPoly3(a00: real, a01: real, a02: real, a03: real, a10: real, a11: real, a12: real, a13: real, a20: real, a21: real, a22: real, a23: real, a30: real, a31: real, a32: real, a33: real)
    ensures a30 * (Sign(3) * Det3Poly(a01, a02, a03, a11, a12, a13, a21, a22, a23))
       + a31 * (Sign(4) * Det3Poly(a00, a02, a03, a10, a12, a13, a20, a22, a23))
       + a32 * (Sign(5) * Det3Poly(a00, a01, a03, a10, a11, a13, a20, a21, a23))
       + a33 * (Sign(6) * Det3Poly(a00, a01, a02, a10, a11, a12, a20, a21, a22))
      == Det4Poly(a00, a01, a02, a03, a10, a11, a12, a13, a20, a21, a22, a23, a30, a31, a32, a33)
  {
    assert a30 * (Sign(3) * Det3Poly(a01, a02, a03, a11, a12, a13, a21, a22, a23))
      == -(a01 * a12 * a23 * a30) + a01 * a13 * a22 * a30 + a02 * a11 * a23 * a30
          - a02 * a13 * a21 * a30 - a03 * a11 * a22 * a30 + a03 * a12 * a21 * a30;
    assert a31 * (Sign(4) * Det3Poly(a00, a02, a03, a10, a12, a13, a20, a22, a23))
      == a00 * a12 * a23 * a31 - a00 * a13 * a22 * a31 - a02 * a10 * a23 * a31
          + a02 * a13 * a20 * a31 + a03 * a10 * a22 * a31 - a03 * a12 * a20 * a31;
    assert a32 * (Sign(5) * Det3Poly(a00, a01, a03, a10, a11, a13, a20, a21, a23))
      == -(a00 * a11 * a23 * a32) + a00 * a13 * a21 * a32 + a01 * a10 * a23 * a32
          - a01 * a13 * a20 * a32 - a03 * a10 * a21 * a32 + a03 * a11 * a20 * a32;
    assert a33 * (Sign(6) * Det3Poly(a00, a01, a02, a10, a11, a12, a20, a21, a22))
      == a00 * a11 * a22 * a33 - a00 * a12 * a21 * a33 - a01 * a10 * a22 * a33
          + a01 * a12 * a20 * a33 + a02 * a10 * a21 * a33 - a02 * a11 * a20 * a33;
  }

  /** Row 0 against the cofactors of row 1: the expansion of a matrix with two equal rows. */
  lemma AlienRowPoly01(a00: real, a01: real, a02: real, a03: real, a10: real, a11: real, a12: real, a13: real, a20: real, a21: real, a22: real, a23: real, a30: real, a31: real, a32: real, a33: real)
    ensures a00 * (Sign(1) * Det3Poly(a01, a02, a03, a21, a22, a23, a31, a32, a33))
       + a01 * (Sign(2) * Det3Poly(a00, a02, a03, a20, a22, a23, a30, a32, a33))
       + a02 * (Sign(3) * Det3Poly(a00, a01, a03, a20, a21, a23, a30, a31, a33))
       + a03 * (Sign(4) * Det3Poly(a00, a01, a02, a20, a21, a22, a30, a31, a32))
      == 0.0
  {
    assert a00 * (Sign(1) * Det3Poly(a01, a02, a03, a21, a22, a23, a31, a32, a33))
      == -(a00 * a01 * a22 * a33) + a00 * a01 * a23 * a32 + a00 * a02 * a21 * a33
          - a00 * a02 * a23 * a31 - a00 * a03 * a21 * a32 + a00 * a03 * a22 * a31;
    assert a01 * (Sign(2) * Det3Poly(a00, a02, a03, a20, a22, a23, a30, a32, a33))
      == a00 * a01 * a22 * a33 - a00 * a01 * a23 * a32 - a01 * a02 * a20 * a33
          + a01 * a02 * a23 * a30 + a01 * a03 * a20 * a32 - a01 * a03 * a22 * a30;
    assert a02 * (Sign(3) * Det3Poly(a00, a01, a03, a20, a21, a23, a30, a31, a33))
      == -(a00 * a02 * a21 * a33) + a00 * a02 * a23 * a31 + a01 * a02 * a20 * a33
          - a01 * a02 * a23 * a30 - a02 * a03 * a20 * a31 + a02 * a03 * a21 * a30;
    assert a03 * (Sign(4) * Det3Poly(a00, a01, a02, a20, a21, a22, a30, a31, a32))
      == a00 * a03 * a21 * a32 - a00 * a03 * a22 * a31 - a01 * a03 * a20 * a32
          + a01 * a03 * a22 * a30 + a02 * a03 * a20 * a31 - a02 * a03 * a21 * a30;
  }

  /** Row 0 against the cofactors of row 2: the expansion of a matrix with two equal rows. */
  lemma AlienRowPoly02(a00: real, a01: real, a02: real, a03: real, a10: real, a11: real, a12: real, a13: real, a20: real, a21: real, a22: real, a23: real, a30: real, a31: real, a32: real, a33: real)
    ensures a00 * (Sign(2) * Det3Poly(a01, a02, a03, a11, a12, a13, a31, a32, a33))
       + a01 * (Sign(3) * Det3Poly(a00, a02, a03, a10, a12, a13, a30, a32, a33))
       + a02 * (Sign(4) * Det3Poly(a00, a01, a03, a10, a11, a13, a30, a31, a33))
       + a03 * (Sign(5) * Det3Poly(a00, a01, a02, a10, a11, a12, a30, a31, a32))
      == 0.0
  {
    assert a00 * (Sign(2) * Det3Poly(a01, a02, a03, a11, a12, a13, a31, a32, a33))
      == a00 * a01 * a12 * a33 - a00 * a01 * a13 * a32 - a00 * a02 * a11 * a33
          + a00 * a02 * a13 * a31 + a00 * a03 * a11 * a32 - a00 * a03 * a12 * a31;
    assert a01 * (Sign(3) * Det3Poly(a00, a02, a03, a10, a12, a13, a30, a32, a33))
      == -(a00 * a01 * a12 * a33) + a00 * a01 * a13 * a32 + a01 * a02 * a10 * a33
          - a01 * a02 * a13 * a30 - a01 * a03 * a10 * a32 + a01 * a03 * a12 * a30;
    assert a02 * (Sign(4) * Det3Poly(a00, a01, a03, a10, a11, a13, a30, a31, a33))
      == a00 * a02 * a11 * a33 - a00 * a02 * a13 * a31 - a01 * a02 * a10 * a33
          + a01 * a02 * a13 * a30 + a02 * a03 * a10 * a31 - a02 * a03 * a11 * a30;
    assert a03 * (Sign(5) * Det3Poly(a00, a01, a02, a10, a11, a12, a30, a31, a32))
      == -(a00 * a03 * a11 * a32) + a00 * a03 * a12 * a31 + a01 * a03 * a10 * a32
          - a01 * a03 * a12 * a30 - a02 * a03 * a10 * a31 + a02 * a03 * a11 * a30;
  }

  /** Row 0 against the cofactors of row 3: the expansion of a matrix with two equal rows. */
  lemma AlienRowPoly03(a00: real, a01: real, a02: real, a03: real, a10: real, a11: real, a12: real, a13: real, a20: real, a21: real, a22: real, a23: real, a30: real, a31: real, a32: real, a33: real)
    ensures a00 * (Sign(3) * Det3Poly(a01, a02, a03, a11, a12, a13, a21, a22, a23))
       + a01 * (Sign(4) * Det3Poly(a00, a02, a03, a10, a12, a13, a20, a22, a23))
       + a02 * (Sign(5) * Det3Poly(a00, a01, a03, a10, a11, a13, a20, a21, a23))
       + a03 * (Sign(6) * Det3Poly(a00, a01, a02, a10, a11, a12, a20, a21, a22))
      == 0.0
  {
    assert a00 * (Sign(3) * Det3Poly(a01, a02, a03, a11, a12, a13, a21, a22, a23))
      == -(a00 * a01 * a12 * a23) + a00 * a01 * a13 * a22 + a00 * a02 * a11 * a23
          - a00 * a02 * a13 * a21 - a00 * a03 * a11 * a22 + a00 * a03 * a12 * a21;
    assert a01 * (Sign(4) * Det3Poly(a00, a02, a03, a10, a12, a13, a20, a22, a23))
      == a00 * a01 * a12 * a23 - a00 * a01 * a13 * a22 - a01 * a02 * a10 * a23
          + a01 * a02 * a13 * a20 + a01 * a03 * a10 * a22 - a01 * a03 * a12 * a20;
    assert a02 * (Sign(5) * Det3Poly(a00, a01, a03, a10, a11, a13, a20, a21, a23))
      == -(a00 * a02 * a11 * a23) + a00 * a02 * a13 * a21 + a01 * a02 * a10 * a23
          - a01 * a02 * a13 * a20 - a02 * a03 * a10 * a21 + a02 * a03 * a11 * a20;
    assert a03 * (Sign(6) * Det3Poly(a00, a01, a02, a10, a11, a12, a20, a21, a22))
      == a00 * a03 * a11 * a22 - a00 * a03 * a12 * a21 - a01 * a03 * a10 * a22
          + a01 * a03 * a12 * a20 + a02 * a03 * a10 * a21 - a02 * a03 * a11 * a20;
  }

  /** Row 1 against the cofactors of row 0: the expansion of a matrix with two equal rows. */
  lemma AlienRowPoly10(a00: real, a01: real, a02: real, a03: real, a10: real, a11: real, a12: real, a13: real, a20: real, a21: real, a22: real, a23: real, a30: real, a31: real, a32: real, a33: real)
    ensures a10 * (Sign(0) * Det3Poly(a11, a12, a13, a21, a22, a23, a31, a32, a33))
       + a11 * (Sign(1) * Det3Poly(a10, a12, a13, a20, a22, a23, a30, a32, a33))
       + a12 * (Sign(2) * Det3Poly(a10, a11, a13, a20, a21, a23, a30, a31, a33))
       + a13 * (Sign(3) * Det3Poly(a10, a11, a12, a20, a21, a22, a30, a31, a32))
      == 0.0
  {
    assert a10 * (Sign(0) * Det3Poly(a11, a12, a13, a21, a22, a23, a31, a32, a33))
      == a10 * a11 * a22 * a33 - a10 * a11 * a23 * a32 - a10 * a12 * a21 * a33
          + a10 * a12 * a23 * a31 + a10 * a13 * a21 * a32 - a10 * a13 * a22 * a31;
    assert a11 * (Sign(1) * Det3Poly(a10, a12, a13, a20, a22, a23, a30, a32, a33))
      == -(a10 * a11 * a22 * a33) + a10 * a11 * a23 * a32 + a11 * a12 * a20 * a33
          - a11 * a12 * a23 * a30 - a11 * a13 * a20 * a32 + a11 * a13 * a22 * a30;
    assert a12 * (Sign(2) * Det3Poly(a10, a11, a13, a20, a21, a23, a30, a31, a33))
      == a10 * a12 * a21 * a33 - a10 * a12 * a23 * a31 - a11 * a12 * a20 * a33
          + a11 * a12 * a23 * a30 + a12 * a13 * a20 * a31 - a12 * a13 * a21 * a30;
    assert a13 * (Sign(3) * Det3Poly(a10, a11, a12, a20, a21, a22, a30, a31, a32))
      == -(a10 * a13 * a21 * a32) + a10 * a13 * a22 * a31 + a11 * a13 * a20 * a32
          - a11 * a13 * a22 * a30 - a12 * a13 * a20 * a31 + a12 * a13 * a21 * a30;
  }

  /** Row 1 against the cofactors of row 2: the expansion of a matrix with two equal rows. */
  lemma AlienRowPoly12(a00: real, a01: real, a02: real, a03: real, a10: real, a11: real, a12: real, a13: real, a20: real, a21: real, a22: real, a23: real, a30: real, a31: real, a32: real, a33: real)
    ensures a10 * (Sign(2) * Det3Poly(a01, a02, a03, a11, a12, a13, a31, a32, a33))
       + a11 * (Sign(3) * Det3Poly(a00, a02, a03, a10, a12, a13, a30, a32, a33))
       + a12 * (Sign(4) * Det3Poly(a00, a01, a03, a10, a11, a13, a30, a31, a33))
       + a13 * (Sign(5) * Det3Poly(a00, a01, a02, a10, a11, a12, a30, a31, a32))
      == 0.0
  {
    assert a10 * (Sign(2) * Det3Poly(a01, a02, a03, a11, a12, a13, a31, a32, a33))
      == a01 * a10 * a12 * a33 - a01 * a10 * a13 * a32 - a02 * a10 * a11 * a33
          + a02 * a10 * a13 * a31 + a03 * a10 * a11 * a32 - a03 * a10 * a12 * a31;
    assert a11 * (Sign(3) * Det3Poly(a00, a02, a03, a10, a12, a13, a30, a32, a33))
      == -(a00 * a11 * a12 * a33) + a00 * a11 * a13 * a32 + a02 * a10 * a11 * a33
          - a02 * a11 * a13 * a30 - a03 * a10 * a11 * a32 + a03 * a11 * a12 * a30;
    assert a12 * (Sign(4) * Det3Poly(a00, a01, a03, a10, a11, a13, a30, a31, a33))
      == a00 * a11 * a12 * a33 - a00 * a12 * a13 * a31 - a01 * a10 * a12 * a33
          + a01 * a12 * a13 * a30 + a03 * a10 * a12 * a31 - a03 * a11 * a12 * a30;
    assert a13 * (Sign(5) * Det3Poly(a00, a01, a02, a10, a11, a12, a30, a31, a32))
      == -(a00 * a11 * a13 * a32) + a00 * a12 * a13 * a31 + a01 * a10 * a13 * a32
          - a01 * a12 * a13 * a30 - a02 * a10 * a13 * a31 + a02 * a11 * a13 * a30;
  }

  /** Row 1 against the cofactors of row 3: the expansion of a matrix with two equal rows. */
  lemma AlienRowPoly13(a00: real, a01: real, a02: real, a03: real, a10: real, a11: real, a12: real, a13: real, a20: real, a21: real, a22: real, a23: real, a30: real, a31: real, a32: real, a33: real)
    ensures a10 * (Sign(3) * Det3Poly(a01, a02, a03, a11, a12, a13, a21, a22, a23))
       + a11 * (Sign(4) * Det3Poly(a00, a02, a03, a10, a12, a13, a20, a22, a23))
       + a12 * (Sign(5) * Det3Poly(a00, a01, a03, a10, a11, a13, a20, a21, a23))
       + a13 * (Sign(6) * Det3Poly(a00, a01, a02, a10, a11, a12, a20, a21, a22))
      == 0.0
  {
    assert a10 * (Sign(3) * Det3Poly(a01, a02, a03, a11, a12, a13, a21, a22, a23))
      == -(a01 * a10 * a12 * a23) + a01 * a10 * a13 * a22 + a02 * a10 * a11 * a23
          - a02 * a10 * a13 * a21 - a03 * a10 * a11 * a22 + a03 * a10 * a12 * a21;
    assert a11 * (Sign(4) * Det3Poly(a00, a02, a03, a10, a12, a13, a20, a22, a23))
      == a00 * a11 * a12 * a23 - a00 * a11 * a13 * a22 - a02 * a10 * a11 * a23
          + a02 * a11 * a13 * a20 + a03 * a10 * a11 * a22 - a03 * a11 * a12 * a20;
    assert a12 * (Sign(5) * Det3Poly(a00, a01, a03, a10, a11, a13, a20, a21, a23))
      == -(a00 * a11 * a12 * a23) + a00 * a12 * a13 * a21 + a01 * a10 * a12 * a23
          - a01 * a12 * a13 * a20 - a03 * a10 * a12 * a21 + a03 * a11 * a12 * a20;
    assert a13 * (Sign(6) * Det3Poly(a00, a01, a02, a10, a11, a12, a20, a21, a22))
      == a00 * a11 * a13 * a22 - a00 * a12 * a13 * a21 - a01 * a10 * a13 * a22
          + a01 * a12 * a13 * a20 + a02 * a10 * a13 * a21 - a02 * a11 * a13 * a20;
  }

  /** Row 2 against the cofactors of row 0: the expansion of a matrix with two equal rows. */
  lemma AlienRowPoly20(a00: real, a01: real, a02: real, a03: real, a10: real, a11: real, a12: real, a13: real, a20: real, a21: real, a22: real, a23: real, a30: real, a31: real, a32: real, a33: real)
    ensures a20 * (Sign(0) * Det3Poly(a11, a12, a13, a21, a22, a23, a31, a32, a33))
       + a21 * (Sign(1) * Det3Poly(a10, a12, a13, a20, a22, a23, a30, a32, a33))
       + a22 * (Sign(2) * Det3Poly(a10, a11, a13, a20, a21, a23, a30, a31, a33))
       + a23 * (Sign(3) * Det3Poly(a10, a11, a12, a20, a21, a22, a30, a31, a32))
      == 0.0
  {
    assert a20 * (Sign(0) * Det3Poly(a11, a12, a13, a21, a22, a23, a31, a32, a33))
      == a11 * a20 * a22 * a33 - a11 * a20 * a23 * a32 - a12 * a20 * a21 * a33
          + a12 * a20 * a23 * a31 + a13 * a20 * a21 * a32 - a13 * a20 * a22 * a31;
    assert a21 * (Sign(1) * Det3Poly(a10, a12, a13, a20, a22, a23, a30, a32, a33))
      == -(a10 * a21 * a22 * a33) + a10 * a21 * a23 * a32 + a12 * a20 * a21 * a33
          - a12 * a21 * a23 * a30 - a13 * a20 * a21 * a32 + a13 * a21 * a22 * a30;
    assert a22 * (Sign(2) * Det3Poly(a10, a11, a13, a20, a21, a23, a30, a31, a33))
      == a10 * a21 * a22 * a33 - a10 * a22 * a23 * a31 - a11 * a20 * a22 * a33
          + a11 * a22 * a23 * a30 + a13 * a20 * a22 * a31 - a13 * a21 * a22 * a30;
    assert a23 * (Sign(3) * Det3Poly(a10, a11, a12, a20, a21, a22, a30, a31, a32))
      == -(a10 * a21 * a23 * a32) + a10 * a22 * a23 * a31 + a11 * a20 * a23 * a32
          - a11 * a22 * a23 * a30 - a12 * a20 * a23 * a31 + a12 * a21 * a23 * a30;
  }

  /** Row 2 against the cofactors of row 1: the expansion of a matrix with two equal rows. */
  lemma AlienRowPoly21(a00: real, a01: real, a02: real, a03: real, a10: real, a11: real, a12: real, a13: real, a20: real, a21: real, a22: real, a23: real, a30: real, a31: real, a32: real, a33: real)
    ensures a20 * (Sign(1) * Det3Poly(a01, a02, a03, a21, a22, a23, a31, a32, a33))
       + a21 * (Sign(2) * Det3Poly(a00, a02, a03, a20, a22, a23, a30, a32, a33))
       + a22 * (Sign(3) * Det3Poly(a00, a01, a03, a20, a21, a23, a30, a31, a33))
       + a23 * (Sign(4) * Det3Poly(a00, a01, a02, a20, a21, a22, a30, a31, a32))
      == 0.0
  {
    assert a20 * (Sign(1) * Det3Poly(a01, a02, a03, a21, a22, a23, a31, a32, a33))
      == -(a01 * a20 * a22 * a33) + a01 * a20 * a23 * a32 + a02 * a20 * a21 * a33
          - a02 * a20 * a23 * a31 - a03 * a20 * a21 * a32 + a03 * a20 * a22 * a31;
    assert a21 * (Sign(2) * Det3Poly(a00, a02, a03, a20, a22, a23, a30, a32, a33))
      == a00 * a21 * a22 * a33 - a00 * a21 * a23 * a32 - a02 * a20 * a21 * a33
          + a02 * a21 * a23 * a30 + a03 * a20 * a21 * a32 - a03 * a21 * a22 * a30;
    assert a22 * (Sign(3) * Det3Poly(a00, a01, a03, a20, a21, a23, a30, a31, a33))
      == -(a00 * a21 * a22 * a33) + a00 * a22 * a23 * a31 + a01 * a20 * a22 * a33
          - a01 * a22 * a23 * a30 - a03 * a20 * a22 * a31 + a03 * a21 * a22 * a30;
    assert a23 * (Sign(4) * Det3Poly(a00, a01, a02, a20, a21, a22, a30, a31, a32))
      == a00 * a21 * a23 * a32 - a00 * a22 * a23 * a31 - a01 * a20 * a23 * a32
          + a01 * a22 * a23 * a30 + a02 * a20 * a23 * a31 - a02 * a21 * a23 * a30;
  }

  /** Row 2 against the cofactors of row 3: the expansion of a matrix with two equal rows. */
  lemma AlienRowPoly23(a00: real, a01: real, a02: real, a03: real, a10: real, a11: real, a12: real, a13: real, a20: real, a21: real, a22: real, a23: real, a30: real, a31: real, a32: real, a33: real)
    ensures a20 * (Sign(3) * Det3Poly(a01, a02, a03, a11, a12, a13, a21, a22, a23))
       + a21 * (Sign(4) * Det3Poly(a00, a02, a03, a10, a12, a13, a20, a22, a23))
       + a22 * (Sign(5) * Det3Poly(a00, a01, a03, a10, a11, a13, a20, a21, a23))
       + a23 * (Sign(6) * Det3Poly(a00, a01, a02, a10, a11, a12, a20, a21, a22))
      == 0.0
  {
    assert a20 * (Sign(3) * Det3Poly(a01, a02, a03, a11, a12, a13, a21, a22, a23))
      == -(a01 * a12 * a20 * a23) + a01 * a13 * a20 * a22 + a02 * a11 * a20 * a23
          - a02 * a13 * a20 * a21 - a03 * a11 * a20 * a22 + a03 * a12 * a20 * a21;
    assert a21 * (Sign(4) * Det3Poly(a00, a02, a03, a10, a12, a13, a20, a22, a23))
      == a00 * a12 * a21 * a23 - a00 * a13 * a21 * a22 - a02 * a10 * a21 * a23
          + a02 * a13 * a20 * a21 + a03 * a10 * a21 * a22 - a03 * a12 * a20 * a21;
    assert a22 * (Sign(5) * Det3Poly(a00, a01, a03, a10, a11, a13, a20, a21, a23))
      == -(a00 * a11 * a22 * a23) + a00 * a13 * a21 * a22 + a01 * a10 * a22 * a23
          - a01 * a13 * a20 * a22 - a03 * a10 * a21 * a22 + a03 * a11 * a20 * a22;
    assert a23 * (Sign(6) * Det3Poly(a00, a01, a02, a10, a11, a12, a20, a21, a22))
      == a00 * a11 * a22 * a23 - a00 * a12 * a21 * a23 - a01 * a10 * a22 * a23
          + a01 * a12 * a20 * a23 + a02 * a10 * a21 * a23 - a02 * a11 * a20 * a23;
  }

  /** Row 3 against the cofactors of row 0: the expansion of a matrix with two equal rows. */
  lemma AlienRowPoly30(a00: real, a01: real, a02: real, a03: real, a10: real, a11: real, a12: real, a13: real, a20: real, a21: real, a22: real, a23: real, a30: real, a31: real, a32: real, a33: real)
    ensures a30 * (Sign(0) * Det3Poly(a11, a12, a13, a21, a22, a23, a31, a32, a33))
       + a31 * (Sign(1) * Det3Poly(a10, a12, a13, a20, a22, a23, a30, a32, a33))
       + a32 * (Sign(2) * Det3Poly(a10, a11, a13, a20, a21, a23, a30, a31, a33))
       + a33 * (Sign(3) * Det3Poly(a10, a11, a12, a20, a21, a22, a30, a31, a32))
      == 0.0
  {
    assert a30 * (Sign(0) * Det3Poly(a11, a12, a13, a21, a22, a23, a31, a32, a33))
      == a11 * a22 * a30 * a33 - a11 * a23 * a30 * a32 - a12 * a21 * a30 * a33
          + a12 * a23 * a30 * a31 + a13 * a21 * a30 * a32 - a13 * a22 * a30 * a31;
    assert a31 * (Sign(1) * Det3Poly(a10, a12, a13, a20, a22, a23, a30, a32, a33))
      == -(a10 * a22 * a31 * a33) + a10 * a23 * a31 * a32 + a12 * a20 * a31 * a33
          - a12 * a23 * a30 * a31 - a13 * a20 * a31 * a32 + a13 * a22 * a30 * a31;
    assert a32 * (Sign(2) * Det3Poly(a10, a11, a13, a20, a21, a23, a30, a31, a33))
      == a10 * a21 * a32 * a33 - a10 * a23 * a31 * a32 - a11 * a20 * a32 * a33
          + a11 * a23 * a30 * a32 + a13 * a20 * a31 * a32 - a13 * a21 * a30 * a32;
    assert a33 * (Sign(3) * Det3Poly(a10, a11, a12, a20, a21, a22, a30, a31, a32))
      == -(a10 * a21 * a32 * a33) + a10 * a22 * a31 * a33 + a11 * a20 * a32 * a33
          - a11 * a22 * a30 * a33 - a12 * a20 * a31 * a33 + a12 * a21 * a30 * a33;
  }

  /** Row 3 against the cofactors of row 1: the expansion of a matrix with two equal rows. */
  lemma AlienRowPoly31(a00: real, a01: real, a02: real, a03: real, a10: real, a11: real, a12: real, a13: real, a20: real, a21: real, a22: real, a23: real, a30: real, a31: real, a32: real, a33: real)
    ensures a30 * (Sign(1) * Det3Poly(a01, a02, a03, a21, a22, a23, a31, a32, a33))
       + a31 * (Sign(2) * Det3Poly(a00, a02, a03, a20, a22, a23, a30, a32, a33))
       + a32 * (Sign(3) * Det3Poly(a00, a01, a03, a20, a21, a23, a30, a31, a33))
       + a33 * (Sign(4) * Det3Poly(a00, a01, a02, a20, a21, a22, a30, a31, a32))
      == 0.0
  {
    assert a30 * (Sign(1) * Det3Poly(a01, a02, a03, a21, a22, a23, a31, a32, a33))
      == -(a01 * a22 * a30 * a33) + a01 * a23 * a30 * a32 + a02 * a21 * a30 * a33
          - a02 * a23 * a30 * a31 - a03 * a21 * a30 * a32 + a03 * a22 * a30 * a31;
    assert a31 * (Sign(2) * Det3Poly(a00, a02, a03, a20, a22, a23, a30, a32, a33))
      == a00 * a22 * a31 * a33 - a00 * a23 * a31 * a32 - a02 * a20 * a31 * a33
          + a02 * a23 * a30 * a31 + a03 * a20 * a31 * a32 - a03 * a22 * a30 * a31;
    assert a32 * (Sign(3) * Det3Poly(a00, a01, a03, a20, a21, a23, a30, a31, a33))
      == -(a00 * a21 * a32 * a33) + a00 * a23 * a31 * a32 + a01 * a20 * a32 * a33
          - a01 * a23 * a30 * a32 - a03 * a20 * a31 * a32 + a03 * a21 * a30 * a32;
    assert a33 * (Sign(4) * Det3Poly(a00, a01, a02, a20, a21, a22, a30, a31, a32))
      == a00 * a21 * a32 * a33 - a00 * a22 * a31 * a33 - a01 * a20 * a32 * a33
          + a01 * a22 * a30 * a33 + a02 * a20 * a31 * a33 - a02 * a21 * a30 * a33;
  }

  /** Row 3 against the cofactors of row 2: the expansion of a matrix with two equal rows. */
  lemma AlienRowPoly32(a00: real, a01: real, a02: real, a03: real, a10: real, a11: real, a12: real, a13: real, a20: real, a21: real, a22: real, a23: real, a30: real, a31: real, a32: real, a33: real)
    ensures a30 * (Sign(2) * Det3Poly(a01, a02, a03, a11, a12, a13, a31, a32, a33))
       + a31 * (Sign(3) * Det3Poly(a00, a02, a03, a10, a12, a13, a30, a32, a33))
       + a32 * (Sign(4) * Det3Poly(a00, a01, a03, a10, a11, a13, a30, a31, a33))
       + a33 * (Sign(5) * Det3Poly(a00, a01, a02, a10, a11, a12, a30, a31, a32))
      == 0.0
  {
    assert a30 * (Sign(2) * Det3Poly(a01, a02, a03, a11, a12, a13, a31, a32, a33))
      == a01 * a12 * a30 * a33 - a01 * a13 * a30 * a32 - a02 * a11 * a30 * a33
          + a02 * a13 * a30 * a31 + a03 * a11 * a30 * a32 - a03 * a12 * a30 * a31;
    assert a31 * (Sign(3) * Det3Poly(a00, a02, a03, a10, a12, a13, a30, a32, a33))
      == -(a00 * a12 * a31 * a33) + a00 * a13 * a31 * a32 + a02 * a10 * a31 * a33
          - a02 * a13 * a30 * a31 - a03 * a10 * a31 * a32 + a03 * a12 * a30 * a31;
    assert a32 * (Sign(4) * Det3Poly(a00, a01, a03, a10, a11, a13, a30, a31, a33))
      == a00 * a11 * a32 * a33 - a00 * a13 * a31 * a32 - a01 * a10 * a32 * a33
          + a01 * a13 * a30 * a32 + a03 * a10 * a31 * a32 - a03 * a11 * a30 * a32;
    assert a33 * (Sign(5) * Det3Poly(a00, a01, a02, a10, a11, a12, a30, a31, a32))
      == -(a00 * a11 * a32 * a33) + a00 * a12 * a31 * a33 + a01 * a10 * a32 * a33
          - a01 * a12 * a30 * a33 - a02 * a10 * a31 * a33 + a02 * a11 * a30 * a33;
  }

}
