/**
 * The adjugate identity for 4x4 matrices and what follows from it: the
 * transposed-adjugate inverse is a right inverse whenever the determinant
 * is non-zero, so multiplying by it undoes a multiplication.
 */
module Adjugate {
  import opened Tuples
  import opened Matrices
  import opened Polynomials

  /** The determinant polynomial of the entries of m. */
  function Det4(m: Matrix): real
    requires IsMat4(m)
  {
    Det4Poly(m[0][0], m[0][1], m[0][2], m[0][3], m[1][0], m[1][1], m[1][2], m[1][3], m[2][0], m[2][1], m[2][2], m[2][3], m[3][0], m[3][1], m[3][2], m[3][3])
  }

  /** Row i of m against the cofactors of row j. */
  function RowCofactorProduct(m: Matrix, i: nat, j: nat): real
    requires IsMat4(m) && i < 4 && j < 4
  {
    m[i][0] * Cofactor(m, j, 0) + m[i][1] * Cofactor(m, j, 1) + m[i][2] * Cofactor(m, j, 2) + m[i][3] * Cofactor(m, j, 3)
  }

  lemma ExpansionAlongRow0(m: Matrix)
    requires IsMat4(m)
    ensures RowCofactorProduct(m, 0, 0) == Det4(m)
  {
    CofactorClosed4(m, 0, 0);
    CofactorClosed4(m, 0, 1);
    CofactorClosed4(m, 0, 2);
    CofactorClosed4(m, 0, 3);
    LaplaceRowPoly0(m[0][0], m[0][1], m[0][2], m[0][3], m[1][0], m[1][1], m[1][2], m[1][3], m[2][0], m[2][1], m[2][2], m[2][3], m[3][0], m[3][1], m[3][2], m[3][3]);
  }

  lemma ExpansionAlongRow1(m: Matrix)
    requires IsMat4(m)
    ensures RowCofactorProduct(m, 1, 1) == Det4(m)
  {
    CofactorClosed4(m, 1, 0);
    CofactorClosed4(m, 1, 1);
    CofactorClosed4(m, 1, 2);
    CofactorClosed4(m, 1, 3);
    LaplaceRowPoly1(m[0][0], m[0][1], m[0][2], m[0][3], m[1][0], m[1][1], m[1][2], m[1][3], m[2][0], m[2][1], m[2][2], m[2][3], m[3][0], m[3][1], m[3][2], m[3][3]);
  }

  lemma ExpansionAlongRow2(m: Matrix)
    requires IsMat4(m)
    ensures RowCofactorProduct(m, 2, 2) == Det4(m)
  {
    CofactorClosed4(m, 2, 0);
    CofactorClosed4(m, 2, 1);
    CofactorClosed4(m, 2, 2);
    CofactorClosed4(m, 2, 3);
    LaplaceRowPoly2(m[0][0], m[0][1], m[0][2], m[0][3], m[1][0], m[1][1], m[1][2], m[1][3], m[2][0], m[2][1], m[2][2], m[2][3], m[3][0], m[3][1], m[3][2], m[3][3]);
  }

  lemma ExpansionAlongRow3(m: Matrix)
    requires IsMat4(m)
    ensures RowCofactorProduct(m, 3, 3) == Det4(m)
  {
    CofactorClosed4(m, 3, 0);
    CofactorClosed4(m, 3, 1);
    CofactorClosed4(m, 3, 2);
    CofactorClosed4(m, 3, 3);
    LaplaceRowPoly3(m[0][0], m[0][1], m[0][2], m[0][3], m[1][0], m[1][1], m[1][2], m[1][3], m[2][0], m[2][1], m[2][2], m[2][3], m[3][0], m[3][1], m[3][2], m[3][3]);
  }

  lemma AlienRow01(m: Matrix)
    requires IsMat4(m)
    ensures RowCofactorProduct(m, 0, 1) == 0.0
  {
    CofactorClosed4(m, 1, 0);
    CofactorClosed4(m, 1, 1);
    CofactorClosed4(m, 1, 2);
    CofactorClosed4(m, 1, 3);
    AlienRowPoly01(m[0][0], m[0][1], m[0][2], m[0][3], m[1][0], m[1][1], m[1][2], m[1][3], m[2][0], m[2][1], m[2][2], m[2][3], m[3][0], m[3][1], m[3][2], m[3][3]);
  }

  lemma AlienRow02(m: Matrix)
    requires IsMat4(m)
    ensures RowCofactorProduct(m, 0, 2) == 0.0
  {
    CofactorClosed4(m, 2, 0);
    CofactorClosed4(m, 2, 1);
    CofactorClosed4(m, 2, 2);
    CofactorClosed4(m, 2, 3);
    AlienRowPoly02(m[0][0], m[0][1], m[0][2], m[0][3], m[1][0], m[1][1], m[1][2], m[1][3], m[2][0], m[2][1], m[2][2], m[2][3], m[3][0], m[3][1], m[3][2], m[3][3]);
  }

  lemma AlienRow03(m: Matrix)
    requires IsMat4(m)
    ensures RowCofactorProduct(m, 0, 3) == 0.0
  {
    CofactorClosed4(m, 3, 0);
    CofactorClosed4(m, 3, 1);
    CofactorClosed4(m, 3, 2);
    CofactorClosed4(m, 3, 3);
    AlienRowPoly03(m[0][0], m[0][1], m[0][2], m[0][3], m[1][0], m[1][1], m[1][2], m[1][3], m[2][0], m[2][1], m[2][2], m[2][3], m[3][0], m[3][1], m[3][2], m[3][3]);
  }

  lemma AlienRow10(m: Matrix)
    requires IsMat4(m)
    ensures RowCofactorProduct(m, 1, 0) == 0.0
  {
    CofactorClosed4(m, 0, 0);
    CofactorClosed4(m, 0, 1);
    CofactorClosed4(m, 0, 2);
    CofactorClosed4(m, 0, 3);
    AlienRowPoly10(m[0][0], m[0][1], m[0][2], m[0][3], m[1][0], m[1][1], m[1][2], m[1][3], m[2][0], m[2][1], m[2][2], m[2][3], m[3][0], m[3][1], m[3][2], m[3][3]);
  }

  lemma AlienRow12(m: Matrix)
    requires IsMat4(m)
    ensures RowCofactorProduct(m, 1, 2) == 0.0
  {
    CofactorClosed4(m, 2, 0);
    CofactorClosed4(m, 2, 1);
    CofactorClosed4(m, 2, 2);
    CofactorClosed4(m, 2, 3);
    AlienRowPoly12(m[0][0], m[0][1], m[0][2], m[0][3], m[1][0], m[1][1], m[1][2], m[1][3], m[2][0], m[2][1], m[2][2], m[2][3], m[3][0], m[3][1], m[3][2], m[3][3]);
  }

  lemma AlienRow13(m: Matrix)
    requires IsMat4(m)
    ensures RowCofactorProduct(m, 1, 3) == 0.0
  {
    CofactorClosed4(m, 3, 0);
    CofactorClosed4(m, 3, 1);
    CofactorClosed4(m, 3, 2);
    CofactorClosed4(m, 3, 3);
    AlienRowPoly13(m[0][0], m[0][1], m[0][2], m[0][3], m[1][0], m[1][1], m[1][2], m[1][3], m[2][0], m[2][1], m[2][2], m[2][3], m[3][0], m[3][1], m[3][2], m[3][3]);
  }

  lemma AlienRow20(m: Matrix)
    requires IsMat4(m)
    ensures RowCofactorProduct(m, 2, 0) == 0.0
  {
    CofactorClosed4(m, 0, 0);
    CofactorClosed4(m, 0, 1);
    CofactorClosed4(m, 0, 2);
    CofactorClosed4(m, 0, 3);
    AlienRowPoly20(m[0][0], m[0][1], m[0][2], m[0][3], m[1][0], m[1][1], m[1][2], m[1][3], m[2][0], m[2][1], m[2][2], m[2][3], m[3][0], m[3][1], m[3][2], m[3][3]);
  }

  lemma AlienRow21(m: Matrix)
    requires IsMat4(m)
    ensures RowCofactorProduct(m, 2, 1) == 0.0
  {
    CofactorClosed4(m, 1, 0);
    CofactorClosed4(m, 1, 1);
    CofactorClosed4(m, 1, 2);
    CofactorClosed4(m, 1, 3);
    AlienRowPoly21(m[0][0], m[0][1], m[0][2], m[0][3], m[1][0], m[1][1], m[1][2], m[1][3], m[2][0], m[2][1], m[2][2], m[2][3], m[3][0], m[3][1], m[3][2], m[3][3]);
  }

  lemma AlienRow23(m: Matrix)
    requires IsMat4(m)
    ensures RowCofactorProduct(m, 2, 3) == 0.0
  {
    CofactorClosed4(m, 3, 0);
    CofactorClosed4(m, 3, 1);
    CofactorClosed4(m, 3, 2);
    CofactorClosed4(m, 3, 3);
    AlienRowPoly23(m[0][0], m[0][1], m[0][2], m[0][3], m[1][0], m[1][1], m[1][2], m[1][3], m[2][0], m[2][1], m[2][2], m[2][3], m[3][0], m[3][1], m[3][2], m[3][3]);
  }

  lemma AlienRow30(m: Matrix)
    requires IsMat4(m)
    ensures RowCofactorProduct(m, 3, 0) == 0.0
  {
    CofactorClosed4(m, 0, 0);
    CofactorClosed4(m, 0, 1);
    CofactorClosed4(m, 0, 2);
    CofactorClosed4(m, 0, 3);
    AlienRowPoly30(m[0][0], m[0][1], m[0][2], m[0][3], m[1][0], m[1][1], m[1][2], m[1][3], m[2][0], m[2][1], m[2][2], m[2][3], m[3][0], m[3][1], m[3][2], m[3][3]);
  }

  lemma AlienRow31(m: Matrix)
    requires IsMat4(m)
    ensures RowCofactorProduct(m, 3, 1) == 0.0
  {
    CofactorClosed4(m, 1, 0);
    CofactorClosed4(m, 1, 1);
    CofactorClosed4(m, 1, 2);
    CofactorClosed4(m, 1, 3);
    AlienRowPoly31(m[0][0], m[0][1], m[0][2], m[0][3], m[1][0], m[1][1], m[1][2], m[1][3], m[2][0], m[2][1], m[2][2], m[2][3], m[3][0], m[3][1], m[3][2], m[3][3]);
  }

  lemma AlienRow32(m: Matrix)
    requires IsMat4(m)
    ensures RowCofactorProduct(m, 3, 2) == 0.0
  {
    CofactorClosed4(m, 2, 0);
    CofactorClosed4(m, 2, 1);
    CofactorClosed4(m, 2, 2);
    CofactorClosed4(m, 2, 3);
    AlienRowPoly32(m[0][0], m[0][1], m[0][2], m[0][3], m[1][0], m[1][1], m[1][2], m[1][3], m[2][0], m[2][1], m[2][2], m[2][3], m[3][0], m[3][1], m[3][2], m[3][3]);
  }

  /**
   * Expanding along any row gives the determinant, and a row against the
   * cofactors of another row gives zero (the expansion of a matrix with two
   * equal rows).
   */
  lemma RowTimesCofactors(m: Matrix, i: nat, j: nat)
    requires IsMat4(m) && i < 4 && j < 4
    ensures RowCofactorProduct(m, i, j) == if i == j then Det(m) else 0.0
  {
    if i == j {
      Det4Closed(m);
      ExpansionAlongRow0(m);
      if j == 0 {
        ExpansionAlongRow0(m);
      } else if j == 1 {
        ExpansionAlongRow1(m);
      } else if j == 2 {
        ExpansionAlongRow2(m);
      } else if j == 3 {
        ExpansionAlongRow3(m);
      }
    } else {
      if i == 0 && j == 1 {
        AlienRow01(m);
      } else if i == 0 && j == 2 {
        AlienRow02(m);
      } else if i == 0 && j == 3 {
        AlienRow03(m);
      } else if i == 1 && j == 0 {
        AlienRow10(m);
      } else if i == 1 && j == 2 {
        AlienRow12(m);
      } else if i == 1 && j == 3 {
        AlienRow13(m);
      } else if i == 2 && j == 0 {
        AlienRow20(m);
      } else if i == 2 && j == 1 {
        AlienRow21(m);
      } else if i == 2 && j == 3 {
        AlienRow23(m);
      } else if i == 3 && j == 0 {
        AlienRow30(m);
      } else if i == 3 && j == 1 {
        AlienRow31(m);
      } else {
        AlienRow32(m);
      }
    }
  }

  /** Dividing every second factor of a four-term product by d divides the sum by d. */
  lemma SumOfQuotients(a0: real, a1: real, a2: real, a3: real, x0: real, x1: real, x2: real, x3: real, d: real)
    requires d != 0.0
    ensures a0 * (x0 / d) + a1 * (x1 / d) + a2 * (x2 / d) + a3 * (x3 / d) == (a0 * x0 + a1 * x1 + a2 * x2 + a3 * x3) / d
  {
    assert a0 * (x0 / d) == (a0 * x0) / d;
    assert a1 * (x1 / d) == (a1 * x1) / d;
    assert a2 * (x2 / d) == (a2 * x2) / d;
    assert a3 * (x3 / d) == (a3 * x3) / d;
  }

  lemma Quotients(d: real)
    requires d != 0.0
    ensures d / d == 1.0 && 0.0 / d == 0.0
  {
  }

  /** Column c of the inverse holds the cofactors of row c, divided by the determinant. */
  lemma InverseColumn(m: Matrix, c: nat)
    requires IsMat4(m) && Det(m) != 0.0 && c < 4
    ensures ColumnTuple(Inverse(m), c)
         == Tuple(Cofactor(m, c, 0) / Det(m), Cofactor(m, c, 1) / Det(m), Cofactor(m, c, 2) / Det(m), Cofactor(m, c, 3) / Det(m))
  {
  }

  /** Entry (r, c) of a product is row r of the left factor against column c of the right one. */
  lemma ProductEntry(a: Matrix, b: Matrix, r: nat, c: nat, col: Tuple)
    requires IsMat4(a) && IsMat4(b) && r < 4 && c < 4 && ColumnTuple(b, c) == col
    ensures Mul(a, b)[r][c] == Dot4(RowTuple(a, r), col)
  {
  }

  /** Entry (r, c) of M times its inverse is 1 on the diagonal and 0 elsewhere. */
  lemma MulInverseEntry(m: Matrix, r: nat, c: nat)
    requires IsMat4(m) && Det(m) != 0.0 && r < 4 && c < 4
    ensures Mul(m, Inverse(m))[r][c] == if r == c then 1.0 else 0.0
  {
    var d := Det(m);
    var c0, c1, c2, c3 := Cofactor(m, c, 0), Cofactor(m, c, 1), Cofactor(m, c, 2), Cofactor(m, c, 3);
    InverseColumn(m, c);
    ProductEntry(m, Inverse(m), r, c, Tuple(c0 / d, c1 / d, c2 / d, c3 / d));
    assert Mul(m, Inverse(m))[r][c] == m[r][0] * (c0 / d) + m[r][1] * (c1 / d) + m[r][2] * (c2 / d) + m[r][3] * (c3 / d);
    SumOfQuotients(m[r][0], m[r][1], m[r][2], m[r][3], c0, c1, c2, c3, d);
    assert Mul(m, Inverse(m))[r][c] == RowCofactorProduct(m, r, c) / d;
    RowTimesCofactors(m, r, c);
    Quotients(d);
  }

  /** M times its inverse is the identity whenever det(M) != 0. */
  lemma MulInverse(m: Matrix)
    requires IsMat4(m) && Det(m) != 0.0
    ensures Mul(m, Inverse(m)) == Identity()
  {
    var p := Mul(m, Inverse(m));
    forall r, c | 0 <= r < 4 && 0 <= c < 4
      ensures p[r][c] == if r == c then 1.0 else 0.0
    {
      MulInverseEntry(m, r, c);
    }
    IdentityExt(p);
  }

  /** Multiplying by B and then by the inverse of B gives A back: (A * B) * inverse(B) == A. */
  lemma InverseCancels(a: Matrix, b: Matrix)
    requires IsMat4(a) && IsMat4(b) && Det(b) != 0.0
    ensures Mul(Mul(a, b), Inverse(b)) == a
  {
    MulAssoc(a, b, Inverse(b));
    MulInverse(b);
    MulIdentity(a, Zero);
  }
}
