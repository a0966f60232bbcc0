/**
 * Square matrices of reals (2x2, 3x3 and 4x4) stored row by row.
 *
 * The determinant is the cofactor expansion along row 0, bottoming out in
 * the 2x2 formula; the inverse is the transposed adjugate divided by the
 * determinant. Multiplication is written with the inner index fixed to
 * 0..3, so it is only defined here for 4x4 operands.
 */
module Matrices {
  import opened Tuples
  import opened Util
  import opened Polynomials

  type Matrix = seq<seq<real>>

  predicate IsSquare(m: Matrix, n: nat)
  {
    |m| == n && forall r | 0 <= r < n :: |m[r]| == n
  }

  /** Sizes that have a determinant: 2, 3 and 4. */
  predicate HasDet(m: Matrix)
  {
    2 <= |m| <= 4 && IsSquare(m, |m|)
  }

  /** Sizes that have submatrices, minors, cofactors and an inverse: 3 and 4. */
  predicate HasCofactors(m: Matrix)
  {
    3 <= |m| <= 4 && IsSquare(m, |m|)
  }

  predicate IsMat4(m: Matrix) { IsSquare(m, 4) }

  // ------------------------------------------------------------ constructors

  function New2(d: seq<real>): (m: Matrix)
    requires |d| == 4
    ensures IsSquare(m, 2)
  {
    [[d[0], d[1]], [d[2], d[3]]]
  }

  function New3(d: seq<real>): (m: Matrix)
    requires |d| == 9
    ensures IsSquare(m, 3)
  {
    [[d[0], d[1], d[2]], [d[3], d[4], d[5]], [d[6], d[7], d[8]]]
  }

  function New4(d: seq<real>): (m: Matrix)
    requires |d| == 16
    ensures IsSquare(m, 4)
  {
    [[d[0], d[1], d[2], d[3]], [d[4], d[5], d[6], d[7]],
     [d[8], d[9], d[10], d[11]], [d[12], d[13], d[14], d[15]]]
  }

  function Identity(): (m: Matrix)
    ensures IsMat4(m)
  {
    New4([1.0, 0.0, 0.0, 0.0, 0.0, 1.0, 0.0, 0.0, 0.0, 0.0, 1.0, 0.0, 0.0, 0.0, 0.0, 1.0])
  }

  /** `Default`: the zero matrix. */
  function Zero4(): (m: Matrix)
    ensures IsMat4(m)
  {
    New4([0.0, 0.0, 0.0, 0.0, 0.0, 0.0, 0.0, 0.0, 0.0, 0.0, 0.0, 0.0, 0.0, 0.0, 0.0, 0.0])
  }

  // ------------------------------------------------- determinant machinery

  function Det2(m: Matrix): real
    requires IsSquare(m, 2)
  {
    m[0][0] * m[1][1] - m[1][0] * m[0][1]
  }

  /** Index `i` of the smaller matrix, read in the larger one with line `k` removed. */
  function Skip(i: nat, k: nat): nat
  {
    if i < k then i else i + 1
  }

  /** The matrix with row `row` and column `col` removed, other entries kept in order. */
  function Submatrix(m: Matrix, row: nat, col: nat): (s: Matrix)
    requires HasCofactors(m) && row < |m| && col < |m|
    ensures IsSquare(s, |m| - 1)
  {
    seq(|m| - 1, i requires 0 <= i < |m| - 1 =>
      seq(|m| - 1, j requires 0 <= j < |m| - 1 => m[Skip(i, row)][Skip(j, col)]))
  }

  function Det(m: Matrix): real
    requires HasDet(m)
    decreases |m|, 3, 0
  {
    if |m| == 2 then Det2(m) else ExpandRow0(m, |m|)
  }

  /** The left fold `acc + m[0][c] * cofactor(0, c)` over the first `k` columns. */
  function ExpandRow0(m: Matrix, k: nat): real
    requires HasCofactors(m) && k <= |m|
    decreases |m|, 2, k
  {
    if k == 0 then 0.0 else ExpandRow0(m, k - 1) + m[0][k - 1] * Cofactor(m, 0, k - 1)
  }

  function Minor(m: Matrix, row: nat, col: nat): real
    requires HasCofactors(m) && row < |m| && col < |m|
    decreases |m|, 0, 0
  {
    Det(Submatrix(m, row, col))
  }

  /** The minor, negated when the low bit of row + col is set. */
  function Cofactor(m: Matrix, row: nat, col: nat): real
    requires HasCofactors(m) && row < |m| && col < |m|
    decreases |m|, 1, 0
  {
    Minor(m, row, col) * Sign(row + col)
  }

  /** The transposed adjugate divided by the determinant. */
  function Inverse(m: Matrix): (inv: Matrix)
    requires HasCofactors(m) && Det(m) != 0.0
    ensures IsSquare(inv, |m|)
  {
    seq(|m|, i requires 0 <= i < |m| =>
      seq(|m|, j requires 0 <= j < |m| => Cofactor(m, j, i) / Det(m)))
  }

  // -------------------------------------------------- 4x4 algebra

  function Transpose(m: Matrix): (t: Matrix)
    requires IsMat4(m)
    ensures IsMat4(t)
  {
    seq(4, r requires 0 <= r < 4 => seq(4, c requires 0 <= c < 4 => m[c][r]))
  }

  /** `Tuple::from(data[row])`. */
  function RowTuple(m: Matrix, r: nat): Tuple
    requires IsMat4(m) && r < 4
  {
    Tuple(m[r][0], m[r][1], m[r][2], m[r][3])
  }

  /** Column c of a 4x4 matrix as a tuple. */
  function ColumnTuple(m: Matrix, c: nat): Tuple
    requires IsMat4(m) && c < 4
  {
    Tuple(m[0][c], m[1][c], m[2][c], m[3][c])
  }

  /**
   * Entry (r, c) of the product: the four-term sum of row r of `a` against
   * column c of `b`, inner indices 0..3 as in the source.
   */
  function MulEntry(a: Matrix, b: Matrix, r: nat, c: nat): real
    requires IsMat4(a) && IsMat4(b) && r < 4 && c < 4
  {
    Dot4(RowTuple(a, r), ColumnTuple(b, c))
  }

  function Mul(a: Matrix, b: Matrix): (p: Matrix)
    requires IsMat4(a) && IsMat4(b)
    ensures IsMat4(p)
  {
    seq(4, r requires 0 <= r < 4 => seq(4, c requires 0 <= c < 4 => MulEntry(a, b, r, c)))
  }

  /** `Mul<Tuple>`: each component is the four-term product of a row with the tuple. */
  function MulTuple(m: Matrix, t: Tuple): Tuple
    requires IsMat4(m)
  {
    Tuple(Dot4(RowTuple(m, 0), t), Dot4(RowTuple(m, 1), t), Dot4(RowTuple(m, 2), t), Dot4(RowTuple(m, 3), t))
  }

  /** `PartialEq`: every pair of entries is FltEq. */
  predicate ApproxEq(a: Matrix, b: Matrix)
    requires IsMat4(a) && IsMat4(b)
  {
    forall r, c | 0 <= r < 4 && 0 <= c < 4 :: FltEq(a[r][c], b[r][c])
  }

  // ------------------------------------------------ submatrix and cofactors

  /** The index in the smaller matrix of line `x` of the larger one (x != k). */
  function Unskip(x: nat, k: nat): nat
    requires x != k
  {
    if x < k then x else x - 1
  }

  /**
   * Skip enumerates, in increasing order, exactly the indices below n other
   * than k: it never hits k, is strictly increasing, and every other index
   * is reached (from Unskip).
   */
  lemma SkipEnumeratesOthers(k: nat, n: nat)
    requires k < n
    ensures forall i: nat | i < n - 1 :: Skip(i, k) < n && Skip(i, k) != k
    ensures forall i: nat, j: nat | i < j < n - 1 :: Skip(i, k) < Skip(j, k)
    ensures forall x: nat | x < n && x != k :: Unskip(x, k) < n - 1 && Skip(Unskip(x, k), k) == x
  {
  }

  /** Entry (i, j) of a submatrix is the entry of the original at the skipped-over indices. */
  lemma SubmatrixEntry(m: Matrix, row: nat, col: nat, i: nat, j: nat)
    requires HasCofactors(m) && row < |m| && col < |m| && i < |m| - 1 && j < |m| - 1
    ensures Submatrix(m, row, col)[i][j] == m[Skip(i, row)][Skip(j, col)]
  {
  }

  lemma SubmatrixExamples()
    ensures Submatrix(New3([1.0, 5.0, 0.0, -3.0, 2.0, 7.0, 0.0, 6.0, -3.0]), 0, 2)
         == New2([-3.0, 2.0, 0.0, 6.0])
    ensures Submatrix(New4([-6.0, 1.0, 1.0, 6.0, -8.0, 5.0, 8.0, 6.0, -1.0, 0.0, 8.0, 2.0, -7.0, 1.0, -1.0, 1.0]), 2, 1)
         == New3([-6.0, 1.0, 6.0, -8.0, 8.0, 6.0, -7.0, -1.0, 1.0])
  {
    var a := New3([1.0, 5.0, 0.0, -3.0, 2.0, 7.0, 0.0, 6.0, -3.0]);
    var sa := Submatrix(a, 0, 2);
    assert sa[0] == [-3.0, 2.0] && sa[1] == [0.0, 6.0];
    var b := New4([-6.0, 1.0, 1.0, 6.0, -8.0, 5.0, 8.0, 6.0, -1.0, 0.0, 8.0, 2.0, -7.0, 1.0, -1.0, 1.0]);
    var sb := Submatrix(b, 2, 1);
    assert sb[0] == [-6.0, 1.0, 6.0] && sb[1] == [-8.0, 8.0, 6.0] && sb[2] == [-7.0, -1.0, 1.0];
  }

  /** A cofactor is the minor when row + col is even and its negation when odd. */
  lemma CofactorSign(m: Matrix, row: nat, col: nat)
    requires HasCofactors(m) && row < |m| && col < |m|
    ensures (row + col) % 2 == 0 ==> Cofactor(m, row, col) == Minor(m, row, col)
    ensures (row + col) % 2 == 1 ==> Cofactor(m, row, col) == -Minor(m, row, col)
  {
  }

  // ------------------------------------------------------- determinants

  lemma Det2Example()
    ensures Det(New2([1.0, 5.0, -3.0, 2.0])) == 17.0
  {
  }

  /** Cofactor (0, c) of a 3x3 matrix, as the 2x2 determinant of the remaining entries. */
  lemma Cofactor3Row0(m: Matrix, c: nat)
    requires IsSquare(m, 3) && c < 3
    ensures var c0, c1 := Skip(0, c), Skip(1, c);
      Cofactor(m, 0, c) == Sign(c) * (m[1][c0] * m[2][c1] - m[2][c0] * m[1][c1])
  {
    var s := Submatrix(m, 0, c);
    SubmatrixEntry(m, 0, c, 0, 0);
    SubmatrixEntry(m, 0, c, 0, 1);
    SubmatrixEntry(m, 0, c, 1, 0);
    SubmatrixEntry(m, 0, c, 1, 1);
    assert Det(s) == s[0][0] * s[1][1] - s[1][0] * s[0][1];
  }

  /** The 3x3 determinant is the first-row cofactor expansion of the 2x2 minors. */
  lemma Det3Closed(m: Matrix)
    requires IsSquare(m, 3)
    ensures Det(m) == Det3Poly(m[0][0], m[0][1], m[0][2], m[1][0], m[1][1], m[1][2], m[2][0], m[2][1], m[2][2])
  {
    Cofactor3Row0(m, 0);
    Cofactor3Row0(m, 1);
    Cofactor3Row0(m, 2);
    assert ExpandRow0(m, 1) == m[0][0] * Cofactor(m, 0, 0);
    assert ExpandRow0(m, 2) == ExpandRow0(m, 1) + m[0][1] * Cofactor(m, 0, 1);
    assert ExpandRow0(m, 3) == ExpandRow0(m, 2) + m[0][2] * Cofactor(m, 0, 2);
  }

  /** A 4x4 cofactor is the signed 3x3 determinant of the entries off its row and column. */
  lemma CofactorClosed4(m: Matrix, r: nat, c: nat)
    requires IsMat4(m) && r < 4 && c < 4
    ensures Cofactor(m, r, c) == Sign(r + c) * Det3Poly(
      m[Skip(0, r)][Skip(0, c)], m[Skip(0, r)][Skip(1, c)], m[Skip(0, r)][Skip(2, c)],
      m[Skip(1, r)][Skip(0, c)], m[Skip(1, r)][Skip(1, c)], m[Skip(1, r)][Skip(2, c)],
      m[Skip(2, r)][Skip(0, c)], m[Skip(2, r)][Skip(1, c)], m[Skip(2, r)][Skip(2, c)])
  {
    var s := Submatrix(m, r, c);
    forall i: nat, j: nat | i < 3 && j < 3
      ensures s[i][j] == m[Skip(i, r)][Skip(j, c)]
    {
      SubmatrixEntry(m, r, c, i, j);
    }
    Det3Closed(s);
  }

  /** The 4x4 determinant is the first-row expansion over all four columns. */
  lemma Det4Closed(m: Matrix)
    requires IsMat4(m)
    ensures Det(m) == m[0][0] * Cofactor(m, 0, 0) + m[0][1] * Cofactor(m, 0, 1)
                    + m[0][2] * Cofactor(m, 0, 2) + m[0][3] * Cofactor(m, 0, 3)
  {
    assert ExpandRow0(m, 1) == m[0][0] * Cofactor(m, 0, 0);
    assert ExpandRow0(m, 2) == ExpandRow0(m, 1) + m[0][1] * Cofactor(m, 0, 1);
    assert ExpandRow0(m, 3) == ExpandRow0(m, 2) + m[0][2] * Cofactor(m, 0, 2);
    assert ExpandRow0(m, 4) == ExpandRow0(m, 3) + m[0][3] * Cofactor(m, 0, 3);
  }

  // ------------------------------------------------------ worked examples

  lemma MinorCofactor3Example()
    ensures Minor(New3([3.0, 5.0, 0.0, 2.0, -1.0, -7.0, 6.0, -1.0, 5.0]), 1, 0) == 25.0
    ensures Cofactor(New3([3.0, 5.0, 0.0, 2.0, -1.0, -7.0, 6.0, -1.0, 5.0]), 1, 0) == -25.0
  {
    var m := New3([3.0, 5.0, 0.0, 2.0, -1.0, -7.0, 6.0, -1.0, 5.0]);
    assert m[0] == [3.0, 5.0, 0.0] && m[2] == [6.0, -1.0, 5.0];
    var s := Submatrix(m, 1, 0);
    assert s[0] == [5.0, 0.0] && s[1] == [-1.0, 5.0];
    assert Det(s) == 5.0 * 5.0 - (-1.0) * 0.0;
  }

  lemma Det3Example()
    ensures var m := New3([1.0, 2.0, 6.0, -5.0, 8.0, -4.0, 2.0, 6.0, 4.0]);
      Cofactor(m, 0, 0) == 56.0 && Cofactor(m, 0, 1) == 12.0 && Cofactor(m, 0, 2) == -46.0
      && Det(m) == -196.0
  {
    var m := New3([1.0, 2.0, 6.0, -5.0, 8.0, -4.0, 2.0, 6.0, 4.0]);
    assert m[0] == [1.0, 2.0, 6.0] && m[1] == [-5.0, 8.0, -4.0] && m[2] == [2.0, 6.0, 4.0];
    Cofactor3Row0(m, 0);
    Cofactor3Row0(m, 1);
    Cofactor3Row0(m, 2);
    assert Cofactor(m, 0, 0) == 8.0 * 4.0 - 6.0 * (-4.0);
    assert Cofactor(m, 0, 1) == -1.0 * ((-5.0) * 4.0 - 2.0 * (-4.0));
    assert Cofactor(m, 0, 2) == (-5.0) * 6.0 - 2.0 * 8.0;
    assert ExpandRow0(m, 3) == 1.0 * 56.0 + 2.0 * 12.0 + 6.0 * -46.0;
  }

  /** The first-row cofactors of the 4x4 test matrix. */
  lemma Det4ExampleCofactors(m: Matrix)
    requires m == New4([-2.0, -8.0, 3.0, 5.0, -3.0, 1.0, 7.0, 3.0, 1.0, 2.0, -9.0, 6.0, -6.0, 7.0, 7.0, -9.0])
    ensures Cofactor(m, 0, 0) == 690.0 && Cofactor(m, 0, 1) == 447.0
    ensures Cofactor(m, 0, 2) == 210.0 && Cofactor(m, 0, 3) == 51.0
  {
    assert m[1] == [-3.0, 1.0, 7.0, 3.0] && m[2] == [1.0, 2.0, -9.0, 6.0] && m[3] == [-6.0, 7.0, 7.0, -9.0];
    CofactorClosed4(m, 0, 0);
    CofactorClosed4(m, 0, 1);
    CofactorClosed4(m, 0, 2);
    CofactorClosed4(m, 0, 3);
  }

  lemma Det4Example()
    ensures Det(New4([-2.0, -8.0, 3.0, 5.0, -3.0, 1.0, 7.0, 3.0, 1.0, 2.0, -9.0, 6.0, -6.0, 7.0, 7.0, -9.0])) == -4071.0
  {
    var m := New4([-2.0, -8.0, 3.0, 5.0, -3.0, 1.0, 7.0, 3.0, 1.0, 2.0, -9.0, 6.0, -6.0, 7.0, 7.0, -9.0]);
    assert m[0] == [-2.0, -8.0, 3.0, 5.0];
    Det4ExampleCofactors(m);
    Det4Closed(m);
  }

  // ------------------------------------------------------- 4x4 algebra

  /** Two 4x4 matrices with the same entries are equal. */
  lemma Mat4Ext(x: Matrix, y: Matrix)
    requires IsMat4(x) && IsMat4(y)
    requires forall r, c | 0 <= r < 4 && 0 <= c < 4 :: x[r][c] == y[r][c]
    ensures x == y
  {
    forall r | 0 <= r < 4
      ensures x[r] == y[r]
    {
    }
  }

  /** A 4x4 matrix with ones on the diagonal and zeros elsewhere is the identity. */
  lemma IdentityExt(x: Matrix)
    requires IsMat4(x)
    requires forall r, c | 0 <= r < 4 && 0 <= c < 4 :: x[r][c] == if r == c then 1.0 else 0.0
    ensures x == Identity()
  {
    var id := Identity();
    assert id[0] == [1.0, 0.0, 0.0, 0.0] && id[1] == [0.0, 1.0, 0.0, 0.0];
    assert id[2] == [0.0, 0.0, 1.0, 0.0] && id[3] == [0.0, 0.0, 0.0, 1.0];
    Mat4Ext(x, id);
  }

  /** Transposing twice gives the matrix back. */
  lemma TransposeInvolution(m: Matrix)
    requires IsMat4(m)
    ensures Transpose(Transpose(m)) == m
  {
    Mat4Ext(Transpose(Transpose(m)), m);
  }

  /** The identity is symmetric, and the transpose of the test matrix. */
  lemma TransposeExamples()
    ensures Transpose(Identity()) == Identity()
    ensures Transpose(New4([0.0, 9.0, 3.0, 0.0, 9.0, 8.0, 0.0, 8.0, 1.0, 8.0, 5.0, 3.0, 0.0, 0.0, 5.0, 8.0]))
         == New4([0.0, 9.0, 1.0, 0.0, 9.0, 8.0, 8.0, 0.0, 3.0, 0.0, 5.0, 5.0, 0.0, 8.0, 3.0, 8.0])
  {
    Mat4Ext(Transpose(Identity()), Identity());
    var a := New4([0.0, 9.0, 3.0, 0.0, 9.0, 8.0, 0.0, 8.0, 1.0, 8.0, 5.0, 3.0, 0.0, 0.0, 5.0, 8.0]);
    Mat4Ext(Transpose(a), New4([0.0, 9.0, 1.0, 0.0, 9.0, 8.0, 8.0, 0.0, 3.0, 0.0, 5.0, 5.0, 0.0, 8.0, 3.0, 8.0]));
  }

  /** The identity is a two-sided unit of the product, and leaves every tuple unchanged. */
  lemma MulIdentity(a: Matrix, t: Tuple)
    requires IsMat4(a)
    ensures Mul(a, Identity()) == a
    ensures Mul(Identity(), a) == a
    ensures MulTuple(Identity(), t) == t
  {
    var id := Identity();
    assert id[0] == [1.0, 0.0, 0.0, 0.0] && id[1] == [0.0, 1.0, 0.0, 0.0];
    assert id[2] == [0.0, 0.0, 1.0, 0.0] && id[3] == [0.0, 0.0, 0.0, 1.0];
    Mat4Ext(Mul(a, id), a);
    Mat4Ext(Mul(id, a), a);
  }

  /** x times the block with rows b0..b3: the combination of the rows weighted by x. */
  function RowCombination(x: Tuple, b0: Tuple, b1: Tuple, b2: Tuple, b3: Tuple): Tuple
  {
    Add(Add(Scale(b0, x.x), Scale(b1, x.y)), Add(Scale(b2, x.z), Scale(b3, x.w)))
  }

  /** The products of x with the columns of a block are the weighted sum of its rows. */
  lemma ColumnsAreRowCombination(x: Tuple, b0: Tuple, b1: Tuple, b2: Tuple, b3: Tuple)
    ensures Tuple(Dot4(x, Tuple(b0.x, b1.x, b2.x, b3.x)), Dot4(x, Tuple(b0.y, b1.y, b2.y, b3.y)),
                  Dot4(x, Tuple(b0.z, b1.z, b2.z, b3.z)), Dot4(x, Tuple(b0.w, b1.w, b2.w, b3.w)))
         == RowCombination(x, b0, b1, b2, b3)
  {
  }

  /**
   * A row x, a block with rows b0..b3 and a column t multiply to the same
   * value whichever pair is multiplied first.
   */
  lemma RegroupTripleProduct(x: Tuple, b0: Tuple, b1: Tuple, b2: Tuple, b3: Tuple, t: Tuple)
    ensures Dot4(Tuple(Dot4(x, Tuple(b0.x, b1.x, b2.x, b3.x)), Dot4(x, Tuple(b0.y, b1.y, b2.y, b3.y)),
                       Dot4(x, Tuple(b0.z, b1.z, b2.z, b3.z)), Dot4(x, Tuple(b0.w, b1.w, b2.w, b3.w))), t)
         == Dot4(x, Tuple(Dot4(b0, t), Dot4(b1, t), Dot4(b2, t), Dot4(b3, t)))
  {
    ColumnsAreRowCombination(x, b0, b1, b2, b3);
    DotLinear(Add(Scale(b0, x.x), Scale(b1, x.y)), Add(Scale(b2, x.z), Scale(b3, x.w)), t, 1.0);
    DotLinear(Scale(b0, x.x), Scale(b1, x.y), t, 1.0);
    DotLinear(Scale(b2, x.z), Scale(b3, x.w), t, 1.0);
    DotLinear(b0, b0, t, x.x);
    DotLinear(b1, b1, t, x.y);
    DotLinear(b2, b2, t, x.z);
    DotLinear(b3, b3, t, x.w);
  }

  /** One entry of a triple product is the same in either grouping. */
  lemma MulAssocEntry(a: Matrix, b: Matrix, c: Matrix, r: nat, col: nat)
    requires IsMat4(a) && IsMat4(b) && IsMat4(c) && r < 4 && col < 4
    ensures Mul(Mul(a, b), c)[r][col] == Mul(a, Mul(b, c))[r][col]
  {
    RegroupTripleProduct(RowTuple(a, r), RowTuple(b, 0), RowTuple(b, 1), RowTuple(b, 2), RowTuple(b, 3), ColumnTuple(c, col));
  }

  /** Matrix product is associative. */
  lemma MulAssoc(a: Matrix, b: Matrix, c: Matrix)
    requires IsMat4(a) && IsMat4(b) && IsMat4(c)
    ensures Mul(Mul(a, b), c) == Mul(a, Mul(b, c))
  {
    forall r, col | 0 <= r < 4 && 0 <= col < 4
      ensures Mul(Mul(a, b), c)[r][col] == Mul(a, Mul(b, c))[r][col]
    {
      MulAssocEntry(a, b, c, r, col);
    }
    Mat4Ext(Mul(Mul(a, b), c), Mul(a, Mul(b, c)));
  }

  /** Component r of a product applied to a tuple is the same in either grouping. */
  lemma MulTupleAssocRow(a: Matrix, b: Matrix, t: Tuple, r: nat)
    requires IsMat4(a) && IsMat4(b) && r < 4
    ensures Dot4(RowTuple(Mul(a, b), r), t) == Dot4(RowTuple(a, r), MulTuple(b, t))
  {
    RegroupTripleProduct(RowTuple(a, r), RowTuple(b, 0), RowTuple(b, 1), RowTuple(b, 2), RowTuple(b, 3), t);
  }

  /** Applying a product to a tuple applies the right factor first, then the left. */
  lemma MulTupleAssoc(a: Matrix, b: Matrix, t: Tuple)
    requires IsMat4(a) && IsMat4(b)
    ensures MulTuple(Mul(a, b), t) == MulTuple(a, MulTuple(b, t))
  {
    MulTupleAssocRow(a, b, t, 0);
    MulTupleAssocRow(a, b, t, 1);
    MulTupleAssocRow(a, b, t, 2);
    MulTupleAssocRow(a, b, t, 3);
  }

  /** The four products against a sum or a multiple, row by row. */
  lemma RowsLinear(r0: Tuple, r1: Tuple, r2: Tuple, r3: Tuple, u: Tuple, v: Tuple, s: real)
    ensures Tuple(Dot4(r0, Add(u, v)), Dot4(r1, Add(u, v)), Dot4(r2, Add(u, v)), Dot4(r3, Add(u, v)))
         == Add(Tuple(Dot4(r0, u), Dot4(r1, u), Dot4(r2, u), Dot4(r3, u)), Tuple(Dot4(r0, v), Dot4(r1, v), Dot4(r2, v), Dot4(r3, v)))
    ensures Tuple(Dot4(r0, Scale(u, s)), Dot4(r1, Scale(u, s)), Dot4(r2, Scale(u, s)), Dot4(r3, Scale(u, s)))
         == Scale(Tuple(Dot4(r0, u), Dot4(r1, u), Dot4(r2, u), Dot4(r3, u)), s)
  {
    DotLinearRight(r0, u, v, s);
    DotLinearRight(r1, u, v, s);
    DotLinearRight(r2, u, v, s);
    DotLinearRight(r3, u, v, s);
  }

  /** Applying a matrix distributes over a sum of tuples. */
  lemma MulTupleAdditive(m: Matrix, u: Tuple, v: Tuple)
    requires IsMat4(m)
    ensures MulTuple(m, Add(u, v)) == Add(MulTuple(m, u), MulTuple(m, v))
  {
    RowsLinear(RowTuple(m, 0), RowTuple(m, 1), RowTuple(m, 2), RowTuple(m, 3), u, v, 0.0);
  }

  /** Applying a matrix commutes with scaling a tuple. */
  lemma MulTupleHomogeneous(m: Matrix, u: Tuple, s: real)
    requires IsMat4(m)
    ensures MulTuple(m, Scale(u, s)) == Scale(MulTuple(m, u), s)
  {
    RowsLinear(RowTuple(m, 0), RowTuple(m, 1), RowTuple(m, 2), RowTuple(m, 3), u, u, s);
  }

  lemma MulExample()
    ensures Mul(New4([1.0, 2.0, 3.0, 4.0, 5.0, 6.0, 7.0, 8.0, 9.0, 8.0, 7.0, 6.0, 5.0, 4.0, 3.0, 2.0]),
                New4([-2.0, 1.0, 2.0, 3.0, 3.0, 2.0, 1.0, -1.0, 4.0, 3.0, 6.0, 5.0, 1.0, 2.0, 7.0, 8.0]))
         == New4([20.0, 22.0, 50.0, 48.0, 44.0, 54.0, 114.0, 108.0, 40.0, 58.0, 110.0, 102.0, 16.0, 26.0, 46.0, 42.0])
  {
    var a := New4([1.0, 2.0, 3.0, 4.0, 5.0, 6.0, 7.0, 8.0, 9.0, 8.0, 7.0, 6.0, 5.0, 4.0, 3.0, 2.0]);
    var b := New4([-2.0, 1.0, 2.0, 3.0, 3.0, 2.0, 1.0, -1.0, 4.0, 3.0, 6.0, 5.0, 1.0, 2.0, 7.0, 8.0]);
    Mat4Ext(Mul(a, b), New4([20.0, 22.0, 50.0, 48.0, 44.0, 54.0, 114.0, 108.0, 40.0, 58.0, 110.0, 102.0, 16.0, 26.0, 46.0, 42.0]));
  }

  lemma MulTupleExample()
    ensures MulTuple(New4([1.0, 2.0, 3.0, 4.0, 2.0, 4.0, 4.0, 2.0, 8.0, 6.0, 4.0, 1.0, 0.0, 0.0, 0.0, 1.0]),
                     Tuple(1.0, 2.0, 3.0, 1.0))
         == Tuple(18.0, 24.0, 33.0, 1.0)
  {
  }

  /** Equality is entrywise FltEq: a matrix equals itself, and one changed entry breaks it. */
  lemma ApproxEqExamples(m: Matrix)
    requires IsMat4(m)
    ensures ApproxEq(m, m)
    ensures !ApproxEq(New4([1.0, 2.0, 3.0, 4.0, 5.0, 6.0, 7.0, 8.0, 9.0, 8.0, 7.0, 6.0, 5.0, 4.0, 3.0, 2.0]),
                      New4([1.0, 2.0, 4.0, 4.0, 5.0, 6.0, 7.0, 8.0, 9.0, 8.0, 7.0, 6.0, 5.0, 4.0, 3.0, 2.0]))
  {
    var a := New4([1.0, 2.0, 3.0, 4.0, 5.0, 6.0, 7.0, 8.0, 9.0, 8.0, 7.0, 6.0, 5.0, 4.0, 3.0, 2.0]);
    var b := New4([1.0, 2.0, 4.0, 4.0, 5.0, 6.0, 7.0, 8.0, 9.0, 8.0, 7.0, 6.0, 5.0, 4.0, 3.0, 2.0]);
    assert !FltEq(a[0][2], b[0][2]);
  }
}
