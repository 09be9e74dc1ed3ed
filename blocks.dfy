/** Splitting a matrix of even order into quadrants, joining quadrants back,
    and the block identities behind the Strassen and Strassen-Winograd
    combination formulas. */
module Blocks {
  import opened Dense

  /** The m x m block of `M` whose top-left corner is (r0, c0): for r0, c0
      in {0, m} this is `[row[c0:c0+m] for row in M[r0:r0+m]]`. */
  function Quadrant(M: Matrix, m: nat, r0: nat, c0: nat): (Q: Matrix)
    requires IsSquare(M, 2 * m) && r0 <= m && c0 <= m
    ensures IsSquare(Q, m)
    ensures forall i, j :: 0 <= i < m && 0 <= j < m ==> Q[i][j] == M[r0 + i][c0 + j]
  {
    seq(m, i requires 0 <= i < m => M[r0 + i][c0 .. c0 + m])
  }

  /** Row concatenation of the four quadrants: top rows are C11[i] + C12[i],
      bottom rows C21[i] + C22[i]. */
  function Join(C11: Matrix, C12: Matrix, C21: Matrix, C22: Matrix, m: nat): (C: Matrix)
    requires IsSquare(C11, m) && IsSquare(C12, m) && IsSquare(C21, m) && IsSquare(C22, m)
    ensures IsSquare(C, 2 * m)
  {
    seq(m, i requires 0 <= i < m => C11[i] + C12[i]) +
    seq(m, i requires 0 <= i < m => C21[i] + C22[i])
  }

  /** Joining the four quadrants of M gives back M. */
  lemma JoinQuadrants(M: Matrix, m: nat)
    requires IsSquare(M, 2 * m)
    ensures Join(Quadrant(M, m, 0, 0), Quadrant(M, m, 0, m),
                 Quadrant(M, m, m, 0), Quadrant(M, m, m, m), m) == M
  {
    var J := Join(Quadrant(M, m, 0, 0), Quadrant(M, m, 0, m),
                  Quadrant(M, m, m, 0), Quadrant(M, m, m, m), m);
    forall i, j | 0 <= i < 2 * m && 0 <= j < 2 * m ensures J[i][j] == M[i][j] {
      if i < m {
        assert J[i] == Quadrant(M, m, 0, 0)[i] + Quadrant(M, m, 0, m)[i];
      } else {
        assert J[i] == Quadrant(M, m, m, 0)[i - m] + Quadrant(M, m, m, m)[i - m];
      }
    }
    EqualEntries(J, M, 2 * m);
  }

  /** Splitting a joined matrix gives back the four pieces. */
  lemma QuadrantsOfJoin(C11: Matrix, C12: Matrix, C21: Matrix, C22: Matrix, m: nat)
    requires IsSquare(C11, m) && IsSquare(C12, m) && IsSquare(C21, m) && IsSquare(C22, m)
    ensures Quadrant(Join(C11, C12, C21, C22, m), m, 0, 0) == C11
    ensures Quadrant(Join(C11, C12, C21, C22, m), m, 0, m) == C12
    ensures Quadrant(Join(C11, C12, C21, C22, m), m, m, 0) == C21
    ensures Quadrant(Join(C11, C12, C21, C22, m), m, m, m) == C22
  {
    var J := Join(C11, C12, C21, C22, m);
    forall i | 0 <= i < m ensures J[i] == C11[i] + C12[i] && J[m + i] == C21[i] + C22[i] {
    }
    EqualEntries(Quadrant(J, m, 0, 0), C11, m);
    EqualEntries(Quadrant(J, m, 0, m), C12, m);
    EqualEntries(Quadrant(J, m, m, 0), C21, m);
    EqualEntries(Quadrant(J, m, m, m), C22, m);
  }

  /** Quadrant (r0, c0) of the product written by blocks: A_r1 B_1c + A_r2 B_2c. */
  function ProductBlock(A: Matrix, B: Matrix, m: nat, r0: nat, c0: nat): (C: Matrix)
    requires IsSquare(A, 2 * m) && IsSquare(B, 2 * m) && r0 <= m && c0 <= m
    ensures IsSquare(C, m)
  {
    Add(Product(Quadrant(A, m, r0, 0), Quadrant(B, m, 0, c0)),
        Product(Quadrant(A, m, r0, m), Quadrant(B, m, m, c0)))
  }

  /** The product written block by block, C_rc = A_r1 B_1c + A_r2 B_2c. */
  function BlockProduct(A: Matrix, B: Matrix, m: nat): (C: Matrix)
    requires IsSquare(A, 2 * m) && IsSquare(B, 2 * m)
    ensures IsSquare(C, 2 * m)
  {
    Join(ProductBlock(A, B, m, 0, 0), ProductBlock(A, B, m, 0, m),
         ProductBlock(A, B, m, m, 0), ProductBlock(A, B, m, m, m), m)
  }

  /** One entry of the product of two matrices of order 2m, as the sum of
      two products of quadrants. */
  lemma BlockEntry(A: Matrix, B: Matrix, m: nat, r0: nat, c0: nat, i: nat, j: nat)
    requires IsSquare(A, 2 * m) && IsSquare(B, 2 * m)
    requires r0 <= m && c0 <= m && i < m && j < m
    ensures Product(A, B)[r0 + i][c0 + j] == ProductBlock(A, B, m, r0, c0)[i][j]
  {
    var aL, aR := Quadrant(A, m, r0, 0), Quadrant(A, m, r0, m);
    var bT, bB := Quadrant(B, m, 0, c0), Quadrant(B, m, m, c0);
    ProductEntry(A, B, r0 + i, c0 + j);
    ProductEntry(aL, bT, i, j);
    ProductEntry(aR, bB, i, j);
    BlockDotProduct(A, B, m, r0, c0, i, j);
  }

  /** Row r0 + i of A against column c0 + j of B, split at the middle index. */
  lemma BlockDotProduct(A: Matrix, B: Matrix, m: nat, r0: nat, c0: nat, i: nat, j: nat)
    requires IsSquare(A, 2 * m) && IsSquare(B, 2 * m)
    requires r0 <= m && c0 <= m && i < m && j < m
    ensures DotProduct(A[r0 + i], Column(B, c0 + j)) ==
      DotProduct(Quadrant(A, m, r0, 0)[i], Column(Quadrant(B, m, 0, c0), j)) +
      DotProduct(Quadrant(A, m, r0, m)[i], Column(Quadrant(B, m, m, c0), j))
  {
    RowOfQuadrants(A, m, r0, i);
    ColumnOfQuadrants(B, m, c0, j);
    DotProductAppend(Quadrant(A, m, r0, 0)[i], Quadrant(A, m, r0, m)[i],
                     Column(Quadrant(B, m, 0, c0), j), Column(Quadrant(B, m, m, c0), j));
  }

  /** A row of a matrix of order 2m is the row of its left quadrant
      followed by the row of its right quadrant. */
  lemma RowOfQuadrants(A: Matrix, m: nat, r0: nat, i: nat)
    requires IsSquare(A, 2 * m) && r0 <= m && i < m
    ensures A[r0 + i] == Quadrant(A, m, r0, 0)[i] + Quadrant(A, m, r0, m)[i]
  {
    var row := A[r0 + i];
    assert Quadrant(A, m, r0, 0)[i] == row[0 .. m];
    assert Quadrant(A, m, r0, m)[i] == row[m .. 2 * m];
    assert row == row[0 .. m] + row[m .. 2 * m];
  }

  /** A column of a matrix of order 2m is the column of its top quadrant
      followed by the column of its bottom quadrant. */
  lemma ColumnOfQuadrants(B: Matrix, m: nat, c0: nat, j: nat)
    requires IsSquare(B, 2 * m) && c0 <= m && j < m
    ensures Column(B, c0 + j) == Column(Quadrant(B, m, 0, c0), j) + Column(Quadrant(B, m, m, c0), j)
  {
    var col, top, bottom := Column(B, c0 + j), Column(Quadrant(B, m, 0, c0), j), Column(Quadrant(B, m, m, c0), j);
    forall k | 0 <= k < 2 * m ensures col[k] == (top + bottom)[k] {
      if k < m {
        assert top[k] == Quadrant(B, m, 0, c0)[k][j];
      } else {
        assert bottom[k - m] == Quadrant(B, m, m, c0)[k - m][j];
      }
    }
  }

  /** The product of two matrices of even order equals its block form. */
  lemma ProductByBlocks(A: Matrix, B: Matrix, m: nat)
    requires IsSquare(A, 2 * m) && IsSquare(B, 2 * m)
    ensures Product(A, B) == BlockProduct(A, B, m)
  {
    forall i, j | 0 <= i < 2 * m && 0 <= j < 2 * m ensures Product(A, B)[i][j] == BlockProduct(A, B, m)[i][j] {
      ProductByBlocksEntry(A, B, m, i, j);
    }
    EqualEntries(Product(A, B), BlockProduct(A, B, m), 2 * m);
  }

  /** ProductByBlocks at entry (i, j). */
  lemma ProductByBlocksEntry(A: Matrix, B: Matrix, m: nat, i: nat, j: nat)
    requires IsSquare(A, 2 * m) && IsSquare(B, 2 * m) && i < 2 * m && j < 2 * m
    ensures Product(A, B)[i][j] == BlockProduct(A, B, m)[i][j]
  {
    if i < m && j < m {
      ProductByBlocksAt(A, B, m, 0, 0, i, j);
    } else if i < m {
      ProductByBlocksAt(A, B, m, 0, m, i, j - m);
    } else if j < m {
      ProductByBlocksAt(A, B, m, m, 0, i - m, j);
    } else {
      ProductByBlocksAt(A, B, m, m, m, i - m, j - m);
    }
  }

  /** ProductByBlocks at entry (i, j) of quadrant (r0, c0). */
  lemma ProductByBlocksAt(A: Matrix, B: Matrix, m: nat, r0: nat, c0: nat, i: nat, j: nat)
    requires IsSquare(A, 2 * m) && IsSquare(B, 2 * m)
    requires (r0 == 0 || r0 == m) && (c0 == 0 || c0 == m) && i < m && j < m
    ensures Product(A, B)[r0 + i][c0 + j] == BlockProduct(A, B, m)[r0 + i][c0 + j]
  {
    BlockEntry(A, B, m, r0, c0, i, j);
    JoinAt(BlockProduct(A, B, m), ProductBlock(A, B, m, 0, 0), ProductBlock(A, B, m, 0, m),
           ProductBlock(A, B, m, m, 0), ProductBlock(A, B, m, m, m), m, r0, c0, i, j);
  }

  /** Entry (i, j) of quadrant (r0, c0) of a joined matrix. */
  lemma JoinAt(J: Matrix, C11: Matrix, C12: Matrix, C21: Matrix, C22: Matrix, m: nat, r0: nat, c0: nat, i: nat, j: nat)
    requires IsSquare(C11, m) && IsSquare(C12, m) && IsSquare(C21, m) && IsSquare(C22, m)
    requires J == Join(C11, C12, C21, C22, m)
    requires (r0 == 0 || r0 == m) && (c0 == 0 || c0 == m) && i < m && j < m
    ensures J[r0 + i][c0 + j] ==
      (if r0 == 0 then (if c0 == 0 then C11 else C12) else (if c0 == 0 then C21 else C22))[i][j]
  {
    JoinEntry(C11, C12, C21, C22, m, r0 + i, c0 + j);
  }

  /** Entry (i, j) of a joined matrix is taken from the quadrant it falls in. */
  lemma JoinEntry(C11: Matrix, C12: Matrix, C21: Matrix, C22: Matrix, m: nat, i: nat, j: nat)
    requires IsSquare(C11, m) && IsSquare(C12, m) && IsSquare(C21, m) && IsSquare(C22, m)
    requires i < 2 * m && j < 2 * m
    ensures Join(C11, C12, C21, C22, m)[i][j] ==
      if i < m then (if j < m then C11[i][j] else C12[i][j - m])
      else (if j < m then C21[i - m][j] else C22[i - m][j - m])
  {
    var J := Join(C11, C12, C21, C22, m);
    if i < m {
      assert J[i] == C11[i] + C12[i];
    } else {
      assert J[i] == C21[i - m] + C22[i - m];
    }
  }

  /** The classical Strassen combination of M1..M7:
      C11 = M1 + M4 + M7 - M5, C12 = M3 + M5, C21 = M2 + M4, C22 = M1 + M3 - M2 + M6. */
  function StrassenJoin(M1: Matrix, M2: Matrix, M3: Matrix, M4: Matrix, M5: Matrix, M6: Matrix, M7: Matrix, m: nat): (C: Matrix)
    requires IsSquare(M1, m) && IsSquare(M2, m) && IsSquare(M3, m) && IsSquare(M4, m)
    requires IsSquare(M5, m) && IsSquare(M6, m) && IsSquare(M7, m)
    ensures IsSquare(C, 2 * m)
  {
    var c11 := Sub(Add(Add(M1, M4), M7), M5);
    var c12 := Add(M3, M5);
    var c21 := Add(M2, M4);
    var c22 := Add(Sub(Add(M1, M3), M2), M6);
    Join(c11, c12, c21, c22, m)
  }

  /** Strassen's seven products, combined by StrassenJoin, give the block product. */
  lemma StrassenIdentity(A: Matrix, B: Matrix, m: nat,
                         M1: Matrix, M2: Matrix, M3: Matrix, M4: Matrix, M5: Matrix, M6: Matrix, M7: Matrix)
    requires IsSquare(A, 2 * m) && IsSquare(B, 2 * m)
    requires
      var a11, a12, a21, a22 := Quadrant(A, m, 0, 0), Quadrant(A, m, 0, m), Quadrant(A, m, m, 0), Quadrant(A, m, m, m);
      var b11, b12, b21, b22 := Quadrant(B, m, 0, 0), Quadrant(B, m, 0, m), Quadrant(B, m, m, 0), Quadrant(B, m, m, m);
      && M1 == Product(Add(a11, a22), Add(b11, b22))
      && M2 == Product(Add(a21, a22), b11)
      && M3 == Product(a11, Sub(b12, b22))
      && M4 == Product(a22, Sub(b21, b11))
      && M5 == Product(Add(a11, a12), b22)
      && M6 == Product(Sub(a21, a11), Add(b11, b12))
      && M7 == Product(Sub(a12, a22), Add(b21, b22))
    ensures StrassenJoin(M1, M2, M3, M4, M5, M6, M7, m) == Product(A, B)
  {
    var a11, a12, a21, a22 := Quadrant(A, m, 0, 0), Quadrant(A, m, 0, m), Quadrant(A, m, m, 0), Quadrant(A, m, m, m);
    var b11, b12, b21, b22 := Quadrant(B, m, 0, 0), Quadrant(B, m, 0, m), Quadrant(B, m, m, 0), Quadrant(B, m, m, m);
    ExpandAddAdd(a11, a22, b11, b22);
    ExpandAddLeft(a21, a22, b11);
    ExpandSubRight(a11, b12, b22);
    ExpandSubRight(a22, b21, b11);
    ExpandAddLeft(a11, a12, b22);
    ExpandSubAdd(a21, a11, b11, b12);
    ExpandSubAdd(a12, a22, b21, b22);
    var c11 := Sub(Add(Add(M1, M4), M7), M5);
    var c12 := Add(M3, M5);
    var c21 := Add(M2, M4);
    var c22 := Add(Sub(Add(M1, M3), M2), M6);
    EqualEntries(c11, Add(Product(a11, b11), Product(a12, b21)), m);
    EqualEntries(c12, Add(Product(a11, b12), Product(a12, b22)), m);
    EqualEntries(c21, Add(Product(a21, b11), Product(a22, b21)), m);
    EqualEntries(c22, Add(Product(a21, b12), Product(a22, b22)), m);
    ProductByBlocks(A, B, m);
  }

  /** The Strassen-Winograd combination of P1..P7:
      C11 = P5 + P4 - P2 + P6, C12 = P1 + P2, C21 = P3 + P4, C22 = P5 + P1 - P3 - P7. */
  function WinogradJoin(P1: Matrix, P2: Matrix, P3: Matrix, P4: Matrix, P5: Matrix, P6: Matrix, P7: Matrix, m: nat): (C: Matrix)
    requires IsSquare(P1, m) && IsSquare(P2, m) && IsSquare(P3, m) && IsSquare(P4, m)
    requires IsSquare(P5, m) && IsSquare(P6, m) && IsSquare(P7, m)
    ensures IsSquare(C, 2 * m)
  {
    var c11 := Add(Sub(Add(P5, P4), P2), P6);
    var c12 := Add(P1, P2);
    var c21 := Add(P3, P4);
    var c22 := Sub(Sub(Add(P5, P1), P3), P7);
    Join(c11, c12, c21, c22, m)
  }

  /** Winograd's seven products of the sums S1..S10, combined by WinogradJoin,
      give the block product. */
  lemma WinogradIdentity(A: Matrix, B: Matrix, m: nat,
                         P1: Matrix, P2: Matrix, P3: Matrix, P4: Matrix, P5: Matrix, P6: Matrix, P7: Matrix)
    requires IsSquare(A, 2 * m) && IsSquare(B, 2 * m)
    requires
      var a11, a12, a21, a22 := Quadrant(A, m, 0, 0), Quadrant(A, m, 0, m), Quadrant(A, m, m, 0), Quadrant(A, m, m, m);
      var b11, b12, b21, b22 := Quadrant(B, m, 0, 0), Quadrant(B, m, 0, m), Quadrant(B, m, m, 0), Quadrant(B, m, m, m);
      && P1 == Product(a11, Sub(b12, b22))
      && P2 == Product(Add(a11, a12), b22)
      && P3 == Product(Add(a21, a22), b11)
      && P4 == Product(a22, Sub(b21, b11))
      && P5 == Product(Add(a11, a22), Add(b11, b22))
      && P6 == Product(Sub(a12, a22), Add(b21, b22))
      && P7 == Product(Sub(a11, a21), Add(b11, b12))
    ensures WinogradJoin(P1, P2, P3, P4, P5, P6, P7, m) == Product(A, B)
  {
    var a11, a12, a21, a22 := Quadrant(A, m, 0, 0), Quadrant(A, m, 0, m), Quadrant(A, m, m, 0), Quadrant(A, m, m, m);
    var b11, b12, b21, b22 := Quadrant(B, m, 0, 0), Quadrant(B, m, 0, m), Quadrant(B, m, m, 0), Quadrant(B, m, m, m);
    ExpandSubRight(a11, b12, b22);
    ExpandAddLeft(a11, a12, b22);
    ExpandAddLeft(a21, a22, b11);
    ExpandSubRight(a22, b21, b11);
    ExpandAddAdd(a11, a22, b11, b22);
    ExpandSubAdd(a12, a22, b21, b22);
    ExpandSubAdd(a11, a21, b11, b12);
    var c11 := Add(Sub(Add(P5, P4), P2), P6);
    var c12 := Add(P1, P2);
    var c21 := Add(P3, P4);
    var c22 := Sub(Sub(Add(P5, P1), P3), P7);
    EqualEntries(c11, Add(Product(a11, b11), Product(a12, b21)), m);
    EqualEntries(c12, Add(Product(a11, b12), Product(a12, b22)), m);
    EqualEntries(c21, Add(Product(a21, b11), Product(a22, b21)), m);
    EqualEntries(c22, Add(Product(a21, b12), Product(a22, b22)), m);
    ProductByBlocks(A, B, m);
  }

  /** Entries of (X + Y) Z as X Z + Y Z. */
  lemma ExpandAddLeft(X: Matrix, Y: Matrix, Z: Matrix)
    requires IsSquare(X, |X|) && IsSquare(Y, |X|) && IsSquare(Z, |X|)
    ensures forall i, j :: 0 <= i < |X| && 0 <= j < |X| ==>
      Product(Add(X, Y), Z)[i][j] == Product(X, Z)[i][j] + Product(Y, Z)[i][j]
  {
    ProductAddLeft(X, Y, Z);
  }

  /** Entries of X (Y - Z) as X Y - X Z. */
  lemma ExpandSubRight(X: Matrix, Y: Matrix, Z: Matrix)
    requires IsSquare(X, |X|) && IsSquare(Y, |X|) && IsSquare(Z, |X|)
    ensures forall i, j :: 0 <= i < |X| && 0 <= j < |X| ==>
      Product(X, Sub(Y, Z))[i][j] == Product(X, Y)[i][j] - Product(X, Z)[i][j]
  {
    ProductSubRight(X, Y, Z);
  }

  /** Entries of (X + Y)(Z + W) expanded into the four products. */
  lemma ExpandAddAdd(X: Matrix, Y: Matrix, Z: Matrix, W: Matrix)
    requires IsSquare(X, |X|) && IsSquare(Y, |X|) && IsSquare(Z, |X|) && IsSquare(W, |X|)
    ensures forall i, j :: 0 <= i < |X| && 0 <= j < |X| ==>
      Product(Add(X, Y), Add(Z, W))[i][j] ==
        Product(X, Z)[i][j] + Product(X, W)[i][j] + Product(Y, Z)[i][j] + Product(Y, W)[i][j]
  {
    ProductAddLeft(X, Y, Add(Z, W));
    ProductAddRight(X, Z, W);
    ProductAddRight(Y, Z, W);
  }

  /** Entries of (X - Y)(Z + W) expanded into the four products. */
  lemma ExpandSubAdd(X: Matrix, Y: Matrix, Z: Matrix, W: Matrix)
    requires IsSquare(X, |X|) && IsSquare(Y, |X|) && IsSquare(Z, |X|) && IsSquare(W, |X|)
    ensures forall i, j :: 0 <= i < |X| && 0 <= j < |X| ==>
      Product(Sub(X, Y), Add(Z, W))[i][j] ==
        Product(X, Z)[i][j] + Product(X, W)[i][j] - Product(Y, Z)[i][j] - Product(Y, W)[i][j]
  {
    ProductSubLeft(X, Y, Add(Z, W));
    ProductAddRight(X, Z, W);
    ProductAddRight(Y, Z, W);
  }
}
