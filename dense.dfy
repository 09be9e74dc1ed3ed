/** Dense square integer matrices: the classical product as a specification,
    elementwise addition and subtraction, and the classical ikj triple loop.
    Entries are unbounded integers, as Python's `int` is. */
module Dense {

  /** A matrix as a list of rows. */
  type Matrix = seq<seq<int>>

  /** The failures the two entry points raise on operands of the wrong shape. */
  datatype Error = AssertionError | ValueError

  datatype Result<T> = Ok(value: T) | Err(error: Error)

  /** `M` has `n` rows of `n` entries each. */
  predicate IsSquare(M: Matrix, n: nat) {
    |M| == n && forall i :: 0 <= i < n ==> |M[i]| == n
  }

  /** Every row of `M` has as many entries as its first row. */
  predicate IsRectangular(M: Matrix) {
    forall i :: 0 <= i < |M| ==> |M[i]| == |M[0]|
  }

  /** The sum of u[k] * v[k] over k, taken in increasing k. */
  function DotProduct(u: seq<int>, v: seq<int>): int
    requires |u| == |v|
    decreases |u|
  {
    if |u| == 0 then 0
    else DotProduct(u[..|u| - 1], v[..|u| - 1]) + u[|u| - 1] * v[|u| - 1]
  }

  /** Column `j` of `M`, top to bottom. */
  function Column(M: Matrix, j: nat): (c: seq<int>)
    requires forall i :: 0 <= i < |M| ==> j < |M[i]|
    ensures |c| == |M|
  {
    seq(|M|, i requires 0 <= i < |M| => M[i][j])
  }

  /** The mathematical product: entry (i, j) is the sum over k of A[i][k] * B[k][j]. */
  function Product(A: Matrix, B: Matrix): (C: Matrix)
    requires IsSquare(A, |A|) && IsSquare(B, |A|)
    ensures IsSquare(C, |A|)
  {
    seq(|A|, i requires 0 <= i < |A| =>
      seq(|A|, j requires 0 <= j < |A| => DotProduct(A[i], Column(B, j))))
  }

  /** Entry (i, j) of the product is row i of A against column j of B. */
  lemma ProductEntry(A: Matrix, B: Matrix, i: nat, j: nat)
    requires IsSquare(A, |A|) && IsSquare(B, |A|) && i < |A| && j < |A|
    ensures Product(A, B)[i][j] == DotProduct(A[i], Column(B, j))
  {
  }

  /** Elementwise sum of two matrices of order n. */
  function Add(A: Matrix, B: Matrix): (C: Matrix)
    requires IsSquare(A, |A|) && IsSquare(B, |A|)
    ensures IsSquare(C, |A|)
    ensures forall i, j :: 0 <= i < |A| && 0 <= j < |A| ==> C[i][j] == A[i][j] + B[i][j]
  {
    seq(|A|, i requires 0 <= i < |A| =>
      seq(|A|, j requires 0 <= j < |A| => A[i][j] + B[i][j]))
  }

  /** Elementwise difference of two matrices of order n. */
  function Sub(A: Matrix, B: Matrix): (C: Matrix)
    requires IsSquare(A, |A|) && IsSquare(B, |A|)
    ensures IsSquare(C, |A|)
    ensures forall i, j :: 0 <= i < |A| && 0 <= j < |A| ==> C[i][j] == A[i][j] - B[i][j]
  {
    seq(|A|, i requires 0 <= i < |A| =>
      seq(|A|, j requires 0 <= j < |A| => A[i][j] - B[i][j]))
  }

  /** The classical ikj triple loop. `C` starts as the zero matrix; row i
      accumulates A[i][k] * B[k][j] for k = 0, 1, ... in turn. The row is
      updated through a local that is written back, as `Ci` aliases `C[i]`. */
  method MatmulClassic(A: Matrix, B: Matrix) returns (C: Matrix)
    requires IsSquare(A, |A|) && IsSquare(B, |A|)
    ensures C == Product(A, B)
  {
    var n := |A|;
    C := seq(n, _ => seq(n, _ => 0));
    for i := 0 to n
      invariant |C| == n
      invariant forall r :: 0 <= r < i ==> C[r] == Product(A, B)[r]
      invariant forall r :: i <= r < n ==> C[r] == seq(n, _ => 0)
    {
      var rowA := A[i];
      var rowC := C[i];
      for k := 0 to n
        invariant |rowC| == n
        invariant forall j :: 0 <= j < n ==> rowC[j] == DotProduct(rowA[..k], Column(B, j)[..k])
      {
        var aik := rowA[k];
        var rowB := B[k];
        for j := 0 to n
          invariant |rowC| == n
          invariant forall j' :: 0 <= j' < j ==>
            rowC[j'] == DotProduct(rowA[..k + 1], Column(B, j')[..k + 1])
          invariant forall j' :: j <= j' < n ==>
            rowC[j'] == DotProduct(rowA[..k], Column(B, j')[..k])
        {
          DotProductStep(rowA, Column(B, j), k);
          rowC := rowC[j := rowC[j] + aik * rowB[j]];
        }
      }
      assert rowA[..n] == rowA;
      forall j | 0 <= j < n ensures rowC[j] == Product(A, B)[i][j] {
        assert Column(B, j)[..n] == Column(B, j);
      }
      C := C[i := rowC];
    }
  }

  /** One more step of the accumulation adds the next product. */
  lemma DotProductStep(u: seq<int>, v: seq<int>, k: nat)
    requires |u| == |v| && k < |u|
    ensures DotProduct(u[..k + 1], v[..k + 1]) == DotProduct(u[..k], v[..k]) + u[k] * v[k]
  {
    assert u[..k + 1][..k] == u[..k];
    assert v[..k + 1][..k] == v[..k];
  }

  /** Two matrices of order n with the same entries are equal. */
  lemma EqualEntries(P: Matrix, Q: Matrix, n: nat)
    requires IsSquare(P, n) && IsSquare(Q, n)
    requires forall i, j :: 0 <= i < n && 0 <= j < n ==> P[i][j] == Q[i][j]
    ensures P == Q
  {
    forall i | 0 <= i < n ensures P[i] == Q[i] {
      assert forall j :: 0 <= j < n ==> P[i][j] == Q[i][j];
    }
  }

  /** Subtraction undoes addition. */
  lemma AddSubCancel(A: Matrix, B: Matrix)
    requires IsSquare(A, |A|) && IsSquare(B, |A|)
    ensures Sub(Add(A, B), B) == A
  {
    EqualEntries(Sub(Add(A, B), B), A, |A|);
  }

  /** The dot product splits over concatenation. */
  lemma {:induction false} DotProductAppend(u1: seq<int>, u2: seq<int>, v1: seq<int>, v2: seq<int>)
    requires |u1| == |v1| && |u2| == |v2|
    ensures DotProduct(u1 + u2, v1 + v2) == DotProduct(u1, v1) + DotProduct(u2, v2)
    decreases |u2|
  {
    if |u2| == 0 {
      assert u1 + u2 == u1;
      assert v1 + v2 == v1;
    } else {
      var l := |u2| - 1;
      DotProductAppend(u1, u2[..l], v1, v2[..l]);
      assert (u1 + u2)[..|u1| + l] == u1 + u2[..l];
      assert (v1 + v2)[..|u1| + l] == v1 + v2[..l];
    }
  }

  /** The dot product with a zero vector is zero. */
  lemma {:induction false} DotProductZeros(z: seq<int>, v: seq<int>)
    requires |z| == |v|
    requires forall k :: 0 <= k < |z| ==> z[k] == 0
    ensures DotProduct(z, v) == 0
    decreases |z|
  {
    if |z| > 0 {
      DotProductZeros(z[..|z| - 1], v[..|z| - 1]);
    }
  }

  /** The dot product is additive in its left operand: s = u + w entrywise. */
  lemma {:induction false} DotProductAddLeft(u: seq<int>, w: seq<int>, s: seq<int>, v: seq<int>)
    requires |u| == |w| == |s| == |v|
    requires forall k :: 0 <= k < |s| ==> s[k] == u[k] + w[k]
    ensures DotProduct(s, v) == DotProduct(u, v) + DotProduct(w, v)
    decreases |s|
  {
    if |s| > 0 {
      var l := |s| - 1;
      DotProductAddLeft(u[..l], w[..l], s[..l], v[..l]);
      assert s[l] * v[l] == u[l] * v[l] + w[l] * v[l];
    }
  }

  /** The dot product is subtractive in its left operand: s = u - w entrywise. */
  lemma {:induction false} DotProductSubLeft(u: seq<int>, w: seq<int>, s: seq<int>, v: seq<int>)
    requires |u| == |w| == |s| == |v|
    requires forall k :: 0 <= k < |s| ==> s[k] == u[k] - w[k]
    ensures DotProduct(s, v) == DotProduct(u, v) - DotProduct(w, v)
    decreases |s|
  {
    if |s| > 0 {
      var l := |s| - 1;
      DotProductSubLeft(u[..l], w[..l], s[..l], v[..l]);
      assert s[l] * v[l] == u[l] * v[l] - w[l] * v[l];
    }
  }

  /** The dot product is additive in its right operand: s = u + w entrywise. */
  lemma {:induction false} DotProductAddRight(v: seq<int>, u: seq<int>, w: seq<int>, s: seq<int>)
    requires |u| == |w| == |s| == |v|
    requires forall k :: 0 <= k < |s| ==> s[k] == u[k] + w[k]
    ensures DotProduct(v, s) == DotProduct(v, u) + DotProduct(v, w)
    decreases |s|
  {
    if |s| > 0 {
      var l := |s| - 1;
      DotProductAddRight(v[..l], u[..l], w[..l], s[..l]);
      assert v[l] * s[l] == v[l] * u[l] + v[l] * w[l];
    }
  }

  /** The dot product is subtractive in its right operand: s = u - w entrywise. */
  lemma {:induction false} DotProductSubRight(v: seq<int>, u: seq<int>, w: seq<int>, s: seq<int>)
    requires |u| == |w| == |s| == |v|
    requires forall k :: 0 <= k < |s| ==> s[k] == u[k] - w[k]
    ensures DotProduct(v, s) == DotProduct(v, u) - DotProduct(v, w)
    decreases |s|
  {
    if |s| > 0 {
      var l := |s| - 1;
      DotProductSubRight(v[..l], u[..l], w[..l], s[..l]);
      assert v[l] * s[l] == v[l] * u[l] - v[l] * w[l];
    }
  }

  /** (X + Y) Z == X Z + Y Z */
  lemma ProductAddLeft(X: Matrix, Y: Matrix, Z: Matrix)
    requires IsSquare(X, |X|) && IsSquare(Y, |X|) && IsSquare(Z, |X|)
    ensures Product(Add(X, Y), Z) == Add(Product(X, Z), Product(Y, Z))
  {
    var n := |X|;
    forall i, j | 0 <= i < n && 0 <= j < n
      ensures Product(Add(X, Y), Z)[i][j] == Product(X, Z)[i][j] + Product(Y, Z)[i][j]
    {
      DotProductAddLeft(X[i], Y[i], Add(X, Y)[i], Column(Z, j));
    }
    EqualEntries(Product(Add(X, Y), Z), Add(Product(X, Z), Product(Y, Z)), n);
  }

  /** (X - Y) Z == X Z - Y Z */
  lemma ProductSubLeft(X: Matrix, Y: Matrix, Z: Matrix)
    requires IsSquare(X, |X|) && IsSquare(Y, |X|) && IsSquare(Z, |X|)
    ensures Product(Sub(X, Y), Z) == Sub(Product(X, Z), Product(Y, Z))
  {
    var n := |X|;
    forall i, j | 0 <= i < n && 0 <= j < n
      ensures Product(Sub(X, Y), Z)[i][j] == Product(X, Z)[i][j] - Product(Y, Z)[i][j]
    {
      DotProductSubLeft(X[i], Y[i], Sub(X, Y)[i], Column(Z, j));
    }
    EqualEntries(Product(Sub(X, Y), Z), Sub(Product(X, Z), Product(Y, Z)), n);
  }

  /** X (Y + Z) == X Y + X Z */
  lemma ProductAddRight(X: Matrix, Y: Matrix, Z: Matrix)
    requires IsSquare(X, |X|) && IsSquare(Y, |X|) && IsSquare(Z, |X|)
    ensures Product(X, Add(Y, Z)) == Add(Product(X, Y), Product(X, Z))
  {
    var n := |X|;
    forall i, j | 0 <= i < n && 0 <= j < n
      ensures Product(X, Add(Y, Z))[i][j] == Product(X, Y)[i][j] + Product(X, Z)[i][j]
    {
      DotProductAddRight(X[i], Column(Y, j), Column(Z, j), Column(Add(Y, Z), j));
    }
    EqualEntries(Product(X, Add(Y, Z)), Add(Product(X, Y), Product(X, Z)), n);
  }

  /** X (Y - Z) == X Y - X Z */
  lemma ProductSubRight(X: Matrix, Y: Matrix, Z: Matrix)
    requires IsSquare(X, |X|) && IsSquare(Y, |X|) && IsSquare(Z, |X|)
    ensures Product(X, Sub(Y, Z)) == Sub(Product(X, Y), Product(X, Z))
  {
    var n := |X|;
    forall i, j | 0 <= i < n && 0 <= j < n
      ensures Product(X, Sub(Y, Z))[i][j] == Product(X, Y)[i][j] - Product(X, Z)[i][j]
    {
      DotProductSubRight(X[i], Column(Y, j), Column(Z, j), Column(Sub(Y, Z), j));
    }
    EqualEntries(Product(X, Sub(Y, Z)), Sub(Product(X, Y), Product(X, Z)), n);
  }
}
