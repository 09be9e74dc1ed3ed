/** The padding adapter: the power-of-two test `n & (n - 1)`, the padded
    order `1 << (n - 1).bit_length()`, zero padding and cropping, and the
    fact that padding with zeros does not change the leading block of the
    product. */
module Padding {
  import opened Dense

  /** n is 1, 2, 4, 8, ... */
  predicate IsPowerOfTwo(n: nat) {
    n == 1 || (n >= 2 && n % 2 == 0 && IsPowerOfTwo(n / 2))
  }

  /** `1 << k`, which is a power of two. */
  function Pow2(k: nat): (p: nat)
    ensures IsPowerOfTwo(p)
  {
    if k == 0 then 1
    else
      var q := Pow2(k - 1);
      assert (2 * q) / 2 == q;
      2 * q
  }

  /** Python's `x.bit_length()` for x >= 0: the number of binary digits of x,
      so that 2^(b-1) <= x < 2^b. */
  function BitLength(x: nat): (b: nat)
    ensures x < Pow2(b)
    ensures x >= 1 ==> b >= 1 && Pow2(b - 1) <= x
  {
    if x == 0 then 0 else 1 + BitLength(x / 2)
  }

  /** Python's `x & y` on non-negative integers: no bit is set that is not
      set in both operands, so the result is at most either operand. */
  function BitAnd(x: nat, y: nat): (r: nat)
    ensures r <= x && r <= y
  {
    if x == 0 || y == 0 then 0
    else 2 * BitAnd(x / 2, y / 2) + (if x % 2 == 1 && y % 2 == 1 then 1 else 0)
  }

  lemma {:induction false} BitAndSelf(x: nat)
    ensures BitAnd(x, x) == x
  {
    if x > 0 {
      BitAndSelf(x / 2);
    }
  }

  /** For n >= 1, `n & (n - 1)` is zero exactly when n is a power of two. */
  lemma {:induction false} PowerOfTwoTest(n: nat)
    requires n >= 1
    ensures BitAnd(n, n - 1) == 0 <==> IsPowerOfTwo(n)
  {
    if n % 2 == 1 {
      // n = 2q + 1 and n - 1 = 2q share every bit of q
      BitAndSelf(n / 2);
      assert (n - 1) / 2 == n / 2;
    } else {
      // n = 2q and n - 1 = 2(q - 1) + 1
      PowerOfTwoTest(n / 2);
      assert (n - 1) / 2 == n / 2 - 1;
    }
  }

  /** `1 << (n - 1).bit_length()`: the least power of two that is >= n. */
  function PaddedOrder(n: nat): (m: nat)
    requires n >= 1
    ensures IsPowerOfTwo(m) && n <= m < 2 * n
  {
    Pow2(BitLength(n - 1))
  }

  /** k zeros: `[0] * k` */
  function Zeros(k: nat): (z: seq<int>)
    ensures |z| == k && forall i :: 0 <= i < k ==> z[i] == 0
  {
    seq(k, _ => 0)
  }

  /** Each row extended with zeros to length m, then m - n zero rows. */
  function Pad(M: Matrix, m: nat): (P: Matrix)
    requires IsSquare(M, |M|) && |M| <= m
    ensures IsSquare(P, m)
    ensures forall i, j :: 0 <= i < m && 0 <= j < m ==>
      P[i][j] == if i < |M| && j < |M| then M[i][j] else 0
  {
    var n := |M|;
    var P := seq(n, i requires 0 <= i < n => M[i] + Zeros(m - n)) + seq(m - n, _ => Zeros(m));
    assert forall i :: 0 <= i < n ==> P[i] == M[i] + Zeros(m - n);
    assert forall i :: n <= i < m ==> P[i] == Zeros(m);
    P
  }

  /** The leading n x n block: `[row[:n] for row in C[:n]]`. */
  function Crop(C: Matrix, n: nat): (R: Matrix)
    requires IsSquare(C, |C|) && n <= |C|
    ensures IsSquare(R, n)
    ensures forall i, j :: 0 <= i < n && 0 <= j < n ==> R[i][j] == C[i][j]
  {
    seq(n, i requires 0 <= i < n => C[i][..n])
  }

  /** Cropping undoes padding. */
  lemma CropPad(M: Matrix, m: nat)
    requires IsSquare(M, |M|) && |M| <= m
    ensures Crop(Pad(M, m), |M|) == M
  {
    EqualEntries(Crop(Pad(M, m), |M|), M, |M|);
  }

  /** One entry of the leading block of the padded product. */
  lemma PaddedEntry(A: Matrix, B: Matrix, m: nat, i: nat, j: nat)
    requires IsSquare(A, |A|) && IsSquare(B, |A|) && |A| <= m && i < |A| && j < |A|
    ensures Product(Pad(A, m), Pad(B, m))[i][j] == Product(A, B)[i][j]
  {
    var n := |A|;
    var Ap, Bp := Pad(A, m), Pad(B, m);
    ProductEntry(Ap, Bp, i, j);
    ProductEntry(A, B, i, j);
    var colP := Column(Bp, j);
    assert Ap[i] == A[i] + Zeros(m - n);
    forall k | 0 <= k < m ensures colP[k] == (Column(B, j) + colP[n..])[k] {
      if k < n {
        assert Bp[k] == B[k] + Zeros(m - n);
      }
    }
    assert colP == Column(B, j) + colP[n..];
    DotProductAppend(A[i], Zeros(m - n), Column(B, j), colP[n..]);
    DotProductZeros(Zeros(m - n), colP[n..]);
  }

  /** Padding with zeros leaves the leading n x n block of the product equal
      to the product of the unpadded matrices. */
  lemma PaddedProduct(A: Matrix, B: Matrix, m: nat)
    requires IsSquare(A, |A|) && IsSquare(B, |A|) && |A| <= m
    ensures Crop(Product(Pad(A, m), Pad(B, m)), |A|) == Product(A, B)
  {
    forall i, j | 0 <= i < |A| && 0 <= j < |A|
      ensures Product(Pad(A, m), Pad(B, m))[i][j] == Product(A, B)[i][j]
    {
      PaddedEntry(A, B, m, i, j);
    }
    EqualEntries(Crop(Product(Pad(A, m), Pad(B, m)), |A|), Product(A, B), |A|);
  }
}
