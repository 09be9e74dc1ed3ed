/** The two divide-and-conquer engines of the benchmark script: Strassen
    (products M1..M7) and Strassen-Winograd (sums S1..S10, products P1..P7).
    Each entry point zero-pads an order that is not a power of two, so the
    recursive cores only ever see power-of-two orders. */
module Benchmark {
  import opened Dense
  import opened Blocks
  import opened Padding

  /** Recursive Strassen core. At or below the cutoff it is the classical
      product; otherwise both operands are split into quadrants of order
      n / 2 and recombined from seven recursive products. */
  function StrassenCore(A: Matrix, B: Matrix, cutoff: int): (C: Matrix)
    requires IsSquare(A, |A|) && IsSquare(B, |A|)
    requires IsPowerOfTwo(|A|) && cutoff >= 1
    ensures C == Product(A, B)
    decreases |A|
  {
    var n := |A|;
    if n <= cutoff then Product(A, B)
    else
      var m := n / 2;
      var a11, a12, a21, a22 := Quadrant(A, m, 0, 0), Quadrant(A, m, 0, m), Quadrant(A, m, m, 0), Quadrant(A, m, m, m);
      var b11, b12, b21, b22 := Quadrant(B, m, 0, 0), Quadrant(B, m, 0, m), Quadrant(B, m, m, 0), Quadrant(B, m, m, m);
      var M1 := StrassenCore(Add(a11, a22), Add(b11, b22), cutoff);
      var M2 := StrassenCore(Add(a21, a22), b11, cutoff);
      var M3 := StrassenCore(a11, Sub(b12, b22), cutoff);
      var M4 := StrassenCore(a22, Sub(b21, b11), cutoff);
      var M5 := StrassenCore(Add(a11, a12), b22, cutoff);
      var M6 := StrassenCore(Sub(a21, a11), Add(b11, b12), cutoff);
      var M7 := StrassenCore(Sub(a12, a22), Add(b21, b22), cutoff);
      StrassenIdentity(A, B, m, M1, M2, M3, M4, M5, M6, M7);
      StrassenJoin(M1, M2, M3, M4, M5, M6, M7, m)
  }

  /** Strassen entry point. Order 0 gives the empty matrix; a shape mismatch
      fails the assertion; an order that is not a power of two is padded to
      the next one and the result cropped back. */
  function MatmulStrassen(A: Matrix, B: Matrix, cutoff: int): (r: Result<Matrix>)
    requires IsRectangular(A) && IsRectangular(B) && cutoff >= 1
    ensures |A| == 0 ==> r == Ok([])
    ensures |A| > 0 ==> (r.Ok? <==> |B| == |A| && |A[0]| == |A| && |B[0]| == |A|)
    ensures |A| > 0 && r.Err? ==> r.error == AssertionError
    ensures |A| > 0 && r.Ok? ==> IsSquare(B, |A|) && r.value == Product(A, B)
  {
    var n := |A|;
    if n == 0 then Ok([])
    else if !(n == |B| && n == |A[0]| && n == |B[0]|) then Err(AssertionError)
    else
      PowerOfTwoTest(n);
      if BitAnd(n, n - 1) != 0 then
        var m := PaddedOrder(n);
        var Cp := StrassenCore(Pad(A, m), Pad(B, m), cutoff);
        PaddedProduct(A, B, m);
        Ok(Crop(Cp, n))
      else
        Ok(StrassenCore(A, B, cutoff))
  }

  /** Recursive Strassen-Winograd core: the same cutoff and split as
      StrassenCore, with the ten sums S1..S10 feeding seven products P1..P7. */
  function WinogradCore(A: Matrix, B: Matrix, cutoff: int): (C: Matrix)
    requires IsSquare(A, |A|) && IsSquare(B, |A|)
    requires IsPowerOfTwo(|A|) && cutoff >= 1
    ensures C == Product(A, B)
    decreases |A|
  {
    var n := |A|;
    if n <= cutoff then Product(A, B)
    else
      var m := n / 2;
      var a11, a12, a21, a22 := Quadrant(A, m, 0, 0), Quadrant(A, m, 0, m), Quadrant(A, m, m, 0), Quadrant(A, m, m, m);
      var b11, b12, b21, b22 := Quadrant(B, m, 0, 0), Quadrant(B, m, 0, m), Quadrant(B, m, m, 0), Quadrant(B, m, m, m);
      var S1, S2, S3, S4, S5 := Sub(b12, b22), Add(a11, a12), Add(a21, a22), Sub(b21, b11), Add(a11, a22);
      var S6, S7, S8, S9, S10 := Add(b11, b22), Sub(a12, a22), Add(b21, b22), Sub(a11, a21), Add(b11, b12);
      var P1 := WinogradCore(a11, S1, cutoff);
      var P2 := WinogradCore(S2, b22, cutoff);
      var P3 := WinogradCore(S3, b11, cutoff);
      var P4 := WinogradCore(a22, S4, cutoff);
      var P5 := WinogradCore(S5, S6, cutoff);
      var P6 := WinogradCore(S7, S8, cutoff);
      var P7 := WinogradCore(S9, S10, cutoff);
      WinogradIdentity(A, B, m, P1, P2, P3, P4, P5, P6, P7);
      WinogradJoin(P1, P2, P3, P4, P5, P6, P7, m)
  }

  /** Strassen-Winograd entry point, with the same checks and padding as
      MatmulStrassen. */
  function MatmulWinograd(A: Matrix, B: Matrix, cutoff: int): (r: Result<Matrix>)
    requires IsRectangular(A) && IsRectangular(B) && cutoff >= 1
    ensures |A| == 0 ==> r == Ok([])
    ensures |A| > 0 ==> (r.Ok? <==> |B| == |A| && |A[0]| == |A| && |B[0]| == |A|)
    ensures |A| > 0 && r.Err? ==> r.error == AssertionError
    ensures |A| > 0 && r.Ok? ==> IsSquare(B, |A|) && r.value == Product(A, B)
  {
    var n := |A|;
    if n == 0 then Ok([])
    else if !(n == |B| && n == |A[0]| && n == |B[0]|) then Err(AssertionError)
    else
      PowerOfTwoTest(n);
      if BitAnd(n, n - 1) != 0 then
        var m := PaddedOrder(n);
        var Cp := WinogradCore(Pad(A, m), Pad(B, m), cutoff);
        PaddedProduct(A, B, m);
        Ok(Crop(Cp, n))
      else
        Ok(WinogradCore(A, B, cutoff))
  }

  /** The benchmark's correctness check: both fast algorithms are compared
      for exact equality with the classical loop, and neither comparison can
      fail on square operands of equal order. */
  method CheckAgainstClassic(A: Matrix, B: Matrix, cutoffStrassen: int, cutoffWinograd: int)
    returns (ok: bool)
    requires IsSquare(A, |A|) && IsSquare(B, |A|)
    requires cutoffStrassen >= 1 && cutoffWinograd >= 1
    ensures ok
  {
    var reference := MatmulClassic(A, B);
    var strassen := MatmulStrassen(A, B, cutoffStrassen);
    var winograd := MatmulWinograd(A, B, cutoffWinograd);
    ok := strassen == Ok(reference) && winograd == Ok(reference);
  }
}
