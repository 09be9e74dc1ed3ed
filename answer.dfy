/** The stand-alone Strassen program: a core that never pads (an odd order
    falls back to the classical product at whatever level of the recursion
    it appears) and an entry point that raises ValueError on a shape
    mismatch. The dense operations are the ones in module Dense. */
module Answer {
  import opened Dense
  import opened Blocks

  /** Recursive Strassen core without padding. At or below the cutoff, or at
      an odd order, it is the classical product; otherwise the operands are
      split into quadrants of order n / 2 and recombined from M1..M7. Every
      recursive call is on order n / 2, which lies in [1, n), so the
      recursion ends for every order n >= 1 and every cutoff. */
  function StrassenCore(A: Matrix, B: Matrix, cutoff: int): (C: Matrix)
    requires IsSquare(A, |A|) && IsSquare(B, |A|)
    requires |A| >= 1 || cutoff >= 0
    ensures C == Product(A, B)
    decreases |A|
  {
    var n := |A|;
    if n <= cutoff then Product(A, B)
    else if n % 2 == 1 then Product(A, B)
    else
      var m := n / 2;
      var a11, a12, a21, a22 := Quadrant(A, m, 0, 0), Quadrant(A, m, 0, m), Quadrant(A, m, m, 0), Quadrant(A, m, m, m);
      var b11, b12, b21, b22 := Quadrant(B, m, 0, 0), Quadrant(B, m, 0, m), Quadrant(B, m, m, 0), Quadrant(B, m, m, m);
      var M1 := StrassenCore(Add(a11, a22), Add(b11, b22), cutoff);
      var M2 := StrassenCore(Add(a21, a22), b11, cutoff);
      var M3 := StrassenCore(a11, Sub(b12, b22), cutoff);
      var M4 := StrassenCore(a22, Sub(b21, b11), cutoff);
      var M5 := StrassenCore(Add(a11, a12), b22, cutoff);
      var M6 := StrassenCore(Sub(a21, a11), Add(b11, b12), cutoff);
      var M7 := StrassenCore(Sub(a12, a22), Add(b21, b22), cutoff);
      StrassenIdentity(A, B, m, M1, M2, M3, M4, M5, M6, M7);
      StrassenJoin(M1, M2, M3, M4, M5, M6, M7, m)
  }

  /** Entry point: order 0 gives the empty matrix; a shape mismatch raises
      ValueError; otherwise the core runs on the operands as they are, so the
      result has the operands' own order, odd or not. Any cutoff is accepted. */
  function MatmulStrassen(A: Matrix, B: Matrix, cutoff: int): (r: Result<Matrix>)
    requires IsRectangular(A) && IsRectangular(B)
    ensures |A| == 0 ==> r == Ok([])
    ensures |A| > 0 ==> (r.Ok? <==> |B| == |A| && |A[0]| == |A| && |B[0]| == |A|)
    ensures |A| > 0 && r.Err? ==> r.error == ValueError
    ensures |A| > 0 && r.Ok? ==> IsSquare(B, |A|) && IsSquare(r.value, |A|) && r.value == Product(A, B)
  {
    var n := |A|;
    if n == 0 then Ok([])
    else if n != |B| || n != |A[0]| || n != |B[0]| then Err(ValueError)
    else Ok(StrassenCore(A, B, cutoff))
  }
}
