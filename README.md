# Divide-and-conquer integer matrix multiplication, in Dafny

This project models the multiplication engine of a small Python repository
that multiplies square integer matrices in three ways: the classical ikj
triple loop, Strassen's seven-product recursion, and the Strassen-Winograd
variant with ten block sums. The engine exists in two source files:

- `utility/matrix_benchmark.py` has both recursive cores. Its entry points
  zero-pad an order n that is not a power of two up to
  `1 << (n - 1).bit_length()`, multiply, and crop the result back to n x n.
- `utility/answer.py` has a second Strassen core that never pads. At an odd
  order it falls back to the classical loop, at any depth of the recursion.
  Its entry point raises `ValueError` on a shape mismatch, where the
  benchmark's entry points use `assert`.

Every algorithm is proved equal to one specification, `Dense.Product`. Its
entry (i, j) is the sum over k of `A[i][k] * B[k][j]`, accumulated in
increasing k exactly as the loop does.

Modules:

- `Dense` (dense.dfy): the `Matrix` type (a sequence of rows), the
  specification `Product`, elementwise `Add` and `Sub`, and the classical
  loop `MatmulClassic` as an imperative method. It also holds the ring laws
  the block algebra needs: distributivity of the product over addition and
  subtraction, on both sides. `answer.py` repeats `matmul_classic`,
  `add_matrix` and `sub_matrix` line for line (`utility/answer.py:6-30`), so
  these members model both copies.
- `Blocks` (blocks.dfy): splitting into quadrants and joining them back.
  Also the block form of the product, and the two combination identities:
  C11 = M1 + M4 + M7 - M5, ... for Strassen and C11 = P5 + P4 - P2 + P6, ...
  for Winograd.
- `Padding` (padding.dfy): the power-of-two test `n & (n - 1)`, the padded
  order, zero padding, cropping, and the fact that zero padding does not
  change the leading block of the product.
- `Benchmark` (benchmark.dfy): the two padded engines of
  `matrix_benchmark.py`, and the equality check the benchmark runs before
  timing.
- `Answer` (answer.dfy): the unpadded Strassen engine of `answer.py`.

The recursive cores are functions, because the source builds every block by
slicing, comprehension and recursion. The source's base case calls
`matmul_classic`. The model's base case uses `Product` in its place, and
`Dense.MatmulClassic` is proved to compute `Product`. Failures are values:
`Result<Matrix>` is either `Ok(value)` or `Err(AssertionError)` /
`Err(ValueError)`.

The dense operations and the splitter perform no check of their own:
`add_matrix`, `sub_matrix` and `matmul_classic` index their operands as they
are, so operands that are too short raise IndexError, and the split and join
do not check orders either. The model therefore states equal square orders
as preconditions of those members.
The only failures modelled are the entry points' shape checks.

## Model

| member | source | states |
|---|---|---|
| `Dense.Product` | utility/matrix_benchmark.py:67-85 | the reference product; its result is a square matrix of the operands' order |
| `Dense.MatmulClassic` | utility/matrix_benchmark.py:67-85 | the ikj loop over a zero-initialised matrix returns exactly `Product(A, B)`; loop invariants: finished rows equal the product's rows, later rows are still zero, and entry j of the current row holds the sum over the first k indices |
| `Dense.DotProductStep` | utility/answer.py:13-17 | one `rowC[j] += aik * rowB[j]` step extends the partial sum over the first k indices to the first k + 1 |
| `Dense.Add` | utility/matrix_benchmark.py:88-90 | the result has order n and entry (i, j) is `A[i][j] + B[i][j]`; the operands are values and stay unchanged |
| `Dense.Sub` | utility/matrix_benchmark.py:93-95 | the result has order n and entry (i, j) is `A[i][j] - B[i][j]` |
| `Dense.AddSubCancel` | utility/answer.py:21-30 | `sub_matrix` undoes `add_matrix`: `Sub(Add(A, B), B) == A` |
| `Dense.ProductAddLeft` | utility/matrix_benchmark.py:120-126 | (X + Y) Z == X Z + Y Z, the law behind products of sums such as M1 and M5 |
| `Dense.ProductSubLeft` | utility/matrix_benchmark.py:120-126 | (X - Y) Z == X Z - Y Z, the law behind M6 and M7 |
| `Dense.ProductAddRight` | utility/matrix_benchmark.py:120-126 | X (Y + Z) == X Y + X Z |
| `Dense.ProductSubRight` | utility/matrix_benchmark.py:120-126 | X (Y - Z) == X Y - X Z, the law behind M3 and M4 |
| `Dense.DotProductAppend` | utility/matrix_benchmark.py:107-117 | a dot product splits at the middle index into the sum of the dot products of the halves |
| `Blocks.Quadrant` | utility/matrix_benchmark.py:109-117 | a quadrant of a matrix of order 2m has order m, and its entry (i, j) is the parent's entry (r0 + i, c0 + j) |
| `Blocks.Join` | utility/matrix_benchmark.py:135 | joining four blocks of order m by row concatenation gives a matrix of order 2m |
| `Blocks.JoinEntry` | utility/matrix_benchmark.py:135 | each entry of the joined matrix comes from the quadrant that contains it |
| `Blocks.JoinQuadrants` | utility/matrix_benchmark.py:107-117 | joining a11, a12, a21, a22 of an even-order matrix gives it back |
| `Blocks.QuadrantsOfJoin` | utility/matrix_benchmark.py:135 | splitting a joined matrix gives back the four blocks it was joined from |
| `Blocks.BlockEntry` | utility/matrix_benchmark.py:107-117 | entry (r0 + i, c0 + j) of A B equals entry (i, j) of A_r1 B_1c + A_r2 B_2c |
| `Blocks.ProductByBlocks` | utility/matrix_benchmark.py:107-136 | the product of two matrices of even order equals the join of its four block products |
| `Blocks.StrassenJoin` | utility/matrix_benchmark.py:128-135 | the combination C11 = M1+M4+M7-M5, C12 = M3+M5, C21 = M2+M4, C22 = M1+M3-M2+M6, joined, has order 2m (its value is fixed by StrassenIdentity) |
| `Blocks.StrassenIdentity` | utility/matrix_benchmark.py:119-136 | when M1..M7 are the products of Strassen's sums of quadrants, the combination equals `Product(A, B)` |
| `Blocks.WinogradJoin` | utility/matrix_benchmark.py:200-210 | the combination C11 = P5+P4-P2+P6, C12 = P1+P2, C21 = P3+P4, C22 = P5+P1-P3-P7, joined, has order 2m (its value is fixed by WinogradIdentity) |
| `Blocks.WinogradIdentity` | utility/matrix_benchmark.py:179-211 | when P1..P7 are the products of Winograd's sums S1..S10 and quadrants, the combination equals `Product(A, B)` |
| `Padding.PowerOfTwoTest` | utility/matrix_benchmark.py:147 | for n >= 1, `n & (n - 1)` is zero exactly when n is a power of two (both directions) |
| `Padding.Pow2` | utility/matrix_benchmark.py:148 | `1 << k` is a power of two |
| `Padding.BitLength` | utility/matrix_benchmark.py:148 | `x.bit_length()` is the number b of binary digits of x: x < 2^b, and 2^(b - 1) <= x for x >= 1 |
| `Padding.BitAnd` | utility/matrix_benchmark.py:147 | `x & y` on non-negative integers is at most either operand |
| `Padding.BitAndSelf` | utility/matrix_benchmark.py:147 | `x & x == x`, the fact behind the odd case of the power-of-two test |
| `Padding.PaddedOrder` | utility/matrix_benchmark.py:148 | `1 << (n - 1).bit_length()` is a power of two m with n <= m < 2n, the least one not below n |
| `Padding.Zeros` | utility/matrix_benchmark.py:149 | `[0] * k` has length k and every entry 0 |
| `Padding.Pad` | utility/matrix_benchmark.py:149-150 | the padded matrix has order m, holds the operand in its leading n x n block and 0 everywhere else |
| `Padding.Crop` | utility/matrix_benchmark.py:152 | the cropped matrix has order n and is the leading n x n block |
| `Padding.CropPad` | utility/matrix_benchmark.py:149-152 | cropping a padded matrix gives back the original |
| `Padding.PaddedProduct` | utility/matrix_benchmark.py:147-152 | the leading n x n block of the padded product equals the product of the unpadded operands |
| `Benchmark.StrassenCore` | utility/matrix_benchmark.py:102-136 | for a power-of-two order and cutoff >= 1 the recursion returns exactly `Product(A, B)`, at or below the cutoff and above it |
| `Benchmark.MatmulStrassen` | utility/matrix_benchmark.py:139-154 | order 0 gives `[]`; otherwise it fails with AssertionError exactly when `len(B)`, `len(A[0])` or `len(B[0])` differs from n, and else returns `Product(A, B)`, padded and cropped or not |
| `Benchmark.WinogradCore` | utility/matrix_benchmark.py:162-211 | for a power-of-two order and cutoff >= 1 the Strassen-Winograd recursion returns exactly `Product(A, B)` |
| `Benchmark.MatmulWinograd` | utility/matrix_benchmark.py:214-228 | the same contract as MatmulStrassen, for the Winograd engine |
| `Benchmark.CheckAgainstClassic` | utility/matrix_benchmark.py:276-285 | on square operands of equal order, both fast results equal the classical loop's result, so the comparison never raises |
| `Answer.StrassenCore` | utility/answer.py:33-85 | for every order n >= 1 and every cutoff, with the odd-order fallback, the recursion returns exactly `Product(A, B)`; each recursive call has order n / 2 in [1, n) |
| `Answer.MatmulStrassen` | utility/answer.py:88-104 | order 0 gives `[]`; otherwise it raises ValueError exactly when `len(B)`, `len(A[0])` or `len(B[0])` differs from n, and else returns `Product(A, B)` of the same order n, without padding, for any cutoff |

## Left out

- `generate_matrix` (`utility/matrix_benchmark.py:61-64`) is left out: it draws seeded random numbers.
- `time_algo` and `run_benchmark` (`utility/matrix_benchmark.py:235-305`) are left out: they do garbage-collector control, clock reads, printing and float statistics. Only their exact-equality check (:276-285) is modelled, as `Benchmark.CheckAgainstClassic`.
- `read_matrix` and `main` (`utility/answer.py:1-3`, `:107-122`) are left out: they parse standard input and print to standard output.
- The module-level constants (`utility/matrix_benchmark.py:37-51`) are left out. The cutoff is a parameter instead.
- Speed is not modelled: the ikj loop order, allocation, and how many block additions each variant does.
- Ragged operands are not modelled. The entry points require every row to be as long as the first (`IsRectangular`), and under that precondition the source's first-row check is complete.
- Dense.MatmulClassic: `Ci` is an alias of `C[i]` in the source. The model updates a local copy of the row and writes it back once the row is finished. That gives the same final value.
- Benchmark.StrassenCore: requires cutoff >= 1 and a power-of-two order, which is all its entry point ever passes. With cutoff 0 a 1 x 1 block splits at m = 0 and the join returns `[]`. With a negative cutoff, the recursion on order 0 goes on until Python raises RecursionError at its depth limit. At an odd order above the cutoff the quadrants have unequal orders: `a21` has m + 1 rows of length m, so `add_matrix(a21, a22)` for M2 raises IndexError on `a21[0][m]`.
- Benchmark.WinogradCore: the same preconditions as Benchmark.StrassenCore, for the same reasons.
- Benchmark.MatmulStrassen: requires cutoff >= 1 (the default is 64). A cutoff of 0 or below would reach the cases described for Benchmark.StrassenCore.
- Benchmark.MatmulWinograd: requires cutoff >= 1, as Benchmark.MatmulStrassen does.
- Answer.StrassenCore: requires order >= 1 or cutoff >= 0. Order 0 with a negative cutoff recurses on order 0 until Python raises RecursionError at its depth limit. Answer.MatmulStrassen returns before calling the core at order 0, so the entry point accepts any cutoff.
- The `assert` in the benchmark's entry points is modelled as always checked. Python's `-O` switch, which strips asserts, is not modelled.
