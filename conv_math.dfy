/** The arithmetic every routine of the repository shares: which kernel element an offset
    reads, how large the output is, and the reference sums ("the mathematical convolution")
    that the C loop nests and the visualizer's steppers are proved against. */
module ConvMath {

  /** The visualizer's operation selector; the C programs hard-wire one of the two. */
  datatype Operation = CrossCorrelation | Convolution

  /** Index of the kernel element read at kernel offset k: convolution reads the kernel
      reversed (kernelSize - 1 - k), cross-correlation reads it as it is (k). */
  function KernelIndex(op: Operation, kernelSize: int, k: int): (r: int)
    ensures 0 <= k < kernelSize ==> 0 <= r < kernelSize
    ensures r == k <==> (op != Convolution || 2 * k == kernelSize - 1)
  {
    if op == Convolution then kernelSize - 1 - k else k
  }

  /** Output extent along one axis: input extent - kernel extent + 1. */
  function OutputExtent(inputSize: int, kernelSize: int): (r: int)
    ensures r >= 1 <==> kernelSize <= inputSize
  {
    inputSize - kernelSize + 1
  }

  /** Every sliding-window read stays inside the input: an output position x and a kernel
      offset k read input position x + k. */
  lemma WindowInBounds(inputSize: int, kernelSize: int, x: int, k: int)
    requires 0 <= x < OutputExtent(inputSize, kernelSize) && 0 <= k < kernelSize
    ensures 0 <= x + k < inputSize
  {
  }

  /** The size check the C mains perform before computing (reject a kernel larger than the
      input): it accepts exactly the sizes that give a non-empty output. */
  function KernelFits(inputSize: int, kernelSize: int): (accepted: bool)
    ensures accepted <==> OutputExtent(inputSize, kernelSize) >= 1
  {
    !(kernelSize > inputSize)
  }

  // ---------------------------------------------------------------------------------------
  // One dimension

  /** The product for output position i and kernel offset j. */
  function Term1D(a: seq<int>, b: seq<int>, op: Operation, i: int, j: int): int
    requires 0 <= i && 0 <= j < |b| && i + j < |a|
  {
    a[i + j] * b[KernelIndex(op, |b|, j)]
  }

  /** Sum of the products of output position i over the kernel offsets 0 <= j < n. */
  function PartialSum1D(a: seq<int>, b: seq<int>, op: Operation, i: int, n: int): int
    requires 0 <= i && i + |b| <= |a| && n <= |b|
    decreases n
  {
    if n <= 0 then 0 else PartialSum1D(a, b, op, i, n - 1) + Term1D(a, b, op, i, n - 1)
  }

  /** Output cell i of the 1D convolution / cross-correlation of a with kernel b. */
  function Correlate1D(a: seq<int>, b: seq<int>, op: Operation, i: int): int
    requires 0 <= i && i + |b| <= |a|
  {
    PartialSum1D(a, b, op, i, |b|)
  }

  // ---------------------------------------------------------------------------------------
  // Two dimensions (rows first, as in A[i][j])

  /** m is an h-by-w matrix. */
  predicate IsMatrix(m: seq<seq<int>>, h: int, w: int)
  {
    |m| == h && forall r :: 0 <= r < h ==> |m[r]| == w
  }

  /** b is a kh-by-kw kernel and the window of output cell (i, j) lies inside a. */
  predicate Window2D(a: seq<seq<int>>, b: seq<seq<int>>, kh: int, kw: int, i: int, j: int)
  {
    IsMatrix(b, kh, kw) && 0 <= i && 0 <= j && i + kh <= |a| &&
    forall r :: i <= r < i + kh ==> j + kw <= |a[r]|
  }

  /** The product for output cell (i, j) and kernel offset (ki, kj). */
  function Term2D(a: seq<seq<int>>, b: seq<seq<int>>, op: Operation, kh: int, kw: int,
                  i: int, j: int, ki: int, kj: int): int
    requires Window2D(a, b, kh, kw, i, j) && 0 <= ki < kh && 0 <= kj < kw
  {
    a[i + ki][j + kj] * b[KernelIndex(op, kh, ki)][KernelIndex(op, kw, kj)]
  }

  /** Sum over kernel row ki of the products for kernel columns 0 <= kj < n. */
  function RowSum2D(a: seq<seq<int>>, b: seq<seq<int>>, op: Operation, kh: int, kw: int,
                    i: int, j: int, ki: int, n: int): int
    requires Window2D(a, b, kh, kw, i, j) && 0 <= ki < kh && n <= kw
    decreases n
  {
    if n <= 0 then 0
    else RowSum2D(a, b, op, kh, kw, i, j, ki, n - 1) + Term2D(a, b, op, kh, kw, i, j, ki, n - 1)
  }

  /** Sum of the products of output cell (i, j) over the full kernel rows 0 <= ki < m. */
  function PartialSum2D(a: seq<seq<int>>, b: seq<seq<int>>, op: Operation, kh: int, kw: int,
                        i: int, j: int, m: int): int
    requires Window2D(a, b, kh, kw, i, j) && m <= kh
    decreases m
  {
    if m <= 0 then 0
    else PartialSum2D(a, b, op, kh, kw, i, j, m - 1) + RowSum2D(a, b, op, kh, kw, i, j, m - 1, kw)
  }

  /** Output cell (i, j) of the 2D convolution / cross-correlation of a with kernel b. */
  function Correlate2D(a: seq<seq<int>>, b: seq<seq<int>>, op: Operation, kh: int, kw: int,
                       i: int, j: int): int
    requires Window2D(a, b, kh, kw, i, j)
  {
    PartialSum2D(a, b, op, kh, kw, i, j, kh)
  }

  /** A whole kernel row is the next full row of the partial sum. */
  lemma PartialSum2DNextRow(a: seq<seq<int>>, b: seq<seq<int>>, op: Operation, kh: int, kw: int,
                            i: int, j: int, ki: int)
    requires Window2D(a, b, kh, kw, i, j) && 0 <= ki < kh
    ensures PartialSum2D(a, b, op, kh, kw, i, j, ki) + RowSum2D(a, b, op, kh, kw, i, j, ki, kw)
         == PartialSum2D(a, b, op, kh, kw, i, j, ki + 1)
  {
  }

  /** Every cell of an h-by-w input has output windows inside it when the kernel fits. */
  lemma MatrixWindow(a: seq<seq<int>>, h: int, w: int, b: seq<seq<int>>, kh: int, kw: int,
                     i: int, j: int)
    requires IsMatrix(a, h, w) && IsMatrix(b, kh, kw)
    requires 0 <= i < OutputExtent(h, kh) && 0 <= j < OutputExtent(w, kw)
    ensures Window2D(a, b, kh, kw, i, j)
  {
  }

  // ---------------------------------------------------------------------------------------
  // Three dimensions over nested cubes (the visualizer's volumes, indexed [z][y][x])

  /** v is an n-by-n-by-n volume. */
  predicate IsCube(v: seq<seq<seq<int>>>, n: int)
  {
    |v| == n &&
    forall p :: 0 <= p < n ==> |v[p]| == n && forall q :: 0 <= q < n ==> |v[p][q]| == n
  }

  /** The input is an n-cube, the kernel a k-cube, and output cell (z, y, x) exists. */
  predicate Window3D(input: seq<seq<seq<int>>>, kernel: seq<seq<seq<int>>>, k: int,
                     z: int, y: int, x: int)
  {
    IsCube(input, |input|) && IsCube(kernel, k) &&
    0 <= z < |input| - k + 1 && 0 <= y < |input| - k + 1 && 0 <= x < |input| - k + 1
  }

  /** The product for output cell (z, y, x) and kernel offset (kz, ky, kx). */
  function Term3D(input: seq<seq<seq<int>>>, kernel: seq<seq<seq<int>>>, op: Operation, k: int,
                  z: int, y: int, x: int, kz: int, ky: int, kx: int): int
    requires Window3D(input, kernel, k, z, y, x)
    requires 0 <= kz < k && 0 <= ky < k && 0 <= kx < k
  {
    input[z + kz][y + ky][x + kx] *
    kernel[KernelIndex(op, k, kz)][KernelIndex(op, k, ky)][KernelIndex(op, k, kx)]
  }

  /** Sum over the kernel row (kz, ky) of the products for 0 <= kx < n. */
  function RowSum3D(input: seq<seq<seq<int>>>, kernel: seq<seq<seq<int>>>, op: Operation, k: int,
                    z: int, y: int, x: int, kz: int, ky: int, n: int): int
    requires Window3D(input, kernel, k, z, y, x) && 0 <= kz < k && 0 <= ky < k && n <= k
    decreases n
  {
    if n <= 0 then 0
    else RowSum3D(input, kernel, op, k, z, y, x, kz, ky, n - 1)
         + Term3D(input, kernel, op, k, z, y, x, kz, ky, n - 1)
  }

  /** Sum over the kernel plane kz of the full rows 0 <= ky < n. */
  function PlaneSum3D(input: seq<seq<seq<int>>>, kernel: seq<seq<seq<int>>>, op: Operation, k: int,
                      z: int, y: int, x: int, kz: int, n: int): int
    requires Window3D(input, kernel, k, z, y, x) && 0 <= kz < k && n <= k
    decreases n
  {
    if n <= 0 then 0
    else PlaneSum3D(input, kernel, op, k, z, y, x, kz, n - 1)
         + RowSum3D(input, kernel, op, k, z, y, x, kz, n - 1, k)
  }

  /** Sum over the full kernel planes 0 <= kz < n. */
  function PartialSum3D(input: seq<seq<seq<int>>>, kernel: seq<seq<seq<int>>>, op: Operation, k: int,
                        z: int, y: int, x: int, n: int): int
    requires Window3D(input, kernel, k, z, y, x) && n <= k
    decreases n
  {
    if n <= 0 then 0
    else PartialSum3D(input, kernel, op, k, z, y, x, n - 1)
         + PlaneSum3D(input, kernel, op, k, z, y, x, n - 1, k)
  }

  /** Output cell (z, y, x) of the 3D convolution / cross-correlation of two cubes. */
  function Correlate3D(input: seq<seq<seq<int>>>, kernel: seq<seq<seq<int>>>, op: Operation, k: int,
                       z: int, y: int, x: int): int
    requires Window3D(input, kernel, k, z, y, x)
  {
    PartialSum3D(input, kernel, op, k, z, y, x, k)
  }
}
