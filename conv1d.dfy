/** The 1D convolution programs: the naive loop nest and the kernel-tiled loop nest, both
    writing C[i] = sum over j of A[i + j] * B[size_B - 1 - j] for the size_A - size_B + 1
    output positions. The inputs are read-only and modelled as sequences; the output is the
    caller's array. */
module Convolution1D {
  import opened ConvMath
  import opened Tiling
  import opened Compare

  /** The first loop of every 1D routine: the n output elements are set to zero. */
  method ZeroOutput1D(C: array<int>, n: int)
    requires 0 <= n <= C.Length
    modifies C
    ensures forall i :: 0 <= i < n ==> C[i] == 0
    ensures forall i :: n <= i < C.Length ==> C[i] == old(C[i])
  {
    for k := 0 to n
      invariant forall i :: 0 <= i < k ==> C[i] == 0
      invariant forall i :: n <= i < C.Length ==> C[i] == old(C[i])
    {
      C[k] := 0;
    }
  }

  /** naive_convolution_1d: every output position holds the full convolution sum. */
  method NaiveConvolution1D(A: seq<int>, B: seq<int>, C: array<int>)
    requires |B| <= |A| && C.Length == |A| - |B| + 1
    modifies C
    ensures forall i :: 0 <= i < C.Length ==> C[i] == Correlate1D(A, B, Convolution, i)
  {
    var n := |A| - |B| + 1;
    ZeroOutput1D(C, n);
    for i := 0 to n
      invariant forall m :: 0 <= m < i ==> C[m] == Correlate1D(A, B, Convolution, m)
      invariant forall m :: i <= m < n ==> C[m] == 0
    {
      ghost var before := C[..];
      for j := 0 to |B|
        invariant C[i] == PartialSum1D(A, B, Convolution, i, j)
        invariant forall m :: 0 <= m < n && m != i ==> C[m] == before[m]
      {
        C[i] := C[i] + A[i + j] * B[|B| - 1 - j];
      }
    }
  }

  /** tiled_convolution_1d: the kernel is walked in size_B / tile_B full tiles of tile_B
      offsets, each applied to every output position, then the remaining size_B % tile_B
      offsets; every output position ends with the same sum as the naive routine. tile_A is
      accepted and unused, as in the C code. */
  method TiledConvolution1D(A: seq<int>, B: seq<int>, C: array<int>, tileA: int, tileB: int)
    requires |B| <= |A| && C.Length == |A| - |B| + 1 && tileB >= 1
    modifies C
    ensures forall i :: 0 <= i < C.Length ==> C[i] == Correlate1D(A, B, Convolution, i)
  {
    var sizeB := |B|;
    var n := |A| - |B| + 1;
    ZeroOutput1D(C, n);
    for i := 0 to sizeB / tileB
      invariant forall m :: 0 <= m < n ==> C[m] == PartialSum1D(A, B, Convolution, m, i * tileB)
    {
      FullTileBoundary(sizeB, tileB, i);
      FullTileBoundary(sizeB, tileB, i + 1);
      for j := 0 to n
        invariant forall m :: 0 <= m < j ==> C[m] == PartialSum1D(A, B, Convolution, m, i * tileB + tileB)
        invariant forall m :: j <= m < n ==> C[m] == PartialSum1D(A, B, Convolution, m, i * tileB)
      {
        AddConvolutionTile(A, B, C, j, i * tileB, tileB);
      }
    }
    RemainderStart(sizeB, tileB);
    for i := 0 to n
      invariant forall m :: 0 <= m < i ==> C[m] == Correlate1D(A, B, Convolution, m)
      invariant forall m :: i <= m < n ==> C[m] == PartialSum1D(A, B, Convolution, m, sizeB - sizeB % tileB)
    {
      AddConvolutionRemainder(A, B, C, i, sizeB - sizeB % tileB);
    }
  }

  /** The innermost loop over one kernel tile: the tile's count products of output position
      j, from kernel offset start on, are added to C[j]; nothing else changes. */
  method AddConvolutionTile(A: seq<int>, B: seq<int>, C: array<int>, j: int, start: int, count: int)
    requires 0 <= j < C.Length == |A| - |B| + 1 && 0 <= start && 0 <= count && start + count <= |B|
    requires C[j] == PartialSum1D(A, B, Convolution, j, start)
    modifies C
    ensures C[j] == PartialSum1D(A, B, Convolution, j, start + count)
    ensures forall m :: 0 <= m < C.Length && m != j ==> C[m] == old(C[m])
  {
    for k := 0 to count
      invariant C[j] == PartialSum1D(A, B, Convolution, j, start + k)
      invariant forall m :: 0 <= m < C.Length && m != j ==> C[m] == old(C[m])
    {
      C[j] := C[j] + A[j + start + k] * B[|B| - 1 - (start + k)];
    }
  }

  /** The innermost loop of the remainder pass: the products of output position i from kernel
      offset start to the end of the kernel are added to C[i]; nothing else changes. */
  method AddConvolutionRemainder(A: seq<int>, B: seq<int>, C: array<int>, i: int, start: int)
    requires 0 <= i < C.Length == |A| - |B| + 1 && 0 <= start <= |B|
    requires C[i] == PartialSum1D(A, B, Convolution, i, start)
    modifies C
    ensures C[i] == Correlate1D(A, B, Convolution, i)
    ensures forall m :: 0 <= m < C.Length && m != i ==> C[m] == old(C[m])
  {
    for k := start to |B|
      invariant C[i] == PartialSum1D(A, B, Convolution, i, k)
      invariant forall m :: 0 <= m < C.Length && m != i ==> C[m] == old(C[m])
    {
      C[i] := C[i] + A[i + k] * B[|B| - 1 - k];
    }
  }

  /** main of the comparison program from the size check to the equality check: a kernel
      longer than the input is refused (exit status 1); otherwise both routines run on the
      same inputs and arrays_equal always reports identical results (status 0). The random
      input values are the parameters A and B. */
  method CompareConvolution1D(A: seq<int>, B: seq<int>, tileA: int, tileB: int)
    returns (status: int)
    requires tileB >= 1
    ensures status == 0 <==> KernelFits(|A|, |B|)
    ensures status == 0 || status == 1
  {
    if |B| > |A| {
      return 1;
    }
    var cNaive := new int[|A| - |B| + 1];
    var cTiled := new int[|A| - |B| + 1];
    NaiveConvolution1D(A, B, cNaive);
    TiledConvolution1D(A, B, cTiled, tileA, tileB);
    var equal := ArraysEqual(cNaive, cTiled, |A| - |B| + 1);
    if equal == 0 {
      return 1;
    }
    return 0;
  }

  /** The example of the tiled program: A = 1..8, B = [2, 1, 3], tile_B = 2 gives
      C[i] = 6 * i + 11. */
  method TiledConvolutionExample() returns (C: array<int>)
    ensures C.Length == 6 && C[..] == [11, 17, 23, 29, 35, 41]
  {
    var A := [1, 2, 3, 4, 5, 6, 7, 8];
    var B := [2, 1, 3];
    C := new int[|A| - |B| + 1];
    TiledConvolution1D(A, B, C, 4, 2);
    assert Correlate1D(A, B, Convolution, 0) == 11;
    assert Correlate1D(A, B, Convolution, 1) == 17;
    assert Correlate1D(A, B, Convolution, 2) == 23;
    assert Correlate1D(A, B, Convolution, 3) == 29;
    assert Correlate1D(A, B, Convolution, 4) == 35;
    assert Correlate1D(A, B, Convolution, 5) == 41;
  }
}
