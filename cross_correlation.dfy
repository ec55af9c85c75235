/** The 1D cross-correlation programs: the same two loop nests as the convolution programs,
    reading the kernel unreversed: C[i] = sum over j of A[i + j] * B[j]. */
module CrossCorrelation1D {
  import opened ConvMath
  import opened Tiling
  import opened Compare
  import Convolution1D

  /** naive_cross_correlation_1d: every output position holds the full cross-correlation sum. */
  method NaiveCrossCorrelation1D(A: seq<int>, B: seq<int>, C: array<int>)
    requires |B| <= |A| && C.Length == |A| - |B| + 1
    modifies C
    ensures forall i :: 0 <= i < C.Length ==> C[i] == Correlate1D(A, B, CrossCorrelation, i)
  {
    var n := |A| - |B| + 1;
    Convolution1D.ZeroOutput1D(C, n);
    for i := 0 to n
      invariant forall m :: 0 <= m < i ==> C[m] == Correlate1D(A, B, CrossCorrelation, m)
      invariant forall m :: i <= m < n ==> C[m] == 0
    {
      ghost var before := C[..];
      for j := 0 to |B|
        invariant C[i] == PartialSum1D(A, B, CrossCorrelation, i, j)
        invariant forall m :: 0 <= m < n && m != i ==> C[m] == before[m]
      {
        C[i] := C[i] + A[i + j] * B[j];
      }
    }
  }

  /** tiled_cross_correlation_1d: size_B / tile_B full kernel tiles, then the remainder
      offsets, as in the convolution routine; tile_A is unused. */
  method TiledCrossCorrelation1D(A: seq<int>, B: seq<int>, C: array<int>, tileA: int, tileB: int)
    requires |B| <= |A| && C.Length == |A| - |B| + 1 && tileB >= 1
    modifies C
    ensures forall i :: 0 <= i < C.Length ==> C[i] == Correlate1D(A, B, CrossCorrelation, i)
  {
    var sizeB := |B|;
    var n := |A| - |B| + 1;
    Convolution1D.ZeroOutput1D(C, n);
    for i := 0 to sizeB / tileB
      invariant forall m :: 0 <= m < n ==> C[m] == PartialSum1D(A, B, CrossCorrelation, m, i * tileB)
    {
      FullTileBoundary(sizeB, tileB, i);
      FullTileBoundary(sizeB, tileB, i + 1);
      for j := 0 to n
        invariant forall m :: 0 <= m < j ==> C[m] == PartialSum1D(A, B, CrossCorrelation, m, i * tileB + tileB)
        invariant forall m :: j <= m < n ==> C[m] == PartialSum1D(A, B, CrossCorrelation, m, i * tileB)
      {
        AddCrossCorrelationTile(A, B, C, j, i * tileB, tileB);
      }
    }
    RemainderStart(sizeB, tileB);
    for i := 0 to n
      invariant forall m :: 0 <= m < i ==> C[m] == Correlate1D(A, B, CrossCorrelation, m)
      invariant forall m :: i <= m < n ==> C[m] == PartialSum1D(A, B, CrossCorrelation, m, sizeB - sizeB % tileB)
    {
      AddCrossCorrelationRemainder(A, B, C, i, sizeB - sizeB % tileB);
    }
  }

  /** The innermost loop over one kernel tile: the tile's count products of output position
      j, from kernel offset start on, are added to C[j]; nothing else changes. */
  method AddCrossCorrelationTile(A: seq<int>, B: seq<int>, C: array<int>, j: int, start: int, count: int)
    requires 0 <= j < C.Length == |A| - |B| + 1 && 0 <= start && 0 <= count && start + count <= |B|
    requires C[j] == PartialSum1D(A, B, CrossCorrelation, j, start)
    modifies C
    ensures C[j] == PartialSum1D(A, B, CrossCorrelation, j, start + count)
    ensures forall m :: 0 <= m < C.Length && m != j ==> C[m] == old(C[m])
  {
    for k := 0 to count
      invariant C[j] == PartialSum1D(A, B, CrossCorrelation, j, start + k)
      invariant forall m :: 0 <= m < C.Length && m != j ==> C[m] == old(C[m])
    {
      C[j] := C[j] + A[j + start + k] * B[start + k];
    }
  }

  /** The innermost loop of the remainder pass: the products of output position i from kernel
      offset start to the end of the kernel are added to C[i]; nothing else changes. */
  method AddCrossCorrelationRemainder(A: seq<int>, B: seq<int>, C: array<int>, i: int, start: int)
    requires 0 <= i < C.Length == |A| - |B| + 1 && 0 <= start <= |B|
    requires C[i] == PartialSum1D(A, B, CrossCorrelation, i, start)
    modifies C
    ensures C[i] == Correlate1D(A, B, CrossCorrelation, i)
    ensures forall m :: 0 <= m < C.Length && m != i ==> C[m] == old(C[m])
  {
    for k := start to |B|
      invariant C[i] == PartialSum1D(A, B, CrossCorrelation, i, k)
      invariant forall m :: 0 <= m < C.Length && m != i ==> C[m] == old(C[m])
    {
      C[i] := C[i] + A[i + k] * B[k];
    }
  }

  /** main of the comparison program from the size check to the equality check: a kernel
      longer than the input is refused (exit status 1); otherwise both routines run on the
      same inputs and arrays_equal always reports identical results (status 0). The random
      input values are the parameters A and B. */
  method CompareCrossCorrelation1D(A: seq<int>, B: seq<int>, tileA: int, tileB: int)
    returns (status: int)
    requires tileB >= 1
    ensures status == 0 <==> KernelFits(|A|, |B|)
    ensures status == 0 || status == 1
  {
    if |B| > |A| {
      return 1;
    }
    var cNaive := new int[|A| - |B| + 1];
    var cTiled := new int[|A| - |B| + 1];
    NaiveCrossCorrelation1D(A, B, cNaive);
    TiledCrossCorrelation1D(A, B, cTiled, tileA, tileB);
    var equal := ArraysEqual(cNaive, cTiled, |A| - |B| + 1);
    if equal == 0 {
      return 1;
    }
    return 0;
  }

  /** The example of the tiled program: A = 1..8, B = [2, 1, 3], tile_B = 2 gives
      C[i] = 6 * i + 13. */
  method TiledCrossCorrelationExample() returns (C: array<int>)
    ensures C.Length == 6 && C[..] == [13, 19, 25, 31, 37, 43]
  {
    var A := [1, 2, 3, 4, 5, 6, 7, 8];
    var B := [2, 1, 3];
    C := new int[|A| - |B| + 1];
    TiledCrossCorrelation1D(A, B, C, 4, 2);
    assert Correlate1D(A, B, CrossCorrelation, 0) == 13;
    assert Correlate1D(A, B, CrossCorrelation, 1) == 19;
    assert Correlate1D(A, B, CrossCorrelation, 2) == 25;
    assert Correlate1D(A, B, CrossCorrelation, 3) == 31;
    assert Correlate1D(A, B, CrossCorrelation, 4) == 37;
    assert Correlate1D(A, B, CrossCorrelation, 5) == 43;
  }
}
