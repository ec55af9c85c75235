/** The 2D convolution programs: the naive four-deep loop nest, and the output-tiled nest
    that walks the output in tile_height-by-tile_width tiles (clipped at the bottom and right
    edges) and applies one kernel element at a time to a whole tile. Inputs are read-only
    matrices (sequences of rows); the output is the caller's array2. */
module Convolution2D {
  import opened ConvMath
  import opened Tiling
  import opened Compare

  /** Every output cell of an hA-by-wA input has its window inside the input. */
  lemma MatrixWindows(A: seq<seq<int>>, hA: int, wA: int, B: seq<seq<int>>, hB: int, wB: int)
    requires IsMatrix(A, hA, wA) && IsMatrix(B, hB, wB)
    ensures forall i, j :: 0 <= i < OutputExtent(hA, hB) && 0 <= j < OutputExtent(wA, wB) ==>
      Window2D(A, B, hB, wB, i, j)
  {
  }

  /** The first loop nest of every 2D routine: all output cells are set to zero. */
  method ZeroOutput2D(C: array2<int>)
    modifies C
    ensures forall i, j :: 0 <= i < C.Length0 && 0 <= j < C.Length1 ==> C[i, j] == 0
  {
    for i := 0 to C.Length0
      invariant forall i', j' :: 0 <= i' < i && 0 <= j' < C.Length1 ==> C[i', j'] == 0
    {
      for j := 0 to C.Length1
        invariant forall i', j' :: 0 <= i' < i && 0 <= j' < C.Length1 ==> C[i', j'] == 0
        invariant forall j' :: 0 <= j' < j ==> C[i, j'] == 0
      {
        C[i, j] := 0;
      }
    }
  }

  /** The two kernel loops of the naive routine for one output cell (i, j): they add the
      full flipped-kernel sum to C[i][j] and touch no other cell. */
  method AccumulateCell2D(A: seq<seq<int>>, B: seq<seq<int>>, hB: int, wB: int,
                          C: array2<int>, i: int, j: int)
    requires Window2D(A, B, hB, wB, i, j) && 0 <= i < C.Length0 && 0 <= j < C.Length1
    modifies C
    ensures C[i, j] == old(C[i, j]) + Correlate2D(A, B, Convolution, hB, wB, i, j)
    ensures forall i', j' :: 0 <= i' < C.Length0 && 0 <= j' < C.Length1 && (i' != i || j' != j) ==>
      C[i', j'] == old(C[i', j'])
  {
    for ki := 0 to hB
      invariant C[i, j] == old(C[i, j]) + PartialSum2D(A, B, Convolution, hB, wB, i, j, ki)
      invariant forall i', j' :: 0 <= i' < C.Length0 && 0 <= j' < C.Length1 && (i' != i || j' != j) ==>
        C[i', j'] == old(C[i', j'])
    {
      assert |B[ki]| == wB;
      for kj := 0 to wB
        invariant C[i, j] == old(C[i, j]) + PartialSum2D(A, B, Convolution, hB, wB, i, j, ki)
                                          + RowSum2D(A, B, Convolution, hB, wB, i, j, ki, kj)
        invariant forall i', j' :: 0 <= i' < C.Length0 && 0 <= j' < C.Length1 && (i' != i || j' != j) ==>
          C[i', j'] == old(C[i', j'])
      {
        C[i, j] := C[i, j] + A[i + ki][j + kj] * B[hB - 1 - ki][wB - 1 - kj];
      }
      PartialSum2DNextRow(A, B, Convolution, hB, wB, i, j, ki);
    }
  }

  /** naive_convolution_2d (and convolution_2d, the same loop nest): every output cell holds
      the sum of A[i + ki][j + kj] * B[hB - 1 - ki][wB - 1 - kj], and every read of A lies
      inside the input. */
  method NaiveConvolution2D(A: seq<seq<int>>, hA: int, wA: int, B: seq<seq<int>>, hB: int, wB: int,
                            C: array2<int>)
    requires IsMatrix(A, hA, wA) && IsMatrix(B, hB, wB) && hB <= hA && wB <= wA
    requires C.Length0 == hA - hB + 1 && C.Length1 == wA - wB + 1
    modifies C
    ensures forall i, j :: 0 <= i < C.Length0 && 0 <= j < C.Length1 ==>
      Window2D(A, B, hB, wB, i, j) && C[i, j] == Correlate2D(A, B, Convolution, hB, wB, i, j)
  {
    MatrixWindows(A, hA, wA, B, hB, wB);
    ZeroOutput2D(C);
    for i := 0 to hA - hB + 1
      invariant forall i', j' :: 0 <= i' < C.Length0 && 0 <= j' < C.Length1 ==>
        C[i', j'] == if i' < i then Correlate2D(A, B, Convolution, hB, wB, i', j') else 0
    {
      for j := 0 to wA - wB + 1
        invariant forall i', j' :: 0 <= i' < C.Length0 && 0 <= j' < C.Length1 ==>
          C[i', j'] == if i' < i || (i' == i && j' < j) then Correlate2D(A, B, Convolution, hB, wB, i', j') else 0
      {
        AccumulateCell2D(A, B, hB, wB, C, i, j);
      }
    }
  }

  /** The innermost pair of loops of the tiled routine: kernel element (ki, kj), read flipped,
      is multiplied into every cell of the h-by-w tile at (iTile, jTile), and only there. */
  method ApplyKernelElement2D(A: seq<seq<int>>, hA: int, wA: int, B: seq<seq<int>>, hB: int, wB: int,
                              C: array2<int>, iTile: int, jTile: int, h: int, w: int, ki: int, kj: int)
    requires IsMatrix(A, hA, wA) && IsMatrix(B, hB, wB) && hB <= hA && wB <= wA
    requires C.Length0 == hA - hB + 1 && C.Length1 == wA - wB + 1
    requires 0 <= iTile && 0 <= h && iTile + h <= C.Length0
    requires 0 <= jTile && 0 <= w && jTile + w <= C.Length1
    requires 0 <= ki < hB && 0 <= kj < wB
    modifies C
    ensures forall i, j :: 0 <= i < C.Length0 && 0 <= j < C.Length1 ==>
      C[i, j] == old(C[i, j]) + if iTile <= i < iTile + h && jTile <= j < jTile + w
                                then Term2D(A, B, Convolution, hB, wB, i, j, ki, kj) else 0
  {
    MatrixWindows(A, hA, wA, B, hB, wB);
    var kernelVal := B[hB - 1 - ki][wB - 1 - kj];
    for iLocal := 0 to h
      invariant forall i, j :: 0 <= i < C.Length0 && 0 <= j < C.Length1 ==>
        C[i, j] == old(C[i, j]) + if iTile <= i < iTile + iLocal && jTile <= j < jTile + w
                                  then Term2D(A, B, Convolution, hB, wB, i, j, ki, kj) else 0
    {
      for jLocal := 0 to w
        invariant forall i, j :: 0 <= i < C.Length0 && 0 <= j < C.Length1 ==>
          C[i, j] == old(C[i, j]) +
            if (iTile <= i < iTile + iLocal && jTile <= j < jTile + w) || (i == iTile + iLocal && jTile <= j < jTile + jLocal)
            then Term2D(A, B, Convolution, hB, wB, i, j, ki, kj) else 0
      {
        var iGlobal := iTile + iLocal;
        var jGlobal := jTile + jLocal;
        C[iGlobal, jGlobal] := C[iGlobal, jGlobal] + A[iGlobal + ki][jGlobal + kj] * kernelVal;
      }
    }
  }

  /** The kernel loops of the tiled routine for one output tile: every cell of the tile
      receives one product per kernel element, hB * wB in all, which add up to its full
      convolution sum; cells outside the tile are untouched. */
  method ApplyTile2D(A: seq<seq<int>>, hA: int, wA: int, B: seq<seq<int>>, hB: int, wB: int,
                     C: array2<int>, iTile: int, jTile: int, h: int, w: int)
    requires IsMatrix(A, hA, wA) && IsMatrix(B, hB, wB) && hB <= hA && wB <= wA
    requires C.Length0 == hA - hB + 1 && C.Length1 == wA - wB + 1
    requires 0 <= iTile && 0 <= h && iTile + h <= C.Length0
    requires 0 <= jTile && 0 <= w && jTile + w <= C.Length1
    modifies C
    ensures forall i, j :: 0 <= i < C.Length0 && 0 <= j < C.Length1 ==>
      Window2D(A, B, hB, wB, i, j) &&
      C[i, j] == old(C[i, j]) + if iTile <= i < iTile + h && jTile <= j < jTile + w
                                then Correlate2D(A, B, Convolution, hB, wB, i, j) else 0
  {
    MatrixWindows(A, hA, wA, B, hB, wB);
    for ki := 0 to hB
      invariant forall i, j :: 0 <= i < C.Length0 && 0 <= j < C.Length1 ==>
        C[i, j] == old(C[i, j]) + if iTile <= i < iTile + h && jTile <= j < jTile + w
                                  then PartialSum2D(A, B, Convolution, hB, wB, i, j, ki) else 0
    {
      assert |B[ki]| == wB;
      for kj := 0 to wB
        invariant forall i, j :: 0 <= i < C.Length0 && 0 <= j < C.Length1 ==>
          C[i, j] == old(C[i, j]) + if iTile <= i < iTile + h && jTile <= j < jTile + w
                                    then PartialSum2D(A, B, Convolution, hB, wB, i, j, ki)
                                         + RowSum2D(A, B, Convolution, hB, wB, i, j, ki, kj) else 0
      {
        ApplyKernelElement2D(A, hA, wA, B, hB, wB, C, iTile, jTile, h, w, ki, kj);
      }
    }
  }

  /** tiled_convolution_2d: the output is cut into tiles starting at multiples of the tile
      sizes, edge tiles clipped; every output cell lies in exactly one tile, so every cell
      ends with the same sum as in the naive routine, for any tile sizes >= 1. */
  method TiledConvolution2D(A: seq<seq<int>>, hA: int, wA: int, B: seq<seq<int>>, hB: int, wB: int,
                            C: array2<int>, tileHeight: int, tileWidth: int)
    requires IsMatrix(A, hA, wA) && IsMatrix(B, hB, wB) && hB <= hA && wB <= wA
    requires C.Length0 == hA - hB + 1 && C.Length1 == wA - wB + 1
    requires tileHeight >= 1 && tileWidth >= 1
    modifies C
    ensures forall i, j :: 0 <= i < C.Length0 && 0 <= j < C.Length1 ==>
      Window2D(A, B, hB, wB, i, j) && C[i, j] == Correlate2D(A, B, Convolution, hB, wB, i, j)
  {
    MatrixWindows(A, hA, wA, B, hB, wB);
    ZeroOutput2D(C);
    var heightC := hA - hB + 1;
    var widthC := wA - wB + 1;
    var iTile := 0;
    while iTile < heightC
      invariant 0 <= iTile
      invariant forall i, j :: 0 <= i < heightC && 0 <= j < widthC ==>
        C[i, j] == if i < iTile then Correlate2D(A, B, Convolution, hB, wB, i, j) else 0
    {
      var jTile := 0;
      var currTileHeight := if iTile + tileHeight > heightC then heightC - iTile else tileHeight;
      assert currTileHeight == ClippedExtent(iTile, tileHeight, heightC);
      while jTile < widthC
        invariant 0 <= jTile
        invariant forall i, j :: 0 <= i < heightC && 0 <= j < widthC ==>
          C[i, j] == if i < iTile || (i < iTile + currTileHeight && j < jTile)
                     then Correlate2D(A, B, Convolution, hB, wB, i, j) else 0
      {
        var currTileWidth := if jTile + tileWidth > widthC then widthC - jTile else tileWidth;
        assert currTileWidth == ClippedExtent(jTile, tileWidth, widthC);
        ApplyTile2D(A, hA, wA, B, hB, wB, C, iTile, jTile, currTileHeight, currTileWidth);
        jTile := jTile + tileWidth;
      }
      iTile := iTile + tileHeight;
    }
  }

  /** The size check of both 2D mains: a kernel taller or wider than the input is refused,
      and exactly the sizes with a non-empty output are accepted. */
  function ValidateSizes2D(hA: int, wA: int, hB: int, wB: int): (accepted: bool)
    ensures accepted <==> OutputExtent(hA, hB) >= 1 && OutputExtent(wA, wB) >= 1
  {
    !(hB > hA || wB > wA)
  }

  /** main of the comparison program from the size check to the equality check: refused sizes
      give exit status 1; otherwise arrays_2d_equal always finds the naive and the tiled
      results identical (status 0). The random matrices are the parameters A and B. */
  method CompareConvolution2D(A: seq<seq<int>>, hA: int, wA: int, B: seq<seq<int>>, hB: int, wB: int,
                              tileHeight: int, tileWidth: int) returns (status: int)
    requires IsMatrix(A, hA, wA) && IsMatrix(B, hB, wB)
    requires tileHeight >= 1 && tileWidth >= 1
    ensures status == 0 <==> ValidateSizes2D(hA, wA, hB, wB)
    ensures status == 0 || status == 1
  {
    if hB > hA || wB > wA {
      return 1;
    }
    var cNaive := new int[hA - hB + 1, wA - wB + 1];
    var cTiled := new int[hA - hB + 1, wA - wB + 1];
    NaiveConvolution2D(A, hA, wA, B, hB, wB, cNaive);
    TiledConvolution2D(A, hA, wA, B, hB, wB, cTiled, tileHeight, tileWidth);
    var equal := Arrays2DEqual(cNaive, cTiled, hA - hB + 1, wA - wB + 1);
    if equal == 0 {
      return 1;
    }
    return 0;
  }
}
