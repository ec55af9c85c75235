/** The 2D page of the visualizer: a square input matrix, a square kernel, and two steppers
    that add one product per call into the same output matrix, the naive one cell by cell and
    kernel offset by kernel offset, the tiled one tile by tile over square output tiles. */
module Visualizer2D {
  import opened ConvMath
  import opened Tiling
  import opened Visualizer1D

  // ---------------------------------------------------------------------------------------
  // The naive stepper

  /** naiveCurrentStep: output cell (row y, column x) and kernel offset (ky, kx). */
  datatype NaiveCursor2D = NaiveCursor2D(x: int, y: int, kx: int, ky: int)

  /** (y, x, ky, kx) of c strictly before that of d in lexicographic order. */
  predicate NaiveBefore2D(c: NaiveCursor2D, d: NaiveCursor2D)
  {
    c.y < d.y || (c.y == d.y && (c.x < d.x || (c.x == d.x && (c.ky < d.ky || (c.ky == d.ky && c.kx < d.kx)))))
  }

  /** The cursor update of naiveStep, four carry levels deep: kernel column, kernel row,
      output column, output row. */
  function NaiveAdvance2D(c: NaiveCursor2D, kernelSize: int, outputSize: int): (r: NaiveCursor2D)
    requires 0 <= c.kx < kernelSize && 0 <= c.ky < kernelSize
    ensures 0 <= r.kx < kernelSize && 0 <= r.ky < kernelSize
    ensures NaiveBefore2D(c, r)
    ensures r.y == c.y || (r.y == c.y + 1 && r.x == 0 && r.kx == 0 && r.ky == 0)
  {
    if c.kx + 1 < kernelSize then c.(kx := c.kx + 1)
    else if c.ky + 1 < kernelSize then c.(kx := 0, ky := c.ky + 1)
    else if c.x + 1 < outputSize then NaiveCursor2D(c.x + 1, c.y, 0, 0)
    else NaiveCursor2D(0, c.y + 1, 0, 0)
  }

  /** The cursor after one call of naiveStep: unchanged once y has reached the output size. */
  function NaiveNext2D(c: NaiveCursor2D, kernelSize: int, outputSize: int): (r: NaiveCursor2D)
    requires 0 <= c.kx < kernelSize && 0 <= c.ky < kernelSize
    ensures 0 <= r.kx < kernelSize && 0 <= r.ky < kernelSize
    ensures c.y >= outputSize ==> r == c
    ensures c.y < outputSize ==> NaiveBefore2D(c, r)
  {
    if c.y >= outputSize then c else NaiveAdvance2D(c, kernelSize, outputSize)
  }

  /** The cursors naiveStep can reach from the zero cursor: kernel offsets, an output column,
      and an output row up to one past the last, with everything else zero there. */
  predicate NaiveInRange2D(c: NaiveCursor2D, kernelSize: int, outputSize: int)
  {
    0 <= c.kx < kernelSize && 0 <= c.ky < kernelSize && 0 <= c.x < outputSize && 0 <= c.y <= outputSize &&
    (c.y == outputSize ==> c.x == 0 && c.kx == 0 && c.ky == 0)
  }

  /** naiveStep keeps its cursor in range. */
  lemma NaiveNext2DInRange(c: NaiveCursor2D, kernelSize: int, outputSize: int)
    requires NaiveInRange2D(c, kernelSize, outputSize)
    ensures NaiveInRange2D(NaiveNext2D(c, kernelSize, outputSize), kernelSize, outputSize)
  {
  }

  /** What the naive stepper has added to output cell (y, x) once its cursor is at c: the
      full sum for the cells it has passed in row order, the first c.ky kernel rows and the
      first c.kx products of row c.ky for the cell under the cursor, nothing for the rest. */
  function NaiveSoFar2D(a: seq<seq<int>>, b: seq<seq<int>>, op: Operation, k: int,
                        c: NaiveCursor2D, y: int, x: int): int
    requires Window2D(a, b, k, k, y, x) && 0 <= c.kx < k && 0 <= c.ky < k
  {
    if y < c.y || (y == c.y && x < c.x) then Correlate2D(a, b, op, k, k, y, x)
    else if y == c.y && x == c.x then PartialSum2D(a, b, op, k, k, y, x, c.ky) + RowSum2D(a, b, op, k, k, y, x, c.ky, c.kx)
    else 0
  }

  /** An all-zero n x n matrix. */
  function ZeroMatrix(n: nat): (r: seq<seq<int>>)
    ensures IsMatrix(r, n, n)
    ensures forall y, x :: 0 <= y < n && 0 <= x < n ==> r[y][x] == 0
  {
    seq(n, _ => seq(n, _ => 0))
  }

  /** The zero cursor has added nothing to any cell. */
  lemma NaiveSoFar2DStart(a: seq<seq<int>>, b: seq<seq<int>>, op: Operation, k: int, y: int, x: int)
    requires Window2D(a, b, k, k, y, x) && 1 <= k
    ensures NaiveSoFar2D(a, b, op, k, NaiveCursor2D(0, 0, 0, 0), y, x) == 0
  {
    assert RowSum2D(a, b, op, k, k, y, x, 0, 0) == 0;
  }

  /** One naiveStep adds exactly the product at its cursor to the cell under the cursor, and
      the carries complete a kernel row, then a whole cell. */
  lemma NaiveSoFar2DAdvance(a: seq<seq<int>>, b: seq<seq<int>>, op: Operation, k: int, outputSize: int,
                            c: NaiveCursor2D, y: int, x: int)
    requires Window2D(a, b, k, k, y, x) && Window2D(a, b, k, k, c.y, c.x)
    requires 0 <= c.kx < k && 0 <= c.ky < k && 0 <= c.x < outputSize && 0 <= y < outputSize && 0 <= x < outputSize
    ensures NaiveSoFar2D(a, b, op, k, NaiveAdvance2D(c, k, outputSize), y, x) ==
      NaiveSoFar2D(a, b, op, k, c, y, x) + (if y == c.y && x == c.x then Term2D(a, b, op, k, k, c.y, c.x, c.ky, c.kx) else 0)
  {
    if y == c.y && x == c.x {
      assert RowSum2D(a, b, op, k, k, y, x, c.ky, c.kx + 1) ==
        RowSum2D(a, b, op, k, k, y, x, c.ky, c.kx) + Term2D(a, b, op, k, k, y, x, c.ky, c.kx);
      if c.kx + 1 == k {
        PartialSum2DNextRow(a, b, op, k, k, y, x, c.ky);
        assert RowSum2D(a, b, op, k, k, y, x, c.ky, k) == RowSum2D(a, b, op, k, k, y, x, c.ky, c.kx + 1);
        if c.ky + 1 < k {
          assert RowSum2D(a, b, op, k, k, y, x, c.ky + 1, 0) == 0;
        }
      }
    }
  }

  // ---------------------------------------------------------------------------------------
  // The tiled stepper

  /** tiledCurrentStep: the output tile (tileX, tileY), the output cell (row y, column x)
      and the kernel offset (ky, kx). */
  datatype TiledCursor2D = TiledCursor2D(tileX: int, tileY: int, x: int, y: int, kx: int, ky: int)

  /** (tileY, tileX, y, x, ky, kx) of c strictly before that of d in lexicographic order. */
  predicate TiledBefore2D(c: TiledCursor2D, d: TiledCursor2D)
  {
    c.tileY < d.tileY || (c.tileY == d.tileY && (c.tileX < d.tileX || (c.tileX == d.tileX &&
    (c.y < d.y || (c.y == d.y && (c.x < d.x || (c.x == d.x &&
    (c.ky < d.ky || (c.ky == d.ky && c.kx < d.kx)))))))))
  }

  /** The cursor update of tiledStep, six carry levels deep: kernel column, kernel row, then
      the cell column up to the tile's right edge, where the column goes back to the tile's
      first column and the row moves on; the cell row up to the tile's bottom edge, where the
      row goes back to the tile's first row and the tile column moves on (the column stays
      at the first column of the tile just finished); past the last tile column, the tile
      column wraps to 0 and the tile row moves on. */
  function TiledAdvance2D(c: TiledCursor2D, kernelSize: int, tileSize: int, outputSize: int, numTiles: int): (r: TiledCursor2D)
    requires 0 <= c.kx < kernelSize && 0 <= c.ky < kernelSize && tileSize >= 1
    requires 0 <= c.tileX && 0 <= c.tileY && 0 <= c.x && 0 <= c.y
    ensures 0 <= r.kx < kernelSize && 0 <= r.ky < kernelSize
    ensures 0 <= r.tileX && 0 <= r.tileY && 0 <= r.x && 0 <= r.y
    ensures TiledBefore2D(c, r)
  {
    MulMonotone(0, c.tileX, tileSize);
    MulMonotone(0, c.tileY, tileSize);
    if c.kx + 1 < kernelSize then c.(kx := c.kx + 1)
    else if c.ky + 1 < kernelSize then c.(kx := 0, ky := c.ky + 1)
    else if c.x + 1 < TileEnd(c.tileX, tileSize, outputSize) then c.(x := c.x + 1, kx := 0, ky := 0)
    else if c.y + 1 < TileEnd(c.tileY, tileSize, outputSize) then c.(x := c.tileX * tileSize, y := c.y + 1, kx := 0, ky := 0)
    else if c.tileX + 1 < numTiles then TiledCursor2D(c.tileX + 1, c.tileY, c.tileX * tileSize, c.tileY * tileSize, 0, 0)
    else TiledCursor2D(0, c.tileY + 1, c.tileX * tileSize, c.tileY * tileSize, 0, 0)
  }

  /** The cursor after one call of tiledStep: unchanged once the tile row has reached the
      tile count. */
  function TiledNext2D(c: TiledCursor2D, kernelSize: int, tileSize: int, outputSize: int, numTiles: int): (r: TiledCursor2D)
    requires 0 <= c.kx < kernelSize && 0 <= c.ky < kernelSize && tileSize >= 1
    requires 0 <= c.tileX && 0 <= c.tileY && 0 <= c.x && 0 <= c.y
    ensures 0 <= r.kx < kernelSize && 0 <= r.ky < kernelSize
    ensures c.tileY >= numTiles ==> r == c
    ensures c.tileY < numTiles ==> TiledBefore2D(c, r)
  {
    if c.tileY >= numTiles then c else TiledAdvance2D(c, kernelSize, tileSize, outputSize, numTiles)
  }

  /** The cursors tiledStep can reach: kernel offsets, a tile column below the tile count, a
      tile row up to it, and a cell inside the input matrix. */
  predicate TiledInRange2D(c: TiledCursor2D, kernelSize: int, matrixSize: int, numTiles: int)
  {
    0 <= c.kx < kernelSize && 0 <= c.ky < kernelSize &&
    0 <= c.tileX < numTiles && 0 <= c.tileY <= numTiles &&
    0 <= c.x < matrixSize && 0 <= c.y < matrixSize
  }

  /** tiledStep keeps its cursor in range: the tile starts it moves back to lie inside the
      input matrix, since every tile index is below Math.ceil(matrixSize / tileSize). */
  lemma TiledNext2DInRange(c: TiledCursor2D, kernelSize: int, tileSize: int, matrixSize: int, outputSize: int)
    requires matrixSize >= 1 && tileSize >= 1 && outputSize <= matrixSize
    requires TiledInRange2D(c, kernelSize, matrixSize, TileCount(matrixSize, tileSize))
    ensures TiledInRange2D(TiledNext2D(c, kernelSize, tileSize, outputSize, TileCount(matrixSize, tileSize)),
                           kernelSize, matrixSize, TileCount(matrixSize, tileSize))
  {
    var numTiles := TileCount(matrixSize, tileSize);
    if c.tileY < numTiles {
      TileStartInRange(matrixSize, tileSize, c.tileX);
      TileStartInRange(matrixSize, tileSize, c.tileY);
    }
  }

  /** The accumulation guard of tiledStep: the cell is an output cell and the input cell it
      reads exists. */
  predicate TiledGuard2D(c: TiledCursor2D, matrixSize: int, outputSize: int)
  {
    c.y < outputSize && c.x < outputSize && c.y + c.ky < matrixSize && c.x + c.kx < matrixSize
  }

  /** For kernel offsets, the input half of the guard follows from the output half. */
  lemma TiledGuard2DExact(c: TiledCursor2D, kernelSize: int, matrixSize: int)
    requires 0 <= c.kx < kernelSize && 0 <= c.ky < kernelSize && 0 <= c.x && 0 <= c.y
    ensures TiledGuard2D(c, matrixSize, OutputExtent(matrixSize, kernelSize)) <==>
      c.y < OutputExtent(matrixSize, kernelSize) && c.x < OutputExtent(matrixSize, kernelSize)
  {
  }

  /** The operands of the page: an n-by-n input and a k-by-k kernel with 1 <= k <= n. */
  predicate Operands2D(a: seq<seq<int>>, b: seq<seq<int>>, n: int, k: int)
  {
    1 <= k <= n && IsMatrix(a, n, n) && IsMatrix(b, k, k)
  }

  /** The product tiledStep adds to output cell (y, x) from cursor c: the product at the
      cursor for the cell under it when the guard holds, nothing otherwise. */
  function TiledProduct2D(a: seq<seq<int>>, b: seq<seq<int>>, op: Operation, n: int, k: int,
                          c: TiledCursor2D, y: int, x: int): int
    requires Operands2D(a, b, n, k) && 0 <= c.kx < k && 0 <= c.ky < k && 0 <= c.x && 0 <= c.y
  {
    if TiledGuard2D(c, n, OutputExtent(n, k)) && y == c.y && x == c.x
    then Term2D(a, b, op, k, k, c.y, c.x, c.ky, c.kx) else 0
  }

  /** The same product added to a matrix of sums (what the tiled stepper has contributed so
      far): only the cell under the cursor changes, and only when the guard holds. */
  function TiledAccumulate2D(s: seq<seq<int>>, a: seq<seq<int>>, b: seq<seq<int>>, op: Operation, n: int, k: int,
                             c: TiledCursor2D): (r: seq<seq<int>>)
    requires Operands2D(a, b, n, k) && 0 <= c.kx < k && 0 <= c.ky < k && 0 <= c.x && 0 <= c.y
    requires IsMatrix(s, OutputExtent(n, k), OutputExtent(n, k))
    ensures IsMatrix(r, OutputExtent(n, k), OutputExtent(n, k))
    ensures forall y, x :: 0 <= y < OutputExtent(n, k) && 0 <= x < OutputExtent(n, k) ==>
      r[y][x] == s[y][x] + TiledProduct2D(a, b, op, n, k, c, y, x)
  {
    if TiledGuard2D(c, n, OutputExtent(n, k))
    then s[c.y := s[c.y][c.x := s[c.y][c.x] + Term2D(a, b, op, k, k, c.y, c.x, c.ky, c.kx)]]
    else s
  }

  /** The product naiveStep adds to output cell (y, x) from cursor c: the product at the
      cursor for the cell under it while the cursor is on an output cell, nothing once the
      stepper is done. */
  function NaiveProduct2D(a: seq<seq<int>>, b: seq<seq<int>>, op: Operation, n: int, k: int,
                          c: NaiveCursor2D, y: int, x: int): int
    requires Operands2D(a, b, n, k) && 0 <= c.kx < k && 0 <= c.ky < k && 0 <= c.x && 0 <= c.y
  {
    if c.y < OutputExtent(n, k) && c.x < OutputExtent(n, k) && y == c.y && x == c.x
    then Term2D(a, b, op, k, k, c.y, c.x, c.ky, c.kx) else 0
  }

  /** What one call of tiledStep adds to the tiled part: the guarded product while tile rows
      remain, nothing once the tile row has reached the tile count. */
  function TiledStepSums2D(s: seq<seq<int>>, a: seq<seq<int>>, b: seq<seq<int>>, op: Operation, n: int, k: int,
                           tileSize: int, c: TiledCursor2D): (r: seq<seq<int>>)
    requires Operands2D(a, b, n, k) && 0 <= c.kx < k && 0 <= c.ky < k && 0 <= c.x && 0 <= c.y && tileSize >= 1
    requires IsMatrix(s, OutputExtent(n, k), OutputExtent(n, k))
    ensures IsMatrix(r, OutputExtent(n, k), OutputExtent(n, k))
    ensures c.tileY < TileCount(n, tileSize) ==> r == TiledAccumulate2D(s, a, b, op, n, k, c)
    ensures c.tileY >= TileCount(n, tileSize) ==> r == s
  {
    if c.tileY < TileCount(n, tileSize) then TiledAccumulate2D(s, a, b, op, n, k, c) else s
  }

  // ---------------------------------------------------------------------------------------
  // The tiled stepper on its own, after a reset

  /** The state of the tiled stepper alone: the output and the cursor. */
  datatype TiledRun2D = TiledRun2D(out: seq<seq<int>>, cursor: TiledCursor2D)

  /** One call of tiledStep on the run, before the last tile row is done. */
  function TiledStepRun2D(r: TiledRun2D, a: seq<seq<int>>, b: seq<seq<int>>, op: Operation, n: int, k: int,
                          tileSize: int): (s: TiledRun2D)
    requires Operands2D(a, b, n, k) && tileSize >= 1
    requires IsMatrix(r.out, OutputExtent(n, k), OutputExtent(n, k))
    requires 0 <= r.cursor.kx < k && 0 <= r.cursor.ky < k
    requires 0 <= r.cursor.x && 0 <= r.cursor.y && 0 <= r.cursor.tileX && 0 <= r.cursor.tileY
    ensures IsMatrix(s.out, OutputExtent(n, k), OutputExtent(n, k))
    ensures 0 <= s.cursor.kx < k && 0 <= s.cursor.ky < k
    ensures 0 <= s.cursor.x && 0 <= s.cursor.y && 0 <= s.cursor.tileX && 0 <= s.cursor.tileY
    ensures s.cursor == TiledAdvance2D(r.cursor, k, tileSize, OutputExtent(n, k), TileCount(n, tileSize))
  {
    var c := r.cursor;
    TiledRun2D(TiledAccumulate2D(r.out, a, b, op, n, k, c),
               TiledAdvance2D(c, k, tileSize, OutputExtent(n, k), TileCount(n, tileSize)))
  }

  /** n calls of tiledStep with no naive steps in between. */
  function TiledSteps2D(r: TiledRun2D, a: seq<seq<int>>, b: seq<seq<int>>, op: Operation, n: int, k: int,
                        tileSize: int, steps: nat): (s: TiledRun2D)
    requires Operands2D(a, b, n, k) && tileSize >= 1
    requires IsMatrix(r.out, OutputExtent(n, k), OutputExtent(n, k))
    requires 0 <= r.cursor.kx < k && 0 <= r.cursor.ky < k
    requires 0 <= r.cursor.x && 0 <= r.cursor.y && 0 <= r.cursor.tileX && 0 <= r.cursor.tileY
    ensures IsMatrix(s.out, OutputExtent(n, k), OutputExtent(n, k))
    decreases steps
  {
    if steps == 0 || r.cursor.tileY >= TileCount(n, tileSize) then r
    else TiledSteps2D(TiledStepRun2D(r, a, b, op, n, k, tileSize), a, b, op, n, k, tileSize, steps - 1)
  }

  /** As on the 1D page, the tiled stepper passes over finished cells again. On the 2-by-2
      all-ones input with the 1-by-1 kernel [[1]] and tile size 1, after its first two steps
      the second tile has started at cell (0, 0) once more, which then holds 2 while its
      cross-correlation is 1. */
  lemma TiledStepper2DRevisits()
    ensures var done := TiledSteps2D(TiledRun2D([[0, 0], [0, 0]], TiledCursor2D(0, 0, 0, 0, 0, 0)),
                                     [[1, 1], [1, 1]], [[1]], CrossCorrelation, 2, 1, 1, 2);
      done.out[0][0] == 2 && done.cursor == TiledCursor2D(1, 0, 1, 0, 0, 0) &&
      Correlate2D([[1, 1], [1, 1]], [[1]], CrossCorrelation, 1, 1, 0, 0) == 1
  {
    var a, b, op := [[1, 1], [1, 1]], [[1]], CrossCorrelation;
    var r0 := TiledRun2D([[0, 0], [0, 0]], TiledCursor2D(0, 0, 0, 0, 0, 0));
    var r1 := TiledRun2D([[1, 0], [0, 0]], TiledCursor2D(1, 0, 0, 0, 0, 0));
    assert TileCount(2, 1) == 2;
    RevisitFirstStep2D();
    RevisitSecondStep2D();
    TiledSteps2DUnfold(r1, a, b, op, 2, 1, 1, 0);
    TiledSteps2DUnfold(r0, a, b, op, 2, 1, 1, 1);
    CorrelateOnes2D();
  }

  /** One more call of tiledStep, while tile rows remain, is one step followed by the
      others. */
  lemma TiledSteps2DUnfold(r: TiledRun2D, a: seq<seq<int>>, b: seq<seq<int>>, op: Operation, n: int, k: int,
                           tileSize: int, steps: nat)
    requires Operands2D(a, b, n, k) && tileSize >= 1
    requires IsMatrix(r.out, OutputExtent(n, k), OutputExtent(n, k))
    requires 0 <= r.cursor.kx < k && 0 <= r.cursor.ky < k
    requires 0 <= r.cursor.x && 0 <= r.cursor.y && 0 <= r.cursor.tileX && 0 <= r.cursor.tileY
    requires r.cursor.tileY < TileCount(n, tileSize)
    ensures TiledSteps2D(r, a, b, op, n, k, tileSize, steps + 1) ==
            TiledSteps2D(TiledStepRun2D(r, a, b, op, n, k, tileSize), a, b, op, n, k, tileSize, steps)
  {
  }

  /** The first step of that run: cell (0, 0) receives its product and the cursor moves to
      the second tile, back at cell (0, 0). */
  lemma RevisitFirstStep2D()
    ensures TiledStepRun2D(TiledRun2D([[0, 0], [0, 0]], TiledCursor2D(0, 0, 0, 0, 0, 0)),
                           [[1, 1], [1, 1]], [[1]], CrossCorrelation, 2, 1, 1) ==
            TiledRun2D([[1, 0], [0, 0]], TiledCursor2D(1, 0, 0, 0, 0, 0))
  {
    var a, b, op := [[1, 1], [1, 1]], [[1]], CrossCorrelation;
    var r0 := TiledRun2D([[0, 0], [0, 0]], TiledCursor2D(0, 0, 0, 0, 0, 0));
    var r1 := TiledRun2D([[1, 0], [0, 0]], TiledCursor2D(1, 0, 0, 0, 0, 0));
    assert TileCount(2, 1) == 2;
    assert OutputExtent(2, 1) == 2 && TileEnd(0, 1, 2) == 1;
    assert Term2D(a, b, op, 1, 1, 0, 0, 0, 0) == 1;
    assert TiledGuard2D(r0.cursor, 2, 2);
    assert r0.out[0][0 := 1] == [1, 0] && r0.out[0 := [1, 0]] == r1.out;
    assert TiledAccumulate2D(r0.out, a, b, op, 2, 1, r0.cursor) == r1.out;
    assert TiledAdvance2D(r0.cursor, 1, 1, 2, 2) == r1.cursor;
  }

  /** The second step: cell (0, 0) receives its product a second time. */
  lemma RevisitSecondStep2D()
    ensures TiledStepRun2D(TiledRun2D([[1, 0], [0, 0]], TiledCursor2D(1, 0, 0, 0, 0, 0)),
                           [[1, 1], [1, 1]], [[1]], CrossCorrelation, 2, 1, 1) ==
            TiledRun2D([[2, 0], [0, 0]], TiledCursor2D(1, 0, 1, 0, 0, 0))
  {
    var a, b, op := [[1, 1], [1, 1]], [[1]], CrossCorrelation;
    var r1 := TiledRun2D([[1, 0], [0, 0]], TiledCursor2D(1, 0, 0, 0, 0, 0));
    var r2 := TiledRun2D([[2, 0], [0, 0]], TiledCursor2D(1, 0, 1, 0, 0, 0));
    assert TileCount(2, 1) == 2;
    assert OutputExtent(2, 1) == 2 && TileEnd(1, 1, 2) == 2;
    assert Term2D(a, b, op, 1, 1, 0, 0, 0, 0) == 1;
    assert TiledGuard2D(r1.cursor, 2, 2);
    assert r1.out[0][0 := 2] == [2, 0] && r1.out[0 := [2, 0]] == r2.out;
    assert TiledAccumulate2D(r1.out, a, b, op, 2, 1, r1.cursor) == r2.out;
    assert TiledAdvance2D(r1.cursor, 1, 1, 2, 2) == r2.cursor;
  }

  /** On the 2-by-2 matrix of ones, cell (0, 0) of the cross-correlation with [[1]] is 1. */
  lemma CorrelateOnes2D()
    ensures Correlate2D([[1, 1], [1, 1]], [[1]], CrossCorrelation, 1, 1, 0, 0) == 1
  {
    assert RowSum2D([[1, 1], [1, 1]], [[1]], CrossCorrelation, 1, 1, 0, 0, 0, 1) == 1;
  }

  /** The tiled stepper alone, called until it reports that no tile row remains. From a
      cursor in range every call moves the cursor forward (TiledAdvance2D), so the run ends,
      with the tile row at the tile count. */
  function TiledFinish2D(r: TiledRun2D, a: seq<seq<int>>, b: seq<seq<int>>, op: Operation, n: int, k: int,
                         tileSize: int): (s: TiledRun2D)
    requires Operands2D(a, b, n, k) && tileSize >= 1
    requires IsMatrix(r.out, OutputExtent(n, k), OutputExtent(n, k))
    requires TiledInRange2D(r.cursor, k, n, TileCount(n, tileSize))
    ensures IsMatrix(s.out, OutputExtent(n, k), OutputExtent(n, k))
    ensures TiledInRange2D(s.cursor, k, n, TileCount(n, tileSize))
    ensures s.cursor.tileY == TileCount(n, tileSize)
    decreases TileCount(n, tileSize) - r.cursor.tileY, TileCount(n, tileSize) - r.cursor.tileX,
              n - r.cursor.y, n - r.cursor.x, k - r.cursor.ky, k - r.cursor.kx
  {
    if r.cursor.tileY >= TileCount(n, tileSize) then r
    else
      TiledNext2DInRange(r.cursor, k, tileSize, n, OutputExtent(n, k));
      TiledFinish2D(TiledStepRun2D(r, a, b, op, n, k, tileSize), a, b, op, n, k, tileSize)
  }

  /** Running the tiled stepper to its end after some calls ends where running it to its end
      at once does. */
  lemma {:induction false} TiledFinishSteps2D(r: TiledRun2D, a: seq<seq<int>>, b: seq<seq<int>>, op: Operation,
                                              n: int, k: int, tileSize: int, steps: nat)
    requires Operands2D(a, b, n, k) && tileSize >= 1
    requires IsMatrix(r.out, OutputExtent(n, k), OutputExtent(n, k))
    requires TiledInRange2D(r.cursor, k, n, TileCount(n, tileSize))
    ensures TiledInRange2D(TiledSteps2D(r, a, b, op, n, k, tileSize, steps).cursor, k, n, TileCount(n, tileSize))
    ensures TiledFinish2D(TiledSteps2D(r, a, b, op, n, k, tileSize, steps), a, b, op, n, k, tileSize) ==
            TiledFinish2D(r, a, b, op, n, k, tileSize)
    decreases steps
  {
    if steps > 0 && r.cursor.tileY < TileCount(n, tileSize) {
      TiledNext2DInRange(r.cursor, k, tileSize, n, OutputExtent(n, k));
      TiledFinishSteps2D(TiledStepRun2D(r, a, b, op, n, k, tileSize), a, b, op, n, k, tileSize, steps - 1);
    }
  }

  // ---------------------------------------------------------------------------------------
  // The page state

  /** The state of initialize2DVisualization: sizes, operation, matrices, the two cursors and
      the animation flag. The ghost tiledSums records what tiledStep has added to each output
      cell, so that the shared output is the naive part plus the tiled part. */
  class Visualization2D {
    const matrixSize: int
    const kernelSize: int
    const tileSize: int
    const operation: Operation
    const outputSize: int
    var inputMatrix: seq<seq<int>>
    var kernelMatrix: seq<seq<int>>
    var outputMatrix: array2<int>
    var naiveCurrentStep: NaiveCursor2D
    var tiledCurrentStep: TiledCursor2D
    var isAnimating: bool
    ghost var tiledSums: seq<seq<int>>

    /** The sizes fit, the matrices have them, the cursors are in range, and every output
        cell holds what the naive stepper has added plus what the tiled stepper has. */
    ghost predicate Valid()
      reads this, outputMatrix
    {
      Operands2D(inputMatrix, kernelMatrix, matrixSize, kernelSize) && tileSize >= 1 &&
      outputSize == OutputExtent(matrixSize, kernelSize) &&
      outputMatrix.Length0 == outputSize && outputMatrix.Length1 == outputSize &&
      NaiveInRange2D(naiveCurrentStep, kernelSize, outputSize) &&
      TiledInRange2D(tiledCurrentStep, kernelSize, matrixSize, TileCount(matrixSize, tileSize)) &&
      IsMatrix(tiledSums, outputSize, outputSize) &&
      forall y, x :: 0 <= y < outputSize && 0 <= x < outputSize ==>
        outputMatrix[y, x] == NaiveSoFar2D(inputMatrix, kernelMatrix, operation, kernelSize, naiveCurrentStep, y, x)
                              + tiledSums[y][x]
    }

    /** The page as built: the sizes of the sliders, the matrices of initializeMatrices (random
        in the page, parameters here), a zero output of matrixSize - kernelSize + 1 square,
        both cursors at zero and no animation. */
    constructor (matrixSize: int, kernelSize: int, tileSize: int, operation: Operation,
                 input: seq<seq<int>>, kernel: seq<seq<int>>)
      requires Operands2D(input, kernel, matrixSize, kernelSize) && tileSize >= 1
      ensures Valid() && !isAnimating && fresh(outputMatrix)
      ensures this.matrixSize == matrixSize && this.kernelSize == kernelSize
      ensures this.tileSize == tileSize && this.operation == operation
      ensures inputMatrix == input && kernelMatrix == kernel
      ensures outputSize == matrixSize - kernelSize + 1
      ensures forall y, x :: 0 <= y < outputSize && 0 <= x < outputSize ==> outputMatrix[y, x] == 0
      ensures naiveCurrentStep == NaiveCursor2D(0, 0, 0, 0) && tiledCurrentStep == TiledCursor2D(0, 0, 0, 0, 0, 0)
    {
      this.matrixSize := matrixSize;
      this.kernelSize := kernelSize;
      this.tileSize := tileSize;
      this.operation := operation;
      outputSize := matrixSize - kernelSize + 1;
      inputMatrix := input;
      kernelMatrix := kernel;
      outputMatrix := new int[matrixSize - kernelSize + 1, matrixSize - kernelSize + 1]((_, _) => 0);
      naiveCurrentStep := NaiveCursor2D(0, 0, 0, 0);
      tiledCurrentStep := TiledCursor2D(0, 0, 0, 0, 0, 0);
      isAnimating := false;
      tiledSums := seq(matrixSize - kernelSize + 1, _ => seq(matrixSize - kernelSize + 1, _ => 0));
    }

    /** initializeMatrices: new input and kernel, a new zero output, both cursors at zero; the
        animation flag is left as it is. */
    method InitializeMatrices(input: seq<seq<int>>, kernel: seq<seq<int>>)
      requires Valid() && Operands2D(input, kernel, matrixSize, kernelSize)
      modifies this
      ensures Valid() && fresh(outputMatrix) && isAnimating == old(isAnimating)
      ensures inputMatrix == input && kernelMatrix == kernel
      ensures forall y, x :: 0 <= y < outputSize && 0 <= x < outputSize ==> outputMatrix[y, x] == 0
      ensures naiveCurrentStep == NaiveCursor2D(0, 0, 0, 0) && tiledCurrentStep == TiledCursor2D(0, 0, 0, 0, 0, 0)
    {
      var matrix := new int[outputSize, outputSize]((_, _) => 0);
      ghost var sums := ZeroMatrix(outputSize);
      forall y, x | 0 <= y < outputSize && 0 <= x < outputSize
        ensures matrix[y, x] == NaiveSoFar2D(input, kernel, operation, kernelSize, NaiveCursor2D(0, 0, 0, 0), y, x) + sums[y][x]
      {
        NaiveSoFar2DStart(input, kernel, operation, kernelSize, y, x);
      }
      inputMatrix := input;
      kernelMatrix := kernel;
      outputMatrix := matrix;
      naiveCurrentStep := NaiveCursor2D(0, 0, 0, 0);
      tiledCurrentStep := TiledCursor2D(0, 0, 0, 0, 0, 0);
      tiledSums := sums;
    }

    /** The update of naiveStep: the product at the cursor is added to the cell under it. */
    method AddNaiveProduct(c: NaiveCursor2D)
      requires Operands2D(inputMatrix, kernelMatrix, matrixSize, kernelSize)
      requires outputSize == OutputExtent(matrixSize, kernelSize)
      requires outputMatrix.Length0 == outputSize && outputMatrix.Length1 == outputSize
      requires 0 <= c.kx < kernelSize && 0 <= c.ky < kernelSize && 0 <= c.x < outputSize && 0 <= c.y < outputSize
      modifies outputMatrix
      ensures forall y, x :: 0 <= y < outputSize && 0 <= x < outputSize ==>
        outputMatrix[y, x] == old(outputMatrix[y, x]) +
          (if y == c.y && x == c.x then Term2D(inputMatrix, kernelMatrix, operation, kernelSize, kernelSize, c.y, c.x, c.ky, c.kx) else 0)
    {
      var x, y, kx, ky := c.x, c.y, c.kx, c.ky;
      var kernelX := if operation == Convolution then kernelSize - 1 - kx else kx;
      var kernelY := if operation == Convolution then kernelSize - 1 - ky else ky;
      outputMatrix[y, x] := outputMatrix[y, x] + inputMatrix[y + ky][x + kx] * kernelMatrix[kernelY][kernelX];
    }

    /** naiveStep: once y has reached the output size, nothing changes; otherwise the product
        at the cursor is added to the cell under it and the cursor advances. The answer is
        whether y is still below the output size afterwards, and when it is not, every cell
        holds its full sum plus the tiled part. */
    method NaiveStep() returns (more: bool)
      requires Valid()
      modifies this, outputMatrix
      ensures Valid()
      ensures naiveCurrentStep == NaiveNext2D(old(naiveCurrentStep), kernelSize, outputSize)
      ensures more <==> naiveCurrentStep.y < outputSize
      ensures old(naiveCurrentStep.y) < outputSize ==>
        var c := old(naiveCurrentStep);
        forall y, x :: 0 <= y < outputSize && 0 <= x < outputSize ==>
          outputMatrix[y, x] == old(outputMatrix[y, x]) +
            (if y == c.y && x == c.x then Term2D(inputMatrix, kernelMatrix, operation, kernelSize, kernelSize, c.y, c.x, c.ky, c.kx) else 0)
      ensures old(naiveCurrentStep.y) >= outputSize ==>
        forall y, x :: 0 <= y < outputSize && 0 <= x < outputSize ==> outputMatrix[y, x] == old(outputMatrix[y, x])
      ensures !more ==> forall y, x :: 0 <= y < outputSize && 0 <= x < outputSize ==>
        outputMatrix[y, x] == Correlate2D(inputMatrix, kernelMatrix, operation, kernelSize, kernelSize, y, x) + tiledSums[y][x]
      ensures outputMatrix == old(outputMatrix) && inputMatrix == old(inputMatrix) && kernelMatrix == old(kernelMatrix)
      ensures tiledCurrentStep == old(tiledCurrentStep) && tiledSums == old(tiledSums)
      ensures isAnimating == old(isAnimating)
    {
      if naiveCurrentStep.y >= outputSize {
        return false;
      }
      var c := naiveCurrentStep;
      var step := NaiveAdvance2D(naiveCurrentStep, kernelSize, outputSize);
      AddNaiveProduct(c);
      naiveCurrentStep := step;
      forall y, x | 0 <= y < outputSize && 0 <= x < outputSize
        ensures outputMatrix[y, x] == NaiveSoFar2D(inputMatrix, kernelMatrix, operation, kernelSize, step, y, x)
                                      + tiledSums[y][x]
      {
        assert old(outputMatrix[y, x]) == NaiveSoFar2D(inputMatrix, kernelMatrix, operation, kernelSize, c, y, x)
                                          + tiledSums[y][x];
        NaiveSoFar2DAdvance(inputMatrix, kernelMatrix, operation, kernelSize, outputSize, c, y, x);
      }
      return step.y < outputSize;
    }

    /** tiledStep: once the tile row has reached Math.ceil(matrixSize / tileSize), nothing
        changes; otherwise, when the guard holds, the product at the cursor is added to the
        cell under it (and to the tiled part), and the cursor advances. The answer is whether
        tile rows remain afterwards. */
    method TiledStep() returns (more: bool)
      requires Valid()
      modifies this, outputMatrix
      ensures Valid()
      ensures tiledCurrentStep == TiledNext2D(old(tiledCurrentStep), kernelSize, tileSize, outputSize, TileCount(matrixSize, tileSize))
      ensures more <==> tiledCurrentStep.tileY < TileCount(matrixSize, tileSize)
      ensures old(tiledCurrentStep.tileY) < TileCount(matrixSize, tileSize) ==>
        tiledSums == TiledAccumulate2D(old(tiledSums), inputMatrix, kernelMatrix, operation, matrixSize, kernelSize, old(tiledCurrentStep)) &&
        forall y, x :: 0 <= y < outputSize && 0 <= x < outputSize ==>
          outputMatrix[y, x] == old(outputMatrix[y, x]) +
            TiledProduct2D(inputMatrix, kernelMatrix, operation, matrixSize, kernelSize, old(tiledCurrentStep), y, x)
      ensures old(tiledCurrentStep.tileY) >= TileCount(matrixSize, tileSize) ==>
        tiledSums == old(tiledSums) &&
        forall y, x :: 0 <= y < outputSize && 0 <= x < outputSize ==> outputMatrix[y, x] == old(outputMatrix[y, x])
      ensures outputMatrix == old(outputMatrix) && inputMatrix == old(inputMatrix) && kernelMatrix == old(kernelMatrix)
      ensures naiveCurrentStep == old(naiveCurrentStep) && isAnimating == old(isAnimating)
    {
      var numTilesX := CeilDiv(matrixSize, tileSize);
      var numTilesY := CeilDiv(matrixSize, tileSize);
      if tiledCurrentStep.tileY >= numTilesY {
        return false;
      }
      TiledNext2DInRange(tiledCurrentStep, kernelSize, tileSize, matrixSize, outputSize);
      var c := tiledCurrentStep;
      var step := TiledAdvance2D(tiledCurrentStep, kernelSize, tileSize, outputSize, numTilesX);
      assert numTilesX == TileCount(matrixSize, tileSize);
      assert step == TiledNext2D(c, kernelSize, tileSize, outputSize, TileCount(matrixSize, tileSize));
      ghost var sums := TiledAccumulate2D(tiledSums, inputMatrix, kernelMatrix, operation, matrixSize, kernelSize, c);
      AddTiledProduct(c);
      tiledSums := sums;
      tiledCurrentStep := step;
      forall yy, xx | 0 <= yy < outputSize && 0 <= xx < outputSize
        ensures outputMatrix[yy, xx] == NaiveSoFar2D(inputMatrix, kernelMatrix, operation, kernelSize, naiveCurrentStep, yy, xx)
                                        + tiledSums[yy][xx]
      {
        assert old(outputMatrix[yy, xx]) == NaiveSoFar2D(inputMatrix, kernelMatrix, operation, kernelSize, naiveCurrentStep, yy, xx)
                                            + old(tiledSums)[yy][xx];
      }
      return step.tileY < numTilesY;
    }

    /** The guarded update of tiledStep: when the cell is an output cell and the input cell
        exists, the product at the cursor is added to the cell under it. */
    method AddTiledProduct(c: TiledCursor2D)
      requires Operands2D(inputMatrix, kernelMatrix, matrixSize, kernelSize)
      requires outputSize == OutputExtent(matrixSize, kernelSize)
      requires outputMatrix.Length0 == outputSize && outputMatrix.Length1 == outputSize
      requires 0 <= c.kx < kernelSize && 0 <= c.ky < kernelSize && 0 <= c.x && 0 <= c.y
      modifies outputMatrix
      ensures forall y, x :: 0 <= y < outputSize && 0 <= x < outputSize ==>
        outputMatrix[y, x] == old(outputMatrix[y, x]) + TiledProduct2D(inputMatrix, kernelMatrix, operation, matrixSize, kernelSize, c, y, x)
    {
      var x, y, kx, ky := c.x, c.y, c.kx, c.ky;
      if y < outputSize && x < outputSize && y + ky < matrixSize && x + kx < matrixSize {
        var kernelX := if operation == Convolution then kernelSize - 1 - kx else kx;
        var kernelY := if operation == Convolution then kernelSize - 1 - ky else ky;
        outputMatrix[y, x] := outputMatrix[y, x] + inputMatrix[y + ky][x + kx] * kernelMatrix[kernelY][kernelX];
      }
    }

    /** animate: nothing happens unless the animation runs; otherwise one naive step and one
        tiled step, and the animation stops when both report no work left. */
    method Animate()
      requires Valid()
      modifies this, outputMatrix
      ensures Valid() && outputMatrix == old(outputMatrix)
      ensures inputMatrix == old(inputMatrix) && kernelMatrix == old(kernelMatrix)
      ensures !old(isAnimating) ==>
        !isAnimating && naiveCurrentStep == old(naiveCurrentStep) && tiledCurrentStep == old(tiledCurrentStep) &&
        tiledSums == old(tiledSums) &&
        forall y, x :: 0 <= y < outputSize && 0 <= x < outputSize ==> outputMatrix[y, x] == old(outputMatrix[y, x])
      ensures old(isAnimating) ==>
        naiveCurrentStep == NaiveNext2D(old(naiveCurrentStep), kernelSize, outputSize) &&
        tiledCurrentStep == TiledNext2D(old(tiledCurrentStep), kernelSize, tileSize, outputSize, TileCount(matrixSize, tileSize)) &&
        (isAnimating <==> naiveCurrentStep.y < outputSize || tiledCurrentStep.tileY < TileCount(matrixSize, tileSize))
      ensures old(isAnimating) ==>
        forall y, x :: 0 <= y < outputSize && 0 <= x < outputSize ==>
          outputMatrix[y, x] == old(outputMatrix[y, x]) +
            NaiveProduct2D(inputMatrix, kernelMatrix, operation, matrixSize, kernelSize, old(naiveCurrentStep), y, x) +
            (if old(tiledCurrentStep.tileY) < TileCount(matrixSize, tileSize)
             then TiledProduct2D(inputMatrix, kernelMatrix, operation, matrixSize, kernelSize, old(tiledCurrentStep), y, x) else 0)
      ensures old(isAnimating) ==> tiledSums == TiledStepSums2D(old(tiledSums), inputMatrix, kernelMatrix, operation, matrixSize, kernelSize,
                                             tileSize, old(tiledCurrentStep))
    {
      if !isAnimating {
        return;
      }
      var naiveHasMore := NaiveStep();
      var tiledHasMore := TiledStep();
      if !naiveHasMore && !tiledHasMore {
        StopAnimation();
      }
    }

    /** startAnimation: the animation runs (the interval timer is the loop of PlayToEnd). */
    method StartAnimation()
      modifies this
      ensures isAnimating
      ensures naiveCurrentStep == old(naiveCurrentStep) && tiledCurrentStep == old(tiledCurrentStep)
      ensures inputMatrix == old(inputMatrix) && kernelMatrix == old(kernelMatrix)
      ensures outputMatrix == old(outputMatrix) && tiledSums == old(tiledSums)
    {
      if isAnimating {
        return;
      }
      isAnimating := true;
    }

    /** stopAnimation: the animation no longer runs; nothing else changes. */
    method StopAnimation()
      modifies this
      ensures !isAnimating
      ensures naiveCurrentStep == old(naiveCurrentStep) && tiledCurrentStep == old(tiledCurrentStep)
      ensures inputMatrix == old(inputMatrix) && kernelMatrix == old(kernelMatrix)
      ensures outputMatrix == old(outputMatrix) && tiledSums == old(tiledSums)
    {
      if !isAnimating {
        return;
      }
      isAnimating := false;
    }

    /** The play button followed by the interval timer: animate is called until it stops the
        animation itself, which always happens, and then both steppers are done and every
        output cell holds its full sum plus the tiled part. */
    method PlayToEnd()
      requires Valid()
      modifies this, outputMatrix
      ensures Valid() && !isAnimating && outputMatrix == old(outputMatrix)
      ensures naiveCurrentStep.y == outputSize
      ensures tiledCurrentStep.tileY == TileCount(matrixSize, tileSize)
      ensures inputMatrix == old(inputMatrix) && kernelMatrix == old(kernelMatrix)
      ensures TiledRun2D(tiledSums, tiledCurrentStep) ==
        TiledFinish2D(TiledRun2D(old(tiledSums), old(tiledCurrentStep)), inputMatrix, kernelMatrix, operation,
                      matrixSize, kernelSize, tileSize)
      ensures forall y, x :: 0 <= y < outputSize && 0 <= x < outputSize ==>
        outputMatrix[y, x] == Correlate2D(inputMatrix, kernelMatrix, operation, kernelSize, kernelSize, y, x) + tiledSums[y][x]
    {
      StartAnimation();
      while isAnimating
        invariant Valid() && outputMatrix == old(outputMatrix)
        invariant inputMatrix == old(inputMatrix) && kernelMatrix == old(kernelMatrix)
        invariant TiledFinish2D(TiledRun2D(tiledSums, tiledCurrentStep), inputMatrix, kernelMatrix, operation,
                                matrixSize, kernelSize, tileSize) ==
          TiledFinish2D(TiledRun2D(old(tiledSums), old(tiledCurrentStep)), inputMatrix, kernelMatrix, operation,
                        matrixSize, kernelSize, tileSize)
        invariant !isAnimating ==> naiveCurrentStep.y == outputSize &&
                                   tiledCurrentStep.tileY == TileCount(matrixSize, tileSize)
        decreases isAnimating,
                  outputSize - naiveCurrentStep.y, outputSize - naiveCurrentStep.x,
                  kernelSize - naiveCurrentStep.ky, kernelSize - naiveCurrentStep.kx,
                  TileCount(matrixSize, tileSize) - tiledCurrentStep.tileY,
                  TileCount(matrixSize, tileSize) - tiledCurrentStep.tileX,
                  matrixSize - tiledCurrentStep.y, matrixSize - tiledCurrentStep.x,
                  kernelSize - tiledCurrentStep.ky, kernelSize - tiledCurrentStep.kx
      {
        Animate();
      }
    }

    /** resetVisualization: the animation stops, a new zero output replaces the old one, both
        cursors return to zero; the matrices are kept. */
    method ResetVisualization()
      requires Valid()
      modifies this
      ensures Valid() && !isAnimating && fresh(outputMatrix)
      ensures inputMatrix == old(inputMatrix) && kernelMatrix == old(kernelMatrix)
      ensures forall y, x :: 0 <= y < outputSize && 0 <= x < outputSize ==> outputMatrix[y, x] == 0
      ensures naiveCurrentStep == NaiveCursor2D(0, 0, 0, 0) && tiledCurrentStep == TiledCursor2D(0, 0, 0, 0, 0, 0)
    {
      StopAnimation();
      var matrix := new int[outputSize, outputSize]((_, _) => 0);
      ghost var sums := ZeroMatrix(outputSize);
      forall y, x | 0 <= y < outputSize && 0 <= x < outputSize
        ensures matrix[y, x] == NaiveSoFar2D(inputMatrix, kernelMatrix, operation, kernelSize, NaiveCursor2D(0, 0, 0, 0), y, x) + sums[y][x]
      {
        NaiveSoFar2DStart(inputMatrix, kernelMatrix, operation, kernelSize, y, x);
      }
      outputMatrix := matrix;
      naiveCurrentStep := NaiveCursor2D(0, 0, 0, 0);
      tiledCurrentStep := TiledCursor2D(0, 0, 0, 0, 0, 0);
      tiledSums := sums;
    }

    /** The step button as written: it stops the animation and then calls animate, which
        returns at once because the animation is stopped; no stepper moves. */
    method StepClick()
      requires Valid()
      modifies this, outputMatrix
      ensures Valid() && !isAnimating && outputMatrix == old(outputMatrix)
      ensures naiveCurrentStep == old(naiveCurrentStep) && tiledCurrentStep == old(tiledCurrentStep)
      ensures forall y, x :: 0 <= y < outputSize && 0 <= x < outputSize ==> outputMatrix[y, x] == old(outputMatrix[y, x])
      ensures inputMatrix == old(inputMatrix) && kernelMatrix == old(kernelMatrix) && tiledSums == old(tiledSums)
    {
      StopAnimation();
      Animate();
    }

    /** The step button as evidently intended: with the animation stopped, one naive step and
        one tiled step. */
    method StepClickIntended()
      requires Valid()
      modifies this, outputMatrix
      ensures Valid() && !isAnimating && outputMatrix == old(outputMatrix)
      ensures naiveCurrentStep == NaiveNext2D(old(naiveCurrentStep), kernelSize, outputSize)
      ensures tiledCurrentStep == TiledNext2D(old(tiledCurrentStep), kernelSize, tileSize, outputSize, TileCount(matrixSize, tileSize))
      ensures inputMatrix == old(inputMatrix) && kernelMatrix == old(kernelMatrix)
      ensures
        forall y, x :: 0 <= y < outputSize && 0 <= x < outputSize ==>
          outputMatrix[y, x] == old(outputMatrix[y, x]) +
            NaiveProduct2D(inputMatrix, kernelMatrix, operation, matrixSize, kernelSize, old(naiveCurrentStep), y, x) +
            (if old(tiledCurrentStep.tileY) < TileCount(matrixSize, tileSize)
             then TiledProduct2D(inputMatrix, kernelMatrix, operation, matrixSize, kernelSize, old(tiledCurrentStep), y, x) else 0)
      ensures tiledSums == TiledStepSums2D(old(tiledSums), inputMatrix, kernelMatrix, operation, matrixSize, kernelSize,
                                             tileSize, old(tiledCurrentStep))
    {
      StopAnimation();
      var naiveHasMore := NaiveStep();
      var tiledHasMore := TiledStep();
    }
  }
}
