/** The 3D page of the visualizer: a cubic input volume, a cubic kernel, and two steppers that
    add one product per call into the same output volume, the naive one cell by cell and
    kernel offset by kernel offset, the tiled one tile by tile over cubic output tiles. */
module Visualizer3D {
  import opened ConvMath
  import opened Tiling
  import opened Visualizer1D

  // ---------------------------------------------------------------------------------------
  // The naive stepper

  /** naiveCurrentStep: output cell (z, y, x) and kernel offset (kz, ky, kx). */
  datatype NaiveCursor3D = NaiveCursor3D(x: int, y: int, z: int, kx: int, ky: int, kz: int)

  /** The cursor's kernel offsets are offsets of a k-cube. */
  predicate KernelOffsets3D(c: NaiveCursor3D, k: int)
  {
    0 <= c.kx < k && 0 <= c.ky < k && 0 <= c.kz < k
  }

  /** (z, y, x, kz, ky, kx) of c strictly before that of d in lexicographic order. */
  predicate NaiveBefore3D(c: NaiveCursor3D, d: NaiveCursor3D)
  {
    c.z < d.z || (c.z == d.z && (c.y < d.y || (c.y == d.y && (c.x < d.x || (c.x == d.x &&
    (c.kz < d.kz || (c.kz == d.kz && (c.ky < d.ky || (c.ky == d.ky && c.kx < d.kx)))))))))
  }

  /** The cursor update of naiveStep, six carry levels deep: the three kernel offsets, then
      output column, row and depth. */
  function NaiveAdvance3D(c: NaiveCursor3D, kernelSize: int, outputSize: int): (r: NaiveCursor3D)
    requires KernelOffsets3D(c, kernelSize)
    ensures KernelOffsets3D(r, kernelSize)
    ensures NaiveBefore3D(c, r)
    ensures r.z == c.z || (r.z == c.z + 1 && r.y == 0 && r.x == 0 && r.kx == 0 && r.ky == 0 && r.kz == 0)
  {
    if c.kx + 1 < kernelSize then c.(kx := c.kx + 1)
    else if c.ky + 1 < kernelSize then c.(kx := 0, ky := c.ky + 1)
    else if c.kz + 1 < kernelSize then c.(kx := 0, ky := 0, kz := c.kz + 1)
    else if c.x + 1 < outputSize then NaiveCursor3D(c.x + 1, c.y, c.z, 0, 0, 0)
    else if c.y + 1 < outputSize then NaiveCursor3D(0, c.y + 1, c.z, 0, 0, 0)
    else NaiveCursor3D(0, 0, c.z + 1, 0, 0, 0)
  }

  /** The cursor after one call of naiveStep: unchanged once z has reached the output size. */
  function NaiveNext3D(c: NaiveCursor3D, kernelSize: int, outputSize: int): (r: NaiveCursor3D)
    requires KernelOffsets3D(c, kernelSize)
    ensures KernelOffsets3D(r, kernelSize)
    ensures c.z >= outputSize ==> r == c
    ensures c.z < outputSize ==> NaiveBefore3D(c, r)
  {
    if c.z >= outputSize then c else NaiveAdvance3D(c, kernelSize, outputSize)
  }

  /** The cursors naiveStep can reach from the zero cursor: kernel offsets, an output column
      and row, and an output depth up to one past the last, with everything else zero there. */
  predicate NaiveInRange3D(c: NaiveCursor3D, kernelSize: int, outputSize: int)
  {
    KernelOffsets3D(c, kernelSize) && 0 <= c.x < outputSize && 0 <= c.y < outputSize && 0 <= c.z <= outputSize &&
    (c.z == outputSize ==> c.x == 0 && c.y == 0 && c.kx == 0 && c.ky == 0 && c.kz == 0)
  }

  /** naiveStep keeps its cursor in range. */
  lemma NaiveNext3DInRange(c: NaiveCursor3D, kernelSize: int, outputSize: int)
    requires NaiveInRange3D(c, kernelSize, outputSize)
    ensures NaiveInRange3D(NaiveNext3D(c, kernelSize, outputSize), kernelSize, outputSize)
  {
  }

  /** Cell (z, y, x) comes before cell (c.z, c.y, c.x) in the naive stepper's order. */
  predicate CellBefore3D(c: NaiveCursor3D, z: int, y: int, x: int)
  {
    z < c.z || (z == c.z && (y < c.y || (y == c.y && x < c.x)))
  }

  /** What the naive stepper has added to output cell (z, y, x) once its cursor is at c: the
      full sum for the cells it has passed, the full kernel planes before c.kz, the full rows
      before c.ky of plane c.kz and the first c.kx products of row c.ky for the cell under
      the cursor, nothing for the rest. */
  function NaiveSoFar3D(input: seq<seq<seq<int>>>, kernel: seq<seq<seq<int>>>, op: Operation, k: int,
                        c: NaiveCursor3D, z: int, y: int, x: int): int
    requires Window3D(input, kernel, k, z, y, x) && KernelOffsets3D(c, k)
  {
    if CellBefore3D(c, z, y, x) then Correlate3D(input, kernel, op, k, z, y, x)
    else if z == c.z && y == c.y && x == c.x then CursorSum3D(input, kernel, op, k, z, y, x, c.kz, c.ky, c.kx)
    else 0
  }

  /** The products for cell (z, y, x) before kernel offset (kz, ky, kx) in the naive order:
      full planes before kz, full rows before ky of plane kz, the first kx of row ky. */
  function CursorSum3D(input: seq<seq<seq<int>>>, kernel: seq<seq<seq<int>>>, op: Operation, k: int,
                       z: int, y: int, x: int, kz: int, ky: int, kx: int): int
    requires Window3D(input, kernel, k, z, y, x) && 0 <= kz < k && 0 <= ky < k && 0 <= kx <= k
  {
    PartialSum3D(input, kernel, op, k, z, y, x, kz) + PlaneSum3D(input, kernel, op, k, z, y, x, kz, ky)
    + RowSum3D(input, kernel, op, k, z, y, x, kz, ky, kx)
  }

  /** One naiveStep adds exactly the product at its cursor to the cell under the cursor, and
      the carries complete a kernel row, a kernel plane, then a whole cell. */
  lemma NaiveSoFar3DAdvance(input: seq<seq<seq<int>>>, kernel: seq<seq<seq<int>>>, op: Operation, k: int,
                            outputSize: int, c: NaiveCursor3D, z: int, y: int, x: int)
    requires Window3D(input, kernel, k, z, y, x) && Window3D(input, kernel, k, c.z, c.y, c.x)
    requires KernelOffsets3D(c, k) && 0 <= c.x < outputSize && 0 <= c.y < outputSize
    requires 0 <= x < outputSize && 0 <= y < outputSize
    ensures NaiveSoFar3D(input, kernel, op, k, NaiveAdvance3D(c, k, outputSize), z, y, x) ==
      NaiveSoFar3D(input, kernel, op, k, c, z, y, x) +
      (if z == c.z && y == c.y && x == c.x then Term3D(input, kernel, op, k, c.z, c.y, c.x, c.kz, c.ky, c.kx) else 0)
  {
    if z == c.z && y == c.y && x == c.x {
      NaiveSoFar3DAtCursor(input, kernel, op, k, outputSize, c);
    } else {
      NaiveSoFar3DElsewhere(input, kernel, op, k, outputSize, c, z, y, x);
    }
  }

  /** The cell under the cursor gains the product at the cursor; when the kernel is
      exhausted, the cursor moves on and the cell holds its full sum. */
  lemma NaiveSoFar3DAtCursor(input: seq<seq<seq<int>>>, kernel: seq<seq<seq<int>>>, op: Operation, k: int,
                             outputSize: int, c: NaiveCursor3D)
    requires Window3D(input, kernel, k, c.z, c.y, c.x)
    requires KernelOffsets3D(c, k) && 0 <= c.x < outputSize && 0 <= c.y < outputSize
    ensures NaiveSoFar3D(input, kernel, op, k, NaiveAdvance3D(c, k, outputSize), c.z, c.y, c.x) ==
      NaiveSoFar3D(input, kernel, op, k, c, c.z, c.y, c.x) + Term3D(input, kernel, op, k, c.z, c.y, c.x, c.kz, c.ky, c.kx)
  {
    var z, y, x := c.z, c.y, c.x;
    var d := NaiveAdvance3D(c, k, outputSize);
    SumsAdvance3D(input, kernel, op, k, z, y, x, c.kz, c.ky, c.kx);
    if c.kx + 1 < k {
      assert d == c.(kx := c.kx + 1);
    } else if c.ky + 1 < k {
      assert d == c.(kx := 0, ky := c.ky + 1);
    } else if c.kz + 1 < k {
      assert d == c.(kx := 0, ky := 0, kz := c.kz + 1);
    } else {
      assert CellBefore3D(d, z, y, x);
    }
  }

  /** The sums at the cursor grow by the product at kernel offset (kz, ky, kx): the row sum
      within a row, and across the carries the completed row joins the plane sum and the
      completed plane the partial sum, up to the full sum. */
  lemma SumsAdvance3D(input: seq<seq<seq<int>>>, kernel: seq<seq<seq<int>>>, op: Operation, k: int,
                      z: int, y: int, x: int, kz: int, ky: int, kx: int)
    requires Window3D(input, kernel, k, z, y, x) && 0 <= kz < k && 0 <= ky < k && 0 <= kx < k
    ensures var after := CursorSum3D(input, kernel, op, k, z, y, x, kz, ky, kx) + Term3D(input, kernel, op, k, z, y, x, kz, ky, kx);
      (kx + 1 < k ==> after == CursorSum3D(input, kernel, op, k, z, y, x, kz, ky, kx + 1)) &&
      (kx + 1 == k && ky + 1 < k ==> after == CursorSum3D(input, kernel, op, k, z, y, x, kz, ky + 1, 0)) &&
      (kx + 1 == k && ky + 1 == k && kz + 1 < k ==> after == CursorSum3D(input, kernel, op, k, z, y, x, kz + 1, 0, 0)) &&
      (kx + 1 == k && ky + 1 == k && kz + 1 == k ==> after == Correlate3D(input, kernel, op, k, z, y, x))
  {
    assert RowSum3D(input, kernel, op, k, z, y, x, kz, ky, kx + 1) ==
      RowSum3D(input, kernel, op, k, z, y, x, kz, ky, kx) + Term3D(input, kernel, op, k, z, y, x, kz, ky, kx);
    if kx + 1 == k {
      assert PlaneSum3D(input, kernel, op, k, z, y, x, kz, ky + 1) ==
        PlaneSum3D(input, kernel, op, k, z, y, x, kz, ky) + RowSum3D(input, kernel, op, k, z, y, x, kz, ky, k);
      if ky + 1 < k {
        assert RowSum3D(input, kernel, op, k, z, y, x, kz, ky + 1, 0) == 0;
      } else {
        assert PartialSum3D(input, kernel, op, k, z, y, x, kz + 1) ==
          PartialSum3D(input, kernel, op, k, z, y, x, kz) + PlaneSum3D(input, kernel, op, k, z, y, x, kz, k);
        if kz + 1 < k {
          assert PlaneSum3D(input, kernel, op, k, z, y, x, kz + 1, 0) == 0;
          assert RowSum3D(input, kernel, op, k, z, y, x, kz + 1, 0, 0) == 0;
        }
      }
    }
  }

  /** A cell away from the cursor keeps what it has: it is passed before the step exactly
      when it is passed after it, and the new cursor is never on it unless it starts it. */
  lemma NaiveSoFar3DElsewhere(input: seq<seq<seq<int>>>, kernel: seq<seq<seq<int>>>, op: Operation, k: int,
                              outputSize: int, c: NaiveCursor3D, z: int, y: int, x: int)
    requires Window3D(input, kernel, k, z, y, x)
    requires KernelOffsets3D(c, k) && 0 <= c.x < outputSize && 0 <= c.y < outputSize
    requires 0 <= x < outputSize && 0 <= y < outputSize
    requires !(z == c.z && y == c.y && x == c.x)
    ensures NaiveSoFar3D(input, kernel, op, k, NaiveAdvance3D(c, k, outputSize), z, y, x) ==
      NaiveSoFar3D(input, kernel, op, k, c, z, y, x)
  {
    var d := NaiveAdvance3D(c, k, outputSize);
    if d.x != c.x || d.y != c.y || d.z != c.z {
      assert d.kx == 0 && d.ky == 0 && d.kz == 0;
      assert CursorSum3D(input, kernel, op, k, z, y, x, 0, 0, 0) == 0 by {
        assert RowSum3D(input, kernel, op, k, z, y, x, 0, 0, 0) == 0;
      }
    }
  }

  /** The n-cube of zeros. */
  function ZeroCube(n: nat): (r: seq<seq<seq<int>>>)
    ensures IsCube(r, n)
    ensures forall z, y, x :: 0 <= z < n && 0 <= y < n && 0 <= x < n ==> r[z][y][x] == 0
  {
    seq(n, _ => seq(n, _ => seq(n, _ => 0)))
  }

  /** The zero cursor has added nothing to any cell. */
  lemma NaiveSoFar3DStart(input: seq<seq<seq<int>>>, kernel: seq<seq<seq<int>>>, op: Operation, k: int,
                          z: int, y: int, x: int)
    requires Window3D(input, kernel, k, z, y, x) && 1 <= k
    ensures NaiveSoFar3D(input, kernel, op, k, NaiveCursor3D(0, 0, 0, 0, 0, 0), z, y, x) == 0
  {
    assert RowSum3D(input, kernel, op, k, z, y, x, 0, 0, 0) == 0;
  }

  // ---------------------------------------------------------------------------------------
  // The tiled stepper

  /** tiledCurrentStep: the output tile (tileX, tileY, tileZ), the output cell (z, y, x) and
      the kernel offset (kz, ky, kx). */
  datatype TiledCursor3D = TiledCursor3D(tileX: int, tileY: int, tileZ: int, x: int, y: int, z: int,
                                         kx: int, ky: int, kz: int)

  /** The cursor's kernel offsets are offsets of a k-cube and its other fields are not
      negative. */
  predicate TiledCursorBase3D(c: TiledCursor3D, k: int)
  {
    0 <= c.kx < k && 0 <= c.ky < k && 0 <= c.kz < k &&
    0 <= c.tileX && 0 <= c.tileY && 0 <= c.tileZ && 0 <= c.x && 0 <= c.y && 0 <= c.z
  }

  /** (tileZ, tileY, tileX, z, y, x, kz, ky, kx) of c strictly before that of d in
      lexicographic order. */
  predicate TiledBefore3D(c: TiledCursor3D, d: TiledCursor3D)
  {
    c.tileZ < d.tileZ || (c.tileZ == d.tileZ && (c.tileY < d.tileY || (c.tileY == d.tileY &&
    (c.tileX < d.tileX || (c.tileX == d.tileX &&
    (c.z < d.z || (c.z == d.z && (c.y < d.y || (c.y == d.y && (c.x < d.x || (c.x == d.x &&
    (c.kz < d.kz || (c.kz == d.kz && (c.ky < d.ky || (c.ky == d.ky && c.kx < d.kx)))))))))))))))
  }

  /** The cursor update of tiledStep, nine carry levels deep: the three kernel offsets; the
      cell column up to the tile's right edge, where it goes back to the tile's first column
      and the row moves on; the row up to the tile's bottom edge, where it goes back to the
      tile's first row and the depth moves on; the depth up to the tile's back edge, where it
      goes back to the tile's first depth and the tile column moves on (column, row and depth
      stay at the start of the tile just finished); then the tile column and the tile row
      wrap to 0 past the tile count, moving the tile row and the tile depth on. */
  function TiledAdvance3D(c: TiledCursor3D, kernelSize: int, tileSize: int, outputSize: int, numTiles: int): (r: TiledCursor3D)
    requires TiledCursorBase3D(c, kernelSize) && tileSize >= 1
    ensures TiledCursorBase3D(r, kernelSize)
    ensures TiledBefore3D(c, r)
  {
    MulMonotone(0, c.tileX, tileSize);
    MulMonotone(0, c.tileY, tileSize);
    MulMonotone(0, c.tileZ, tileSize);
    if c.kx + 1 < kernelSize then c.(kx := c.kx + 1)
    else if c.ky + 1 < kernelSize then c.(kx := 0, ky := c.ky + 1)
    else if c.kz + 1 < kernelSize then c.(kx := 0, ky := 0, kz := c.kz + 1)
    else if c.x + 1 < TileEnd(c.tileX, tileSize, outputSize) then c.(x := c.x + 1, kx := 0, ky := 0, kz := 0)
    else if c.y + 1 < TileEnd(c.tileY, tileSize, outputSize) then
      c.(x := c.tileX * tileSize, y := c.y + 1, kx := 0, ky := 0, kz := 0)
    else if c.z + 1 < TileEnd(c.tileZ, tileSize, outputSize) then
      c.(x := c.tileX * tileSize, y := c.tileY * tileSize, z := c.z + 1, kx := 0, ky := 0, kz := 0)
    else
      var r := TiledCursor3D(c.tileX + 1, c.tileY, c.tileZ, c.tileX * tileSize, c.tileY * tileSize, c.tileZ * tileSize, 0, 0, 0);
      if r.tileX < numTiles then r
      else if r.tileY + 1 < numTiles then r.(tileX := 0, tileY := r.tileY + 1)
      else r.(tileX := 0, tileY := 0, tileZ := r.tileZ + 1)
  }

  /** The cursor after one call of tiledStep: unchanged once the tile depth has reached the
      tile count. */
  function TiledNext3D(c: TiledCursor3D, kernelSize: int, tileSize: int, outputSize: int, numTiles: int): (r: TiledCursor3D)
    requires TiledCursorBase3D(c, kernelSize) && tileSize >= 1
    ensures TiledCursorBase3D(r, kernelSize)
    ensures c.tileZ >= numTiles ==> r == c
    ensures c.tileZ < numTiles ==> TiledBefore3D(c, r)
  {
    if c.tileZ >= numTiles then c else TiledAdvance3D(c, kernelSize, tileSize, outputSize, numTiles)
  }

  /** The cursors tiledStep can reach: kernel offsets, a tile column and row below the tile
      count, a tile depth up to it, and a cell inside the input volume. */
  predicate TiledInRange3D(c: TiledCursor3D, kernelSize: int, volumeSize: int, numTiles: int)
  {
    TiledCursorBase3D(c, kernelSize) &&
    c.tileX < numTiles && c.tileY < numTiles && c.tileZ <= numTiles &&
    c.x < volumeSize && c.y < volumeSize && c.z < volumeSize
  }

  /** tiledStep keeps its cursor in range: the tile starts it moves back to lie inside the
      input volume, since every tile index is below Math.ceil(volumeSize / tileSize). */
  lemma TiledNext3DInRange(c: TiledCursor3D, kernelSize: int, tileSize: int, volumeSize: int, outputSize: int)
    requires volumeSize >= 1 && tileSize >= 1 && outputSize <= volumeSize
    requires TiledInRange3D(c, kernelSize, volumeSize, TileCount(volumeSize, tileSize))
    ensures TiledInRange3D(TiledNext3D(c, kernelSize, tileSize, outputSize, TileCount(volumeSize, tileSize)),
                           kernelSize, volumeSize, TileCount(volumeSize, tileSize))
  {
    if c.tileZ < TileCount(volumeSize, tileSize) {
      TileStartInRange(volumeSize, tileSize, c.tileX);
      TileStartInRange(volumeSize, tileSize, c.tileY);
      TileStartInRange(volumeSize, tileSize, c.tileZ);
    }
  }

  /** The accumulation guard of tiledStep: the cell is an output cell and the input cell it
      reads exists. */
  predicate TiledGuard3D(c: TiledCursor3D, volumeSize: int, outputSize: int)
  {
    c.z < outputSize && c.y < outputSize && c.x < outputSize &&
    c.z + c.kz < volumeSize && c.y + c.ky < volumeSize && c.x + c.kx < volumeSize
  }

  /** For kernel offsets, the input half of the guard follows from the output half. */
  lemma TiledGuard3DExact(c: TiledCursor3D, kernelSize: int, volumeSize: int)
    requires TiledCursorBase3D(c, kernelSize)
    ensures TiledGuard3D(c, volumeSize, OutputExtent(volumeSize, kernelSize)) <==>
      c.z < OutputExtent(volumeSize, kernelSize) && c.y < OutputExtent(volumeSize, kernelSize) &&
      c.x < OutputExtent(volumeSize, kernelSize)
  {
  }

  /** The operands of the page: an n-cube input and a k-cube kernel with 1 <= k <= n. */
  predicate VolumeOperands(input: seq<seq<seq<int>>>, kernel: seq<seq<seq<int>>>, n: int, k: int)
  {
    1 <= k <= n && IsCube(input, n) && IsCube(kernel, k)
  }

  /** The product tiledStep adds to output cell (z, y, x) from cursor c: the product at the
      cursor for the cell under it when the guard holds, nothing otherwise. */
  function TiledProduct3D(input: seq<seq<seq<int>>>, kernel: seq<seq<seq<int>>>, op: Operation, n: int, k: int,
                          c: TiledCursor3D, z: int, y: int, x: int): int
    requires VolumeOperands(input, kernel, n, k) && TiledCursorBase3D(c, k)
  {
    if TiledGuard3D(c, n, OutputExtent(n, k)) && z == c.z && y == c.y && x == c.x
    then Term3D(input, kernel, op, k, c.z, c.y, c.x, c.kz, c.ky, c.kx) else 0
  }

  /** The same product added to a volume of sums (what the tiled stepper has contributed so
      far): only the cell under the cursor changes, and only when the guard holds. */
  function TiledAccumulate3D(s: seq<seq<seq<int>>>, input: seq<seq<seq<int>>>, kernel: seq<seq<seq<int>>>,
                             op: Operation, n: int, k: int, c: TiledCursor3D): (r: seq<seq<seq<int>>>)
    requires VolumeOperands(input, kernel, n, k) && TiledCursorBase3D(c, k)
    requires IsCube(s, OutputExtent(n, k))
    ensures IsCube(r, OutputExtent(n, k))
    ensures forall z, y, x :: 0 <= z < OutputExtent(n, k) && 0 <= y < OutputExtent(n, k) && 0 <= x < OutputExtent(n, k) ==>
      r[z][y][x] == s[z][y][x] + TiledProduct3D(input, kernel, op, n, k, c, z, y, x)
  {
    if TiledGuard3D(c, n, OutputExtent(n, k))
    then s[c.z := s[c.z][c.y := s[c.z][c.y][c.x := s[c.z][c.y][c.x] + Term3D(input, kernel, op, k, c.z, c.y, c.x, c.kz, c.ky, c.kx)]]]
    else s
  }

  /** The product naiveStep adds to output cell (z, y, x) from cursor c: the product at the
      cursor for the cell under it while the cursor is on an output cell, nothing once the
      stepper is done. */
  function NaiveProduct3D(input: seq<seq<seq<int>>>, kernel: seq<seq<seq<int>>>, op: Operation, n: int, k: int,
                          c: NaiveCursor3D, z: int, y: int, x: int): int
    requires VolumeOperands(input, kernel, n, k) && KernelOffsets3D(c, k) && 0 <= c.x && 0 <= c.y && 0 <= c.z
  {
    if c.z < OutputExtent(n, k) && c.y < OutputExtent(n, k) && c.x < OutputExtent(n, k) && z == c.z && y == c.y && x == c.x
    then Term3D(input, kernel, op, k, c.z, c.y, c.x, c.kz, c.ky, c.kx) else 0
  }

  /** What one call of tiledStep adds to the tiled part: the guarded product while tile
      depths remain, nothing once the tile depth has reached the tile count. */
  function TiledStepSums3D(s: seq<seq<seq<int>>>, input: seq<seq<seq<int>>>, kernel: seq<seq<seq<int>>>,
                           op: Operation, n: int, k: int, tileSize: int, c: TiledCursor3D): (r: seq<seq<seq<int>>>)
    requires VolumeOperands(input, kernel, n, k) && TiledCursorBase3D(c, k) && tileSize >= 1
    requires IsCube(s, OutputExtent(n, k))
    ensures IsCube(r, OutputExtent(n, k))
    ensures c.tileZ < TileCount(n, tileSize) ==> r == TiledAccumulate3D(s, input, kernel, op, n, k, c)
    ensures c.tileZ >= TileCount(n, tileSize) ==> r == s
  {
    if c.tileZ < TileCount(n, tileSize) then TiledAccumulate3D(s, input, kernel, op, n, k, c) else s
  }

  // ---------------------------------------------------------------------------------------
  // The tiled stepper on its own, after a reset

  /** The state of the tiled stepper alone: the output and the cursor. */
  datatype TiledRun3D = TiledRun3D(out: seq<seq<seq<int>>>, cursor: TiledCursor3D)

  /** One call of tiledStep on the run, before the last tile depth is done. */
  function TiledStepRun3D(r: TiledRun3D, input: seq<seq<seq<int>>>, kernel: seq<seq<seq<int>>>, op: Operation,
                          n: int, k: int, tileSize: int): (s: TiledRun3D)
    requires VolumeOperands(input, kernel, n, k) && tileSize >= 1
    requires IsCube(r.out, OutputExtent(n, k)) && TiledCursorBase3D(r.cursor, k)
    ensures IsCube(s.out, OutputExtent(n, k)) && TiledCursorBase3D(s.cursor, k)
    ensures s.cursor == TiledAdvance3D(r.cursor, k, tileSize, OutputExtent(n, k), TileCount(n, tileSize))
  {
    TiledRun3D(TiledAccumulate3D(r.out, input, kernel, op, n, k, r.cursor),
               TiledAdvance3D(r.cursor, k, tileSize, OutputExtent(n, k), TileCount(n, tileSize)))
  }

  /** n calls of tiledStep with no naive steps in between. */
  function TiledSteps3D(r: TiledRun3D, input: seq<seq<seq<int>>>, kernel: seq<seq<seq<int>>>, op: Operation,
                        n: int, k: int, tileSize: int, steps: nat): (s: TiledRun3D)
    requires VolumeOperands(input, kernel, n, k) && tileSize >= 1
    requires IsCube(r.out, OutputExtent(n, k)) && TiledCursorBase3D(r.cursor, k)
    ensures IsCube(s.out, OutputExtent(n, k))
    decreases steps
  {
    if steps == 0 || r.cursor.tileZ >= TileCount(n, tileSize) then r
    else TiledSteps3D(TiledStepRun3D(r, input, kernel, op, n, k, tileSize), input, kernel, op, n, k, tileSize, steps - 1)
  }

  /** One more call of tiledStep, while tile depths remain, is one step followed by the
      others. */
  lemma TiledSteps3DUnfold(r: TiledRun3D, input: seq<seq<seq<int>>>, kernel: seq<seq<seq<int>>>, op: Operation,
                           n: int, k: int, tileSize: int, steps: nat)
    requires VolumeOperands(input, kernel, n, k) && tileSize >= 1
    requires IsCube(r.out, OutputExtent(n, k)) && TiledCursorBase3D(r.cursor, k)
    requires r.cursor.tileZ < TileCount(n, tileSize)
    ensures TiledSteps3D(r, input, kernel, op, n, k, tileSize, steps + 1) ==
            TiledSteps3D(TiledStepRun3D(r, input, kernel, op, n, k, tileSize), input, kernel, op, n, k, tileSize, steps)
  {
  }

  /** As on the other pages, the tiled stepper passes over finished cells again. On the
      2-cube of ones with the 1-cube kernel [[[1]]] and tile size 1, after its first two
      steps the second tile has started at cell (0, 0, 0) once more, which then holds 2
      while its cross-correlation is 1. */
  lemma TiledStepper3DRevisits()
    ensures var done := TiledSteps3D(TiledRun3D([[[0, 0], [0, 0]], [[0, 0], [0, 0]]], TiledCursor3D(0, 0, 0, 0, 0, 0, 0, 0, 0)),
                                     [[[1, 1], [1, 1]], [[1, 1], [1, 1]]], [[[1]]], CrossCorrelation, 2, 1, 1, 2);
      done.out[0][0][0] == 2 && done.cursor == TiledCursor3D(1, 0, 0, 1, 0, 0, 0, 0, 0) &&
      Correlate3D([[[1, 1], [1, 1]], [[1, 1], [1, 1]]], [[[1]]], CrossCorrelation, 1, 0, 0, 0) == 1
  {
    var a, b, op := [[[1, 1], [1, 1]], [[1, 1], [1, 1]]], [[[1]]], CrossCorrelation;
    var zero := [[0, 0], [0, 0]];
    var r0 := TiledRun3D([zero, zero], TiledCursor3D(0, 0, 0, 0, 0, 0, 0, 0, 0));
    var r1 := TiledRun3D([[[1, 0], [0, 0]], zero], TiledCursor3D(1, 0, 0, 0, 0, 0, 0, 0, 0));
    var r2 := TiledRun3D([[[2, 0], [0, 0]], zero], TiledCursor3D(1, 0, 0, 1, 0, 0, 0, 0, 0));
    assert TileCount(2, 1) == 2;
    RevisitFirstStep3D();
    RevisitSecondStep3D();
    TiledSteps3DUnfold(r1, a, b, op, 2, 1, 1, 0);
    TiledSteps3DUnfold(r0, a, b, op, 2, 1, 1, 1);
    CorrelateOnes3D();
  }

  /** On the 2-cube of ones, cell (0, 0, 0) of the cross-correlation with [[[1]]] is 1. */
  lemma CorrelateOnes3D()
    ensures Correlate3D([[[1, 1], [1, 1]], [[1, 1], [1, 1]]], [[[1]]], CrossCorrelation, 1, 0, 0, 0) == 1
  {
    var a, b, op := [[[1, 1], [1, 1]], [[1, 1], [1, 1]]], [[[1]]], CrossCorrelation;
    assert RowSum3D(a, b, op, 1, 0, 0, 0, 0, 0, 1) == 1;
    assert PlaneSum3D(a, b, op, 1, 0, 0, 0, 0, 1) == 1;
  }

  /** The first step of that run: cell (0, 0, 0) receives its product and the cursor moves to
      the second tile, back at cell (0, 0, 0). */
  lemma RevisitFirstStep3D()
    ensures TiledStepRun3D(TiledRun3D([[[0, 0], [0, 0]], [[0, 0], [0, 0]]], TiledCursor3D(0, 0, 0, 0, 0, 0, 0, 0, 0)),
                           [[[1, 1], [1, 1]], [[1, 1], [1, 1]]], [[[1]]], CrossCorrelation, 2, 1, 1) ==
            TiledRun3D([[[1, 0], [0, 0]], [[0, 0], [0, 0]]], TiledCursor3D(1, 0, 0, 0, 0, 0, 0, 0, 0))
  {
    var a, b, op := [[[1, 1], [1, 1]], [[1, 1], [1, 1]]], [[[1]]], CrossCorrelation;
    var zero := [[0, 0], [0, 0]];
    var r0 := TiledRun3D([zero, zero], TiledCursor3D(0, 0, 0, 0, 0, 0, 0, 0, 0));
    var r1 := TiledRun3D([[[1, 0], [0, 0]], zero], TiledCursor3D(1, 0, 0, 0, 0, 0, 0, 0, 0));
    assert TileCount(2, 1) == 2;
    assert OutputExtent(2, 1) == 2 && TileEnd(0, 1, 2) == 1;
    assert Term3D(a, b, op, 1, 0, 0, 0, 0, 0, 0) == 1;
    assert TiledGuard3D(r0.cursor, 2, 2);
    assert zero[0][0 := 1] == [1, 0] && zero[0 := [1, 0]] == [[1, 0], [0, 0]] && r0.out[0 := [[1, 0], [0, 0]]] == r1.out;
    assert TiledAccumulate3D(r0.out, a, b, op, 2, 1, r0.cursor) == r1.out;
    assert TiledAdvance3D(r0.cursor, 1, 1, 2, 2) == r1.cursor;
  }

  /** The second step: cell (0, 0, 0) receives its product a second time. */
  lemma RevisitSecondStep3D()
    ensures TiledStepRun3D(TiledRun3D([[[1, 0], [0, 0]], [[0, 0], [0, 0]]], TiledCursor3D(1, 0, 0, 0, 0, 0, 0, 0, 0)),
                           [[[1, 1], [1, 1]], [[1, 1], [1, 1]]], [[[1]]], CrossCorrelation, 2, 1, 1) ==
            TiledRun3D([[[2, 0], [0, 0]], [[0, 0], [0, 0]]], TiledCursor3D(1, 0, 0, 1, 0, 0, 0, 0, 0))
  {
    var a, b, op := [[[1, 1], [1, 1]], [[1, 1], [1, 1]]], [[[1]]], CrossCorrelation;
    var zero := [[0, 0], [0, 0]];
    var r1 := TiledRun3D([[[1, 0], [0, 0]], zero], TiledCursor3D(1, 0, 0, 0, 0, 0, 0, 0, 0));
    var r2 := TiledRun3D([[[2, 0], [0, 0]], zero], TiledCursor3D(1, 0, 0, 1, 0, 0, 0, 0, 0));
    assert TileCount(2, 1) == 2;
    assert OutputExtent(2, 1) == 2 && TileEnd(1, 1, 2) == 2;
    assert Term3D(a, b, op, 1, 0, 0, 0, 0, 0, 0) == 1;
    assert TiledGuard3D(r1.cursor, 2, 2);
    assert [1, 0][0 := 2] == [2, 0] && [[1, 0], [0, 0]][0 := [2, 0]] == [[2, 0], [0, 0]] && r1.out[0 := [[2, 0], [0, 0]]] == r2.out;
    assert TiledAccumulate3D(r1.out, a, b, op, 2, 1, r1.cursor) == r2.out;
    assert TiledAdvance3D(r1.cursor, 1, 1, 2, 2) == r2.cursor;
  }

  /** The tiled stepper alone, called until it reports that no tile depth remains. From a
      cursor in range every call moves the cursor forward (TiledAdvance3D), so the run ends,
      with the tile depth at the tile count. */
  function TiledFinish3D(r: TiledRun3D, input: seq<seq<seq<int>>>, kernel: seq<seq<seq<int>>>, op: Operation,
                         n: int, k: int, tileSize: int): (s: TiledRun3D)
    requires VolumeOperands(input, kernel, n, k) && tileSize >= 1
    requires IsCube(r.out, OutputExtent(n, k)) && TiledInRange3D(r.cursor, k, n, TileCount(n, tileSize))
    ensures IsCube(s.out, OutputExtent(n, k)) && TiledInRange3D(s.cursor, k, n, TileCount(n, tileSize))
    ensures s.cursor.tileZ == TileCount(n, tileSize)
    decreases TileCount(n, tileSize) - r.cursor.tileZ, TileCount(n, tileSize) - r.cursor.tileY,
              TileCount(n, tileSize) - r.cursor.tileX, n - r.cursor.z, n - r.cursor.y, n - r.cursor.x,
              k - r.cursor.kz, k - r.cursor.ky, k - r.cursor.kx
  {
    if r.cursor.tileZ >= TileCount(n, tileSize) then r
    else
      TiledNext3DInRange(r.cursor, k, tileSize, n, OutputExtent(n, k));
      TiledFinish3D(TiledStepRun3D(r, input, kernel, op, n, k, tileSize), input, kernel, op, n, k, tileSize)
  }

  /** Running the tiled stepper to its end after some calls ends where running it to its end
      at once does. */
  lemma {:induction false} TiledFinishSteps3D(r: TiledRun3D, input: seq<seq<seq<int>>>, kernel: seq<seq<seq<int>>>,
                                              op: Operation, n: int, k: int, tileSize: int, steps: nat)
    requires VolumeOperands(input, kernel, n, k) && tileSize >= 1
    requires IsCube(r.out, OutputExtent(n, k)) && TiledInRange3D(r.cursor, k, n, TileCount(n, tileSize))
    ensures TiledInRange3D(TiledSteps3D(r, input, kernel, op, n, k, tileSize, steps).cursor, k, n, TileCount(n, tileSize))
    ensures TiledFinish3D(TiledSteps3D(r, input, kernel, op, n, k, tileSize, steps), input, kernel, op, n, k, tileSize) ==
            TiledFinish3D(r, input, kernel, op, n, k, tileSize)
    decreases steps
  {
    if steps > 0 && r.cursor.tileZ < TileCount(n, tileSize) {
      TiledNext3DInRange(r.cursor, k, tileSize, n, OutputExtent(n, k));
      TiledFinishSteps3D(TiledStepRun3D(r, input, kernel, op, n, k, tileSize), input, kernel, op, n, k, tileSize, steps - 1);
    }
  }

  /** A new n-cube of zeros, as the output volume of the page is allocated. */
  method NewZeroVolume(n: nat) returns (v: array3<int>)
    ensures fresh(v) && v.Length0 == n && v.Length1 == n && v.Length2 == n
    ensures forall z, y, x :: 0 <= z < n && 0 <= y < n && 0 <= x < n ==> v[z, y, x] == 0
  {
    v := new int[n, n, n]((_, _, _) => 0);
  }

  // ---------------------------------------------------------------------------------------
  // The page state

  /** The state of initialize3DVisualization: sizes, operation, volumes, the two cursors, the
      animation flag and the two view slices. The ghost tiledSums records what tiledStep has
      added to each output cell, so that the shared output is the naive part plus the tiled
      part. */
  class Visualization3D {
    const volumeSize: int
    const kernelSize: int
    const tileSize: int
    const operation: Operation
    const outputSize: int
    var inputVolume: seq<seq<seq<int>>>
    var kernelVolume: seq<seq<seq<int>>>
    var outputVolume: array3<int>
    var naiveCurrentStep: NaiveCursor3D
    var tiledCurrentStep: TiledCursor3D
    var isAnimating: bool
    var currentViewZ: int
    var currentOutputViewZ: int
    ghost var tiledSums: seq<seq<seq<int>>>

    /** The sizes fit, the volumes have them, the cursors are in range, and every output cell
        holds what the naive stepper has added plus what the tiled stepper has. */
    ghost predicate Valid()
      reads this, outputVolume
    {
      VolumeOperands(inputVolume, kernelVolume, volumeSize, kernelSize) && tileSize >= 1 &&
      outputSize == OutputExtent(volumeSize, kernelSize) &&
      outputVolume.Length0 == outputSize && outputVolume.Length1 == outputSize && outputVolume.Length2 == outputSize &&
      NaiveInRange3D(naiveCurrentStep, kernelSize, outputSize) &&
      TiledInRange3D(tiledCurrentStep, kernelSize, volumeSize, TileCount(volumeSize, tileSize)) &&
      IsCube(tiledSums, outputSize) &&
      forall z, y, x :: 0 <= z < outputSize && 0 <= y < outputSize && 0 <= x < outputSize ==>
        outputVolume[z, y, x] == NaiveSoFar3D(inputVolume, kernelVolume, operation, kernelSize, naiveCurrentStep, z, y, x)
                                 + tiledSums[z][y][x]
    }

    /** The page as built: the sizes of the sliders, the volumes of initializeVolumes (random
        in the page, parameters here), a zero output cube of side volumeSize - kernelSize + 1,
        both cursors and both view slices at zero and no animation. */
    constructor (volumeSize: int, kernelSize: int, tileSize: int, operation: Operation,
                 input: seq<seq<seq<int>>>, kernel: seq<seq<seq<int>>>)
      requires VolumeOperands(input, kernel, volumeSize, kernelSize) && tileSize >= 1
      ensures Valid() && !isAnimating && fresh(outputVolume)
      ensures this.volumeSize == volumeSize && this.kernelSize == kernelSize
      ensures this.tileSize == tileSize && this.operation == operation
      ensures inputVolume == input && kernelVolume == kernel
      ensures outputSize == volumeSize - kernelSize + 1
      ensures forall z, y, x :: 0 <= z < outputSize && 0 <= y < outputSize && 0 <= x < outputSize ==>
        outputVolume[z, y, x] == 0
      ensures naiveCurrentStep == NaiveCursor3D(0, 0, 0, 0, 0, 0)
      ensures tiledCurrentStep == TiledCursor3D(0, 0, 0, 0, 0, 0, 0, 0, 0)
      ensures currentViewZ == 0 && currentOutputViewZ == 0
    {
      this.volumeSize := volumeSize;
      this.kernelSize := kernelSize;
      this.tileSize := tileSize;
      this.operation := operation;
      outputSize := volumeSize - kernelSize + 1;
      inputVolume := input;
      kernelVolume := kernel;
      var n := volumeSize - kernelSize + 1;
      outputVolume := new int[n, n, n]((_, _, _) => 0);
      naiveCurrentStep := NaiveCursor3D(0, 0, 0, 0, 0, 0);
      tiledCurrentStep := TiledCursor3D(0, 0, 0, 0, 0, 0, 0, 0, 0);
      isAnimating := false;
      currentViewZ := 0;
      currentOutputViewZ := 0;
      tiledSums := ZeroCube(n);
    }

    /** initializeVolumes: new input and kernel, a new zero output, both cursors and both view
        slices at zero; the animation flag is left as it is. */
    method InitializeVolumes(input: seq<seq<seq<int>>>, kernel: seq<seq<seq<int>>>)
      requires Valid() && VolumeOperands(input, kernel, volumeSize, kernelSize)
      modifies this
      ensures Valid() && fresh(outputVolume) && isAnimating == old(isAnimating)
      ensures inputVolume == input && kernelVolume == kernel
      ensures forall z, y, x :: 0 <= z < outputSize && 0 <= y < outputSize && 0 <= x < outputSize ==>
        outputVolume[z, y, x] == 0
      ensures naiveCurrentStep == NaiveCursor3D(0, 0, 0, 0, 0, 0)
      ensures tiledCurrentStep == TiledCursor3D(0, 0, 0, 0, 0, 0, 0, 0, 0)
      ensures currentViewZ == 0 && currentOutputViewZ == 0
    {
      inputVolume := input;
      kernelVolume := kernel;
      currentViewZ := 0;
      currentOutputViewZ := 0;
      ClearOutput();
    }

    /** The part initializeVolumes and resetVisualization share: a new zero output volume and
        both cursors at zero, so that the output holds nothing from either stepper. */
    method ClearOutput()
      requires VolumeOperands(inputVolume, kernelVolume, volumeSize, kernelSize) && tileSize >= 1
      requires outputSize == OutputExtent(volumeSize, kernelSize)
      modifies this
      ensures Valid() && fresh(outputVolume) && isAnimating == old(isAnimating)
      ensures inputVolume == old(inputVolume) && kernelVolume == old(kernelVolume)
      ensures forall z, y, x :: 0 <= z < outputSize && 0 <= y < outputSize && 0 <= x < outputSize ==>
        outputVolume[z, y, x] == 0
      ensures naiveCurrentStep == NaiveCursor3D(0, 0, 0, 0, 0, 0)
      ensures tiledCurrentStep == TiledCursor3D(0, 0, 0, 0, 0, 0, 0, 0, 0)
      ensures currentViewZ == old(currentViewZ) && currentOutputViewZ == old(currentOutputViewZ)
    {
      outputVolume := NewZeroVolume(outputSize);
      naiveCurrentStep := NaiveCursor3D(0, 0, 0, 0, 0, 0);
      tiledCurrentStep := TiledCursor3D(0, 0, 0, 0, 0, 0, 0, 0, 0);
      tiledSums := ZeroCube(outputSize);
      forall z, y, x | 0 <= z < outputSize && 0 <= y < outputSize && 0 <= x < outputSize
        ensures outputVolume[z, y, x] == NaiveSoFar3D(inputVolume, kernelVolume, operation, kernelSize, naiveCurrentStep, z, y, x)
                                         + tiledSums[z][y][x]
      {
        NaiveSoFar3DStart(inputVolume, kernelVolume, operation, kernelSize, z, y, x);
      }
    }

    /** The update of naiveStep: the product at the cursor is added to the cell under it. */
    method AddNaiveProduct(c: NaiveCursor3D)
      requires VolumeOperands(inputVolume, kernelVolume, volumeSize, kernelSize)
      requires outputSize == OutputExtent(volumeSize, kernelSize)
      requires outputVolume.Length0 == outputSize && outputVolume.Length1 == outputSize && outputVolume.Length2 == outputSize
      requires KernelOffsets3D(c, kernelSize) && 0 <= c.x < outputSize && 0 <= c.y < outputSize && 0 <= c.z < outputSize
      modifies outputVolume
      ensures forall z, y, x :: 0 <= z < outputSize && 0 <= y < outputSize && 0 <= x < outputSize ==>
        outputVolume[z, y, x] == old(outputVolume[z, y, x]) +
          (if z == c.z && y == c.y && x == c.x
           then Term3D(inputVolume, kernelVolume, operation, kernelSize, c.z, c.y, c.x, c.kz, c.ky, c.kx) else 0)
    {
      var x, y, z, kx, ky, kz := c.x, c.y, c.z, c.kx, c.ky, c.kz;
      var kernelX := if operation == Convolution then kernelSize - 1 - kx else kx;
      var kernelY := if operation == Convolution then kernelSize - 1 - ky else ky;
      var kernelZ := if operation == Convolution then kernelSize - 1 - kz else kz;
      outputVolume[z, y, x] := outputVolume[z, y, x] + inputVolume[z + kz][y + ky][x + kx] * kernelVolume[kernelZ][kernelY][kernelX];
    }

    /** naiveStep: once z has reached the output size, nothing changes; otherwise the product
        at the cursor is added to the cell under it and the cursor advances. The answer is
        whether z is still below the output size afterwards, and when it is not, every cell
        holds its full sum plus the tiled part. */
    method NaiveStep() returns (more: bool)
      requires Valid()
      modifies this, outputVolume
      ensures Valid()
      ensures naiveCurrentStep == NaiveNext3D(old(naiveCurrentStep), kernelSize, outputSize)
      ensures more <==> naiveCurrentStep.z < outputSize
      ensures old(naiveCurrentStep.z) < outputSize ==>
        var c := old(naiveCurrentStep);
        forall z, y, x :: 0 <= z < outputSize && 0 <= y < outputSize && 0 <= x < outputSize ==>
          outputVolume[z, y, x] == old(outputVolume[z, y, x]) +
            (if z == c.z && y == c.y && x == c.x
             then Term3D(inputVolume, kernelVolume, operation, kernelSize, c.z, c.y, c.x, c.kz, c.ky, c.kx) else 0)
      ensures old(naiveCurrentStep.z) >= outputSize ==>
        forall z, y, x :: 0 <= z < outputSize && 0 <= y < outputSize && 0 <= x < outputSize ==>
          outputVolume[z, y, x] == old(outputVolume[z, y, x])
      ensures !more ==> forall z, y, x :: 0 <= z < outputSize && 0 <= y < outputSize && 0 <= x < outputSize ==>
        outputVolume[z, y, x] == Correlate3D(inputVolume, kernelVolume, operation, kernelSize, z, y, x) + tiledSums[z][y][x]
      ensures outputVolume == old(outputVolume) && inputVolume == old(inputVolume) && kernelVolume == old(kernelVolume)
      ensures tiledCurrentStep == old(tiledCurrentStep) && tiledSums == old(tiledSums)
      ensures isAnimating == old(isAnimating)
      ensures currentViewZ == old(currentViewZ) && currentOutputViewZ == old(currentOutputViewZ)
    {
      if naiveCurrentStep.z >= outputSize {
        return false;
      }
      var c := naiveCurrentStep;
      var step := NaiveAdvance3D(naiveCurrentStep, kernelSize, outputSize);
      AddNaiveProduct(c);
      naiveCurrentStep := step;
      forall z, y, x | 0 <= z < outputSize && 0 <= y < outputSize && 0 <= x < outputSize
        ensures outputVolume[z, y, x] == NaiveSoFar3D(inputVolume, kernelVolume, operation, kernelSize, step, z, y, x)
                                         + tiledSums[z][y][x]
      {
        assert old(outputVolume[z, y, x]) == NaiveSoFar3D(inputVolume, kernelVolume, operation, kernelSize, c, z, y, x)
                                             + tiledSums[z][y][x];
        NaiveSoFar3DAdvance(inputVolume, kernelVolume, operation, kernelSize, outputSize, c, z, y, x);
      }
      return step.z < outputSize;
    }

    /** The guarded update of tiledStep: when the cell is an output cell and the input cell
        exists, the product at the cursor is added to the cell under it. */
    method AddTiledProduct(c: TiledCursor3D)
      requires VolumeOperands(inputVolume, kernelVolume, volumeSize, kernelSize)
      requires outputSize == OutputExtent(volumeSize, kernelSize)
      requires outputVolume.Length0 == outputSize && outputVolume.Length1 == outputSize && outputVolume.Length2 == outputSize
      requires TiledCursorBase3D(c, kernelSize)
      modifies outputVolume
      ensures forall z, y, x :: 0 <= z < outputSize && 0 <= y < outputSize && 0 <= x < outputSize ==>
        outputVolume[z, y, x] == old(outputVolume[z, y, x]) +
          TiledProduct3D(inputVolume, kernelVolume, operation, volumeSize, kernelSize, c, z, y, x)
    {
      var x, y, z, kx, ky, kz := c.x, c.y, c.z, c.kx, c.ky, c.kz;
      if z < outputSize && y < outputSize && x < outputSize &&
         z + kz < volumeSize && y + ky < volumeSize && x + kx < volumeSize {
        var kernelX := if operation == Convolution then kernelSize - 1 - kx else kx;
        var kernelY := if operation == Convolution then kernelSize - 1 - ky else ky;
        var kernelZ := if operation == Convolution then kernelSize - 1 - kz else kz;
        var product := inputVolume[z + kz][y + ky][x + kx] * kernelVolume[kernelZ][kernelY][kernelX];
        assert product == Term3D(inputVolume, kernelVolume, operation, kernelSize, z, y, x, kz, ky, kx);
        outputVolume[z, y, x] := outputVolume[z, y, x] + product;
      }
    }

    /** tiledStep: once the tile depth has reached Math.ceil(volumeSize / tileSize), nothing
        changes; otherwise, when the guard holds, the product at the cursor is added to the
        cell under it (and to the tiled part), and the cursor advances. The answer is whether
        tile depths remain afterwards. */
    method TiledStep() returns (more: bool)
      requires Valid()
      modifies this, outputVolume
      ensures Valid()
      ensures tiledCurrentStep == TiledNext3D(old(tiledCurrentStep), kernelSize, tileSize, outputSize, TileCount(volumeSize, tileSize))
      ensures more <==> tiledCurrentStep.tileZ < TileCount(volumeSize, tileSize)
      ensures old(tiledCurrentStep.tileZ) < TileCount(volumeSize, tileSize) ==>
        tiledSums == TiledAccumulate3D(old(tiledSums), inputVolume, kernelVolume, operation, volumeSize, kernelSize, old(tiledCurrentStep)) &&
        forall z, y, x :: 0 <= z < outputSize && 0 <= y < outputSize && 0 <= x < outputSize ==>
          outputVolume[z, y, x] == old(outputVolume[z, y, x]) +
            TiledProduct3D(inputVolume, kernelVolume, operation, volumeSize, kernelSize, old(tiledCurrentStep), z, y, x)
      ensures old(tiledCurrentStep.tileZ) >= TileCount(volumeSize, tileSize) ==>
        tiledSums == old(tiledSums) &&
        forall z, y, x :: 0 <= z < outputSize && 0 <= y < outputSize && 0 <= x < outputSize ==>
          outputVolume[z, y, x] == old(outputVolume[z, y, x])
      ensures outputVolume == old(outputVolume) && inputVolume == old(inputVolume) && kernelVolume == old(kernelVolume)
      ensures naiveCurrentStep == old(naiveCurrentStep) && isAnimating == old(isAnimating)
      ensures currentViewZ == old(currentViewZ) && currentOutputViewZ == old(currentOutputViewZ)
    {
      var numTiles := CeilDiv(volumeSize, tileSize);
      if tiledCurrentStep.tileZ >= numTiles {
        return false;
      }
      TiledNext3DInRange(tiledCurrentStep, kernelSize, tileSize, volumeSize, outputSize);
      var c := tiledCurrentStep;
      var step := TiledAdvance3D(tiledCurrentStep, kernelSize, tileSize, outputSize, numTiles);
      assert numTiles == TileCount(volumeSize, tileSize);
      assert step == TiledNext3D(c, kernelSize, tileSize, outputSize, TileCount(volumeSize, tileSize));
      ghost var sums := TiledAccumulate3D(tiledSums, inputVolume, kernelVolume, operation, volumeSize, kernelSize, c);
      AddTiledProduct(c);
      tiledSums := sums;
      tiledCurrentStep := step;
      forall z, y, x | 0 <= z < outputSize && 0 <= y < outputSize && 0 <= x < outputSize
        ensures outputVolume[z, y, x] == NaiveSoFar3D(inputVolume, kernelVolume, operation, kernelSize, naiveCurrentStep, z, y, x)
                                         + tiledSums[z][y][x]
      {
        assert old(outputVolume[z, y, x]) == NaiveSoFar3D(inputVolume, kernelVolume, operation, kernelSize, naiveCurrentStep, z, y, x)
                                             + old(tiledSums)[z][y][x];
      }
      return step.tileZ < numTiles;
    }

    /** animate: nothing happens unless the animation runs; otherwise one naive step and one
        tiled step, the input view moves to the naive depth when that is a depth of the input
        and the output view when it is a depth of the output, and the animation stops when
        both steppers report no work left. */
    method Animate()
      requires Valid()
      modifies this, outputVolume
      ensures Valid() && outputVolume == old(outputVolume)
      ensures inputVolume == old(inputVolume) && kernelVolume == old(kernelVolume)
      ensures !old(isAnimating) ==>
        !isAnimating && naiveCurrentStep == old(naiveCurrentStep) && tiledCurrentStep == old(tiledCurrentStep) &&
        tiledSums == old(tiledSums) && currentViewZ == old(currentViewZ) && currentOutputViewZ == old(currentOutputViewZ) &&
        forall z, y, x :: 0 <= z < outputSize && 0 <= y < outputSize && 0 <= x < outputSize ==>
          outputVolume[z, y, x] == old(outputVolume[z, y, x])
      ensures old(isAnimating) ==>
        naiveCurrentStep == NaiveNext3D(old(naiveCurrentStep), kernelSize, outputSize) &&
        tiledCurrentStep == TiledNext3D(old(tiledCurrentStep), kernelSize, tileSize, outputSize, TileCount(volumeSize, tileSize)) &&
        currentViewZ == (if naiveCurrentStep.z < volumeSize then naiveCurrentStep.z else old(currentViewZ)) &&
        currentOutputViewZ == (if naiveCurrentStep.z < outputSize then naiveCurrentStep.z else old(currentOutputViewZ)) &&
        (isAnimating <==> naiveCurrentStep.z < outputSize || tiledCurrentStep.tileZ < TileCount(volumeSize, tileSize))
      ensures old(isAnimating) ==>
        forall z, y, x :: 0 <= z < outputSize && 0 <= y < outputSize && 0 <= x < outputSize ==>
          outputVolume[z, y, x] == old(outputVolume[z, y, x]) +
            NaiveProduct3D(inputVolume, kernelVolume, operation, volumeSize, kernelSize, old(naiveCurrentStep), z, y, x) +
            (if old(tiledCurrentStep.tileZ) < TileCount(volumeSize, tileSize)
             then TiledProduct3D(inputVolume, kernelVolume, operation, volumeSize, kernelSize, old(tiledCurrentStep), z, y, x) else 0)
      ensures old(isAnimating) ==> tiledSums == TiledStepSums3D(old(tiledSums), inputVolume, kernelVolume, operation, volumeSize, kernelSize,
                                             tileSize, old(tiledCurrentStep))
    {
      if !isAnimating {
        return;
      }
      var naiveHasMore := NaiveStep();
      var tiledHasMore := TiledStep();
      UpdateViews();
      if !naiveHasMore && !tiledHasMore {
        StopAnimation();
      }
    }

    /** The view update of animate: the input view moves to the naive depth when that is a
        depth of the input, and the output view when it is a depth of the output; nothing
        else changes. */
    method UpdateViews()
      modifies this
      ensures currentViewZ == (if 0 <= naiveCurrentStep.z < volumeSize then naiveCurrentStep.z else old(currentViewZ))
      ensures currentOutputViewZ ==
        (if 0 <= naiveCurrentStep.z < volumeSize - kernelSize + 1 then naiveCurrentStep.z else old(currentOutputViewZ))
      ensures naiveCurrentStep == old(naiveCurrentStep) && tiledCurrentStep == old(tiledCurrentStep)
      ensures inputVolume == old(inputVolume) && kernelVolume == old(kernelVolume)
      ensures outputVolume == old(outputVolume) && tiledSums == old(tiledSums) && isAnimating == old(isAnimating)
    {
      if naiveCurrentStep.z >= 0 && naiveCurrentStep.z < volumeSize {
        currentViewZ := naiveCurrentStep.z;
      }
      if naiveCurrentStep.z >= 0 && naiveCurrentStep.z < volumeSize - kernelSize + 1 {
        currentOutputViewZ := naiveCurrentStep.z;
      }
    }

    /** startAnimation: the animation runs (the interval timer is the loop of PlayToEnd). */
    method StartAnimation()
      modifies this
      ensures isAnimating
      ensures naiveCurrentStep == old(naiveCurrentStep) && tiledCurrentStep == old(tiledCurrentStep)
      ensures inputVolume == old(inputVolume) && kernelVolume == old(kernelVolume)
      ensures outputVolume == old(outputVolume) && tiledSums == old(tiledSums)
      ensures currentViewZ == old(currentViewZ) && currentOutputViewZ == old(currentOutputViewZ)
    {
      if isAnimating {
        return;
      }
      isAnimating := true;
    }

    /** stopAnimation: the animation no longer runs; nothing else changes. */
    method StopAnimation()
      modifies this
      ensures !isAnimating
      ensures naiveCurrentStep == old(naiveCurrentStep) && tiledCurrentStep == old(tiledCurrentStep)
      ensures inputVolume == old(inputVolume) && kernelVolume == old(kernelVolume)
      ensures outputVolume == old(outputVolume) && tiledSums == old(tiledSums)
      ensures currentViewZ == old(currentViewZ) && currentOutputViewZ == old(currentOutputViewZ)
    {
      if !isAnimating {
        return;
      }
      isAnimating := false;
    }

    /** The play button followed by the interval timer: animate is called until it stops the
        animation itself, which always happens, and then both steppers are done and every
        output cell holds its full sum plus the tiled part. Each animate moves the view slices
        to the naive depth when it lies in their volume, so they stay in range, and the input
        view ends at the depth where the naive stepper stops whenever that is an input depth. */
    method PlayToEnd()
      requires Valid()
      modifies this, outputVolume
      ensures Valid() && !isAnimating && outputVolume == old(outputVolume)
      ensures naiveCurrentStep.z == outputSize
      ensures tiledCurrentStep.tileZ == TileCount(volumeSize, tileSize)
      ensures forall z, y, x :: 0 <= z < outputSize && 0 <= y < outputSize && 0 <= x < outputSize ==>
        outputVolume[z, y, x] == Correlate3D(inputVolume, kernelVolume, operation, kernelSize, z, y, x) + tiledSums[z][y][x]
      ensures inputVolume == old(inputVolume) && kernelVolume == old(kernelVolume)
      ensures TiledRun3D(tiledSums, tiledCurrentStep) ==
        TiledFinish3D(TiledRun3D(old(tiledSums), old(tiledCurrentStep)), inputVolume, kernelVolume, operation,
                      volumeSize, kernelSize, tileSize)
      ensures outputSize < volumeSize ==> currentViewZ == outputSize
      ensures 0 <= old(currentViewZ) < volumeSize ==> 0 <= currentViewZ < volumeSize
      ensures 0 <= old(currentOutputViewZ) < outputSize ==> 0 <= currentOutputViewZ < outputSize
    {
      StartAnimation();
      while isAnimating
        invariant Valid() && outputVolume == old(outputVolume)
        invariant !isAnimating && naiveCurrentStep.z < volumeSize ==> currentViewZ == naiveCurrentStep.z
        invariant 0 <= old(currentViewZ) < volumeSize ==> 0 <= currentViewZ < volumeSize
        invariant 0 <= old(currentOutputViewZ) < outputSize ==> 0 <= currentOutputViewZ < outputSize
        invariant inputVolume == old(inputVolume) && kernelVolume == old(kernelVolume)
        invariant TiledFinish3D(TiledRun3D(tiledSums, tiledCurrentStep), inputVolume, kernelVolume, operation,
                                volumeSize, kernelSize, tileSize) ==
          TiledFinish3D(TiledRun3D(old(tiledSums), old(tiledCurrentStep)), inputVolume, kernelVolume, operation,
                        volumeSize, kernelSize, tileSize)
        invariant !isAnimating ==> naiveCurrentStep.z == outputSize &&
                                   tiledCurrentStep.tileZ == TileCount(volumeSize, tileSize)
        decreases isAnimating,
                  outputSize - naiveCurrentStep.z, outputSize - naiveCurrentStep.y, outputSize - naiveCurrentStep.x,
                  kernelSize - naiveCurrentStep.kz, kernelSize - naiveCurrentStep.ky, kernelSize - naiveCurrentStep.kx,
                  TileCount(volumeSize, tileSize) - tiledCurrentStep.tileZ,
                  TileCount(volumeSize, tileSize) - tiledCurrentStep.tileY,
                  TileCount(volumeSize, tileSize) - tiledCurrentStep.tileX,
                  volumeSize - tiledCurrentStep.z, volumeSize - tiledCurrentStep.y, volumeSize - tiledCurrentStep.x,
                  kernelSize - tiledCurrentStep.kz, kernelSize - tiledCurrentStep.ky, kernelSize - tiledCurrentStep.kx
      {
        Animate();
      }
    }

    /** resetVisualization: the animation stops, a new zero output replaces the old one, both
        cursors return to zero; the volumes and the view slices are kept. */
    method ResetVisualization()
      requires Valid()
      modifies this
      ensures Valid() && !isAnimating && fresh(outputVolume)
      ensures inputVolume == old(inputVolume) && kernelVolume == old(kernelVolume)
      ensures forall z, y, x :: 0 <= z < outputSize && 0 <= y < outputSize && 0 <= x < outputSize ==>
        outputVolume[z, y, x] == 0
      ensures naiveCurrentStep == NaiveCursor3D(0, 0, 0, 0, 0, 0)
      ensures tiledCurrentStep == TiledCursor3D(0, 0, 0, 0, 0, 0, 0, 0, 0)
      ensures currentViewZ == old(currentViewZ) && currentOutputViewZ == old(currentOutputViewZ)
    {
      StopAnimation();
      ClearOutput();
    }

    /** The step button as written: it stops the animation and then calls animate, which
        returns at once because the animation is stopped; no stepper moves. */
    method StepClick()
      requires Valid()
      modifies this, outputVolume
      ensures Valid() && !isAnimating && outputVolume == old(outputVolume)
      ensures naiveCurrentStep == old(naiveCurrentStep) && tiledCurrentStep == old(tiledCurrentStep)
      ensures forall z, y, x :: 0 <= z < outputSize && 0 <= y < outputSize && 0 <= x < outputSize ==>
        outputVolume[z, y, x] == old(outputVolume[z, y, x])
      ensures inputVolume == old(inputVolume) && kernelVolume == old(kernelVolume) && tiledSums == old(tiledSums)
      ensures currentViewZ == old(currentViewZ) && currentOutputViewZ == old(currentOutputViewZ)
    {
      StopAnimation();
      Animate();
    }

    /** The step button as evidently intended: with the animation stopped, one naive step, one
        tiled step and the view update of animate. */
    method StepClickIntended()
      requires Valid()
      modifies this, outputVolume
      ensures Valid() && !isAnimating && outputVolume == old(outputVolume)
      ensures inputVolume == old(inputVolume) && kernelVolume == old(kernelVolume)
      ensures naiveCurrentStep == NaiveNext3D(old(naiveCurrentStep), kernelSize, outputSize)
      ensures tiledCurrentStep == TiledNext3D(old(tiledCurrentStep), kernelSize, tileSize, outputSize, TileCount(volumeSize, tileSize))
      ensures
        currentViewZ == (if naiveCurrentStep.z < volumeSize then naiveCurrentStep.z else old(currentViewZ)) &&
        currentOutputViewZ == (if naiveCurrentStep.z < outputSize then naiveCurrentStep.z else old(currentOutputViewZ))
      ensures
        forall z, y, x :: 0 <= z < outputSize && 0 <= y < outputSize && 0 <= x < outputSize ==>
          outputVolume[z, y, x] == old(outputVolume[z, y, x]) +
            NaiveProduct3D(inputVolume, kernelVolume, operation, volumeSize, kernelSize, old(naiveCurrentStep), z, y, x) +
            (if old(tiledCurrentStep.tileZ) < TileCount(volumeSize, tileSize)
             then TiledProduct3D(inputVolume, kernelVolume, operation, volumeSize, kernelSize, old(tiledCurrentStep), z, y, x) else 0)
      ensures tiledSums == TiledStepSums3D(old(tiledSums), inputVolume, kernelVolume, operation, volumeSize, kernelSize,
                                             tileSize, old(tiledCurrentStep))
    {
      StopAnimation();
      var naiveHasMore := NaiveStep();
      var tiledHasMore := TiledStep();
      UpdateViews();
    }
  }
}
