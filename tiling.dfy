/** How the tiled routines cut an index range into tiles, and why each cut visits every
    index exactly once: the 1D kernel tiles with their remainder, the edge-clipped 2D output
    tiles, the 3D kernel tiles whose last tile absorbs the rest, and the tile counts. */
module Tiling {

  /** ceil(n / t), computed as (n + t - 1) / t in C and as Math.ceil(n / t) in JavaScript;
      the ensures is the defining property of the ceiling. */
  function CeilDiv(n: int, t: int): (r: int)
    requires n >= 0 && t >= 1
    ensures r >= 0 && (r - 1) * t < n <= r * t
  {
    CeilDivBounds(n, t);
    (n + t - 1) / t
  }

  lemma CeilDivBounds(n: int, t: int)
    requires n >= 0 && t >= 1
    ensures var r := (n + t - 1) / t; r >= 0 && (r - 1) * t < n <= r * t
  {
    var r := (n + t - 1) / t;
    var m := (n + t - 1) % t;
    assert n + t - 1 == r * t + m && 0 <= m < t;
    assert (r - 1) * t == r * t - t;
  }

  /** A tile count covers at least every position before it: tile q < CeilDiv(n, t) starts
      inside the range. */
  lemma TileStartInRange(n: int, t: int, q: int)
    requires n >= 0 && t >= 1 && 0 <= q < CeilDiv(n, t)
    ensures 0 <= q * t < n
  {
    var r := CeilDiv(n, t);
    assert q <= r - 1;
    assert q * t <= (r - 1) * t;
  }

  /** The tile size the 3D tiled program uses: a tile larger than the kernel is cut down to
      the kernel size. */
  function ClampTile(tile: int, size: int): (r: int)
    ensures r <= tile && r <= size
    ensures r == tile || r == size
    ensures 1 <= tile && 1 <= size ==> 1 <= r
  {
    if tile > size then size else tile
  }

  // ---------------------------------------------------------------------------------------
  // 1D kernel tiles: n / t full tiles of t offsets, then the remainder n - n % t .. n

  /** Where the remainder loop starts: just after the last full tile. */
  lemma RemainderStart(n: int, t: int)
    requires n >= 0 && t >= 1
    ensures n - n % t == (n / t) * t
    ensures 0 <= n - n % t <= n && n - (n - n % t) < t
  {
  }

  /** The boundary before full tile i (0 <= i <= n / t) lies inside the full-tile region. */
  lemma FullTileBoundary(n: int, t: int, i: int)
    requires n >= 0 && t >= 1 && 0 <= i <= n / t
    ensures 0 <= i * t <= n - n % t && (i + 1) * t == i * t + t
  {
    MulMonotone(i, n / t, t);
  }

  /** Offset k of full tile i is a position of the full-tile region, and no other pair of
      (tile, offset) names that position. */
  lemma FullTilePosition(n: int, t: int, i: int, k: int)
    requires n >= 0 && t >= 1 && 0 <= i < n / t && 0 <= k < t
    ensures 0 <= i * t + k < n - n % t
    ensures (i * t + k) / t == i && (i * t + k) % t == k
  {
    MulMonotone(i + 1, n / t, t);
    DivUnique(i * t + k, t, i, k);
  }

  /** Every position of the full-tile region is offset j % t of full tile j / t. */
  lemma FullTileOf(n: int, t: int, j: int)
    requires n >= 0 && t >= 1 && 0 <= j < n - n % t
    ensures 0 <= j / t < n / t && 0 <= j % t < t && (j / t) * t + j % t == j
  {
    MulMonotone(n / t, j / t, t);
  }

  /** Multiplication by a non-negative factor keeps the order. */
  lemma MulMonotone(a: int, b: int, t: int)
    requires t >= 0
    ensures a <= b ==> a * t <= b * t
    ensures a + 1 <= b ==> a * t + t <= b * t
  {
    if a <= b {
      var d := b - a;
      assert b * t == a * t + d * t;
      if d >= 1 {
        assert d * t == (d - 1) * t + t;
        assert (d - 1) * t >= 0;
      }
    }
  }

  /** Quotient and remainder are the only such pair. */
  lemma DivUnique(a: int, t: int, q: int, r: int)
    requires t >= 1 && 0 <= r < t && a == q * t + r
    ensures a / t == q && a % t == r
  {
    var q2, r2 := a / t, a % t;
    MulMonotone(q, q2, t);
    MulMonotone(q2, q, t);
  }

  // ---------------------------------------------------------------------------------------
  // 2D output tiles: start 0, t, 2t, ... below the extent; the last one clipped to the edge

  /** Extent of the output tile starting at start: the tile size, clipped to the edge. */
  function ClippedExtent(start: int, tile: int, extent: int): (r: int)
    requires 0 <= start < extent && tile >= 1
    ensures 1 <= r <= tile && start + r <= extent
    ensures r < tile ==> start + r == extent
  {
    if start + tile > extent then extent - start else tile
  }

  /** Every output index lies in the clipped tile starting at (i / t) * t ... */
  lemma OutputTileOf(extent: int, t: int, i: int)
    requires t >= 1 && 0 <= i < extent
    ensures var s := (i / t) * t;
      0 <= s <= i < s + ClippedExtent(s, t, extent) && s + ClippedExtent(s, t, extent) <= extent
  {
    var s := (i / t) * t;
    assert s + i % t == i;
  }

  /** ... and in no other tile. */
  lemma OutputTileUnique(extent: int, t: int, q: int, i: int)
    requires t >= 1 && 0 <= q && q * t < extent
    requires q * t <= i < q * t + ClippedExtent(q * t, t, extent)
    ensures q == i / t
  {
    DivUnique(i, t, q, i - q * t);
  }

  // ---------------------------------------------------------------------------------------
  // 3D kernel tiles: tile q covers [q * t, q == n - 1 ? size : (q + 1) * t), n = CeilDiv(size, t)

  /** First kernel offset of tile q. */
  function KernelTileStart(q: int, t: int): int
  {
    q * t
  }

  /** One past the last kernel offset of tile q; the last tile runs to the kernel's end. */
  function KernelTileEnd(q: int, t: int, size: int): int
    requires size >= 0 && t >= 1
  {
    if q == CeilDiv(size, t) - 1 then size else (q + 1) * t
  }

  /** The tiles are non-empty, lie inside [0, size), start at 0, follow one another with no
      gap or overlap, and the last one ends at size. */
  lemma KernelTilesPartition(size: int, t: int, q: int)
    requires size >= 0 && t >= 1 && 0 <= q < CeilDiv(size, t)
    ensures 0 <= KernelTileStart(q, t) < KernelTileEnd(q, t, size) <= size
    ensures KernelTileStart(0, t) == 0
    ensures q + 1 < CeilDiv(size, t) ==> KernelTileEnd(q, t, size) == KernelTileStart(q + 1, t)
    ensures q + 1 == CeilDiv(size, t) ==> KernelTileEnd(q, t, size) == size
  {
    TileStartInRange(size, t, q);
    if q + 1 < CeilDiv(size, t) {
      TileStartInRange(size, t, q + 1);
      assert (q + 1) * t == q * t + t;
    }
  }

  /** Every kernel offset j lies in tile min(j / t, n - 1) ... */
  lemma KernelTileOf(size: int, t: int, j: int)
    requires t >= 1 && 0 <= j < size
    ensures var n := CeilDiv(size, t);
      var q := if j / t < n - 1 then j / t else n - 1;
      0 <= q < n && KernelTileStart(q, t) <= j < KernelTileEnd(q, t, size)
  {
    var n := CeilDiv(size, t);
    MulMonotone(n - 1, j / t, t);
    MulMonotone(n, j / t, t);
    assert (j / t + 1) * t == (j / t) * t + t;
  }

  /** ... and in no other tile. */
  lemma KernelTileUnique(size: int, t: int, q: int, j: int)
    requires size >= 0 && t >= 1 && 0 <= q < CeilDiv(size, t)
    requires KernelTileStart(q, t) <= j < KernelTileEnd(q, t, size)
    ensures q == if j / t < CeilDiv(size, t) - 1 then j / t else CeilDiv(size, t) - 1
  {
    var n := CeilDiv(size, t);
    if q < n - 1 {
      assert (q + 1) * t == q * t + t;
      DivUnique(j, t, q, j - q * t);
    } else {
      MulMonotone(j / t, q, t);
    }
  }
}
