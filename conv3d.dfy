/** The 3D convolution programs over flattened volumes: element (x, y, z) of an X-by-Y-by-Z
    volume lives at z * Y * X + y * X + x. The naive routine applies the whole kernel, reversed
    on all three axes, to each output cell; the tiled routine cuts the kernel into tiles per
    axis (the last tile running to the kernel's end) and applies one kernel tile at a time to
    the whole output. */
module Convolution3D {
  import opened ConvMath
  import opened Tiling
  import opened Compare

  /** Extents of a flattened volume (the size_*_x, size_*_y, size_*_z triples). */
  datatype Extent3 = Extent3(x: int, y: int, z: int)

  /** Number of elements of a volume. */
  function Volume(e: Extent3): (r: int)
    ensures 0 <= e.x && 0 <= e.y && 0 <= e.z ==> r >= 0
  {
    MulNonNegative(e.x, e.y, e.z);
    e.x * e.y * e.z
  }

  lemma MulNonNegative(a: int, b: int, c: int)
    ensures 0 <= a && 0 <= b && 0 <= c ==> a * b * c >= 0
  {
    if 0 <= a && 0 <= b && 0 <= c {
      assert a * b >= 0;
    }
  }

  /** (z, y, x) is a cell of a volume of extent e. */
  predicate InVolume(e: Extent3, z: int, y: int, x: int)
  {
    0 <= z < e.z && 0 <= y < e.y && 0 <= x < e.x
  }

  /** The flattened index the C code computes for (x, y, z); a cell's index lies inside the
      flattened volume. */
  function Flat(e: Extent3, z: int, y: int, x: int): (r: int)
    ensures InVolume(e, z, y, x) ==> 0 <= r < Volume(e)
  {
    FlatBounds(e, z, y, x);
    z * e.y * e.x + y * e.x + x
  }

  /** (z1, y1, x1) comes before (z2, y2, x2) in the order of the z, y, x loop nests. */
  predicate LexBefore3(z1: int, y1: int, x1: int, z2: int, y2: int, x2: int)
  {
    z1 < z2 || (z1 == z2 && (y1 < y2 || (y1 == y2 && x1 < x2)))
  }

  /** Output extent per axis: input extent - kernel extent + 1. */
  function OutputExtent3(ea: Extent3, eb: Extent3): Extent3
  {
    Extent3(OutputExtent(ea.x, eb.x), OutputExtent(ea.y, eb.y), OutputExtent(ea.z, eb.z))
  }

  lemma FlatNested(e: Extent3, z: int, y: int, x: int)
    ensures Flat(e, z, y, x) == (z * e.y + y) * e.x + x
  {
  }

  /** Rows r1 < r2 of width X: every element of row r1 comes before every element of row r2. */
  lemma RowOrder(r1: int, r2: int, w: int, x1: int, x2: int)
    requires r1 < r2 && 0 <= x1 < w && 0 <= x2
    ensures r1 * w + x1 < r2 * w + x2
  {
    MulMonotone(r1, r2, w);
  }

  lemma FlatBounds(e: Extent3, z: int, y: int, x: int)
    ensures InVolume(e, z, y, x) ==> 0 <= z * e.y * e.x + y * e.x + x < e.x * e.y * e.z
  {
    if InVolume(e, z, y, x) {
      CellBounds(e, z, y, x);
    }
  }

  lemma CellBounds(e: Extent3, z: int, y: int, x: int)
    requires InVolume(e, z, y, x)
    ensures 0 <= z * e.y * e.x + y * e.x + x < e.x * e.y * e.z
  {
    var r := z * e.y + y;
    RowOrder(z, e.z, e.y, y, 0);
    Distribute(z * e.y, y, e.x);
    RowOrder(r, e.z * e.y, e.x, x, 0);
    assert 0 <= r * e.x;
    assert (e.z * e.y) * e.x == e.x * e.y * e.z;
  }

  lemma Distribute(a: int, b: int, c: int)
    ensures (a + b) * c == a * c + b * c
  {
  }

  /** The flattened layout follows the loop order. */
  lemma FlatLess(e: Extent3, z1: int, y1: int, x1: int, z2: int, y2: int, x2: int)
    requires InVolume(e, z1, y1, x1) && InVolume(e, z2, y2, x2)
    requires LexBefore3(z1, y1, x1, z2, y2, x2)
    ensures Flat(e, z1, y1, x1) < Flat(e, z2, y2, x2)
  {
    FlatNested(e, z1, y1, x1);
    FlatNested(e, z2, y2, x2);
    if z1 < z2 {
      RowOrder(z1, z2, e.y, y1, y2);
    }
    if z1 * e.y + y1 < z2 * e.y + y2 {
      RowOrder(z1 * e.y + y1, z2 * e.y + y2, e.x, x1, x2);
    }
  }

  /** Distinct cells have distinct flattened indices. */
  lemma FlatDistinct(e: Extent3, z: int, y: int, x: int)
    requires InVolume(e, z, y, x)
    ensures forall cz, cy, cx :: InVolume(e, cz, cy, cx) && (cz != z || cy != y || cx != x) ==>
      Flat(e, cz, cy, cx) != Flat(e, z, y, x)
  {
    forall cz, cy, cx | InVolume(e, cz, cy, cx) && (cz != z || cy != y || cx != x)
      ensures Flat(e, cz, cy, cx) != Flat(e, z, y, x)
    {
      if LexBefore3(cz, cy, cx, z, y, x) {
        FlatLess(e, cz, cy, cx, z, y, x);
      } else {
        FlatLess(e, z, y, x, cz, cy, cx);
      }
    }
  }

  /** Walking a volume in z, y, x loop order visits the flattened indices 0, 1, 2, ...:
      the end of a row is the start of the next, the end of a plane the start of the next,
      and the end of the last plane is the volume. */
  lemma FlatSteps(e: Extent3, z: int, y: int)
    ensures Flat(e, z, y, e.x) == Flat(e, z, y + 1, 0)
    ensures Flat(e, z, e.y, 0) == Flat(e, z + 1, 0, 0)
    ensures Flat(e, e.z, 0, 0) == Volume(e)
  {
    assert (y + 1) * e.x == y * e.x + e.x;
    assert (z + 1) * e.y * e.x == z * e.y * e.x + e.y * e.x;
  }

  // ---------------------------------------------------------------------------------------
  // The reference sum

  /** Input A (extent ea) and kernel B (extent eb) of a 3D convolution. */
  datatype Operands3D = Operands3D(a: seq<int>, ea: Extent3, b: seq<int>, eb: Extent3)

  /** The kernel fits the input on every axis and both are stored in full. */
  predicate WellFormed(o: Operands3D)
  {
    0 <= o.eb.x <= o.ea.x && 0 <= o.eb.y <= o.ea.y && 0 <= o.eb.z <= o.ea.z &&
    |o.a| == Volume(o.ea) && |o.b| == Volume(o.eb)
  }

  /** Output extent of the operands. */
  function OutExtent(o: Operands3D): Extent3
  {
    OutputExtent3(o.ea, o.eb)
  }

  /** The product for output cell (z, y, x) and kernel offset (kz, ky, kx), reading the
      kernel reversed on every axis; both flattened reads are inside their arrays. */
  function Term3(o: Operands3D, z: int, y: int, x: int, kz: int, ky: int, kx: int): int
    requires WellFormed(o) && InVolume(OutExtent(o), z, y, x) && InVolume(o.eb, kz, ky, kx)
  {
    o.a[Flat(o.ea, z + kz, y + ky, x + kx)] *
    o.b[Flat(o.eb, KernelIndex(Convolution, o.eb.z, kz), KernelIndex(Convolution, o.eb.y, ky),
             KernelIndex(Convolution, o.eb.x, kx))]
  }

  /** Sum of the products over kernel offsets x0 <= kx < x1 of kernel row (kz, ky). */
  function RowSum3(o: Operands3D, z: int, y: int, x: int, kz: int, ky: int, x0: int, x1: int): int
    requires WellFormed(o) && InVolume(OutExtent(o), z, y, x)
    requires 0 <= kz < o.eb.z && 0 <= ky < o.eb.y && 0 <= x0 && x1 <= o.eb.x
    decreases x1 - x0
  {
    if x1 <= x0 then 0 else RowSum3(o, z, y, x, kz, ky, x0, x1 - 1) + Term3(o, z, y, x, kz, ky, x1 - 1)
  }

  /** Sum over kernel rows y0 <= ky < y1 of kernel plane kz. */
  function PlaneSum3(o: Operands3D, z: int, y: int, x: int, kz: int,
                     y0: int, y1: int, x0: int, x1: int): int
    requires WellFormed(o) && InVolume(OutExtent(o), z, y, x)
    requires 0 <= kz < o.eb.z && 0 <= y0 && y1 <= o.eb.y && 0 <= x0 && x1 <= o.eb.x
    decreases y1 - y0
  {
    if y1 <= y0 then 0
    else PlaneSum3(o, z, y, x, kz, y0, y1 - 1, x0, x1) + RowSum3(o, z, y, x, kz, y1 - 1, x0, x1)
  }

  /** Sum of the products of output cell (z, y, x) over the kernel box
      [z0, z1) x [y0, y1) x [x0, x1). */
  function BoxSum3(o: Operands3D, z: int, y: int, x: int,
                   z0: int, z1: int, y0: int, y1: int, x0: int, x1: int): int
    requires WellFormed(o) && InVolume(OutExtent(o), z, y, x)
    requires 0 <= z0 && z1 <= o.eb.z && 0 <= y0 && y1 <= o.eb.y && 0 <= x0 && x1 <= o.eb.x
    decreases z1 - z0
  {
    if z1 <= z0 then 0
    else BoxSum3(o, z, y, x, z0, z1 - 1, y0, y1, x0, x1) + PlaneSum3(o, z, y, x, z1 - 1, y0, y1, x0, x1)
  }

  /** Output cell (z, y, x) of the 3D convolution: the sum over the whole kernel. */
  function Convolve3(o: Operands3D, z: int, y: int, x: int): int
    requires WellFormed(o) && InVolume(OutExtent(o), z, y, x)
  {
    BoxSum3(o, z, y, x, 0, o.eb.z, 0, o.eb.y, 0, o.eb.x)
  }

  /** Cutting the kernel box along z adds up. */
  lemma {:induction false} BoxSplitZ(o: Operands3D, z: int, y: int, x: int,
                                     z0: int, zm: int, z1: int, y0: int, y1: int, x0: int, x1: int)
    requires WellFormed(o) && InVolume(OutExtent(o), z, y, x)
    requires 0 <= z0 <= zm <= z1 <= o.eb.z && 0 <= y0 && y1 <= o.eb.y && 0 <= x0 && x1 <= o.eb.x
    ensures BoxSum3(o, z, y, x, z0, z1, y0, y1, x0, x1)
         == BoxSum3(o, z, y, x, z0, zm, y0, y1, x0, x1) + BoxSum3(o, z, y, x, zm, z1, y0, y1, x0, x1)
    decreases z1 - zm
  {
    if zm < z1 {
      BoxSplitZ(o, z, y, x, z0, zm, z1 - 1, y0, y1, x0, x1);
    }
  }

  lemma {:induction false} PlaneSplitY(o: Operands3D, z: int, y: int, x: int, kz: int,
                                       y0: int, ym: int, y1: int, x0: int, x1: int)
    requires WellFormed(o) && InVolume(OutExtent(o), z, y, x)
    requires 0 <= kz < o.eb.z && 0 <= y0 <= ym <= y1 <= o.eb.y && 0 <= x0 && x1 <= o.eb.x
    ensures PlaneSum3(o, z, y, x, kz, y0, y1, x0, x1)
         == PlaneSum3(o, z, y, x, kz, y0, ym, x0, x1) + PlaneSum3(o, z, y, x, kz, ym, y1, x0, x1)
    decreases y1 - ym
  {
    if ym < y1 {
      PlaneSplitY(o, z, y, x, kz, y0, ym, y1 - 1, x0, x1);
    }
  }

  /** Cutting the kernel box along y adds up. */
  lemma {:induction false} BoxSplitY(o: Operands3D, z: int, y: int, x: int,
                                     z0: int, z1: int, y0: int, ym: int, y1: int, x0: int, x1: int)
    requires WellFormed(o) && InVolume(OutExtent(o), z, y, x)
    requires 0 <= z0 && z1 <= o.eb.z && 0 <= y0 <= ym <= y1 <= o.eb.y && 0 <= x0 && x1 <= o.eb.x
    ensures BoxSum3(o, z, y, x, z0, z1, y0, y1, x0, x1)
         == BoxSum3(o, z, y, x, z0, z1, y0, ym, x0, x1) + BoxSum3(o, z, y, x, z0, z1, ym, y1, x0, x1)
    decreases z1 - z0
  {
    if z0 < z1 {
      BoxSplitY(o, z, y, x, z0, z1 - 1, y0, ym, y1, x0, x1);
      PlaneSplitY(o, z, y, x, z1 - 1, y0, ym, y1, x0, x1);
    }
  }

  lemma {:induction false} RowSplitX(o: Operands3D, z: int, y: int, x: int, kz: int, ky: int,
                                     x0: int, xm: int, x1: int)
    requires WellFormed(o) && InVolume(OutExtent(o), z, y, x)
    requires 0 <= kz < o.eb.z && 0 <= ky < o.eb.y && 0 <= x0 <= xm <= x1 <= o.eb.x
    ensures RowSum3(o, z, y, x, kz, ky, x0, x1)
         == RowSum3(o, z, y, x, kz, ky, x0, xm) + RowSum3(o, z, y, x, kz, ky, xm, x1)
    decreases x1 - xm
  {
    if xm < x1 {
      RowSplitX(o, z, y, x, kz, ky, x0, xm, x1 - 1);
    }
  }

  lemma {:induction false} PlaneSplitX(o: Operands3D, z: int, y: int, x: int, kz: int,
                                       y0: int, y1: int, x0: int, xm: int, x1: int)
    requires WellFormed(o) && InVolume(OutExtent(o), z, y, x)
    requires 0 <= kz < o.eb.z && 0 <= y0 && y1 <= o.eb.y && 0 <= x0 <= xm <= x1 <= o.eb.x
    ensures PlaneSum3(o, z, y, x, kz, y0, y1, x0, x1)
         == PlaneSum3(o, z, y, x, kz, y0, y1, x0, xm) + PlaneSum3(o, z, y, x, kz, y0, y1, xm, x1)
    decreases y1 - y0
  {
    if y0 < y1 {
      PlaneSplitX(o, z, y, x, kz, y0, y1 - 1, x0, xm, x1);
      RowSplitX(o, z, y, x, kz, y1 - 1, x0, xm, x1);
    }
  }

  /** Cutting the kernel box along x adds up. */
  lemma {:induction false} BoxSplitX(o: Operands3D, z: int, y: int, x: int,
                                     z0: int, z1: int, y0: int, y1: int, x0: int, xm: int, x1: int)
    requires WellFormed(o) && InVolume(OutExtent(o), z, y, x)
    requires 0 <= z0 && z1 <= o.eb.z && 0 <= y0 && y1 <= o.eb.y && 0 <= x0 <= xm <= x1 <= o.eb.x
    ensures BoxSum3(o, z, y, x, z0, z1, y0, y1, x0, x1)
         == BoxSum3(o, z, y, x, z0, z1, y0, y1, x0, xm) + BoxSum3(o, z, y, x, z0, z1, y0, y1, xm, x1)
    decreases z1 - z0
  {
    if z0 < z1 {
      BoxSplitX(o, z, y, x, z0, z1 - 1, y0, y1, x0, xm, x1);
      PlaneSplitX(o, z, y, x, z1 - 1, y0, y1, x0, xm, x1);
    }
  }

  /** Boundary q of the kernel tiles along an axis: q * t, capped at the kernel extent.
      Tile q of the C loops runs from boundary q to boundary q + 1. */
  function Boundary(q: int, t: int, size: int): int
  {
    if q * t < size then q * t else size
  }

  /** The C tile bounds are consecutive boundaries; boundary 0 is 0 and boundary n is the
      kernel extent. */
  lemma TileBounds(size: int, t: int, q: int)
    requires size >= 0 && t >= 1 && 0 <= q < CeilDiv(size, t)
    ensures KernelTileStart(q, t) == Boundary(q, t, size)
    ensures KernelTileEnd(q, t, size) == Boundary(q + 1, t, size)
    ensures 0 <= Boundary(q, t, size) <= Boundary(q + 1, t, size) <= size
  {
    KernelTilesPartition(size, t, q);
    if q + 1 < CeilDiv(size, t) {
      TileStartInRange(size, t, q + 1);
    } else {
      assert (q + 1) * t >= size;
    }
  }

  lemma BoundaryEnds(size: int, t: int)
    requires size >= 0 && t >= 1
    ensures Boundary(0, t, size) == 0 && Boundary(CeilDiv(size, t), t, size) == size
  {
  }

  // ---------------------------------------------------------------------------------------
  // The loop nests

  /** The innermost kernel loop for one output cell: add the products of kernel row
      (zK, yK), offsets x0 <= xK < x1, to C at the cell's flattened index and nowhere else.
      With guarded set, each product first checks that the input cell exists, as the
      tiled program does; the check never fails. */
  method AccumulateRow3D(A: seq<int>, ea: Extent3, B: seq<int>, eb: Extent3, C: array<int>,
                         z: int, y: int, x: int, zK: int, yK: int, x0: int, x1: int, guarded: bool)
    requires WellFormed(Operands3D(A, ea, B, eb)) && C.Length == Volume(OutputExtent3(ea, eb))
    requires InVolume(OutputExtent3(ea, eb), z, y, x) && 0 <= Flat(OutputExtent3(ea, eb), z, y, x) < C.Length
    requires 0 <= zK < eb.z && 0 <= yK < eb.y && 0 <= x0 <= x1 <= eb.x
    modifies C
    ensures var o := Operands3D(A, ea, B, eb);
      C[Flat(OutExtent(o), z, y, x)] == old(C[Flat(OutExtent(o), z, y, x)]) + RowSum3(o, z, y, x, zK, yK, x0, x1)
    ensures forall i :: 0 <= i < C.Length && i != Flat(OutputExtent3(ea, eb), z, y, x) ==> C[i] == old(C[i])
  {
    ghost var o := Operands3D(A, ea, B, eb);
    var sizeCX, sizeCY := ea.x - eb.x + 1, ea.y - eb.y + 1;
    var cIndex := z * sizeCY * sizeCX + y * sizeCX + x;
    assert cIndex == Flat(OutExtent(o), z, y, x);
    for xK := x0 to x1
      invariant C[cIndex] == old(C[cIndex]) + RowSum3(o, z, y, x, zK, yK, x0, xK)
      invariant forall i :: 0 <= i < C.Length && i != cIndex ==> C[i] == old(C[i])
    {
      var kernelZ := eb.z - 1 - zK;
      var kernelY := eb.y - 1 - yK;
      var kernelX := eb.x - 1 - xK;
      var aZ := z + zK;
      var aY := y + yK;
      var aX := x + xK;
      if !guarded || (aZ >= 0 && aZ < ea.z && aY >= 0 && aY < ea.y && aX >= 0 && aX < ea.x) {
        var aIndex := aZ * ea.y * ea.x + aY * ea.x + aX;
        var bIndex := kernelZ * eb.y * eb.x + kernelY * eb.x + kernelX;
        assert aIndex == Flat(ea, aZ, aY, aX) && InVolume(ea, aZ, aY, aX);
        assert bIndex == Flat(eb, kernelZ, kernelY, kernelX) && InVolume(eb, kernelZ, kernelY, kernelX);
        C[cIndex] := C[cIndex] + A[aIndex] * B[bIndex];
      }
    }
  }

  /** The three kernel loops for one output cell over the kernel box
      [z0, z1) x [y0, y1) x [x0, x1): the box's products are added at the cell's
      flattened index and nowhere else. */
  method AccumulateBox3D(A: seq<int>, ea: Extent3, B: seq<int>, eb: Extent3, C: array<int>,
                         z: int, y: int, x: int, z0: int, z1: int, y0: int, y1: int, x0: int, x1: int,
                         guarded: bool)
    requires WellFormed(Operands3D(A, ea, B, eb)) && C.Length == Volume(OutputExtent3(ea, eb))
    requires InVolume(OutputExtent3(ea, eb), z, y, x) && 0 <= Flat(OutputExtent3(ea, eb), z, y, x) < C.Length
    requires 0 <= z0 <= z1 <= eb.z && 0 <= y0 <= y1 <= eb.y && 0 <= x0 <= x1 <= eb.x
    modifies C
    ensures var o := Operands3D(A, ea, B, eb);
      C[Flat(OutExtent(o), z, y, x)] == old(C[Flat(OutExtent(o), z, y, x)]) + BoxSum3(o, z, y, x, z0, z1, y0, y1, x0, x1)
    ensures forall i :: 0 <= i < C.Length && i != Flat(OutputExtent3(ea, eb), z, y, x) ==> C[i] == old(C[i])
  {
    ghost var o := Operands3D(A, ea, B, eb);
    ghost var cIndex := Flat(OutExtent(o), z, y, x);
    for zK := z0 to z1
      invariant C[cIndex] == old(C[cIndex]) + BoxSum3(o, z, y, x, z0, zK, y0, y1, x0, x1)
      invariant forall i :: 0 <= i < C.Length && i != cIndex ==> C[i] == old(C[i])
    {
      for yK := y0 to y1
        invariant C[cIndex] == old(C[cIndex]) + BoxSum3(o, z, y, x, z0, zK, y0, y1, x0, x1)
                                              + PlaneSum3(o, z, y, x, zK, y0, yK, x0, x1)
        invariant forall i :: 0 <= i < C.Length && i != cIndex ==> C[i] == old(C[i])
      {
        AccumulateRow3D(A, ea, B, eb, C, z, y, x, zK, yK, x0, x1, guarded);
      }
    }
  }

  /** The output loops around the kernel loops: every output cell receives the products of
      the kernel box, in z, y, x order. */
  method ApplyKernelBox3D(A: seq<int>, ea: Extent3, B: seq<int>, eb: Extent3, C: array<int>,
                          z0: int, z1: int, y0: int, y1: int, x0: int, x1: int, guarded: bool)
    requires WellFormed(Operands3D(A, ea, B, eb)) && C.Length == Volume(OutputExtent3(ea, eb))
    requires 0 <= z0 <= z1 <= eb.z && 0 <= y0 <= y1 <= eb.y && 0 <= x0 <= x1 <= eb.x
    modifies C
    ensures var o := Operands3D(A, ea, B, eb); var ec := OutExtent(o);
      forall z, y, x :: InVolume(ec, z, y, x) ==>
        C[Flat(ec, z, y, x)] == old(C[Flat(ec, z, y, x)]) + BoxSum3(o, z, y, x, z0, z1, y0, y1, x0, x1)
  {
    ghost var o := Operands3D(A, ea, B, eb);
    var sizeCX, sizeCY, sizeCZ := ea.x - eb.x + 1, ea.y - eb.y + 1, ea.z - eb.z + 1;
    ghost var ec := OutExtent(o);
    for zOut := 0 to sizeCZ
      invariant forall z, y, x :: InVolume(ec, z, y, x) ==>
        C[Flat(ec, z, y, x)] == old(C[Flat(ec, z, y, x)]) +
          if LexBefore3(z, y, x, zOut, 0, 0) then BoxSum3(o, z, y, x, z0, z1, y0, y1, x0, x1) else 0
    {
      for yOut := 0 to sizeCY
        invariant forall z, y, x :: InVolume(ec, z, y, x) ==>
          C[Flat(ec, z, y, x)] == old(C[Flat(ec, z, y, x)]) +
            if LexBefore3(z, y, x, zOut, yOut, 0) then BoxSum3(o, z, y, x, z0, z1, y0, y1, x0, x1) else 0
      {
        for xOut := 0 to sizeCX
          invariant forall z, y, x :: InVolume(ec, z, y, x) ==>
            C[Flat(ec, z, y, x)] == old(C[Flat(ec, z, y, x)]) +
              if LexBefore3(z, y, x, zOut, yOut, xOut) then BoxSum3(o, z, y, x, z0, z1, y0, y1, x0, x1) else 0
        {
          FlatDistinct(ec, zOut, yOut, xOut);
          AccumulateBox3D(A, ea, B, eb, C, zOut, yOut, xOut, z0, z1, y0, y1, x0, x1, guarded);
        }
      }
    }
  }

  /** The zeroing loop nest of the tiled and naive programs: every element of C is zero. */
  method ZeroOutput3D(C: array<int>, ec: Extent3)
    requires 0 <= ec.x && 0 <= ec.y && 0 <= ec.z && C.Length == Volume(ec)
    modifies C
    ensures forall i :: 0 <= i < C.Length ==> C[i] == 0
  {
    assert Flat(ec, 0, 0, 0) == 0;
    for z := 0 to ec.z
      invariant Flat(ec, z, 0, 0) <= C.Length
      invariant forall i :: 0 <= i < Flat(ec, z, 0, 0) ==> C[i] == 0
    {
      for y := 0 to ec.y
        invariant Flat(ec, z, y, 0) <= C.Length
        invariant forall i :: 0 <= i < Flat(ec, z, y, 0) ==> C[i] == 0
      {
        for x := 0 to ec.x
          invariant Flat(ec, z, y, x) <= C.Length
          invariant forall i :: 0 <= i < Flat(ec, z, y, x) ==> C[i] == 0
        {
          C[z * ec.y * ec.x + y * ec.x + x] := 0;
        }
        FlatSteps(ec, z, y);
      }
      FlatSteps(ec, z, ec.y);
    }
    FlatSteps(ec, ec.z, 0);
  }

  /** naive_convolution_3d: memset, then every output cell holds the full sum of
      A[z + kz][y + ky][x + kx] * B[Bz - 1 - kz][By - 1 - ky][Bx - 1 - kx]. */
  method NaiveConvolution3D(A: seq<int>, ea: Extent3, B: seq<int>, eb: Extent3, C: array<int>)
    requires WellFormed(Operands3D(A, ea, B, eb)) && C.Length == Volume(OutputExtent3(ea, eb))
    modifies C
    ensures var o := Operands3D(A, ea, B, eb);
      forall z, y, x :: InVolume(OutExtent(o), z, y, x) ==>
        C[Flat(OutExtent(o), z, y, x)] == Convolve3(o, z, y, x)
  {
    forall i | 0 <= i < C.Length {
      C[i] := 0;
    }
    ApplyKernelBox3D(A, ea, B, eb, C, 0, eb.z, 0, eb.y, 0, eb.x, false);
  }

  /** convolution_3d: the same result with the zeroing done by a loop nest. */
  method Convolution3D(A: seq<int>, ea: Extent3, B: seq<int>, eb: Extent3, C: array<int>)
    requires WellFormed(Operands3D(A, ea, B, eb)) && C.Length == Volume(OutputExtent3(ea, eb))
    modifies C
    ensures var o := Operands3D(A, ea, B, eb);
      forall z, y, x :: InVolume(OutExtent(o), z, y, x) ==>
        C[Flat(OutExtent(o), z, y, x)] == Convolve3(o, z, y, x)
  {
    ZeroOutput3D(C, OutputExtent3(ea, eb));
    ApplyKernelBox3D(A, ea, B, eb, C, 0, eb.z, 0, eb.y, 0, eb.x, false);
  }

  /** What the tiled loops have added to a cell before kernel tile (tz, ty, tx): all planes of
      the earlier z tiles, the earlier y tiles of z tile tz, and the earlier x tiles of
      (tz, ty). */
  function TilesBefore3(o: Operands3D, t: Extent3, z: int, y: int, x: int, tz: int, ty: int, tx: int): int
    requires WellFormed(o) && InVolume(OutExtent(o), z, y, x)
    requires t.x >= 1 && t.y >= 1 && t.z >= 1 && tz >= 0 && ty >= 0 && tx >= 0
  {
    var eb := o.eb;
    BoxSum3(o, z, y, x, 0, Boundary(tz, t.z, eb.z), 0, eb.y, 0, eb.x) +
    BoxSum3(o, z, y, x, Boundary(tz, t.z, eb.z), Boundary(tz + 1, t.z, eb.z), 0, Boundary(ty, t.y, eb.y), 0, eb.x) +
    BoxSum3(o, z, y, x, Boundary(tz, t.z, eb.z), Boundary(tz + 1, t.z, eb.z),
            Boundary(ty, t.y, eb.y), Boundary(ty + 1, t.y, eb.y), 0, Boundary(tx, t.x, eb.x))
  }

  /** A kernel box that is empty along some axis contributes nothing. */
  lemma {:induction false} BoxEmpty(o: Operands3D, z: int, y: int, x: int,
                                    z0: int, z1: int, y0: int, y1: int, x0: int, x1: int)
    requires WellFormed(o) && InVolume(OutExtent(o), z, y, x)
    requires 0 <= z0 && z1 <= o.eb.z && 0 <= y0 && y1 <= o.eb.y && 0 <= x0 && x1 <= o.eb.x
    requires z1 <= z0 || y1 <= y0 || x1 <= x0
    ensures BoxSum3(o, z, y, x, z0, z1, y0, y1, x0, x1) == 0
    decreases z1 - z0
  {
    if z0 < z1 {
      BoxEmpty(o, z, y, x, z0, z1 - 1, y0, y1, x0, x1);
      PlaneEmpty(o, z, y, x, z1 - 1, y0, y1, x0, x1);
    }
  }

  lemma {:induction false} PlaneEmpty(o: Operands3D, z: int, y: int, x: int, kz: int,
                                      y0: int, y1: int, x0: int, x1: int)
    requires WellFormed(o) && InVolume(OutExtent(o), z, y, x)
    requires 0 <= kz < o.eb.z && 0 <= y0 && y1 <= o.eb.y && 0 <= x0 && x1 <= o.eb.x
    requires y1 <= y0 || x1 <= x0
    ensures PlaneSum3(o, z, y, x, kz, y0, y1, x0, x1) == 0
    decreases y1 - y0
  {
    if y0 < y1 {
      PlaneEmpty(o, z, y, x, kz, y0, y1 - 1, x0, x1);
    }
  }

  /** Processing x tile tx adds its kernel box to what the earlier tiles gave. */
  lemma TilesBeforeStepX(o: Operands3D, t: Extent3, z: int, y: int, x: int, tz: int, ty: int, tx: int)
    requires WellFormed(o) && InVolume(OutExtent(o), z, y, x)
    requires t.x >= 1 && t.y >= 1 && t.z >= 1 && tz >= 0 && ty >= 0 && tx >= 0
    ensures TilesBefore3(o, t, z, y, x, tz, ty, tx + 1) ==
      TilesBefore3(o, t, z, y, x, tz, ty, tx) +
      BoxSum3(o, z, y, x, Boundary(tz, t.z, o.eb.z), Boundary(tz + 1, t.z, o.eb.z),
              Boundary(ty, t.y, o.eb.y), Boundary(ty + 1, t.y, o.eb.y),
              Boundary(tx, t.x, o.eb.x), Boundary(tx + 1, t.x, o.eb.x))
  {
    var eb := o.eb;
    BoundaryMonotone(tz, t.z, eb.z);
    BoundaryMonotone(ty, t.y, eb.y);
    BoundaryMonotone(tx, t.x, eb.x);
    BoxSplitX(o, z, y, x, Boundary(tz, t.z, eb.z), Boundary(tz + 1, t.z, eb.z),
              Boundary(ty, t.y, eb.y), Boundary(ty + 1, t.y, eb.y),
              0, Boundary(tx, t.x, eb.x), Boundary(tx + 1, t.x, eb.x));
  }

  /** After the last x tile of (tz, ty), the y tile counts as done. */
  lemma TilesBeforeStepY(o: Operands3D, t: Extent3, z: int, y: int, x: int, tz: int, ty: int)
    requires WellFormed(o) && InVolume(OutExtent(o), z, y, x)
    requires t.x >= 1 && t.y >= 1 && t.z >= 1 && tz >= 0 && ty >= 0
    ensures TilesBefore3(o, t, z, y, x, tz, ty, CeilDiv(o.eb.x, t.x)) == TilesBefore3(o, t, z, y, x, tz, ty + 1, 0)
  {
    var eb := o.eb;
    BoundaryMonotone(tz, t.z, eb.z);
    BoundaryMonotone(ty, t.y, eb.y);
    BoundaryMonotone(ty + 1, t.y, eb.y);
    BoundaryMonotone(CeilDiv(eb.x, t.x), t.x, eb.x);
    BoxSplitY(o, z, y, x, Boundary(tz, t.z, eb.z), Boundary(tz + 1, t.z, eb.z),
              0, Boundary(ty, t.y, eb.y), Boundary(ty + 1, t.y, eb.y), 0, eb.x);
    BoxEmpty(o, z, y, x, Boundary(tz, t.z, eb.z), Boundary(tz + 1, t.z, eb.z),
             Boundary(ty + 1, t.y, eb.y), Boundary(ty + 2, t.y, eb.y), 0, 0);
  }

  /** After the last y tile of tz, the z tile counts as done. */
  lemma TilesBeforeStepZ(o: Operands3D, t: Extent3, z: int, y: int, x: int, tz: int)
    requires WellFormed(o) && InVolume(OutExtent(o), z, y, x)
    requires t.x >= 1 && t.y >= 1 && t.z >= 1 && tz >= 0
    ensures TilesBefore3(o, t, z, y, x, tz, CeilDiv(o.eb.y, t.y), 0) == TilesBefore3(o, t, z, y, x, tz + 1, 0, 0)
  {
    var eb := o.eb;
    var ny := CeilDiv(eb.y, t.y);
    BoundaryMonotone(tz, t.z, eb.z);
    BoundaryMonotone(tz + 1, t.z, eb.z);
    BoundaryMonotone(ny, t.y, eb.y);
    BoundaryMonotone(0, t.y, eb.y);
    BoxSplitZ(o, z, y, x, 0, Boundary(tz, t.z, eb.z), Boundary(tz + 1, t.z, eb.z), 0, eb.y, 0, eb.x);
    BoxEmpty(o, z, y, x, Boundary(tz, t.z, eb.z), Boundary(tz + 1, t.z, eb.z),
             Boundary(ny, t.y, eb.y), Boundary(ny + 1, t.y, eb.y), 0, 0);
    BoxEmpty(o, z, y, x, Boundary(tz + 1, t.z, eb.z), Boundary(tz + 2, t.z, eb.z), 0, 0, 0, eb.x);
    BoxEmpty(o, z, y, x, Boundary(tz + 1, t.z, eb.z), Boundary(tz + 2, t.z, eb.z),
             0, Boundary(1, t.y, eb.y), 0, 0);
  }

  /** Before the first tile nothing has been added. */
  lemma TilesBeforeStart(o: Operands3D, t: Extent3, z: int, y: int, x: int)
    requires WellFormed(o) && InVolume(OutExtent(o), z, y, x)
    requires t.x >= 1 && t.y >= 1 && t.z >= 1
    ensures TilesBefore3(o, t, z, y, x, 0, 0, 0) == 0
  {
    var eb := o.eb;
    BoundaryMonotone(0, t.z, eb.z);
    BoundaryMonotone(0, t.y, eb.y);
    BoxEmpty(o, z, y, x, 0, 0, 0, eb.y, 0, eb.x);
    BoxEmpty(o, z, y, x, 0, Boundary(1, t.z, eb.z), 0, 0, 0, eb.x);
    BoxEmpty(o, z, y, x, 0, Boundary(1, t.z, eb.z), 0, Boundary(1, t.y, eb.y), 0, 0);
  }

  /** After the last z tile every kernel offset has been added: the full convolution. */
  lemma TilesBeforeDone(o: Operands3D, t: Extent3, z: int, y: int, x: int)
    requires WellFormed(o) && InVolume(OutExtent(o), z, y, x)
    requires t.x >= 1 && t.y >= 1 && t.z >= 1
    ensures TilesBefore3(o, t, z, y, x, CeilDiv(o.eb.z, t.z), 0, 0) == Convolve3(o, z, y, x)
  {
    var eb := o.eb;
    var nz := CeilDiv(eb.z, t.z);
    BoundaryMonotone(nz, t.z, eb.z);
    BoundaryMonotone(nz + 1, t.z, eb.z);
    BoundaryMonotone(0, t.y, eb.y);
    BoxEmpty(o, z, y, x, eb.z, eb.z, 0, 0, 0, eb.x);
    BoxEmpty(o, z, y, x, eb.z, eb.z, 0, Boundary(1, t.y, eb.y), 0, 0);
  }

  lemma BoundaryMonotone(q: int, t: int, size: int)
    requires q >= 0 && t >= 1 && size >= 0
    ensures 0 <= Boundary(q, t, size) <= Boundary(q + 1, t, size) <= size
    ensures q >= CeilDiv(size, t) ==> Boundary(q, t, size) == size
  {
    assert (q + 1) * t == q * t + t;
    MulMonotone(CeilDiv(size, t), q, t);
  }

  /** tiled_convolution_3d of the comparison program: memset, then for every kernel tile
      (tz, ty, tx) the tile's kernel box is applied to every output cell. Every cell ends
      with the full convolution sum, for any kernel tile sizes >= 1; the tile_A sizes are
      accepted and never read. */
  method TiledConvolution3D(A: seq<int>, ea: Extent3, B: seq<int>, eb: Extent3, C: array<int>,
                            tileA: Extent3, tileB: Extent3)
    requires WellFormed(Operands3D(A, ea, B, eb)) && C.Length == Volume(OutputExtent3(ea, eb))
    requires tileB.x >= 1 && tileB.y >= 1 && tileB.z >= 1
    modifies C
    ensures var o := Operands3D(A, ea, B, eb);
      forall z, y, x :: InVolume(OutExtent(o), z, y, x) ==>
        C[Flat(OutExtent(o), z, y, x)] == Convolve3(o, z, y, x)
  {
    ghost var o := Operands3D(A, ea, B, eb);
    ghost var ec := OutExtent(o);
    forall i | 0 <= i < C.Length {
      C[i] := 0;
    }
    var numTilesX := (eb.x + tileB.x - 1) / tileB.x;
    var numTilesY := (eb.y + tileB.y - 1) / tileB.y;
    var numTilesZ := (eb.z + tileB.z - 1) / tileB.z;
    assert numTilesX == CeilDiv(eb.x, tileB.x) && numTilesY == CeilDiv(eb.y, tileB.y);
    assert numTilesZ == CeilDiv(eb.z, tileB.z);
    forall z, y, x | InVolume(ec, z, y, x)
      ensures C[Flat(ec, z, y, x)] == TilesBefore3(o, tileB, z, y, x, 0, 0, 0)
    {
      TilesBeforeStart(o, tileB, z, y, x);
    }
    for tz := 0 to numTilesZ
      invariant forall z, y, x :: InVolume(ec, z, y, x) ==>
        C[Flat(ec, z, y, x)] == TilesBefore3(o, tileB, z, y, x, tz, 0, 0)
    {
      for ty := 0 to numTilesY
        invariant forall z, y, x :: InVolume(ec, z, y, x) ==>
          C[Flat(ec, z, y, x)] == TilesBefore3(o, tileB, z, y, x, tz, ty, 0)
      {
        for tx := 0 to numTilesX
          invariant forall z, y, x :: InVolume(ec, z, y, x) ==>
            C[Flat(ec, z, y, x)] == TilesBefore3(o, tileB, z, y, x, tz, ty, tx)
        {
          var zStart := tz * tileB.z;
          var zEnd := if tz == numTilesZ - 1 then eb.z else (tz + 1) * tileB.z;
          var yStart := ty * tileB.y;
          var yEnd := if ty == numTilesY - 1 then eb.y else (ty + 1) * tileB.y;
          var xStart := tx * tileB.x;
          var xEnd := if tx == numTilesX - 1 then eb.x else (tx + 1) * tileB.x;
          TileBounds(eb.z, tileB.z, tz);
          TileBounds(eb.y, tileB.y, ty);
          TileBounds(eb.x, tileB.x, tx);
          ApplyKernelBox3D(A, ea, B, eb, C, zStart, zEnd, yStart, yEnd, xStart, xEnd, false);
          forall z, y, x | InVolume(ec, z, y, x)
            ensures C[Flat(ec, z, y, x)] == TilesBefore3(o, tileB, z, y, x, tz, ty, tx + 1)
          {
            TilesBeforeStepX(o, tileB, z, y, x, tz, ty, tx);
          }
        }
        forall z, y, x | InVolume(ec, z, y, x)
          ensures C[Flat(ec, z, y, x)] == TilesBefore3(o, tileB, z, y, x, tz, ty + 1, 0)
        {
          TilesBeforeStepY(o, tileB, z, y, x, tz, ty);
        }
      }
      forall z, y, x | InVolume(ec, z, y, x)
        ensures C[Flat(ec, z, y, x)] == TilesBefore3(o, tileB, z, y, x, tz + 1, 0, 0)
      {
        TilesBeforeStepZ(o, tileB, z, y, x, tz);
      }
    }
    forall z, y, x | InVolume(ec, z, y, x)
      ensures C[Flat(ec, z, y, x)] == Convolve3(o, z, y, x)
    {
      TilesBeforeDone(o, tileB, z, y, x);
    }
  }

  /** The innermost tile loop of tiled_convolution_3d: the tiles tx of kernel tile row
      (tz, ty), each applied to every output cell; afterwards the whole row has been added. */
  method ApplyTileRowGuarded3D(A: seq<int>, ea: Extent3, B: seq<int>, eb: Extent3, C: array<int>, tileB: Extent3,
                               tz: int, ty: int, zStart: int, zEnd: int, yStart: int, yEnd: int)
    requires WellFormed(Operands3D(A, ea, B, eb)) && C.Length == Volume(OutputExtent3(ea, eb))
    requires tileB.x >= 1 && tileB.y >= 1 && tileB.z >= 1 && tz >= 0 && ty >= 0
    requires zStart == Boundary(tz, tileB.z, eb.z) && zEnd == Boundary(tz + 1, tileB.z, eb.z)
    requires yStart == Boundary(ty, tileB.y, eb.y) && yEnd == Boundary(ty + 1, tileB.y, eb.y)
    requires 0 <= zStart <= zEnd <= eb.z && 0 <= yStart <= yEnd <= eb.y
    requires var o := Operands3D(A, ea, B, eb);
      forall z, y, x :: InVolume(OutExtent(o), z, y, x) ==>
        C[Flat(OutExtent(o), z, y, x)] == TilesBefore3(o, tileB, z, y, x, tz, ty, 0)
    modifies C
    ensures var o := Operands3D(A, ea, B, eb);
      forall z, y, x :: InVolume(OutExtent(o), z, y, x) ==>
        C[Flat(OutExtent(o), z, y, x)] == TilesBefore3(o, tileB, z, y, x, tz, ty + 1, 0)
  {
    ghost var o := Operands3D(A, ea, B, eb);
    ghost var ec := OutExtent(o);
    var numTilesX := (eb.x + tileB.x - 1) / tileB.x;
    assert numTilesX == CeilDiv(eb.x, tileB.x);
    for tx := 0 to numTilesX
      invariant forall z, y, x :: InVolume(ec, z, y, x) ==>
        C[Flat(ec, z, y, x)] == TilesBefore3(o, tileB, z, y, x, tz, ty, tx)
    {
      var xStart := tx * tileB.x;
      var xEnd := if tx == numTilesX - 1 then eb.x else (tx + 1) * tileB.x;
      TileBounds(eb.x, tileB.x, tx);
      ApplyKernelBox3D(A, ea, B, eb, C, zStart, zEnd, yStart, yEnd, xStart, xEnd, true);
      forall z, y, x | InVolume(ec, z, y, x)
        ensures C[Flat(ec, z, y, x)] == TilesBefore3(o, tileB, z, y, x, tz, ty, tx + 1)
      {
        TilesBeforeStepX(o, tileB, z, y, x, tz, ty, tx);
      }
    }
    forall z, y, x | InVolume(ec, z, y, x)
      ensures C[Flat(ec, z, y, x)] == TilesBefore3(o, tileB, z, y, x, tz, ty + 1, 0)
    {
      TilesBeforeStepY(o, tileB, z, y, x, tz, ty);
    }
  }

  /** tiled_convolution_3d of the tiled program: a zeroing loop nest, the bounds of each kernel
      tile computed at its own loop level, and a guard on every product that the input cell
      exists. The guard never fails for the cells the loops produce, so every output cell
      ends with the full convolution sum, for any kernel tile sizes >= 1; the tile_A sizes
      are accepted and never read. */
  method TiledConvolution3DGuarded(A: seq<int>, ea: Extent3, B: seq<int>, eb: Extent3, C: array<int>,
                                   tileA: Extent3, tileB: Extent3)
    requires WellFormed(Operands3D(A, ea, B, eb)) && C.Length == Volume(OutputExtent3(ea, eb))
    requires tileB.x >= 1 && tileB.y >= 1 && tileB.z >= 1
    modifies C
    ensures var o := Operands3D(A, ea, B, eb);
      forall z, y, x :: InVolume(OutExtent(o), z, y, x) ==>
        C[Flat(OutExtent(o), z, y, x)] == Convolve3(o, z, y, x)
  {
    ghost var o := Operands3D(A, ea, B, eb);
    ghost var ec := OutExtent(o);
    ZeroOutput3D(C, OutputExtent3(ea, eb));
    var numTilesX := (eb.x + tileB.x - 1) / tileB.x;
    var numTilesY := (eb.y + tileB.y - 1) / tileB.y;
    var numTilesZ := (eb.z + tileB.z - 1) / tileB.z;
    assert numTilesX == CeilDiv(eb.x, tileB.x) && numTilesY == CeilDiv(eb.y, tileB.y);
    assert numTilesZ == CeilDiv(eb.z, tileB.z);
    forall z, y, x | InVolume(ec, z, y, x)
      ensures C[Flat(ec, z, y, x)] == TilesBefore3(o, tileB, z, y, x, 0, 0, 0)
    {
      TilesBeforeStart(o, tileB, z, y, x);
    }
    for tz := 0 to numTilesZ
      invariant forall z, y, x :: InVolume(ec, z, y, x) ==>
        C[Flat(ec, z, y, x)] == TilesBefore3(o, tileB, z, y, x, tz, 0, 0)
    {
      var zStart := tz * tileB.z;
      var zEnd := if tz == numTilesZ - 1 then eb.z else (tz + 1) * tileB.z;
      TileBounds(eb.z, tileB.z, tz);
      for ty := 0 to numTilesY
        invariant forall z, y, x :: InVolume(ec, z, y, x) ==>
          C[Flat(ec, z, y, x)] == TilesBefore3(o, tileB, z, y, x, tz, ty, 0)
      {
        var yStart := ty * tileB.y;
        var yEnd := if ty == numTilesY - 1 then eb.y else (ty + 1) * tileB.y;
        TileBounds(eb.y, tileB.y, ty);
        ApplyTileRowGuarded3D(A, ea, B, eb, C, tileB, tz, ty, zStart, zEnd, yStart, yEnd);
      }
      forall z, y, x | InVolume(ec, z, y, x)
        ensures C[Flat(ec, z, y, x)] == TilesBefore3(o, tileB, z, y, x, tz + 1, 0, 0)
      {
        TilesBeforeStepZ(o, tileB, z, y, x, tz);
      }
    }
    forall z, y, x | InVolume(ec, z, y, x)
      ensures C[Flat(ec, z, y, x)] == Convolve3(o, z, y, x)
    {
      TilesBeforeDone(o, tileB, z, y, x);
    }
  }

  // ---------------------------------------------------------------------------------------
  // Initialisation, validation and the comparison

  /** init_3d_array: the values 1, 2, 3, ... in flattened order, so element i holds i + 1. */
  method InitSequential3D(arr: array<int>, e: Extent3)
    requires 0 <= e.x && 0 <= e.y && 0 <= e.z && arr.Length == Volume(e)
    modifies arr
    ensures forall i :: 0 <= i < arr.Length ==> arr[i] == i + 1
  {
    var value := 1;
    assert Flat(e, 0, 0, 0) == 0;
    for z := 0 to e.z
      invariant Flat(e, z, 0, 0) <= arr.Length && value == Flat(e, z, 0, 0) + 1
      invariant forall i :: 0 <= i < Flat(e, z, 0, 0) ==> arr[i] == i + 1
    {
      for y := 0 to e.y
        invariant Flat(e, z, y, 0) <= arr.Length && value == Flat(e, z, y, 0) + 1
        invariant forall i :: 0 <= i < Flat(e, z, y, 0) ==> arr[i] == i + 1
      {
        for x := 0 to e.x
          invariant Flat(e, z, y, x) <= arr.Length && value == Flat(e, z, y, x) + 1
          invariant forall i :: 0 <= i < Flat(e, z, y, x) ==> arr[i] == i + 1
        {
          arr[z * e.y * e.x + y * e.x + x] := value;
          value := value + 1;
        }
        FlatSteps(e, z, y);
      }
      FlatSteps(e, z, e.y);
    }
    FlatSteps(e, e.z, 0);
  }

  /** The kernel value init_kernel_3d gives cell (z, y, x). */
  function KernelValue(z: int, y: int, x: int): (r: int)
    ensures 1 <= r <= 3
  {
    (z + y + x) % 3 + 1
  }

  /** init_kernel_3d: cell (z, y, x) holds (z + y + x) % 3 + 1, so every element is 1, 2 or 3. */
  method InitKernel3D(arr: array<int>, e: Extent3)
    requires 0 <= e.x && 0 <= e.y && 0 <= e.z && arr.Length == Volume(e)
    modifies arr
    ensures forall z, y, x :: InVolume(e, z, y, x) ==> arr[Flat(e, z, y, x)] == KernelValue(z, y, x)
    ensures forall i :: 0 <= i < arr.Length ==> 1 <= arr[i] <= 3
  {
    assert Flat(e, 0, 0, 0) == 0;
    for z := 0 to e.z
      invariant Flat(e, z, 0, 0) <= arr.Length
      invariant forall i :: 0 <= i < Flat(e, z, 0, 0) ==> 1 <= arr[i] <= 3
      invariant forall cz, cy, cx :: InVolume(e, cz, cy, cx) && LexBefore3(cz, cy, cx, z, 0, 0) ==>
        arr[Flat(e, cz, cy, cx)] == KernelValue(cz, cy, cx)
    {
      for y := 0 to e.y
        invariant Flat(e, z, y, 0) <= arr.Length
        invariant forall i :: 0 <= i < Flat(e, z, y, 0) ==> 1 <= arr[i] <= 3
        invariant forall cz, cy, cx :: InVolume(e, cz, cy, cx) && LexBefore3(cz, cy, cx, z, y, 0) ==>
          arr[Flat(e, cz, cy, cx)] == KernelValue(cz, cy, cx)
      {
        for x := 0 to e.x
          invariant Flat(e, z, y, x) <= arr.Length
          invariant forall i :: 0 <= i < Flat(e, z, y, x) ==> 1 <= arr[i] <= 3
          invariant forall cz, cy, cx :: InVolume(e, cz, cy, cx) && LexBefore3(cz, cy, cx, z, y, x) ==>
            arr[Flat(e, cz, cy, cx)] == KernelValue(cz, cy, cx)
        {
          FlatDistinct(e, z, y, x);
          arr[z * e.y * e.x + y * e.x + x] := (z + y + x) % 3 + 1;
        }
        FlatSteps(e, z, y);
      }
      FlatSteps(e, z, e.y);
    }
    FlatSteps(e, e.z, 0);
  }

  /** The size check of both main programs: an input is accepted exactly when the kernel
      fits on every axis, that is, when every output extent is at least 1. */
  function ValidateSizes3D(ea: Extent3, eb: Extent3): (accepted: bool)
    ensures var ec := OutputExtent3(ea, eb);
      accepted <==> (ec.x >= 1 && ec.y >= 1 && ec.z >= 1)
  {
    !(eb.x > ea.x || eb.y > ea.y || eb.z > ea.z)
  }

  /** run_performance_comparison from the two runs to the equality check: on the same inputs
      the naive and the kernel-tiled routines produce identical outputs, so arrays_equal
      reports 1, whatever the tile sizes. The random inputs are the parameters A and B. */
  method CompareConvolution3D(A: seq<int>, ea: Extent3, B: seq<int>, eb: Extent3,
                              tileA: Extent3, tileB: Extent3) returns (identical: int)
    requires WellFormed(Operands3D(A, ea, B, eb))
    requires tileB.x >= 1 && tileB.y >= 1 && tileB.z >= 1
    ensures identical == 1
  {
    var ec := OutputExtent3(ea, eb);
    var cNaive := new int[Volume(ec)];
    var cTiled := new int[Volume(ec)];
    NaiveConvolution3D(A, ea, B, eb, cNaive);
    TiledConvolution3D(A, ea, B, eb, cTiled, tileA, tileB);
    forall i | 0 <= i < Volume(ec)
      ensures cNaive[i] == cTiled[i]
    {
      var z, y, x := FlatOnto(ec, i);
      assert cNaive[Flat(ec, z, y, x)] == Convolve3(Operands3D(A, ea, B, eb), z, y, x);
    }
    identical := ArraysEqual(cNaive, cTiled, Volume(ec));
  }

  /** Every flattened index of a volume is the index of some cell. */
  lemma FlatOnto(e: Extent3, i: int) returns (z: int, y: int, x: int)
    requires 0 <= e.x && 0 <= e.y && 0 <= e.z && 0 <= i < Volume(e)
    ensures InVolume(e, z, y, x) && Flat(e, z, y, x) == i
  {
    ZeroExtentEmpty(e);
    VolumeLayers(e);
    var p := e.y * e.x;
    QuotientBelow(i, p, e.z);
    z := i / p;
    var r := i % p;
    QuotientBelow(r, e.x, e.y);
    y, x := r / e.x, r % e.x;
    MulAssoc(z, e.y, e.x);
  }

  /** A volume with non-empty rows and planes is a stack of e.z planes of e.y * e.x cells. */
  lemma VolumeLayers(e: Extent3)
    requires 0 < e.x && 0 < e.y && 0 <= e.z
    ensures Volume(e) == e.z * (e.y * e.x) && e.y * e.x > 0
  {
    MulAssoc(e.z, e.y, e.x);
  }

  /** Multiplication is associative (stated for the solver, which reasons about products of
      variables poorly). */
  lemma MulAssoc(a: int, b: int, c: int)
    ensures a * b * c == a * (b * c)
  {
  }

  /** Division by p of an index below n * p gives a quotient below n and a remainder. */
  lemma QuotientBelow(i: int, p: int, n: int)
    requires p > 0 && 0 <= i < n * p
    ensures 0 <= i / p < n && 0 <= i % p < p && i == (i / p) * p + i % p
  {
    MulMonotone(n, i / p, p);
  }

  /** A volume with an empty axis has no elements. */
  lemma ZeroExtentEmpty(e: Extent3)
    ensures e.x == 0 || e.y == 0 || e.z == 0 ==> Volume(e) == 0
  {
  }
}
