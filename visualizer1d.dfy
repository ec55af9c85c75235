/** The 1D page of the visualizer: two steppers, naiveStep and tiledStep, each performing one
    multiply-accumulate per call into the SAME output array, and the animation that calls both
    until neither has work left. The random input and kernel, the canvases and the sliders are
    not modelled; the sizes, the tile size and the operation are fixed when the page state is
    built. */
module Visualizer1D {
  import opened ConvMath
  import opened Tiling

  /** naiveCurrentStep: output position x and kernel offset k. */
  datatype NaiveCursor = NaiveCursor(x: int, k: int)

  /** tiledCurrentStep: tile index, output position and kernel offset. */
  datatype TiledCursor = TiledCursor(tile: int, x: int, k: int)

  // ---------------------------------------------------------------------------------------
  // The naive stepper

  /** How many multiply-accumulates the naive cursor c has passed: positions before x times
      the kernel size, plus the offsets before k. */
  function NaiveRank(c: NaiveCursor, kernelSize: int): int
  {
    c.x * kernelSize + c.k
  }

  /** The cursor update of naiveStep: the kernel offset first, and past the last offset,
      offset 0 of the next output position. It visits the (x, k) pairs one after the other:
      the rank goes up by exactly one, and the offset stays a kernel offset. */
  function NaiveAdvance(c: NaiveCursor, kernelSize: int): (r: NaiveCursor)
    requires 0 <= c.k < kernelSize
    ensures 0 <= r.k < kernelSize
    ensures NaiveRank(r, kernelSize) == NaiveRank(c, kernelSize) + 1
    ensures r.x == c.x || (r.x == c.x + 1 && r.k == 0)
  {
    if c.k + 1 >= kernelSize then NaiveCursor(c.x + 1, 0) else NaiveCursor(c.x, c.k + 1)
  }

  /** The cursor after one call of naiveStep: unchanged once x has reached the output
      length, advanced otherwise. */
  function NaiveNext(c: NaiveCursor, kernelSize: int, outputLength: int): (r: NaiveCursor)
    requires 0 <= c.k < kernelSize
    ensures 0 <= r.k < kernelSize
    ensures c.x >= outputLength ==> r == c
    ensures c.x < outputLength ==> NaiveRank(r, kernelSize) == NaiveRank(c, kernelSize) + 1
  {
    if c.x >= outputLength then c else NaiveAdvance(c, kernelSize)
  }

  /** The cursors naiveStep can reach from the zero cursor: a kernel offset, and an output
      position no further than one past the last, with offset 0 there. */
  predicate NaiveInRange(c: NaiveCursor, kernelSize: int, outputLength: int)
  {
    0 <= c.k < kernelSize && 0 <= c.x <= outputLength && (c.x == outputLength ==> c.k == 0)
  }

  /** What naiveStep has added to output position i by the time its cursor is c: the full
      sum for the positions before x, the first k products at x, nothing after. */
  function NaiveSoFar(a: seq<int>, b: seq<int>, op: Operation, c: NaiveCursor, i: int): int
    requires 0 <= i && i + |b| <= |a| && 0 <= c.k < |b|
  {
    if i < c.x then Correlate1D(a, b, op, i)
    else if i == c.x then PartialSum1D(a, b, op, i, c.k)
    else 0
  }

  /** One naiveStep adds exactly the difference between the sums before and after: the
      product at the cursor goes to position x, and when the offset carries, position x has
      received its full sum. */
  lemma NaiveSoFarAdvance(a: seq<int>, b: seq<int>, op: Operation, c: NaiveCursor, i: int)
    requires 0 <= i && i + |b| <= |a| && 0 <= c.k < |b| && 0 <= c.x && c.x + |b| <= |a|
    ensures NaiveSoFar(a, b, op, NaiveAdvance(c, |b|), i) ==
      NaiveSoFar(a, b, op, c, i) + (if i == c.x then Term1D(a, b, op, c.x, c.k) else 0)
  {
    assert PartialSum1D(a, b, op, c.x, c.k + 1) == PartialSum1D(a, b, op, c.x, c.k) + Term1D(a, b, op, c.x, c.k);
  }

  /** The zero cursor has added nothing; a cursor at the end has added every full sum. */
  lemma NaiveSoFarEnds(a: seq<int>, b: seq<int>, op: Operation, c: NaiveCursor, i: int)
    requires 0 <= i && i + |b| <= |a| && 0 <= c.k < |b|
    ensures c == NaiveCursor(0, 0) ==> NaiveSoFar(a, b, op, c, i) == 0
    ensures c.x > i ==> NaiveSoFar(a, b, op, c, i) == Correlate1D(a, b, op, i)
  {
  }

  /** A cursor in range has passed at most outputLength * kernelSize products. */
  lemma NaiveRankBound(c: NaiveCursor, kernelSize: int, outputLength: int)
    requires NaiveInRange(c, kernelSize, outputLength)
    ensures 0 <= NaiveRank(c, kernelSize) <= outputLength * kernelSize
    ensures NaiveRank(c, kernelSize) == outputLength * kernelSize <==> c.x == outputLength
  {
    MulMonotone(c.x, outputLength, kernelSize);
    assert 0 <= c.x * kernelSize;
  }

  // ---------------------------------------------------------------------------------------
  // The tiled stepper

  /** End of tile t of the output: Math.min((t + 1) * tileSize, outputLength). */
  function TileEnd(t: int, tileSize: int, outputLength: int): (r: int)
    ensures r <= outputLength && r <= (t + 1) * tileSize
    ensures r == outputLength || r == (t + 1) * tileSize
  {
    if (t + 1) * tileSize < outputLength then (t + 1) * tileSize else outputLength
  }

  /** (tile, x, k) strictly before (tile', x', k') in lexicographic order. */
  predicate TiledBefore(c: TiledCursor, d: TiledCursor)
  {
    c.tile < d.tile || (c.tile == d.tile && (c.x < d.x || (c.x == d.x && c.k < d.k)))
  }

  /** The cursor update of tiledStep, three carry levels deep: the kernel offset; past the
      last offset, the next position; past the end of the tile, the next tile, with the
      position set back to the first position of the tile just finished. The cursor always
      moves forward in lexicographic order. */
  function TiledAdvance(c: TiledCursor, kernelSize: int, tileSize: int, outputLength: int): (r: TiledCursor)
    requires 0 <= c.k < kernelSize && 0 <= c.tile && 0 <= c.x && tileSize >= 1
    ensures 0 <= r.k < kernelSize && 0 <= r.tile && 0 <= r.x
    ensures TiledBefore(c, r)
    ensures r.tile == c.tile + 1 ==> r.x == c.tile * tileSize && r.k == 0
    ensures r.tile == c.tile || r.tile == c.tile + 1
  {
    MulMonotone(0, c.tile, tileSize);
    if c.k + 1 < kernelSize then TiledCursor(c.tile, c.x, c.k + 1)
    else if c.x + 1 >= TileEnd(c.tile, tileSize, outputLength) then TiledCursor(c.tile + 1, c.tile * tileSize, 0)
    else TiledCursor(c.tile, c.x + 1, 0)
  }

  /** Number of tiles the tiled stepper walks: Math.ceil(arraySize / tileSize), from the
      input length rather than the output length. */
  function TileCount(arraySize: int, tileSize: int): (r: int)
    requires arraySize >= 0 && tileSize >= 1
    ensures r >= 0 && (r - 1) * tileSize < arraySize <= r * tileSize
  {
    CeilDiv(arraySize, tileSize)
  }

  /** The cursor after one call of tiledStep: unchanged once every tile is done. */
  function TiledNext(c: TiledCursor, kernelSize: int, tileSize: int, arraySize: int, outputLength: int): (r: TiledCursor)
    requires 0 <= c.k < kernelSize && 0 <= c.tile && 0 <= c.x && arraySize >= 0 && tileSize >= 1
    ensures c.tile >= TileCount(arraySize, tileSize) ==> r == c
    ensures c.tile < TileCount(arraySize, tileSize) ==> TiledBefore(c, r)
  {
    if c.tile >= TileCount(arraySize, tileSize) then c else TiledAdvance(c, kernelSize, tileSize, outputLength)
  }

  /** The cursors tiledStep can reach: a kernel offset, a tile index up to the tile count and a
      position up to the input length. */
  predicate TiledInRange(c: TiledCursor, kernelSize: int, tileSize: int, arraySize: int)
    requires arraySize >= 0 && tileSize >= 1
  {
    0 <= c.k < kernelSize && 0 <= c.tile <= TileCount(arraySize, tileSize) && 0 <= c.x <= arraySize
  }

  /** tiledStep keeps its cursor in range. */
  lemma TiledNextInRange(c: TiledCursor, kernelSize: int, tileSize: int, arraySize: int, outputLength: int)
    requires arraySize >= 0 && tileSize >= 1 && outputLength <= arraySize
    requires TiledInRange(c, kernelSize, tileSize, arraySize)
    ensures TiledInRange(TiledNext(c, kernelSize, tileSize, arraySize, outputLength), kernelSize, tileSize, arraySize)
  {
    if c.tile < TileCount(arraySize, tileSize) {
      TileStartInRange(arraySize, tileSize, c.tile);
    }
  }

  /** The accumulation guard of tiledStep: the position is an output position and the input
      position it reads exists. */
  predicate TiledGuard(c: TiledCursor, arraySize: int, outputLength: int)
  {
    c.x < outputLength && c.x + c.k < arraySize
  }

  /** For a kernel offset, the second half of the guard follows from the first: the guard
      never skips an output position. */
  lemma TiledGuardExact(c: TiledCursor, kernelSize: int, arraySize: int)
    requires 0 <= c.k < kernelSize && 0 <= c.x
    ensures TiledGuard(c, arraySize, OutputExtent(arraySize, kernelSize)) <==> c.x < OutputExtent(arraySize, kernelSize)
  {
  }

  /** The product tiledStep adds to a sequence of sums at its cursor (the output, or what the
      tiled stepper has contributed so far): the value at x grows by the product when the
      guard holds, and nothing else changes. */
  function TiledAccumulate(s: seq<int>, a: seq<int>, b: seq<int>, op: Operation, c: TiledCursor): (r: seq<int>)
    requires |s| == |a| - |b| + 1 && 0 <= c.k < |b| && 0 <= c.x
    ensures |r| == |s|
    ensures forall i :: 0 <= i < |s| && i != c.x ==> r[i] == s[i]
    ensures TiledGuard(c, |a|, |s|) ==> r[c.x] == s[c.x] + Term1D(a, b, op, c.x, c.k)
    ensures !TiledGuard(c, |a|, |s|) ==> r == s
  {
    if TiledGuard(c, |a|, |s|) then s[c.x := s[c.x] + Term1D(a, b, op, c.x, c.k)] else s
  }

  /** What one call of naiveStep adds to a sequence of sums: the product at the cursor, at
      position x, while x is an output position; nothing once the stepper is done. */
  function NaiveStepSums(s: seq<int>, a: seq<int>, b: seq<int>, op: Operation, c: NaiveCursor): (r: seq<int>)
    requires |s| == |a| - |b| + 1 && 0 <= c.k < |b| && 0 <= c.x
    ensures |r| == |s|
    ensures forall i :: 0 <= i < |s| && i != c.x ==> r[i] == s[i]
    ensures c.x < |s| ==> r[c.x] == s[c.x] + Term1D(a, b, op, c.x, c.k)
    ensures c.x >= |s| ==> r == s
  {
    if c.x < |s| then s[c.x := s[c.x] + Term1D(a, b, op, c.x, c.k)] else s
  }

  /** What one call of tiledStep adds to a sequence of sums: the guarded product while tiles
      remain; nothing once the tile index has reached the tile count. */
  function TiledStepSums(s: seq<int>, a: seq<int>, b: seq<int>, op: Operation, tileSize: int, c: TiledCursor): (r: seq<int>)
    requires |s| == |a| - |b| + 1 && 0 <= c.k < |b| && 0 <= c.x && tileSize >= 1
    ensures |r| == |s|
    ensures c.tile < TileCount(|a|, tileSize) ==> r == TiledAccumulate(s, a, b, op, c)
    ensures c.tile >= TileCount(|a|, tileSize) ==> r == s
  {
    if c.tile < TileCount(|a|, tileSize) then TiledAccumulate(s, a, b, op, c) else s
  }

  // ---------------------------------------------------------------------------------------
  // The tiled stepper on its own, after a reset

  /** The state of the tiled stepper alone: the output and the cursor. */
  datatype TiledRun = TiledRun(out: seq<int>, cursor: TiledCursor)

  /** n calls of tiledStep with no naive steps in between. */
  function TiledSteps(r: TiledRun, a: seq<int>, b: seq<int>, op: Operation, tileSize: int, n: nat): (s: TiledRun)
    requires |r.out| == |a| - |b| + 1 && 0 <= r.cursor.k < |b| && 0 <= r.cursor.x && 0 <= r.cursor.tile
    requires tileSize >= 1
    ensures |s.out| == |r.out| && 0 <= s.cursor.k < |b| && 0 <= s.cursor.x && 0 <= s.cursor.tile
    ensures n > 0 && r.cursor.tile < TileCount(|a|, tileSize) ==> TiledBefore(r.cursor, s.cursor)
    decreases n
  {
    if n == 0 || r.cursor.tile >= TileCount(|a|, tileSize) then r
    else
      var next := TiledRun(TiledAccumulate(r.out, a, b, op, r.cursor),
                           TiledAdvance(r.cursor, |b|, tileSize, |r.out|));
      assert TiledBefore(r.cursor, next.cursor);
      TiledSteps(next, a, b, op, tileSize, n - 1)
  }

  /** Moving the position back to the start of the tile just finished makes the next tile
      pass over the finished tile again. With input [1, 1], kernel [1] and tile size 1 the
      tiled stepper alone ends, after its three steps, with output [2, 1]: position 0 is
      accumulated twice, while the cross-correlation is [1, 1]. */
  lemma TiledStepperRevisits()
    ensures var done := TiledSteps(TiledRun([0, 0], TiledCursor(0, 0, 0)), [1, 1], [1], CrossCorrelation, 1, 3);
      done.out == [2, 1] && done.cursor.tile == TileCount(2, 1) &&
      Correlate1D([1, 1], [1], CrossCorrelation, 0) == 1 && Correlate1D([1, 1], [1], CrossCorrelation, 1) == 1
  {
    var a, b, op := [1, 1], [1], CrossCorrelation;
    assert TileCount(2, 1) == 2;
    var r0 := TiledRun([0, 0], TiledCursor(0, 0, 0));
    var r1 := TiledRun([1, 0], TiledCursor(1, 0, 0));
    var r2 := TiledRun([2, 0], TiledCursor(1, 1, 0));
    var r3 := TiledRun([2, 1], TiledCursor(2, 1, 0));
    assert Term1D(a, b, op, 0, 0) == 1 && Term1D(a, b, op, 1, 0) == 1;
    assert TiledAccumulate(r0.out, a, b, op, r0.cursor) == r1.out;
    assert TiledAdvance(r0.cursor, 1, 1, 2) == r1.cursor;
    TiledStepsUnfold(r0, a, b, op, 1, 2);
    assert TiledAccumulate(r1.out, a, b, op, r1.cursor) == r2.out;
    assert TiledAdvance(r1.cursor, 1, 1, 2) == r2.cursor;
    TiledStepsUnfold(r1, a, b, op, 1, 1);
    assert TiledAccumulate(r2.out, a, b, op, r2.cursor) == r3.out;
    assert TiledAdvance(r2.cursor, 1, 1, 2) == r3.cursor;
    TiledStepsUnfold(r2, a, b, op, 1, 0);
  }

  /** One more call of tiledStep, while tiles remain, is one accumulate and one advance
      followed by the others. */
  lemma TiledStepsUnfold(r: TiledRun, a: seq<int>, b: seq<int>, op: Operation, tileSize: int, n: nat)
    requires |r.out| == |a| - |b| + 1 && 0 <= r.cursor.k < |b| && 0 <= r.cursor.x && 0 <= r.cursor.tile
    requires tileSize >= 1 && r.cursor.tile < TileCount(|a|, tileSize)
    ensures TiledSteps(r, a, b, op, tileSize, n + 1) ==
      TiledSteps(TiledRun(TiledAccumulate(r.out, a, b, op, r.cursor), TiledAdvance(r.cursor, |b|, tileSize, |r.out|)),
                 a, b, op, tileSize, n)
  {
  }

  /** The tiled stepper alone, called until it reports that no tile remains. From a cursor in
      range every call moves the cursor forward (TiledAdvance), so the run ends, and it ends
      with the tile index at the tile count. */
  function TiledFinish(r: TiledRun, a: seq<int>, b: seq<int>, op: Operation, tileSize: int): (s: TiledRun)
    requires 1 <= |b| <= |a| && |r.out| == |a| - |b| + 1 && tileSize >= 1
    requires TiledInRange(r.cursor, |b|, tileSize, |a|)
    ensures |s.out| == |r.out| && TiledInRange(s.cursor, |b|, tileSize, |a|)
    ensures s.cursor.tile == TileCount(|a|, tileSize)
    decreases TileCount(|a|, tileSize) - r.cursor.tile, |a| - r.cursor.x, |b| - r.cursor.k
  {
    if r.cursor.tile >= TileCount(|a|, tileSize) then r
    else
      TiledNextInRange(r.cursor, |b|, tileSize, |a|, |r.out|);
      TiledFinish(TiledRun(TiledAccumulate(r.out, a, b, op, r.cursor),
                           TiledAdvance(r.cursor, |b|, tileSize, |r.out|)), a, b, op, tileSize)
  }

  /** Running the tiled stepper to its end after n calls ends where running it to its end at
      once does: the end of the run only depends on where it starts. */
  lemma {:induction false} TiledFinishSteps(r: TiledRun, a: seq<int>, b: seq<int>, op: Operation, tileSize: int, n: nat)
    requires 1 <= |b| <= |a| && |r.out| == |a| - |b| + 1 && tileSize >= 1
    requires TiledInRange(r.cursor, |b|, tileSize, |a|)
    ensures TiledInRange(TiledSteps(r, a, b, op, tileSize, n).cursor, |b|, tileSize, |a|)
    ensures TiledFinish(TiledSteps(r, a, b, op, tileSize, n), a, b, op, tileSize) == TiledFinish(r, a, b, op, tileSize)
    decreases n
  {
    if n > 0 && r.cursor.tile < TileCount(|a|, tileSize) {
      TiledNextInRange(r.cursor, |b|, tileSize, |a|, |r.out|);
      var next := TiledRun(TiledAccumulate(r.out, a, b, op, r.cursor), TiledAdvance(r.cursor, |b|, tileSize, |r.out|));
      TiledFinishSteps(next, a, b, op, tileSize, n - 1);
    }
  }

  /** Run to its end from a reset on input [1, 1], kernel [1] and tile size 1, the tiled
      stepper leaves [2, 1]. */
  lemma TiledFinishRevisits()
    ensures TiledFinish(TiledRun([0, 0], TiledCursor(0, 0, 0)), [1, 1], [1], CrossCorrelation, 1).out == [2, 1]
  {
    var r0 := TiledRun([0, 0], TiledCursor(0, 0, 0));
    TiledStepperRevisits();
    TiledFinishSteps(r0, [1, 1], [1], CrossCorrelation, 1, 3);
  }

  // ---------------------------------------------------------------------------------------
  // The tiled stepper as evidently intended: the next tile starts at its own first position

  /** The cursor update with the position moved on to the first position of the next tile
      instead of back to the first position of the tile just finished. */
  function TiledAdvanceIntended(c: TiledCursor, kernelSize: int, tileSize: int, outputLength: int): (r: TiledCursor)
    requires 0 <= c.k < kernelSize && 0 <= c.tile && 0 <= c.x && tileSize >= 1
    ensures 0 <= r.k < kernelSize && 0 <= r.tile && 0 <= r.x
    ensures TiledBefore(c, r)
    ensures r.tile == c.tile + 1 ==> r.x == (c.tile + 1) * tileSize && r.k == 0
    ensures r.tile == c.tile || r.tile == c.tile + 1
  {
    MulMonotone(0, c.tile + 1, tileSize);
    if c.k + 1 < kernelSize then TiledCursor(c.tile, c.x, c.k + 1)
    else if c.x + 1 >= TileEnd(c.tile, tileSize, outputLength) then TiledCursor(c.tile + 1, (c.tile + 1) * tileSize, 0)
    else TiledCursor(c.tile, c.x + 1, 0)
  }

  /** n calls of the intended tiledStep with no naive steps in between. */
  function TiledStepsIntended(r: TiledRun, a: seq<int>, b: seq<int>, op: Operation, tileSize: int, n: nat): (s: TiledRun)
    requires |r.out| == |a| - |b| + 1 && 0 <= r.cursor.k < |b| && 0 <= r.cursor.x && 0 <= r.cursor.tile
    requires tileSize >= 1
    ensures |s.out| == |r.out| && 0 <= s.cursor.k < |b| && 0 <= s.cursor.x && 0 <= s.cursor.tile
    ensures n > 0 && r.cursor.tile < TileCount(|a|, tileSize) ==> TiledBefore(r.cursor, s.cursor)
    ensures r.cursor.tile >= TileCount(|a|, tileSize) ==> s == r
    decreases n
  {
    if n == 0 || r.cursor.tile >= TileCount(|a|, tileSize) then r
    else
      TiledStepsIntended(TiledRun(TiledAccumulate(r.out, a, b, op, r.cursor),
                                  TiledAdvanceIntended(r.cursor, |b|, tileSize, |r.out|)),
                         a, b, op, tileSize, n - 1)
  }

  /** The invariant of the intended stepper: the position lies in the current tile (or past
      the output), and the output holds the full sums before the position and the first k
      products at it. */
  ghost predicate IntendedInvariant(r: TiledRun, a: seq<int>, b: seq<int>, op: Operation, tileSize: int)
    requires |r.out| == |a| - |b| + 1 && 0 <= r.cursor.k < |b| && tileSize >= 1
  {
    IntendedInTile(r.cursor, tileSize, |r.out|) &&
    forall i :: 0 <= i < |r.out| ==> r.out[i] == NaiveSoFar(a, b, op, NaiveCursor(r.cursor.x, r.cursor.k), i)
  }

  /** The position of c lies in tile c.tile, or past the output when that tile is the last. */
  predicate IntendedInTile(c: TiledCursor, tileSize: int, outputLength: int)
  {
    0 <= c.tile && c.tile * tileSize <= c.x &&
    (c.x < outputLength ==> c.x < TileEnd(c.tile, tileSize, outputLength)) &&
    (c.x >= outputLength ==> (c.tile + 1) * tileSize >= outputLength)
  }

  /** One intended step keeps the invariant. */
  lemma IntendedStep(r: TiledRun, a: seq<int>, b: seq<int>, op: Operation, tileSize: int)
    requires |b| >= 1 && |r.out| == |a| - |b| + 1 && 0 <= r.cursor.k < |b| && 0 <= r.cursor.x && tileSize >= 1
    requires IntendedInvariant(r, a, b, op, tileSize)
    ensures var next := TiledRun(TiledAccumulate(r.out, a, b, op, r.cursor),
                                 TiledAdvanceIntended(r.cursor, |b|, tileSize, |r.out|));
      IntendedInvariant(next, a, b, op, tileSize)
  {
    var c := r.cursor;
    var out' := TiledAccumulate(r.out, a, b, op, c);
    var c' := TiledAdvanceIntended(c, |b|, tileSize, |r.out|);
    IntendedInTileStep(c, |b|, tileSize, |r.out|);
    forall i | 0 <= i < |r.out|
      ensures out'[i] == NaiveSoFar(a, b, op, NaiveCursor(c'.x, c'.k), i)
    {
      if c.x < |r.out| {
        NaiveSoFarAdvance(a, b, op, NaiveCursor(c.x, c.k), i);
        var n := NaiveAdvance(NaiveCursor(c.x, c.k), |b|);
        if c'.tile == c.tile + 1 && c'.x != n.x {
          // the last tile ends at the output length: every position is complete in both
          assert c.x + 1 == |r.out| && i < n.x <= c'.x;
        }
      }
    }
  }

  /** One intended step keeps the position in its tile; when it moves to the next tile, the
      position moves with it to that tile's first position, which is one past the last
      position of the tile just finished unless that tile ended at the output length. */
  lemma IntendedInTileStep(c: TiledCursor, kernelSize: int, tileSize: int, outputLength: int)
    requires 0 <= c.k < kernelSize && 0 <= c.x && tileSize >= 1
    requires IntendedInTile(c, tileSize, outputLength)
    ensures var c' := TiledAdvanceIntended(c, kernelSize, tileSize, outputLength);
      IntendedInTile(c', tileSize, outputLength) &&
      (c.x < outputLength && c'.tile == c.tile + 1 && c'.x != c.x + 1 ==> c.x + 1 == outputLength && c.x + 1 <= c'.x)
  {
    assert (c.tile + 1) * tileSize == c.tile * tileSize + tileSize;
    assert (c.tile + 2) * tileSize == (c.tile + 1) * tileSize + tileSize;
  }

  /** From a reset, the intended stepper keeps the invariant for any number of steps. */
  lemma {:induction false} IntendedSteps(r: TiledRun, a: seq<int>, b: seq<int>, op: Operation, tileSize: int, n: nat)
    requires |b| >= 1 && |r.out| == |a| - |b| + 1 && 0 <= r.cursor.k < |b| && 0 <= r.cursor.x && tileSize >= 1
    requires IntendedInvariant(r, a, b, op, tileSize)
    ensures IntendedInvariant(TiledStepsIntended(r, a, b, op, tileSize, n), a, b, op, tileSize)
    decreases n
  {
    if n > 0 && r.cursor.tile < TileCount(|a|, tileSize) {
      IntendedStep(r, a, b, op, tileSize);
      IntendedSteps(TiledRun(TiledAccumulate(r.out, a, b, op, r.cursor),
                             TiledAdvanceIntended(r.cursor, |b|, tileSize, |r.out|)),
                    a, b, op, tileSize, n - 1);
    }
  }

  /** Run alone from a reset, the intended tiled stepper, once it reports that no tile
      remains, has added every product exactly once: each output position holds its full
      sum, as the naive stepper's does. */
  lemma IntendedTiledStepperComplete(a: seq<int>, b: seq<int>, op: Operation, tileSize: int, n: nat)
    requires 1 <= |b| <= |a| && tileSize >= 1
    ensures var done := TiledStepsIntended(TiledRun(seq(|a| - |b| + 1, _ => 0), TiledCursor(0, 0, 0)),
                                           a, b, op, tileSize, n);
      done.cursor.tile >= TileCount(|a|, tileSize) ==>
        forall i :: 0 <= i < |done.out| ==> done.out[i] == Correlate1D(a, b, op, i)
  {
    var r := TiledRun(seq(|a| - |b| + 1, _ => 0), TiledCursor(0, 0, 0));
    assert IntendedInvariant(r, a, b, op, tileSize);
    IntendedSteps(r, a, b, op, tileSize, n);
    var done := TiledStepsIntended(r, a, b, op, tileSize, n);
    if done.cursor.tile >= TileCount(|a|, tileSize) {
      MulMonotone(TileCount(|a|, tileSize), done.cursor.tile, tileSize);
    }
  }

  /** The cursors from which the corrected tiled stepper may be run to its end: offset and tile
      in range, and the position inside the input while a tile remains. */
  predicate IntendedInRange(c: TiledCursor, kernelSize: int, tileSize: int, arraySize: int)
    requires arraySize >= 0 && tileSize >= 1
  {
    0 <= c.k < kernelSize && 0 <= c.x && 0 <= c.tile <= TileCount(arraySize, tileSize) &&
    (c.tile < TileCount(arraySize, tileSize) ==> c.x <= arraySize)
  }

  /** A corrected step from a cursor in range, while a tile remains, stays in range. */
  lemma IntendedNextInRange(c: TiledCursor, kernelSize: int, tileSize: int, arraySize: int, outputLength: int)
    requires arraySize >= 0 && tileSize >= 1 && outputLength <= arraySize
    requires IntendedInRange(c, kernelSize, tileSize, arraySize) && c.tile < TileCount(arraySize, tileSize)
    ensures IntendedInRange(TiledAdvanceIntended(c, kernelSize, tileSize, outputLength), kernelSize, tileSize, arraySize)
  {
    var d := TiledAdvanceIntended(c, kernelSize, tileSize, outputLength);
    if d.tile < TileCount(arraySize, tileSize) && d.tile == c.tile + 1 {
      TileStartInRange(arraySize, tileSize, d.tile);
    }
  }

  /** The corrected tiled stepper alone, called until it reports that no tile remains. Every
      call moves the cursor forward and keeps it in range, so the run ends, and it ends with the
      tile index at the tile count. */
  function TiledFinishIntended(r: TiledRun, a: seq<int>, b: seq<int>, op: Operation, tileSize: int): (s: TiledRun)
    requires 1 <= |b| <= |a| && |r.out| == |a| - |b| + 1 && tileSize >= 1
    requires IntendedInRange(r.cursor, |b|, tileSize, |a|)
    ensures |s.out| == |r.out| && IntendedInRange(s.cursor, |b|, tileSize, |a|)
    ensures s.cursor.tile == TileCount(|a|, tileSize)
    decreases TileCount(|a|, tileSize) - r.cursor.tile, |a| - r.cursor.x, |b| - r.cursor.k
  {
    if r.cursor.tile >= TileCount(|a|, tileSize) then r
    else
      IntendedNextInRange(r.cursor, |b|, tileSize, |a|, |r.out|);
      TiledFinishIntended(TiledRun(TiledAccumulate(r.out, a, b, op, r.cursor),
                                   TiledAdvanceIntended(r.cursor, |b|, tileSize, |r.out|)), a, b, op, tileSize)
  }

  /** Running the corrected tiled stepper to its end keeps the invariant of IntendedStep. */
  lemma {:induction false} TiledFinishIntendedKeeps(r: TiledRun, a: seq<int>, b: seq<int>, op: Operation, tileSize: int)
    requires 1 <= |b| <= |a| && |r.out| == |a| - |b| + 1 && tileSize >= 1
    requires IntendedInRange(r.cursor, |b|, tileSize, |a|)
    requires IntendedInvariant(r, a, b, op, tileSize)
    ensures IntendedInvariant(TiledFinishIntended(r, a, b, op, tileSize), a, b, op, tileSize)
    decreases TileCount(|a|, tileSize) - r.cursor.tile, |a| - r.cursor.x, |b| - r.cursor.k
  {
    if r.cursor.tile < TileCount(|a|, tileSize) {
      IntendedNextInRange(r.cursor, |b|, tileSize, |a|, |r.out|);
      IntendedStep(r, a, b, op, tileSize);
      TiledFinishIntendedKeeps(TiledRun(TiledAccumulate(r.out, a, b, op, r.cursor),
                                        TiledAdvanceIntended(r.cursor, |b|, tileSize, |r.out|)), a, b, op, tileSize);
    }
  }

  /** Run alone from a reset, the corrected tiled stepper always reaches its end, and there
      every output position holds its full sum, as the naive stepper's does. */
  lemma IntendedTiledFinishComplete(a: seq<int>, b: seq<int>, op: Operation, tileSize: int)
    requires 1 <= |b| <= |a| && tileSize >= 1
    ensures var done := TiledFinishIntended(TiledRun(seq(|a| - |b| + 1, _ => 0), TiledCursor(0, 0, 0)),
                                            a, b, op, tileSize);
      done.cursor.tile == TileCount(|a|, tileSize) &&
      forall i :: 0 <= i < |done.out| ==> done.out[i] == Correlate1D(a, b, op, i)
  {
    var r := TiledRun(seq(|a| - |b| + 1, _ => 0), TiledCursor(0, 0, 0));
    assert IntendedInvariant(r, a, b, op, tileSize);
    TiledFinishIntendedKeeps(r, a, b, op, tileSize);
    var done := TiledFinishIntended(r, a, b, op, tileSize);
    MulMonotone(TileCount(|a|, tileSize), done.cursor.tile, tileSize);
  }

  // ---------------------------------------------------------------------------------------
  // The page state

  /** The state of initialize1DVisualization: sizes, operation, arrays, the two cursors and
      the animation flag. The ghost tiledSums records what tiledStep has added to each output
      position, so that the shared output is the naive part plus the tiled part. */
  class Visualization1D {
    const arraySize: int
    const kernelSize: int
    const tileSize: int
    const operation: Operation
    var inputArray: seq<int>
    var kernelArray: seq<int>
    var outputArray: array<int>
    var naiveCurrentStep: NaiveCursor
    var tiledCurrentStep: TiledCursor
    var isAnimating: bool
    ghost var tiledSums: seq<int>

    /** The sizes fit, the arrays have them, the cursors are in range, and every output
        position holds what the naive stepper has added plus what the tiled stepper has. */
    ghost predicate Valid()
      reads this, outputArray
    {
      1 <= kernelSize <= arraySize && tileSize >= 1 &&
      |inputArray| == arraySize && |kernelArray| == kernelSize &&
      outputArray.Length == OutputExtent(arraySize, kernelSize) &&
      NaiveInRange(naiveCurrentStep, kernelSize, outputArray.Length) &&
      TiledInRange(tiledCurrentStep, kernelSize, tileSize, arraySize) &&
      |tiledSums| == outputArray.Length &&
      forall i :: 0 <= i < outputArray.Length ==>
        outputArray[i] == NaiveSoFar(inputArray, kernelArray, operation, naiveCurrentStep, i) + tiledSums[i]
    }

    /** The page as built: the sizes of the sliders, the input and kernel of initializeArrays
        (random in the page, parameters here), a zero output of arraySize - kernelSize + 1
        positions, both cursors at zero and no animation. */
    constructor (arraySize: int, kernelSize: int, tileSize: int, operation: Operation,
                 input: seq<int>, kernel: seq<int>)
      requires 1 <= kernelSize <= arraySize && tileSize >= 1
      requires |input| == arraySize && |kernel| == kernelSize
      ensures Valid() && !isAnimating && fresh(outputArray)
      ensures this.arraySize == arraySize && this.kernelSize == kernelSize
      ensures this.tileSize == tileSize && this.operation == operation
      ensures inputArray == input && kernelArray == kernel
      ensures outputArray.Length == arraySize - kernelSize + 1
      ensures forall i :: 0 <= i < outputArray.Length ==> outputArray[i] == 0
      ensures naiveCurrentStep == NaiveCursor(0, 0) && tiledCurrentStep == TiledCursor(0, 0, 0)
    {
      this.arraySize := arraySize;
      this.kernelSize := kernelSize;
      this.tileSize := tileSize;
      this.operation := operation;
      inputArray := input;
      kernelArray := kernel;
      outputArray := new int[arraySize - kernelSize + 1](_ => 0);
      naiveCurrentStep := NaiveCursor(0, 0);
      tiledCurrentStep := TiledCursor(0, 0, 0);
      isAnimating := false;
      tiledSums := seq(arraySize - kernelSize + 1, _ => 0);
    }

    /** initializeArrays: new input and kernel, a new zero output, both cursors at zero; the
        animation flag is left as it is. */
    method InitializeArrays(input: seq<int>, kernel: seq<int>)
      requires Valid() && |input| == arraySize && |kernel| == kernelSize
      modifies this
      ensures Valid() && fresh(outputArray) && isAnimating == old(isAnimating)
      ensures inputArray == input && kernelArray == kernel
      ensures forall i :: 0 <= i < outputArray.Length ==> outputArray[i] == 0
      ensures naiveCurrentStep == NaiveCursor(0, 0) && tiledCurrentStep == TiledCursor(0, 0, 0)
    {
      inputArray := input;
      kernelArray := kernel;
      outputArray := new int[arraySize - kernelSize + 1](_ => 0);
      naiveCurrentStep := NaiveCursor(0, 0);
      tiledCurrentStep := TiledCursor(0, 0, 0);
      tiledSums := seq(arraySize - kernelSize + 1, _ => 0);
    }

    /** naiveStep: once x has reached the output length, nothing changes and the answer is
        false; otherwise the product at the cursor is added to output position x, the
        cursor advances, and the answer is true, even when this was the last product. When
        the answer is false, every position holds its full sum plus the tiled part. */
    method NaiveStep() returns (more: bool)
      requires Valid()
      modifies this, outputArray
      ensures Valid()
      ensures more <==> old(naiveCurrentStep.x) < outputArray.Length
      ensures naiveCurrentStep == NaiveNext(old(naiveCurrentStep), kernelSize, outputArray.Length)
      ensures more ==> outputArray[..] == old(outputArray[..])[old(naiveCurrentStep.x) :=
        old(outputArray[naiveCurrentStep.x]) + Term1D(inputArray, kernelArray, operation, old(naiveCurrentStep.x), old(naiveCurrentStep.k))]
      ensures !more ==> outputArray[..] == old(outputArray[..])
      ensures !more ==> forall i :: 0 <= i < outputArray.Length ==>
        outputArray[i] == Correlate1D(inputArray, kernelArray, operation, i) + tiledSums[i]
      ensures outputArray == old(outputArray) && inputArray == old(inputArray) && kernelArray == old(kernelArray)
      ensures tiledCurrentStep == old(tiledCurrentStep) && tiledSums == old(tiledSums)
      ensures isAnimating == old(isAnimating)
    {
      if naiveCurrentStep.x >= outputArray.Length {
        return false;
      }
      var c := naiveCurrentStep;
      var step := NaiveAdvance(naiveCurrentStep, kernelSize);
      AddNaiveProduct(c);
      naiveCurrentStep := step;
      forall i | 0 <= i < outputArray.Length
        ensures outputArray[i] == NaiveSoFar(inputArray, kernelArray, operation, step, i) + tiledSums[i]
      {
        assert old(outputArray[i]) == NaiveSoFar(inputArray, kernelArray, operation, c, i) + tiledSums[i];
        NaiveSoFarAdvance(inputArray, kernelArray, operation, c, i);
      }
      return true;
    }

    /** The update of naiveStep: the product at the cursor is added to output position x. */
    method AddNaiveProduct(c: NaiveCursor)
      requires |inputArray| == arraySize && |kernelArray| == kernelSize
      requires outputArray.Length == OutputExtent(arraySize, kernelSize)
      requires 0 <= c.k < kernelSize && 0 <= c.x < outputArray.Length
      modifies outputArray
      ensures outputArray[..] == old(outputArray[..])[c.x := old(outputArray[c.x]) + Term1D(inputArray, kernelArray, operation, c.x, c.k)]
    {
      var x, k := c.x, c.k;
      var kernelIdx := if operation == Convolution then kernelSize - 1 - k else k;
      outputArray[x] := outputArray[x] + inputArray[x + k] * kernelArray[kernelIdx];
    }

    /** tiledStep: once the tile index has reached the tile count, nothing changes and the
        answer is false; otherwise, when the guard holds, the product at the cursor is added
        to output position x (and to the tiled part), the cursor advances, and the answer is
        whether tiles remain after the step. */
    method TiledStep() returns (more: bool)
      requires Valid()
      modifies this, outputArray
      ensures Valid()
      ensures more <==> tiledCurrentStep.tile < TileCount(arraySize, tileSize)
      ensures tiledCurrentStep == TiledNext(old(tiledCurrentStep), kernelSize, tileSize, arraySize, outputArray.Length)
      ensures old(tiledCurrentStep.tile) < TileCount(arraySize, tileSize) ==>
        outputArray[..] == TiledAccumulate(old(outputArray[..]), inputArray, kernelArray, operation, old(tiledCurrentStep)) &&
        tiledSums == TiledAccumulate(old(tiledSums), inputArray, kernelArray, operation, old(tiledCurrentStep))
      ensures old(tiledCurrentStep.tile) >= TileCount(arraySize, tileSize) ==>
        outputArray[..] == old(outputArray[..]) && tiledSums == old(tiledSums)
      ensures outputArray == old(outputArray) && inputArray == old(inputArray) && kernelArray == old(kernelArray)
      ensures naiveCurrentStep == old(naiveCurrentStep) && isAnimating == old(isAnimating)
    {
      if tiledCurrentStep.tile >= CeilDiv(arraySize, tileSize) {
        return false;
      }
      TiledNextInRange(tiledCurrentStep, kernelSize, tileSize, arraySize, outputArray.Length);
      var c := tiledCurrentStep;
      var step := TiledAdvance(tiledCurrentStep, kernelSize, tileSize, outputArray.Length);
      ghost var sums := TiledAccumulate(tiledSums, inputArray, kernelArray, operation, c);
      AddTiledProduct(c);
      tiledSums := sums;
      tiledCurrentStep := step;
      forall i | 0 <= i < outputArray.Length
        ensures outputArray[i] == NaiveSoFar(inputArray, kernelArray, operation, naiveCurrentStep, i) + tiledSums[i]
      {
        assert old(outputArray[i]) == NaiveSoFar(inputArray, kernelArray, operation, naiveCurrentStep, i) + old(tiledSums)[i];
      }
      return tiledCurrentStep.tile < CeilDiv(arraySize, tileSize);
    }

    /** The guarded update of tiledStep: when x is an output position and x + k an input
        position, the product at the cursor is added to output position x. */
    method AddTiledProduct(c: TiledCursor)
      requires |inputArray| == arraySize && |kernelArray| == kernelSize
      requires outputArray.Length == OutputExtent(arraySize, kernelSize)
      requires 0 <= c.k < kernelSize && 0 <= c.x
      modifies outputArray
      ensures outputArray[..] == TiledAccumulate(old(outputArray[..]), inputArray, kernelArray, operation, c)
    {
      var x, k := c.x, c.k;
      if x < outputArray.Length && x + k < arraySize {
        var kernelIdx := if operation == Convolution then kernelSize - 1 - k else k;
        outputArray[x] := outputArray[x] + inputArray[x + k] * kernelArray[kernelIdx];
      }
    }

    /** animate: nothing happens unless the animation runs; otherwise one naive step and one
        tiled step, and the animation stops when both report no work left. */
    method Animate()
      requires Valid()
      modifies this, outputArray
      ensures Valid() && outputArray == old(outputArray)
      ensures inputArray == old(inputArray) && kernelArray == old(kernelArray)
      ensures !old(isAnimating) ==>
        !isAnimating && naiveCurrentStep == old(naiveCurrentStep) && tiledCurrentStep == old(tiledCurrentStep) &&
        outputArray[..] == old(outputArray[..]) && tiledSums == old(tiledSums)
      ensures old(isAnimating) ==>
        naiveCurrentStep == NaiveNext(old(naiveCurrentStep), kernelSize, outputArray.Length) &&
        tiledCurrentStep == TiledNext(old(tiledCurrentStep), kernelSize, tileSize, arraySize, outputArray.Length) &&
        (isAnimating <==> old(naiveCurrentStep.x) < outputArray.Length || tiledCurrentStep.tile < TileCount(arraySize, tileSize))
      ensures old(isAnimating) ==>
        outputArray[..] == TiledStepSums(NaiveStepSums(old(outputArray[..]), inputArray, kernelArray, operation, old(naiveCurrentStep)),
                                         inputArray, kernelArray, operation, tileSize, old(tiledCurrentStep)) &&
        tiledSums == TiledStepSums(old(tiledSums), inputArray, kernelArray, operation, tileSize, old(tiledCurrentStep))
    {
      if !isAnimating {
        return;
      }
      var naiveHasMore := NaiveStep();
      var tiledHasMore := TiledStep();
      if !naiveHasMore && !tiledHasMore {
        StopAnimation();
      }
    }

    /** startAnimation: the animation runs (the interval timer is the loop of PlayToEnd). */
    method StartAnimation()
      modifies this
      ensures isAnimating
      ensures naiveCurrentStep == old(naiveCurrentStep) && tiledCurrentStep == old(tiledCurrentStep)
      ensures inputArray == old(inputArray) && kernelArray == old(kernelArray)
      ensures outputArray == old(outputArray) && tiledSums == old(tiledSums)
    {
      if isAnimating {
        return;
      }
      isAnimating := true;
    }

    /** stopAnimation: the animation no longer runs; nothing else changes. */
    method StopAnimation()
      modifies this
      ensures !isAnimating
      ensures naiveCurrentStep == old(naiveCurrentStep) && tiledCurrentStep == old(tiledCurrentStep)
      ensures inputArray == old(inputArray) && kernelArray == old(kernelArray)
      ensures outputArray == old(outputArray) && tiledSums == old(tiledSums)
    {
      if !isAnimating {
        return;
      }
      isAnimating := false;
    }

    /** The play button followed by the interval timer: animate is called until it stops the
        animation itself, which always happens, and then both steppers are done and every
        output position holds its full sum plus the tiled part. */
    method PlayToEnd()
      requires Valid()
      modifies this, outputArray
      ensures Valid() && !isAnimating && outputArray == old(outputArray)
      ensures naiveCurrentStep.x == outputArray.Length
      ensures tiledCurrentStep.tile == TileCount(arraySize, tileSize)
      ensures inputArray == old(inputArray) && kernelArray == old(kernelArray)
      ensures TiledRun(tiledSums, tiledCurrentStep) ==
        TiledFinish(TiledRun(old(tiledSums), old(tiledCurrentStep)), inputArray, kernelArray, operation, tileSize)
      ensures forall i :: 0 <= i < outputArray.Length ==>
        outputArray[i] == Correlate1D(inputArray, kernelArray, operation, i) + tiledSums[i]
    {
      StartAnimation();
      while isAnimating
        invariant Valid() && outputArray == old(outputArray)
        invariant inputArray == old(inputArray) && kernelArray == old(kernelArray)
        invariant TiledFinish(TiledRun(tiledSums, tiledCurrentStep), inputArray, kernelArray, operation, tileSize) ==
          TiledFinish(TiledRun(old(tiledSums), old(tiledCurrentStep)), inputArray, kernelArray, operation, tileSize)
        invariant !isAnimating ==> naiveCurrentStep.x == outputArray.Length &&
                                   tiledCurrentStep.tile == TileCount(arraySize, tileSize)
        decreases isAnimating,
                  outputArray.Length * kernelSize - NaiveRank(naiveCurrentStep, kernelSize),
                  TileCount(arraySize, tileSize) - tiledCurrentStep.tile,
                  arraySize - tiledCurrentStep.x,
                  kernelSize - tiledCurrentStep.k
      {
        NaiveRankBound(naiveCurrentStep, kernelSize, outputArray.Length);
        Animate();
        NaiveRankBound(naiveCurrentStep, kernelSize, outputArray.Length);
      }
    }

    /** resetVisualization: the animation stops, the output is zeroed in place, both cursors
        return to zero; input and kernel are kept. */
    method ResetVisualization()
      requires Valid()
      modifies this, outputArray
      ensures Valid() && !isAnimating && outputArray == old(outputArray)
      ensures inputArray == old(inputArray) && kernelArray == old(kernelArray)
      ensures forall i :: 0 <= i < outputArray.Length ==> outputArray[i] == 0
      ensures naiveCurrentStep == NaiveCursor(0, 0) && tiledCurrentStep == TiledCursor(0, 0, 0)
    {
      StopAnimation();
      forall i | 0 <= i < outputArray.Length {
        outputArray[i] := 0;
      }
      naiveCurrentStep := NaiveCursor(0, 0);
      tiledCurrentStep := TiledCursor(0, 0, 0);
      tiledSums := seq(outputArray.Length, _ => 0);
    }

    /** The step button as written: it stops the animation and then calls animate, which
        returns at once because the animation is stopped; no stepper moves. */
    method StepClick()
      requires Valid()
      modifies this, outputArray
      ensures Valid() && !isAnimating
      ensures naiveCurrentStep == old(naiveCurrentStep) && tiledCurrentStep == old(tiledCurrentStep)
      ensures outputArray == old(outputArray) && outputArray[..] == old(outputArray[..])
      ensures inputArray == old(inputArray) && kernelArray == old(kernelArray) && tiledSums == old(tiledSums)
    {
      StopAnimation();
      Animate();
    }

    /** The step button as evidently intended: with the animation stopped, one naive step and
        one tiled step. */
    method StepClickIntended()
      requires Valid()
      modifies this, outputArray
      ensures Valid() && !isAnimating && outputArray == old(outputArray)
      ensures inputArray == old(inputArray) && kernelArray == old(kernelArray)
      ensures naiveCurrentStep == NaiveNext(old(naiveCurrentStep), kernelSize, outputArray.Length)
      ensures tiledCurrentStep == TiledNext(old(tiledCurrentStep), kernelSize, tileSize, arraySize, outputArray.Length)
      ensures outputArray[..] == TiledStepSums(NaiveStepSums(old(outputArray[..]), inputArray, kernelArray, operation, old(naiveCurrentStep)),
                                               inputArray, kernelArray, operation, tileSize, old(tiledCurrentStep))
      ensures tiledSums == TiledStepSums(old(tiledSums), inputArray, kernelArray, operation, tileSize, old(tiledCurrentStep))
    {
      StopAnimation();
      var naiveHasMore := NaiveStep();
      var tiledHasMore := TiledStep();
    }
  }

  /** The page with input [1, 1], kernel [1], tile size 1 and cross-correlation, played to the
      end: both steppers write into the same output, so it ends with the naive sums [1, 1]
      plus what the tiled stepper adds, [2, 1]. */
  method PlayToEndExample() returns (out: seq<int>)
    ensures out == [3, 2]
  {
    var v := new Visualization1D(2, 1, 1, CrossCorrelation, [1, 1], [1]);
    assert v.tiledSums == [0, 0];
    v.PlayToEnd();
    out := v.outputArray[..];
    PlayToEndExampleOut(out, v.tiledSums, v.tiledCurrentStep);
  }

  /** An output that holds the full sums plus the tiled part of the run to the end is [3, 2]. */
  lemma PlayToEndExampleOut(out: seq<int>, s: seq<int>, c: TiledCursor)
    requires |out| == 2 && |s| == 2
    requires forall i :: 0 <= i < 2 ==> out[i] == Correlate1D([1, 1], [1], CrossCorrelation, i) + s[i]
    requires TiledRun(s, c) == TiledFinish(TiledRun([0, 0], TiledCursor(0, 0, 0)), [1, 1], [1], CrossCorrelation, 1)
    ensures out == [3, 2]
  {
    TiledFinishRevisits();
    TiledStepperRevisits();
    assert out[0] == 3 && out[1] == 2;
  }
}
