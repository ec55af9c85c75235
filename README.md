# Tile algorithms: naive and tiled convolution, and the step visualizer

The repository teaches loop tiling on convolution. It has two parts, and this project
models both:

- **The C programs.** Each computes a 1D, 2D or 3D convolution, or a 1D cross-correlation,
  twice: once with a naive loop nest and once with a tiled one. It then checks that the two
  outputs are equal. The tiling schemes differ:
  - 1D routines cut the *kernel* into `size_B / tile_B` full tiles and a remainder;
  - the 2D routine cuts the *output* into tiles, clipped at the bottom and right edges;
  - the 3D routines cut the *kernel* on every axis, and the last tile on an axis runs to the
    kernel's end.
- **The browser page (`js/visualizer.js`).** It animates the same computation one
  multiply-accumulate at a time for 1D, 2D and 3D. Each page has a naive stepper and a tiled
  stepper. Both walk a cursor through (tile, position, kernel offset) space, and both add
  into the *same* output buffer.

The model is imperative, like the source:

- The C output buffers are Dafny arrays written by nested loops.
- The read-only inputs are sequences.
- Each visualizer page is a class whose fields are the page's state: the sizes, the
  operation, the input, the kernel, the output buffer, the two cursors, the animation flag
  and, in 3D, the view slices.

Every loop nest is proved against a reference sum (`Correlate1D`, `Correlate2D`,
`Correlate3D`, `Convolve3`):

- each tiled routine ends with exactly the naive routine's output, for every tile size ≥ 1;
- each comparison program therefore reports equality;
- the tile index ranges cover the kernel or output index space exactly once.

For the steppers, a method's `ensures` gives the new cursor as a pure carry function of the
old one. Each step keeps a class invariant: every output cell holds what the naive stepper
has added so far plus a ghost record of what the tiled stepper has added. From this the
model proves:

- termination;
- that nothing happens once a stepper is done;
- that the naive stepper alone produces the full convolution.

Points of the code's behaviour that the model keeps as they are:

- Both steppers add each product into the output as it goes (`+=`). They do not recompute
  a cell once its kernel offsets are exhausted.
- There is no backward step or rewind.
- The tiled steppers take their tile count from the *input* size, not the output size.
- On leaving tile t, the position goes back to t·tileSize, the start of the tile just
  finished. This makes the next tile pass over finished cells again (see Findings).

Integers are mathematical integers. `Operation` selects convolution (kernel read reversed)
or cross-correlation (kernel read as is).

## Model

| member | source | states |
|---|---|---|
| ConvMath.KernelIndex | js/visualizer.js:223-224 | the kernel index read at offset k is inside the kernel, and equals k exactly when the operation is not convolution or k is the kernel's middle |
| ConvMath.OutputExtent | 3d_convolution/convolution_3d_comparison.c:63-65 | the output extent is at least 1 exactly when the kernel is no larger than the input |
| ConvMath.WindowInBounds | js/visualizer.js:75 | an output position x and kernel offset k read input position x + k, which is inside the input |
| ConvMath.KernelFits | 1d_convolution/convolution_comparison.c:117-120 | the size check accepts exactly the sizes with a non-empty output |
| ConvMath.PartialSum2DNextRow | 2d_convolution/naive/convolution_2d.c:29-33 | adding one whole kernel row extends the partial sum by that row |
| ConvMath.MatrixWindow | 2d_convolution/naive/convolution_2d.c:27-32 | every output cell of a matrix input has its kernel window inside the input |
| Tiling.CeilDiv | js/visualizer.js:238 | the tile count is the ceiling of n / t: (r - 1) * t < n <= r * t |
| Tiling.CeilDivBounds | 3d_convolution/convolution_3d_comparison.c:119-121 | the C formula (n + t - 1) / t has the ceiling property |
| Tiling.TileStartInRange | js/visualizer.js:261-262 | every tile below the tile count starts inside the range |
| Tiling.ClampTile | 3d_convolution/tiled/tiled_convolution_3d.c:210-221 | a clamped tile is the given tile or the kernel size, at most both, and at least 1 when both are |
| Tiling.RemainderStart | 1d_convolution/convolution_comparison.c:44-45 | the remainder loop starts right after the last full tile and covers fewer than t offsets |
| Tiling.FullTileBoundary | 1d_convolution/convolution_comparison.c:33-35 | the boundary before each full tile lies inside the full-tile region |
| Tiling.FullTilePosition | 1d_convolution/convolution_comparison.c:33-39 | offset k of full tile i is a position of the full-tile region, and no other (tile, offset) pair names it |
| Tiling.FullTileOf | 1d_convolution/convolution_comparison.c:33-39 | every position of the full-tile region is some offset of some full tile |
| Tiling.ClippedExtent | 2d_convolution/convolution_2d_comparison.c:52-53 | an edge tile's extent is between 1 and the tile size, stays inside the output, and is short only at the edge |
| Tiling.OutputTileOf | 2d_convolution/convolution_2d_comparison.c:49-53 | every output index lies in the clipped tile that starts at (i / t) * t |
| Tiling.OutputTileUnique | 2d_convolution/convolution_2d_comparison.c:49-53 | an output index lies in no other tile |
| Tiling.KernelTilesPartition | 3d_convolution/convolution_3d_comparison.c:119-134 | the kernel tiles are non-empty, start at 0, follow one another with no gap or overlap, and the last one ends at the kernel size |
| Tiling.KernelTileOf | 3d_convolution/tiled/tiled_convolution_3d.c:46-64 | every kernel offset lies in tile min(j / t, n - 1) |
| Tiling.KernelTileUnique | 3d_convolution/tiled/tiled_convolution_3d.c:46-64 | a kernel offset lies in no other tile |
| Tiling.KernelTileStart | 3d_convolution/tiled/tiled_convolution_3d.c:53-63 | tile q of a kernel axis starts at q · t; KernelTilesPartition states the tiles it starts |
| Tiling.KernelTileEnd | 3d_convolution/tiled/tiled_convolution_3d.c:54-64 | tile q ends at (q + 1) · t, except the last tile, which ends at the kernel extent; KernelTilesPartition states that the tiles partition the axis |
| Compare.ArraysEqual | 1d_convolution/convolution_comparison.c:68-75 | the result is 0 or 1, and 1 exactly when the first size elements agree pointwise; the cross-correlation and 3D comparison programs have the same function |
| Compare.Arrays2DEqual | 2d_convolution/convolution_2d_comparison.c:131-140 | the result is 0 or 1, and 1 exactly when all height × width cells agree |
| Convolution1D.ZeroOutput1D | 1d_convolution/tiled/tiled_convolution.c:18-20 | the first n outputs are zero and the rest are unchanged |
| Convolution1D.NaiveConvolution1D | 1d_convolution/convolution_comparison.c:8-21 | every output C[i] is the sum over j of A[i + j] * B[size_B - 1 - j] |
| Convolution1D.TiledConvolution1D | 1d_convolution/convolution_comparison.c:26-51 | for any tile_B ≥ 1 and any tile_A, the full tiles plus the remainder give every C[i] its full convolution sum; the tiled program (1d_convolution/tiled/tiled_convolution.c) has the same routine |
| Convolution1D.AddConvolutionTile | 1d_convolution/tiled/tiled_convolution.c:25-29 | one kernel tile's products, with a reversed kernel index in range, extend C[j]'s partial sum by the tile, and no other element changes |
| Convolution1D.AddConvolutionRemainder | 1d_convolution/tiled/tiled_convolution.c:35-39 | the remainder offsets complete C[i]'s sum with in-bounds reads, and no other element changes |
| Convolution1D.CompareConvolution1D | 1d_convolution/convolution_comparison.c:150-173 | a kernel larger than the input is refused with status 1; otherwise the naive and tiled outputs compare equal and the status is 0 |
| Convolution1D.TiledConvolutionExample | 1d_convolution/tiled/tiled_convolution.c:59-72 | the demo with A = 1..8, B = [2, 1, 3] and tile_B = 2 gives the six outputs 11, 17, 23, 29, 35, 41 |
| CrossCorrelation1D.NaiveCrossCorrelation1D | cross_correlation/cross_correlation_comparison.c:8-20 | every output C[i] is the sum over j of A[i + j] * B[j], with no flip |
| CrossCorrelation1D.TiledCrossCorrelation1D | cross_correlation/cross_correlation_comparison.c:26-46 | for any tile_B ≥ 1, full tiles plus remainder give every C[i] its full cross-correlation sum; the tiled program (cross_correlation/tiled/tiled_cross_correlation.c) has the same routine |
| CrossCorrelation1D.AddCrossCorrelationTile | cross_correlation/tiled/tiled_cross_correlation.c:25-27 | one kernel tile's products extend C[j]'s partial sum by the tile, with in-bounds reads, and no other element changes |
| CrossCorrelation1D.AddCrossCorrelationRemainder | cross_correlation/tiled/tiled_cross_correlation.c:32-34 | the remainder offsets complete C[i]'s sum, and no other element changes |
| CrossCorrelation1D.CompareCrossCorrelation1D | cross_correlation/cross_correlation_comparison.c:145-168 | refused sizes give status 1; otherwise the naive and tiled outputs compare equal and the status is 0 |
| CrossCorrelation1D.TiledCrossCorrelationExample | cross_correlation/tiled/tiled_cross_correlation.c:54-68 | the demo with A = 1..8, B = [2, 1, 3] and tile_B = 2 gives 13, 19, 25, 31, 37, 43 |
| Convolution2D.MatrixWindows | 2d_convolution/naive/convolution_2d.c:27-32 | all A, B and C accesses of the loop nest stay in bounds for the output extents |
| Convolution2D.ZeroOutput2D | 2d_convolution/naive/convolution_2d.c:20-24 | every output cell is zero |
| Convolution2D.AccumulateCell2D | 2d_convolution/convolution_2d_comparison.c:21-26 | the kernel loops add the full flipped-kernel sum to cell (i, j) and leave every other cell unchanged |
| Convolution2D.NaiveConvolution2D | 2d_convolution/convolution_2d_comparison.c:8-29 | C[i][j] is the sum of A[i + ki][j + kj] * B[hB - 1 - ki][wB - 1 - kj] over the output; convolution_2d of the naive program (2d_convolution/naive/convolution_2d.c) is the same loop nest |
| Convolution2D.ApplyKernelElement2D | 2d_convolution/convolution_2d_comparison.c:59-69 | one flipped kernel element is added to exactly the cells of one tile |
| Convolution2D.ApplyTile2D | 2d_convolution/convolution_2d_comparison.c:56-71 | each cell of a tile receives exactly hB · wB additions, one per kernel element, so it gains its full sum; cells outside the tile are unchanged |
| Convolution2D.TiledConvolution2D | 2d_convolution/convolution_2d_comparison.c:34-74 | for any tile sizes ≥ 1, the edge-clipped output tiles give every cell the naive routine's value |
| Convolution2D.ValidateSizes2D | 2d_convolution/naive/convolution_2d.c:108-111 | a kernel taller or wider than the input is refused, and exactly those sizes are refused |
| Convolution2D.CompareConvolution2D | 2d_convolution/convolution_2d_comparison.c:231-261 | refused sizes give status 1; otherwise the naive and tiled outputs compare equal and the status is 0 |
| Convolution3D.Volume | 3d_convolution/convolution_3d_comparison.c:63-68 | the element count of a volume with non-negative extents is non-negative |
| Convolution3D.Flat | 3d_convolution/convolution_3d_comparison.c:91-93 | the flattened index of a cell lies in [0, X·Y·Z) |
| Convolution3D.FlatBounds | 3d_convolution/convolution_3d_comparison.c:157-159 | z·Y·X + y·X + x is in [0, X·Y·Z) for in-range coordinates |
| Convolution3D.CellBounds | 3d_convolution/naive/convolution_3d.c:50-57 | the a_index, b_index and c_index of the loop nest lie within their arrays |
| Convolution3D.FlatLess | 3d_convolution/convolution_3d_comparison.c:71-93 | the flattened layout follows the z, y, x loop order |
| Convolution3D.FlatDistinct | 3d_convolution/convolution_3d_comparison.c:91-93 | distinct cells have distinct flattened indices |
| Convolution3D.FlatSteps | 3d_convolution/tiled/tiled_convolution_3d.c:112-121 | walking a volume in loop order visits the flattened indices 0, 1, 2, … and ends at the element count |
| Convolution3D.FlatOnto | 3d_convolution/convolution_3d_comparison.c:316 | every flattened index is the index of some cell |
| Convolution3D.BoxSplitZ | 3d_convolution/convolution_3d_comparison.c:124-130 | cutting the kernel box along z adds up |
| Convolution3D.BoxSplitY | 3d_convolution/convolution_3d_comparison.c:125-132 | cutting the kernel box along y adds up |
| Convolution3D.PlaneSplitY | 3d_convolution/convolution_3d_comparison.c:125-132 | cutting a kernel plane along y adds up |
| Convolution3D.RowSplitX | 3d_convolution/convolution_3d_comparison.c:126-134 | cutting a kernel row along x adds up |
| Convolution3D.PlaneSplitX | 3d_convolution/convolution_3d_comparison.c:126-134 | cutting a kernel plane along x adds up |
| Convolution3D.BoxSplitX | 3d_convolution/convolution_3d_comparison.c:126-134 | cutting the kernel box along x adds up |
| Convolution3D.BoxEmpty | 3d_convolution/convolution_3d_comparison.c:142-164 | a kernel box that is empty on some axis contributes nothing |
| Convolution3D.PlaneEmpty | 3d_convolution/convolution_3d_comparison.c:143-163 | an empty range of kernel rows contributes nothing |
| Convolution3D.TileBounds | 3d_convolution/convolution_3d_comparison.c:119-134 | the C tile bounds are consecutive boundaries; boundary 0 is 0 and the last boundary is the kernel extent |
| Convolution3D.BoundaryEnds | 3d_convolution/tiled/tiled_convolution_3d.c:46-64 | the first tile starts at 0 and the last one ends at the kernel size |
| Convolution3D.Boundary | 3d_convolution/tiled/tiled_convolution_3d.c:51-64 | boundary q is q · t capped at the kernel extent; TileBounds and BoundaryEnds state that the C tile bounds are consecutive boundaries from 0 to the extent |
| Convolution3D.AccumulateRow3D | 3d_convolution/tiled/tiled_convolution_3d.c:74-97 | one kernel row's products, each behind a bounds guard that never fails, are added to one output cell and nowhere else |
| Convolution3D.AccumulateBox3D | 3d_convolution/convolution_3d_comparison.c:142-164 | a kernel box's products are added to one output cell and nowhere else |
| Convolution3D.ApplyKernelBox3D | 3d_convolution/convolution_3d_comparison.c:137-167 | every output cell gains the products of one kernel box |
| Convolution3D.ZeroOutput3D | 3d_convolution/tiled/tiled_convolution_3d.c:37-43 | every element of C is zero before any accumulation |
| Convolution3D.NaiveConvolution3D | 3d_convolution/convolution_3d_comparison.c:59-102 | every output cell holds the sum of A[z + kz][y + ky][x + kx] · B reversed on all three axes |
| Convolution3D.Convolution3D | 3d_convolution/naive/convolution_3d.c:17-67 | convolution_3d zeroes C with a loop nest and gives every cell the same sum |
| Convolution3D.TilesBeforeStepX | 3d_convolution/convolution_3d_comparison.c:126-134 | processing x tile tx adds its kernel box to what the earlier tiles gave |
| Convolution3D.TilesBeforeStepY | 3d_convolution/convolution_3d_comparison.c:125-132 | after the last x tile, the y tile counts as done |
| Convolution3D.TilesBeforeStepZ | 3d_convolution/convolution_3d_comparison.c:124-130 | after the last y tile, the z tile counts as done |
| Convolution3D.TilesBeforeStart | 3d_convolution/convolution_3d_comparison.c:115-116 | before the first tile nothing has been added |
| Convolution3D.TilesBefore3 | 3d_convolution/tiled/tiled_convolution_3d.c:51-64 | the products added to one output cell before kernel tile (tz, ty, tx); TilesBeforeStart, TilesBeforeStepX/Y/Z and TilesBeforeDone state how it grows to the full convolution |
| Convolution3D.TilesBeforeDone | 3d_convolution/convolution_3d_comparison.c:105-171 | after the last z tile every kernel offset has been added, which is the full convolution |
| Convolution3D.TiledConvolution3D | 3d_convolution/convolution_3d_comparison.c:105-171 | for any kernel tile sizes ≥ 1, every output cell ends with the naive sum; tile_A is never read |
| Convolution3D.ApplyTileRowGuarded3D | 3d_convolution/tiled/tiled_convolution_3d.c:61-103 | the x tiles of one kernel tile row, applied to every cell, add up to the whole row |
| Convolution3D.TiledConvolution3DGuarded | 3d_convolution/tiled/tiled_convolution_3d.c:24-107 | with the guard and per-level tile bounds, every output cell ends with the full flipped-kernel sum, for any tile sizes ≥ 1 |
| Convolution3D.InitSequential3D | 3d_convolution/tiled/tiled_convolution_3d.c:112-121 | element i holds i + 1: the values 1, 2, …, X·Y·Z in flattened order; the naive program (3d_convolution/naive/convolution_3d.c) has the same initialiser |
| Convolution3D.KernelValue | 3d_convolution/naive/convolution_3d.c:86-94 | (z + y + x) % 3 + 1 is in [1, 3] |
| Convolution3D.InitKernel3D | 3d_convolution/tiled/tiled_convolution_3d.c:126-134 | cell (z, y, x) holds (z + y + x) % 3 + 1, so every element is 1, 2 or 3 |
| Convolution3D.ValidateSizes3D | 3d_convolution/naive/convolution_3d.c:146-149 | a kernel larger than the input on some axis is refused, and exactly those sizes are refused |
| Convolution3D.CompareConvolution3D | 3d_convolution/convolution_3d_comparison.c:292-322 | on inputs whose kernel fits the input on every axis, and kernel tile sizes ≥ 1, arrays_equal of the naive and tiled outputs is 1 |
| Visualizer1D.NaiveAdvance | js/visualizer.js:227-231 | the kernel offset carries into x: the offset stays in [0, kernelSize), and the rank x·K + k goes up by exactly one |
| Visualizer1D.NaiveNext | js/visualizer.js:214-234 | once x ≥ the output length the cursor is unchanged; otherwise its rank goes up by one |
| Visualizer1D.NaiveSoFarAdvance | js/visualizer.js:223-231 | one naive step adds exactly the product at the cursor to position x, and a carry leaves x with its full sum |
| Visualizer1D.NaiveSoFarEnds | js/visualizer.js:214-234 | the zero cursor has added nothing, and positions the cursor has passed hold their full sum |
| Visualizer1D.NaiveRankBound | js/visualizer.js:215-217 | a reachable cursor has rank at most L·K, and rank L·K exactly when x is at the end |
| Visualizer1D.TileEnd | js/visualizer.js:259 | the tile end is at most the output length and at most (t + 1)·tileSize |
| Visualizer1D.TiledGuard | js/visualizer.js:246 | the tiled stepper adds a product only when the position is an output position and the input position it reads exists; TiledGuardExact states what this means for kernel offsets |
| Visualizer1D.TiledAdvance | js/visualizer.js:253-264 | the three-level carry moves the cursor strictly forward in lexicographic order; on a new tile x is reset to t·tileSize |
| Visualizer1D.TileCount | js/visualizer.js:238 | the tile count is the ceiling of the input length over the tile size |
| Visualizer1D.TiledNext | js/visualizer.js:237-267 | once the tile index reaches the tile count nothing changes; otherwise the cursor moves strictly forward |
| Visualizer1D.TiledNextInRange | js/visualizer.js:253-264 | tiledStep keeps its cursor in range |
| Visualizer1D.TiledGuardExact | js/visualizer.js:246-250 | for kernel offsets the guard is exactly "x is an output position", so no output position is skipped and no read is out of range |
| Visualizer1D.TiledAccumulate | js/visualizer.js:246-250 | when the guard holds, only position x changes, and it grows by the product; otherwise nothing changes |
| Visualizer1D.TiledSteps | js/visualizer.js:237-267 | repeated tiled steps keep the output length and move the cursor forward while tiles remain |
| Visualizer1D.TiledStepperRevisits | js/visualizer.js:261-262 | as written, input [1, 1], kernel [1] and tile size 1 end with output [2, 1]; the cross-correlation is [1, 1] |
| Visualizer1D.TiledFinish | js/visualizer.js:237-267 | calling the tiled stepper until it reports no more work always ends, keeps the output length and the cursor in range, and ends with the tile index at the tile count |
| Visualizer1D.TiledFinishSteps | js/visualizer.js:237-267 | the end of the tiled run depends only on where it starts: any number of steps first leads to the same end |
| Visualizer1D.TiledFinishRevisits | js/visualizer.js:261-262 | run to its end from a reset on input [1, 1], kernel [1] and tile size 1, the tiled stepper leaves [2, 1] |
| Visualizer1D.TiledAdvanceIntended | js/visualizer.js:253-264 | the corrected carry moves strictly forward and starts each new tile at that tile's own first position |
| Visualizer1D.TiledStepsIntended | js/visualizer.js:237-267 | repeated corrected tiled steps keep the output length and the cursor shape; while tiles remain, a positive number of steps moves the cursor strictly forward, and once none remain nothing changes |
| Visualizer1D.IntendedStep | js/visualizer.js:246-264 | one corrected step keeps the invariant: full sums before the position, the first k products at it |
| Visualizer1D.IntendedInTileStep | js/visualizer.js:256-263 | one corrected step keeps the position inside its tile |
| Visualizer1D.IntendedSteps | js/visualizer.js:237-267 | the corrected stepper keeps the invariant for any number of steps |
| Visualizer1D.IntendedTiledStepperComplete | js/visualizer.js:237-267 | run alone from a reset, once no tile remains, the corrected tiled stepper has given every output position its full sum |
| Visualizer1D.IntendedNextInRange | js/visualizer.js:253-264 | a corrected step keeps the cursor in range: while a tile remains, its position stays inside the input |
| Visualizer1D.TiledFinishIntended | js/visualizer.js:237-267 | calling the corrected tiled stepper until it reports no more work always ends, keeps the output length and the cursor in range, and ends with the tile index at the tile count |
| Visualizer1D.TiledFinishIntendedKeeps | js/visualizer.js:237-267 | running the corrected tiled stepper to its end keeps the invariant: full sums before the position, the first k products at it |
| Visualizer1D.IntendedTiledFinishComplete | js/visualizer.js:237-267 | run alone from a reset, the corrected tiled stepper always reaches its end, and there every output position holds its full sum |
| Visualizer1D.Visualization1D.constructor | js/visualizer.js:53-79 | the page starts with the given sizes and arrays, a freshly allocated zero output of length arraySize - kernelSize + 1, zero cursors and no animation |
| Visualizer1D.Visualization1D.InitializeArrays | js/visualizer.js:67-79 | new input and kernel, a fresh zero output and zero cursors |
| Visualizer1D.Visualization1D.NaiveStep | js/visualizer.js:214-234 | once x ≥ the output length it returns false and changes nothing; otherwise it adds the product at the cursor to position x, advances, and returns true, even on its last accumulating call; when it returns false every position holds its full sum plus the tiled part |
| Visualizer1D.Visualization1D.AddNaiveProduct | js/visualizer.js:223-224 | only position x changes, and it grows by the product at the cursor |
| Visualizer1D.Visualization1D.TiledStep | js/visualizer.js:237-267 | once no tile remains it returns false and changes nothing; otherwise it adds the guarded product, advances, and returns whether tiles remain |
| Visualizer1D.Visualization1D.AddTiledProduct | js/visualizer.js:246-250 | the output changes by exactly the guarded product at the cursor |
| Visualizer1D.Visualization1D.Animate | js/visualizer.js:270-281 | while not animating it does nothing; otherwise the output becomes the old output plus the naive product at the old naive cursor plus the guarded tiled product at the old tiled cursor, the tiled part gains exactly that tiled product, and it stops exactly when neither stepper reports more work |
| Visualizer1D.Visualization1D.StartAnimation | js/visualizer.js:284-290 | the animation runs and nothing else changes |
| Visualizer1D.Visualization1D.StopAnimation | js/visualizer.js:293-299 | the animation stops and nothing else changes |
| Visualizer1D.Visualization1D.PlayToEnd | js/visualizer.js:270-290 | playing always stops by itself with input and kernel unchanged; both steppers are then done, every position holds its full sum plus the tiled part, and the tiled part is what the tiled stepper run alone to its end from the starting state gives |
| Visualizer1D.Visualization1D.ResetVisualization | js/visualizer.js:302-313 | the animation stops, the output is zeroed, both cursors are zero, and input and kernel are kept |
| Visualizer1D.Visualization1D.StepClick | js/visualizer.js:360-363 | as written, the step button changes no cursor, no output, no input or kernel and no tiled part; only the animation flag is cleared |
| Visualizer1D.Visualization1D.StepClickIntended | js/visualizer.js:360-363 | as intended, the step button keeps input and kernel, leaves the animation stopped, and changes output, tiled part and cursors exactly as one step of each stepper does |
| Visualizer1D.PlayToEndExample | js/visualizer.js:270-290 | on input [1, 1], kernel [1], tile size 1 and cross-correlation, playing to the end leaves the shared output [3, 2]: the naive sums [1, 1] plus the tiled part [2, 1] |
| Visualizer2D.NaiveAdvance2D | js/visualizer.js:555-569 | the carry kx → ky → x → y keeps the offsets in range and moves the cursor strictly forward |
| Visualizer2D.NaiveNext2D | js/visualizer.js:540-572 | once y ≥ the output size the cursor is unchanged; otherwise it moves strictly forward |
| Visualizer2D.NaiveNext2DInRange | js/visualizer.js:555-569 | naiveStep keeps its cursor in range |
| Visualizer2D.NaiveSoFar2DStart | js/visualizer.js:663-675 | the zero cursor has added nothing to any cell |
| Visualizer2D.NaiveSoFar2DAdvance | js/visualizer.js:550-569 | one naive step adds exactly the product at the cursor to the cell under it |
| Visualizer2D.TiledAdvance2D | js/visualizer.js:596-625 | the six-level carry, with its resets to tile starts, moves the cursor strictly forward |
| Visualizer2D.TiledNext2D | js/visualizer.js:575-628 | once tileY reaches the tile count nothing changes; otherwise the cursor moves strictly forward |
| Visualizer2D.TiledNext2DInRange | js/visualizer.js:596-625 | tiledStep keeps its cursor in range; the tile count comes from the matrix size |
| Visualizer2D.TiledGuard2DExact | js/visualizer.js:588-593 | for kernel offsets the guard is exactly "the cell is an output cell" |
| Visualizer2D.TiledGuard2D | js/visualizer.js:588 | the tiled stepper adds a product only when the cell is an output cell and the input cell it reads exists; TiledGuard2DExact states what this means for kernel offsets |
| Visualizer2D.TiledAccumulate2D | js/visualizer.js:588-593 | each cell grows by the guarded product at the cursor, which is zero off the cursor |
| Visualizer2D.TiledStepRun2D | js/visualizer.js:575-628 | one tiled step on the run advances the cursor by the carry function |
| Visualizer2D.TiledSteps2D | js/visualizer.js:575-628 | repeated tiled steps keep the output's shape |
| Visualizer2D.TiledFinish2D | js/visualizer.js:575-628 | calling the tiled stepper until it reports no more work always ends, keeps the output shape and the cursor in range, and ends with the y tile index at the tile count |
| Visualizer2D.TiledFinishSteps2D | js/visualizer.js:575-628 | the end of the tiled run depends only on where it starts: any number of steps first leads to the same end |
| Visualizer2D.TiledStepper2DRevisits | js/visualizer.js:608-615 | as written, on a 2×2 all-ones input with kernel [[1]] and tile size 1, cell (0, 0) reaches 2 while its cross-correlation is 1 |
| Visualizer2D.Visualization2D.constructor | js/visualizer.js:393-426 | the page starts with the given sizes and matrices, a freshly allocated zero output, zero cursors and no animation |
| Visualizer2D.Visualization2D.InitializeMatrices | js/visualizer.js:406-426 | new matrices, a fresh zero output and zero cursors |
| Visualizer2D.Visualization2D.AddNaiveProduct | js/visualizer.js:550-552 | only the cell under the cursor changes, and it grows by the product |
| Visualizer2D.Visualization2D.NaiveStep | js/visualizer.js:540-572 | it is a no-op returning false once done; otherwise it adds one product, advances, and returns whether y is still an output row; when it returns false every cell holds its full sum plus the tiled part |
| Visualizer2D.Visualization2D.TiledStep | js/visualizer.js:575-628 | it is a no-op returning false once done; otherwise it adds the guarded product, advances, and returns whether tile rows remain |
| Visualizer2D.Visualization2D.AddTiledProduct | js/visualizer.js:588-593 | the output changes by exactly the guarded product |
| Visualizer2D.Visualization2D.Animate | js/visualizer.js:631-642 | while not animating it does nothing; otherwise every output cell becomes its old value plus the naive product at the old naive cursor plus the tiled product at the old tiled cursor, the tiled part gains exactly the tiled product, and it stops when neither stepper reports more |
| Visualizer2D.Visualization2D.StartAnimation | js/visualizer.js:645-651 | the animation runs and nothing else changes |
| Visualizer2D.Visualization2D.StopAnimation | js/visualizer.js:654-660 | the animation stops and nothing else changes |
| Visualizer2D.Visualization2D.PlayToEnd | js/visualizer.js:631-651 | playing always stops with the input and kernel matrices unchanged; both steppers are done, every cell holds its full sum plus the tiled part, and the tiled part is what the tiled stepper run alone to its end from the starting state gives |
| Visualizer2D.Visualization2D.ResetVisualization | js/visualizer.js:663-675 | the animation stops, a zero output replaces the old, both cursors are zero, and the matrices are kept |
| Visualizer2D.Visualization2D.StepClick | js/visualizer.js:722-725 | as written, the step button changes no cursor, no cell, no input or kernel and no tiled part |
| Visualizer2D.Visualization2D.StepClickIntended | js/visualizer.js:722-725 | as intended, the step button keeps the matrices, leaves the animation stopped, and changes every output cell, the tiled part and the cursors exactly as one step of each stepper does |
| Visualizer3D.NaiveAdvance3D | js/visualizer.js:1014-1038 | the six-level carry keeps the offsets in range and moves the cursor strictly forward |
| Visualizer3D.NaiveNext3D | js/visualizer.js:998-1041 | once z ≥ the output size the cursor is unchanged; otherwise it moves strictly forward |
| Visualizer3D.NaiveNext3DInRange | js/visualizer.js:1014-1038 | naiveStep keeps its cursor in range |
| Visualizer3D.NaiveSoFar3DAdvance | js/visualizer.js:1008-1038 | one naive step adds exactly the product at the cursor to the cell under it |
| Visualizer3D.NaiveSoFar3DAtCursor | js/visualizer.js:1008-1038 | the cell under the cursor gains the product, and the carries complete a row, a plane, then the whole cell |
| Visualizer3D.SumsAdvance3D | js/visualizer.js:1014-1038 | the sums at the cursor grow by one product under each of the four carry cases |
| Visualizer3D.NaiveSoFar3DElsewhere | js/visualizer.js:1011 | cells away from the cursor keep their sums |
| Visualizer3D.NaiveSoFar3DStart | js/visualizer.js:1159-1175 | the zero cursor has added nothing to any cell |
| Visualizer3D.TiledAdvance3D | js/visualizer.js:1066-1113 | the nine-level carry, with its resets to tile starts, moves the cursor strictly forward |
| Visualizer3D.TiledNext3D | js/visualizer.js:1044-1116 | once tileZ reaches the tile count nothing changes; otherwise the cursor moves strictly forward |
| Visualizer3D.TiledNext3DInRange | js/visualizer.js:1066-1113 | tiledStep keeps its cursor in range; the tile count comes from the volume size |
| Visualizer3D.TiledGuard3DExact | js/visualizer.js:1056-1063 | for kernel offsets the guard is exactly "the cell is an output cell" |
| Visualizer3D.TiledGuard3D | js/visualizer.js:1056-1057 | the tiled stepper adds a product only when the cell is an output cell and the input cell it reads exists; TiledGuard3DExact states what this means for kernel offsets |
| Visualizer3D.TiledAccumulate3D | js/visualizer.js:1056-1063 | each cell grows by the guarded product at the cursor, which is zero off the cursor |
| Visualizer3D.TiledStepRun3D | js/visualizer.js:1044-1116 | one tiled step on the run advances the cursor by the carry function |
| Visualizer3D.TiledSteps3D | js/visualizer.js:1044-1116 | repeated tiled steps keep the output's shape |
| Visualizer3D.TiledFinish3D | js/visualizer.js:1044-1116 | calling the tiled stepper until it reports no more work always ends, keeps the output shape and the cursor in range, and ends with the z tile index at the tile count |
| Visualizer3D.TiledFinishSteps3D | js/visualizer.js:1044-1116 | the end of the tiled run depends only on where it starts: any number of steps first leads to the same end |
| Visualizer3D.TiledStepper3DRevisits | js/visualizer.js:1082-1095 | as written, on a 2×2×2 all-ones input with kernel [[[1]]] and tile size 1, cell (0, 0, 0) reaches 2 while its cross-correlation is 1 |
| Visualizer3D.NewZeroVolume | js/visualizer.js:1163-1168 | a fresh n-cube of zeros |
| Visualizer3D.Visualization3D.constructor | js/visualizer.js:755-802 | the page starts with the given sizes and volumes, a freshly allocated zero output, zero cursors and views, and no animation |
| Visualizer3D.Visualization3D.InitializeVolumes | js/visualizer.js:772-802 | new volumes, a fresh zero output, zero cursors and zero view slices |
| Visualizer3D.Visualization3D.ClearOutput | js/visualizer.js:1162-1172 | a fresh zero output and zero cursors; the views are unchanged |
| Visualizer3D.Visualization3D.AddNaiveProduct | js/visualizer.js:1008-1011 | only the cell under the cursor changes, and it grows by the product |
| Visualizer3D.Visualization3D.NaiveStep | js/visualizer.js:998-1041 | it is a no-op returning false once done; otherwise it adds one product, advances, and returns whether z is still an output depth; when it returns false every cell holds its full sum plus the tiled part |
| Visualizer3D.Visualization3D.AddTiledProduct | js/visualizer.js:1056-1063 | the output changes by exactly the guarded product |
| Visualizer3D.Visualization3D.TiledStep | js/visualizer.js:1044-1116 | it is a no-op returning false once done; otherwise it adds the guarded product, advances, and returns whether tile depths remain |
| Visualizer3D.Visualization3D.Animate | js/visualizer.js:1119-1138 | while not animating nothing changes; otherwise every output cell becomes its old value plus the naive product at the old naive cursor plus the tiled product at the old tiled cursor, the tiled part gains exactly the tiled product, the view slices move to the new naive depth when that depth exists, and it stops when neither stepper reports more |
| Visualizer3D.Visualization3D.UpdateViews | js/visualizer.js:1125-1130 | each view slice moves to the naive cursor's depth when that depth lies in its volume and stays otherwise; nothing else changes |
| Visualizer3D.Visualization3D.StartAnimation | js/visualizer.js:1141-1147 | the animation runs and nothing else changes |
| Visualizer3D.Visualization3D.StopAnimation | js/visualizer.js:1150-1156 | the animation stops and nothing else changes |
| Visualizer3D.Visualization3D.PlayToEnd | js/visualizer.js:1119-1147 | playing always stops with the input and kernel volumes unchanged; both steppers are done, every cell holds its full sum plus the tiled part, and the tiled part is what the tiled stepper run alone to its end from the starting state gives; view slices that start in their volume stay there, and when the output is thinner than the input the input view ends at the naive stepper's final depth |
| Visualizer3D.Visualization3D.ResetVisualization | js/visualizer.js:1159-1175 | the animation stops, a zero output replaces the old, both cursors are zero, and the volumes and views are kept |
| Visualizer3D.Visualization3D.StepClick | js/visualizer.js:1222-1225 | as written, the step button changes no cursor, no cell, no input or kernel, no tiled part and no view slice |
| Visualizer3D.Visualization3D.StepClickIntended | js/visualizer.js:1222-1225 | as intended, the step button keeps the volumes, leaves the animation stopped, changes every output cell, the tiled part and the cursors exactly as one step of each stepper does, and moves the view slices as the animation does |

## Left out

- Drawing and the DOM: the canvases, the `draw*` functions, the slider and select listeners, the 3D slice buttons and the play button's label. These are rendering, not computation. Sizes, tile size and operation are fixed when a page object is built.
- `Math.random` in the JavaScript and `rand`/`srand` in C: the input and kernel are parameters. The page's random-input button (js/visualizer.js:346-350) is therefore the same as `InitializeArrays` with new parameters.
- `setInterval`/`clearInterval`: the timer is modelled by the loop of `PlayToEnd`, which calls `Animate` until it stops the animation itself.
- Console I/O (`scanf`, `printf`, the `print_*` helpers), `parse_args`, `get_user_input`, `malloc`/`free` and `allocate_2d_array`/`free_2d_array`: I/O and memory management. The size checks of the `main` functions are modelled by `KernelFits`, `ValidateSizes2D` and `ValidateSizes3D`; the 3D comparison program checks sizes only in `get_user_input` (3d_convolution/convolution_3d_comparison.c:414-417), so see the `CompareConvolution3D` line below.
- Timing and tuning: `measure_time*`, `clock`, `optimize_tile_sizes`, the performance summaries and the `double` speed-up arithmetic. These are wall-clock time and floating point.
- The `*_template.c` files and `templates/`: their loop bounds are left unwritten, so they have no behaviour to model.
- C `int` overflow: sums are mathematical integers.
- Tile sizes ≤ 0 are a precondition (`tileB >= 1`, `tileSize >= 1`). The C code divides by zero or loops forever on them.
- Visualizer1D.Visualization1D.constructor: requires 1 <= kernelSize <= arraySize. Outside that range the page behaves badly. When kernelSize > arraySize + 1, `Array(arraySize - kernelSize + 1)` (js/visualizer.js:74) throws a RangeError. When kernelSize == arraySize + 1, the output is empty and both steppers run without adding anything. When kernelSize == 0, the steppers read past the empty kernel (`kernelArray[-1]` for convolution, `kernelArray[0]` for cross-correlation), so the output becomes NaN. The model keeps only the range the page's output is meant for.
- Visualizer2D.Visualization2D.constructor: requires 1 <= kernelSize <= matrixSize. For a larger kernel the page builds an empty output (js/visualizer.js:417-420) and the steppers run without effect. With a zero kernel the steppers index a kernel row that does not exist (`kernelMatrix[-1]` for convolution), which throws a TypeError.
- Visualizer3D.Visualization3D.constructor: requires 1 <= kernelSize <= volumeSize. As in 2D, a larger kernel gives an empty output (js/visualizer.js:788-793), and a zero kernel makes the steppers index a kernel plane that does not exist, which throws a TypeError.
- Convolution3D.CompareConvolution3D: requires `WellFormed`, so the kernel fits the input on every axis. The comparison program does not check this on its command-line path. `parse_args` (3d_convolution/convolution_3d_comparison.c:353-384) accepts any sizes, and `main` then computes a negative output extent for an oversized kernel (c:481-486) before it calls `run_performance_comparison`. Only the interactive `get_user_input` refuses an oversized kernel (c:414-417). The model has no status for that path and covers only operands whose kernel fits.
- `CompareConvolution1D`, `CompareCrossCorrelation1D`, `CompareConvolution2D`: these model `main` from the size check to the equality check, with the inputs as parameters. The tile sizes are read after the size check in the C; here they are parameters from the start.
- The 2D and 3D tiled steppers revisit finished cells, as the 1D one does. This is shown by `TiledStepper2DRevisits` and `TiledStepper3DRevisits`. Corrected 2D and 3D tiled steppers are not modelled; only the 1D correction is.
- No page has a backward or rewind step, so none is modelled.

## Findings

| source | as written | input that shows it | evidently intended | confidence | as-written member | corrected member |
|---|---|---|---|---|---|---|
| js/visualizer.js:360-363 | the step button calls `stopAnimation()` then `animate()`, and `animate` returns at once when the animation is stopped | any page state: the click leaves both cursors and the output unchanged | one naive step and one tiled step per click | high, not executed | Visualizer1D.Visualization1D.StepClick | Visualizer1D.Visualization1D.StepClickIntended |
| js/visualizer.js:722-725 | the same step button on the 2D page | any page state | one step of each stepper | high, not executed | Visualizer2D.Visualization2D.StepClick | Visualizer2D.Visualization2D.StepClickIntended |
| js/visualizer.js:1222-1225 | the same step button on the 3D page | any page state | one step of each stepper | high, not executed | Visualizer3D.Visualization3D.StepClick | Visualizer3D.Visualization3D.StepClickIntended |
| js/visualizer.js:261-262 | on leaving tile t, x is set to t·tileSize, the start of the tile just finished, so the next tile repeats the finished positions | input [1, 1], kernel [1], tile size 1, cross-correlation: the tiled stepper alone ends with [2, 1] instead of [1, 1] | set x to (t + 1)·tileSize, the first position of the next tile, so every product is added once | medium, not executed | Visualizer1D.TiledStepperRevisits | Visualizer1D.IntendedTiledFinishComplete |
