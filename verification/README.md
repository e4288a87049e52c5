# SharpYUV, BonMot and BlurHash in Dafny

Verified models of three pieces of integer and string machinery.

**SharpYUV** (`libwebp/sharpyuv/`) converts RGB to YUV 4:2:0 by refinement. A picture is imported
into padded planes at a working depth of up to 14 bits, up to four in-place sweeps move luma and
chroma towards what the picture should measure as after upsampling, and the result goes through a
fixed-point matrix. The model has the driver's buffers as arrays, updated by methods with the
source's loops and offsets; each method is proved against a function on rows or images, and the
properties of whole runs are proved about those functions. Samples are `int`; every store into a
narrower C type goes through an explicit wrap.

- `FixedPoint`, `Gamma`: widths, shifts, luma weights, gamma tables and their interpolation.
- `Kernels`, `Rows`, `Measure`: the C kernels, chroma upsampling, luma and chroma measurement.
- `Sweep`, `Refine`, `Import`, `Driver`, `Convert`, `ColorSpace`: one sweep as a function and as a
  method, import, the iteration loop, conversion, matrices.
- `Invariants`, `ChromaRuns`, `FixedPoints`: what whole runs keep, and pictures they leave alone.
- `CellByCell`, `Overflow`, `WideFilterRun`: two runs worked out number by number, one in which a
  chroma store overflows and one in which SSE2's wide filter does.
- `Outputs`: every output sample as the rounded and clipped row of the matrix on the colour that
  stands there, and whole conversions of gray pictures and single colours.
- `TenBitRuns`: which chroma stores of a 10-bit run cannot overflow.
- `EightBitOutput`, `ShallowOutput`, `TenBitOutput`: at which depths the conversion of a refined
  picture neither overflows nor loses anything.
- `ScaledMatrices`, `LumaOffset`: the built-in matrices at every pair of depths, and for which of
  their rows the luma drops out of U and V.
- `Lanes`, `FilterLanes`, `SimdRows`, `UpdateLanes`, `Sse2`, `Neon`, `LaneErrors`: vector registers
  as sequences of lanes, the SSE2 and NEON kernels as lane programs, and exactly when they equal the
  C kernels.
- `SimdRuns`, `VectorRuns`: that they do on the rows of a run, and whole runs made by the vector
  kernels.

**BonMot** (`BonMot/Sources/`) styles XML while it is being parsed. Attributed text is a sequence
of (style, text) runs and XML a sequence of start, end and character callbacks.

- `StringStyle.dfy` (module `StringStyles`): the style container and how styles combine.
- `XmlBuilder`: the two-stack machine, the builder object, and the recursive rendering it computes.
- `StyleRules`, `Specials`: the rule-based styler, the named characters and their insertion rules.
- `DebugPrinter`, `DebugRoundTrip`: the debug printer's two in-place replacement passes, and reading
  its output back through the builder.

**BlurHash** (`blurhash/Swift/`) prints and parses a mixed-radix text format: `Base83`, `BlurHash`.

These laws do not hold unconditionally. Each is stated with the condition under which it does, and
with an input on which it fails:

- The int16 chroma buffer overflows on real input: a 4x4 picture of 16-bit pixels under the linear
  curve (`Overflow.ChromaDoesOverflow`). Stored gray stays near zero exactly as long as no correction
  sum leaves int16 (`ChromaRuns.GrayAfterSweeps`), which none does in 8-bit runs
  (`ChromaRuns.EightBitRun`) and in 10-bit runs under the linear curve
  (`TenBitRuns.LinearTenBitFits`).
- Values fed back through a curve are at most 65536 exactly for curves that do not exceed it
  themselves (`Gamma.FeedbackWithinOne`); SMPTE 428 does, at full scale (`Gamma.Smpte428ExceedsOne`).
- A sample above the declared depth is stored as it is. In 10- and 12-bit pictures it stays inside
  the to-linear table exactly under the condition of `Import.DeepSamplesExactly`; 65535 in a 10-bit
  picture does not (`Import.DeepSampleOutside`).
- The source's comment at `sharpyuv.c:270-272` says that a constant offset on all three components
  does not change U and V. For the built-in matrices and the luma of the working depth that holds
  exactly for rescaled rows that sum to zero (`LumaOffset.LumaDropsExactly`, which has a colour for
  every other row). The limited-range U rows sum to -1, and an 8-bit picture of one colour shows it
  (`LumaOffset.OffsetShows`). The change is at most one, or three for 16-bit input
  (`ColorSpace.BuiltInOffsetError`), and three occurs (`LumaOffset.BoundIsAttained`).
- The 16-bit row filters equal the C filter exactly if the clamp hides every lane that wraps
  (`LaneErrors.On16IsCExactly`); on uniform chroma SSE2 first fails at 4095, NEON at 4096
  (`LaneErrors.FirstWrongRow`).
- SSE2's 32-bit filter fails exactly when luma plus tap exceeds 32767 (`SimdRows.Sse2On32IsC`,
  `LaneErrors.WrongWideRow`), because it goes back to 16-bit lanes first. No 10-bit run gets there
  (`SimdRuns.TenBitEverySweep`, `VectorRuns.Sse2TenBitRunIsC`). A 10x2 picture of 16-bit pixels does, and is refined to another
  image than by the C filter (`WideFilterRun.Sse2RunDiffers`).
- The SSE2 luma update returns its sum modulo 2^32 (`Sse2.UpdateY`, `LaneErrors.WrongSum`).
- The debug printer's output restores a text exactly under the condition of
  `DebugRoundTrip.RestoredExactlyWhen`. It does not restore U+2000, which the string comparison takes
  for U+2002 (`DebugRoundTrip.EnQuadBecomesEnSpace`), nor text that looks like its own marks
  (`DebugRoundTrip.MarkupIsObeyed`), nor unassigned characters (`DebugRoundTrip.UnassignedIsLost`).
- The BlurHash size digit holds up to nine components horizontally and, with at most two of these,
  ten vertically, and the parser takes all of them (`BlurHash.ParsePrint`); a picture with more is
  printed all the same and does not read back: a ten-wide hash is not accepted at all
  (`BlurHash.TenWideIsRejected`).

The transfer characteristics and luma weights are those of ITU-T H.273 sections 8.2 and 8.3; which
characters XML text may contain is production [2] and section 2.4 of XML 1.0.

## Model

| member | source | states |
|---|---|---|
| Sweep.SweepIsGaussSeidel | libwebp/sharpyuv/sharpyuv.c:378-413 | the in-place sweep is, for every size, the one solution of a Gauss-Seidel recurrence over whole images: an image satisfies the recurrence if and only if it is what the sweep leaves |
| Sweep.SweepRow | libwebp/sharpyuv/sharpyuv.c:384-413 | row pair k of a sweep is computed from the already corrected row k-1 and the old rows k and k+1, with the row itself standing in at both edges |
| Sweep.GaussSeidelUnique | libwebp/sharpyuv/sharpyuv.c:384-413 | two images that satisfy the recurrence from the same start are equal, so the recurrence determines the sweep |
| Sweep.SweepPrefix | libwebp/sharpyuv/sharpyuv.c:390-413 | after k row pairs exactly the rows above k have changed, and a sweep never touches them again |
| Refine.RefineSweep | libwebp/sharpyuv/sharpyuv.c:378-413 | the loop over moving prev/cur/next offsets that alias the buffer being written leaves exactly the functional sweep in best_y and best_uv, returns exactly the summed difference, and changes no target |
| Refine.RefineRowPair | libwebp/sharpyuv/sharpyuv.c:390-406 | one body of the sweep: upsample two rows, measure luma and chroma, correct both in place; everything outside the row pair is kept |
| Refine.RefineRowPairAt | libwebp/sharpyuv/sharpyuv.c:384-413 | the same at the k-th place of the buffers, with the neighbours' places: the whole image afterwards is one step of the functional sweep |
| Driver.RefineAll | libwebp/sharpyuv/sharpyuv.c:378-420 | the iteration loop with both exits computes the functional run and counts its sweeps |
| Driver.RefinedCounts | libwebp/sharpyuv/sharpyuv.c:378-420 | whatever the stopping rule decides, the result is the first guess after exactly the counted number of sweeps, which is 2, 3 or 4 |
| Driver.RefinedStops | libwebp/sharpyuv/sharpyuv.c:413-420 | a run ends with the first sweep from the second on whose summed difference is less than 3 per sample of the padded luma or more than that of the sweep before, or with the fourth if there is none |
| Driver.SweepsCompose | libwebp/sharpyuv/sharpyuv.c:378-420 | a sweep followed by k sweeps is k+1 sweeps |
| Rows.InterpolateTwoRows | libwebp/sharpyuv/sharpyuv.c:183-218 | both output rows, all three planes, equal one uniform clamped bilinear upsampling of the row with its neighbour; what lies before, between and after them is kept |
| Rows.UpsampleFromParts | libwebp/sharpyuv/sharpyuv.c:188-216 | edge Filter2 samples and the filtered interior together are the uniform filter with edge-replicated neighbours |
| Rows.EdgeTap | libwebp/sharpyuv/sharpyuv.c:140-143 | 9-3-3-1 with a replicated neighbour is 3-1, for all integers |
| Rows.InteriorTap | libwebp/sharpyuv/sharpyuv_dsp.c:52-63 | in the interior the row kernel's tap is the uniform filter's tap one sample to the left |
| Rows.UpsampleIs | libwebp/sharpyuv/sharpyuv.c:183-218 | every upsampled sample is its luma plus 9/16 of its own cell, 3/16 of the cells beside it on its own side and across and 1/16 of the diagonal one, rounded to the nearest and clamped, with the cell itself standing in at an edge |
| Kernels.FilterRow_C | libwebp/sharpyuv/sharpyuv_dsp.c:52-63 | each of the 2*len samples is clamp(y + the 9-3-3-1 tap), nothing else written, and no index past A[len] or B[len] |
| Kernels.UpdateY_C | libwebp/sharpyuv/sharpyuv_dsp.c:29-41 | every sample moves by target minus measured and is clamped to the depth; the result is the exact sum of absolute differences |
| Kernels.UpdateRGB_C | libwebp/sharpyuv/sharpyuv_dsp.c:43-50 | every chroma sample moves by target minus measured and is stored as int16 |
| Kernels.SadZeroOnlyIfEqual | libwebp/sharpyuv/sharpyuv_dsp.c:29-41 | the difference is 0 only if measured and target agree everywhere |
| Kernels.SadConcat | libwebp/sharpyuv/sharpyuv_dsp.c:29-41 | differences of two adjacent rows add up to the difference of the row pair |
| Measure.UpdateW | libwebp/sharpyuv/sharpyuv.c:89-104 | each output is the linear-light gray of its pixel, back through the curve |
| Measure.UpdateChroma | libwebp/sharpyuv/sharpyuv.c:106-128 | each chroma triple is the gamma-aware mean of its 2x2 block minus that triple's gray, for all cells and channels |
| Measure.StoreGray | libwebp/sharpyuv/sharpyuv.c:130-136 | each output is the weighted gray of its pixel |
| Import.ScaledInRange | libwebp/sharpyuv/sharpyuv.c:151-181 | scaling a sample of the declared depth fits the working depth and the uint16 store loses nothing |
| Import.ImportOneRow | libwebp/sharpyuv/sharpyuv.c:151-181 | the padded planes are the source line shifted to the working precision, with the last sample repeated when the width is odd |
| Import.ScaledIs | libwebp/sharpyuv/sharpyuv.c:147-181 | samples of up to 12 bits are multiplied by 4, 16-bit samples divided by 4 rounding down |
| Import.PaddedPicture | libwebp/sharpyuv/sharpyuv.c:347-360 | for any size, the sample of either padded line of a row pair at any column is, in each channel, the scaled source sample at that line and column, the last ones standing in beyond the picture |
| Import.LastLineTwice | libwebp/sharpyuv/sharpyuv.c:351-360 | for odd height, both lines of the last row pair are equal, and are the scaled last line of each channel |
| Import.FirstGuessIs | libwebp/sharpyuv/sharpyuv.c:361-362 | the first guess at every place is the weighted sum of the scaled colour there over 65536, to the nearest |
| Import.TargetLumaIs | libwebp/sharpyuv/sharpyuv.c:364-365 | the target luma at every place is the linear-light luma of the scaled colour there |
| Import.TargetChromaIs | libwebp/sharpyuv/sharpyuv.c:366-367 | the target chroma of every cell, and its first guess, is what the gamma-aware means of its four scaled colours are away from the rounded gray of those means |
| Import.DeepSamplesExactly | libwebp/sharpyuv/sharpyuv.c:151-181 | a stored 16-bit sample of any size leads inside the to-linear table if and only if it is at most 1024 modulo 2^14 in a 10-bit picture, less than 4100 modulo 2^14 in a 12-bit one, and always in a 16-bit one |
| Import.DeepSampleOutside | libwebp/sharpyuv/sharpyuv.c:151-181 | the sample 65535 in a 10-bit picture is stored as 65532 and asks for entry 16383 of 1026 |
| Driver.ImportPicture | libwebp/sharpyuv/sharpyuv.c:347-375 | for every width and height, odd included, the four buffers hold the edge-clamped source's gray, its linear luma target and its chroma target |
| Driver.LoadRowPair | libwebp/sharpyuv/sharpyuv.c:351-364 | the last line of an odd height is used twice |
| Convert.ConvertWRGBToYUV | libwebp/sharpyuv/sharpyuv.c:228-290 | output luma (j,i) comes from refined luma (j,i) and chroma cell (j/2,i/2), output chroma (j,i) from cell (j,i), every output sample, for odd sizes too |
| Convert.ConvertLuma | libwebp/sharpyuv/sharpyuv.c:240-264 | the advancing pointers address refined luma (j,i) and chroma cell (j/2,i/2) for each output luma |
| Convert.ConvertChroma | libwebp/sharpyuv/sharpyuv.c:265-288 | each output U and V comes from its own chroma cell, W dropped |
| Outputs.LumaOutput | libwebp/sharpyuv/sharpyuv.c:240-264 | output Y at (j,i) is the luma row of the matrix on red, green and blue of chroma cell (j/2,i/2) plus refined luma (j,i), to the nearest, through int16, clipped to 255, 1023 or 4095 |
| Outputs.ChromaOutput | libwebp/sharpyuv/sharpyuv.c:265-288 | output U and V of a cell are so made of its chroma alone |
| Outputs.WeighsOnce | libwebp/sharpyuv/sharpyuv.c:220-226 | a matrix row has exactly one such nearest value on every colour |
| Outputs.FormatIs | libwebp/sharpyuv/sharpyuv.c:550-568 | for any matrix and every pair of depths: the coefficients are in the ratio of the largest samples, the offsets are shifted with the precision, and that precision is +2 or -2 bits |
| Outputs.GrayPictureConverts | libwebp/sharpyuv/sharpyuv.c:303-436 | end to end, for gray pictures of any size and content, any curve and any matrix: output Y at every place is the luma row on the scaled gray of the source there, U and V the offsets |
| Outputs.ConstantPictureConverts | libwebp/sharpyuv/sharpyuv.c:303-436 | end to end, for pictures of one colour under the linear curve and any matrix: output Y at every place is the luma row on the scaled red, green and blue of the source, and so are U and V for rows that sum to 0 |
| Outputs.ConstantPictureChromaConverts | libwebp/sharpyuv/sharpyuv.c:265-288 | U and V for any row: what it makes of the scaled colour less its rounded gray |
| Outputs.PrimaryPicture | libwebp/sharpyuv/sharpyuv.c:510-573 | pure red, green and blue 8-bit pictures of any size come out as (82,90,240), (145,54,34) and (41,240,110) with WebP's matrix |
| Convert.DoSharpArgbToYuv | libwebp/sharpyuv/sharpyuv.c:303-436 | import, refinement and conversion together: the outputs show the functional run's image |
| Convert.SharpYuvConvertWithOptions | libwebp/sharpyuv/sharpyuv.c:510-573 | accepts exactly what is given in full, of a supported size and depth and with even steps and strides for two-byte samples, leaves every output untouched otherwise, and on success shows the refined picture under the rescaled matrix |
| Invariants.ReachableLumaInRange | libwebp/sharpyuv/sharpyuv.c:346-420 | in every reachable state, between and inside sweeps, best_y stays within [0, 2^depth - 1], whatever best_uv holds and whatever the curve is |
| Invariants.SeenInRange | libwebp/sharpyuv/sharpyuv.c:394-404 | from any image at all, a sweep measures luma within [0, 2^depth] and chroma within what blue can be away from gray, with a gray drift below one unit |
| Invariants.TargetInRange | libwebp/sharpyuv/sharpyuv.c:351-375 | the same of the targets |
| Invariants.ChromaOfBounds | libwebp/sharpyuv/sharpyuv.c:106-128 | a measured chroma triple never wraps int16, is no further from 0 than full blue is from its gray, and its gray is exactly 0 |
| ChromaRuns.ChromaOfRun | libwebp/sharpyuv/sharpyuv.c:401-406 | in every run the stored chroma is the exact sum of its corrections wrapped to int16, and after k sweeps the exact sum has drifted by at most k units of gray and stays within (2k+1) times what blue can be away from gray at that depth |
| ChromaRuns.GrayAfterSweeps | libwebp/sharpyuv/sharpyuv.c:401-406 | after k of a run's at most four sweeps, the gray of a stored chroma triple is within k of 0 if and only if none of its correction sums has left int16; adding any W gives a colour whose gray is as close to W |
| ChromaRuns.StoredGrayExactly | libwebp/sharpyuv/sharpyuv.c:72-75 | the same for one triple: no mixture of wraps leaves the gray near zero |
| ChromaRuns.ChromaFitsInt16 | libwebp/sharpyuv/sharpyuv.c:401-406 | while that bound fits int16, what is stored after k sweeps is the exact sum, with its drift and its bound |
| ChromaRuns.EightBitRun | libwebp/sharpyuv/sharpyuv.c:378-420 | for 8-bit input this holds over the whole run: gray within the number of sweeps, at most 4, and chroma within (2k+1)*950 |
| TenBitRuns.LinearTenBitFits | libwebp/sharpyuv/sharpyuv.c:378-420 | under the linear curve no chroma store of a 10-bit run wraps, in up to four sweeps |
| TenBitRuns.RedAndGreenFit | libwebp/sharpyuv/sharpyuv.c:378-420 | under any curve red and green chroma of a 10-bit run never wrap |
| TenBitRuns.FirstSweepAgrees | libwebp/sharpyuv/sharpyuv.c:390-406 | under the linear curve the first sweep never sees a cell of strongly blue target as strongly yellow, nor the other way round, whatever is around it |
| Overflow.ChromaDoesOverflow | libwebp/sharpyuv/sharpyuv.c:378-420 | a picture of 4x4 red, yellow and blue 16-bit pixels whose run under the linear curve takes four sweeps and ends with a yellow cell stored as blue, its gray 4730: its correction sums leave int16 |
| Overflow.LastCorrection | libwebp/sharpyuv/sharpyuv_dsp.c:43-50 | there the last update asks for -32855 and stores 32681 |
| CellByCell.RowWorks | libwebp/sharpyuv/sharpyuv.c:390-406 | at any size, a step of a sweep under the linear curve over cells of four luma and three chroma values is the step over the rows that hold them, with its difference |
| CellByCell.Starts | libwebp/sharpyuv/sharpyuv.c:347-375 | the targets and first guess of a picture of even size are those of its cells |
| Gamma.InitTable | libwebp/sharpyuv/sharpyuv_gamma.c:33-78 | sampling a monotone curve gives a table with first entry 0, last two entries 65536, monotone, guard entry included |
| Gamma.InterpolationBracketed | libwebp/sharpyuv/sharpyuv_gamma.c:84-99 | an interpolated value lies between its two table entries and is the entry itself on the grid |
| Gamma.InterpolationRounds | libwebp/sharpyuv/sharpyuv_gamma.c:84-99 | for any table, every interpolated value is the point of the straight line between the two entries of its cell, to the nearest and upwards from half way |
| Gamma.InterpolationMonotone | libwebp/sharpyuv/sharpyuv_gamma.c:84-99 | interpolation over a monotone table is monotone, across cell boundaries too |
| Gamma.ToLinearSrgb | libwebp/sharpyuv/sharpyuv_gamma.c:101-107 | for every working depth and sample the table index, guard entry included, is inside the table and the result is at most 65536 |
| Gamma.FromLinearSrgb | libwebp/sharpyuv/sharpyuv_gamma.c:109-114 | for every linear value up to 65536 the index is inside the table and the result is at most 2^depth, with no uint16 wrap |
| Gamma.SrgbToLinear | libwebp/sharpyuv/sharpyuv_gamma.c:101-107 | at 10 bits and more every sample's linear value is that point between the two table entries around it |
| Gamma.SrgbToLinearDirect | libwebp/sharpyuv/sharpyuv_gamma.c:101-107 | at fewer bits it is the table entry at the sample scaled to 10 bits |
| Gamma.SrgbToGamma | libwebp/sharpyuv/sharpyuv_gamma.c:109-114 | every linear value's sample is that point between the two entries around it, each taken to the working depth first, rounding down |
| Gamma.HalfwayRoundsUp | libwebp/sharpyuv/sharpyuv_gamma.c:93-99 | linear 64 between entries 0 and 1646 gives 13 at 10 bits |
| Gamma.OtherCurve | libwebp/sharpyuv/sharpyuv_gamma.c:329-414 | other curves are called with the value and the working depth as they are |
| Gamma.MeanInLinearLight | libwebp/sharpyuv/sharpyuv.c:77-87 | under any curve ScaleDown is what the curve makes of a quarter of the sum of the four linear values, to the nearest |
| Gamma.SameLightSameMean | libwebp/sharpyuv/sharpyuv.c:77-87 | four samples and four others with as much linear light have the same ScaleDown |
| Gamma.MeanOfSameLight | libwebp/sharpyuv/sharpyuv.c:77-87 | four samples with as much linear light as four samples v have the round trip of v |
| Gamma.LumaInLinearLight | libwebp/sharpyuv/sharpyuv.c:89-104 | under any curve the luma is what the curve makes of the weighted sum of the three linear values over 65536, to the nearest |
| Gamma.LumaOfGray | libwebp/sharpyuv/sharpyuv.c:89-104 | the luma of a gray pixel is the round trip of its value, under any curve |
| Gamma.ToLinearIndexExactly | libwebp/sharpyuv/sharpyuv_gamma.c:84-107 | the to-linear index and its guard entry are inside the table if and only if the sample is less than one table step beyond 2^depth |
| Gamma.MeanAndLumaRange | libwebp/sharpyuv/sharpyuv.c:77-104 | every linear value fed back is at most the highest the curve itself produces, and every ScaleDown and UpdateW result at most 2^depth |
| Gamma.FeedbackWithinOne | libwebp/sharpyuv/sharpyuv.c:77-87 | every mean fed back is at most 65536 if and only if the curve itself never exceeds 65536 |
| Gamma.Smpte428ExceedsOne | libwebp/sharpyuv/sharpyuv_gamma.c:284-286 | SMPTE 428 does: four full-scale samples feed back 71501 |
| Gamma.ScaleDownMonotone | libwebp/sharpyuv/sharpyuv.c:77-87 | ScaleDown is monotone in each of its four samples |
| Gamma.LumaMonotone | libwebp/sharpyuv/sharpyuv.c:89-104 | UpdateW is monotone in each channel |
| Gamma.ScaleDownBetween | libwebp/sharpyuv/sharpyuv.c:77-87 | ScaleDown lies between the gamma round trips of the smallest and the largest sample |
| Gamma.LinearRoundTrip | libwebp/sharpyuv/sharpyuv_gamma.c:336-337 | with the linear transfer type to-linear and from-linear are inverse on samples |
| FixedPoint.GrayOffset | libwebp/sharpyuv/sharpyuv.c:72-75 | the luma weights sum to exactly one: a common offset passes through RGBToGray unchanged, for all integers |
| FixedPoint.GrayRange | libwebp/sharpyuv/sharpyuv.c:72-75 | RGBToGray stays within the range of its inputs |
| FixedPoints.SettledRun | libwebp/sharpyuv/sharpyuv.c:378-420 | an image that already measures as its target stops after exactly two sweeps, unchanged, at difference 0 |
| FixedPoints.GrayPictureRun | libwebp/sharpyuv/sharpyuv.c:347-420 | any picture with r=g=b, under any curve: two sweeps, difference 0, luma as imported, chroma exactly zero |
| FixedPoints.GrayPictureChroma | libwebp/sharpyuv/sharpyuv.c:265-288 | its U and V are the rounded matrix offset everywhere |
| FixedPoints.GrayIs128 | libwebp/sharpyuv/sharpyuv_csp.c:67-95 | with any built-in matrix and 8 bits in and out that is 128 |
| FixedPoints.ConstantPictureRun | libwebp/sharpyuv/sharpyuv.c:347-420 | under the linear curve a constant colour of any size is a fixed point: two sweeps, difference 0, nothing changed |
| FixedPoints.ConstantPictureLuma | libwebp/sharpyuv/sharpyuv.c:240-264 | every output Y is then the direct matrix conversion of that colour |
| FixedPoints.ConstantPictureChroma | libwebp/sharpyuv/sharpyuv.c:265-288 | and every U and V too when its matrix row sums to 0 |
| FixedPoints.UpsampleUniform | libwebp/sharpyuv/sharpyuv.c:183-218 | upsampling a constant chroma row adds exactly that constant: the filter weights sum to one |
| ColorSpace.DroppingTheOffset | libwebp/sharpyuv/sharpyuv.c:220-226 | adding a common W changes a component by nothing if the row sums to 0, and by at most ceil(abs(sum*W) / 2^(16+sfix)) in general |
| ColorSpace.BuiltInRowSums | libwebp/sharpyuv/sharpyuv_csp.c:67-95 | the built-in U and V rows sum to 0 except the two limited-range U rows, which sum to -1; full-range Y rows sum to exactly one |
| ColorSpace.OffsetDropsExactly | libwebp/sharpyuv/sharpyuv.c:265-276 | over all integer colours and offsets, every offset drops out if and only if the row sums to 0 |
| ColorSpace.BuiltInOffsetError | libwebp/sharpyuv/sharpyuv.c:270-276 | with any built-in matrix and any supported pair of depths, dropping W moves U and V by at most one, by at most three for 16-bit input |
| LumaOffset.LumaDropsExactly | libwebp/sharpyuv/sharpyuv.c:265-276 | for every built-in U and V row at every supported pair of depths, dropping W changes no int16 colour at any luma of the working depth if and only if the rescaled row sums to 0 |
| LumaOffset.ZeroSumSuffices | libwebp/sharpyuv/sharpyuv.c:265-276 | for any row at all a zero sum is enough |
| LumaOffset.OffsetShows | libwebp/sharpyuv/sharpyuv.c:265-288 | an 8-bit picture of the single colour (0,17,42) under the linear curve and limited-range Rec. 601 comes out with U 142, where the conversion of that colour has 141 |
| LumaOffset.BoundIsAttained | libwebp/sharpyuv/sharpyuv.c:270-276 | full 16-bit luma over zero chroma moves the full-range Rec. 601 U by exactly three |
| ScaledMatrices.From8To10Is | libwebp/sharpyuv/sharpyuv.c:550-566 | the built-in matrices rescaled from 8 to 10 bits, coefficient by coefficient; the other depth pairs likewise |
| ColorSpace.BuiltInScaledSum | libwebp/sharpyuv/sharpyuv.c:550-566 | the built-in chroma rows, those that sum to -1 included, are rescaled to sums between -(1 + factor) and 3 |
| EightBitOutput.EightBitOutputLossless | libwebp/sharpyuv/sharpyuv.c:220-263 | for 8-bit input, any built-in matrix and 8- or 10-bit output, every product and partial sum of every Y, U and V of the refined picture fits int, and narrowing the component to int16 loses nothing |
| ShallowOutput.ShallowOutputLossless | libwebp/sharpyuv/sharpyuv.c:220-263 | for output shallower than the input, any picture, curve and run, wrapped chroma included: every product and partial sum of every Y, U and V fits int, and narrowing the component to int16 loses nothing |
| TenBitOutput.TenBitOutputLossless | libwebp/sharpyuv/sharpyuv.c:220-263 | for 10-bit input and output, any picture and curve, wrapped blue chroma included: every product and partial sum of every Y, U and V of the refined picture fits int, and narrowing the component to int16 loses nothing |
| EightBitOutput.SumWithin | libwebp/sharpyuv/sharpyuv.c:220-226 | the bound behind it: with the gray of a triple near zero, a weighted sum needs only what is left after taking out the gray |
| ColorSpace.RescaledRowSum | libwebp/sharpyuv/sharpyuv.c:550-566 | the truncating depth rescale leaves a zero-sum row with a sum between -1 and 3 |
| ColorSpace.RescaleIs | libwebp/sharpyuv/sharpyuv.c:550-561 | any coefficient is rescaled in the ratio of the largest samples, half a unit added and then toward zero |
| FilterLanes.Sse2Lane16Exact | libwebp/sharpyuv/sharpyuv_sse2.c:84-108 | for all int16 inputs a 16-bit SSE2 lane equals the C tap if and only if two named sums stay within int16 |
| FilterLanes.NeonLane16Exact | libwebp/sharpyuv/sharpyuv_neon.c:81-97 | for all int16 inputs the NEON lane, which rounds by a halving add, equals the C tap if and only if one named sum stays within int16 |
| FilterLanes.Sse2Lane16Safe | libwebp/sharpyuv/sharpyuv_sse2.c:84-108 | inputs of the row and of its neighbour whose bounds add up to at most 8189 never wrap |
| FilterLanes.Sse2Lane16Uniform | libwebp/sharpyuv/sharpyuv_sse2.c:84-108 | on uniform rows the 16-bit lane is exact on [-4097, 4094] and nowhere else, so 4094 cannot be raised |
| FilterLanes.Lane32Exact | libwebp/sharpyuv/sharpyuv_sse2.c:138-160 | 32-bit SSE2 and NEON lanes equal the C tap for all int16 inputs |
| FilterLanes.AddLuma16Exact | libwebp/sharpyuv/sharpyuv_sse2.c:109-118 | the 16-bit luma add after the tap is exact if and only if the sum is at most 32767 |
| SimdRows.On16IsC | libwebp/sharpyuv/sharpyuv_sse2.c:76-124 | both 16-bit row filters, vectors and scalar tail, equal the C filter at every length where the bounds of the two chroma rows add up to at most 8189 |
| LaneErrors.On16IsCExactly | libwebp/sharpyuv/sharpyuv_sse2.c:76-124 | for all int16 rows, at the depths that use them, either 16-bit row filter equals the C filter if and only if every lane whose sums wrap is hidden by the clamp |
| LaneErrors.LaneIsOff | libwebp/sharpyuv/sharpyuv_sse2.c:84-108 | every net wrap of a lane takes exactly 4096 off the tap, in SSE2 and in NEON |
| LaneErrors.FirstWrongRow | libwebp/sharpyuv/sharpyuv_sse2.c:76-124 | uniform chroma 4095 under SSE2, 4096 under NEON, gives a wrong row |
| LaneErrors.WrapHiddenByClamp | libwebp/sharpyuv/sharpyuv_sse2.c:109-118 | uniform chroma 5000 makes every lane wrong and the row right |
| LaneErrors.WrongWideRow | libwebp/sharpyuv/sharpyuv_sse2.c:130-174 | the SSE2 32-bit filter turns full luma over chroma 16385 into 0 where C gives 16383 |
| LaneErrors.WrongSum | libwebp/sharpyuv/sharpyuv_sse2.c:24-57 | a row pair of 2^18 samples, each one depth off its target, has the sum 2^32, of which the SSE2 update returns 0 |
| SimdRows.Sse2On32IsC | libwebp/sharpyuv/sharpyuv_sse2.c:130-174 | the SSE2 32-bit row filter equals the C filter if and only if no vectored sum of luma and tap exceeds 32767 |
| SimdRows.Sse2On32At14Bits | libwebp/sharpyuv/sharpyuv_sse2.c:130-174 | which inputs within 16384 and 14-bit luma guarantee |
| SimdRows.NeonOn32IsC | libwebp/sharpyuv/sharpyuv_neon.c:115-153 | the NEON 32-bit row filter equals the C filter for all int16 inputs and luma up to 14 bits |
| Sse2.FilterRow16 | libwebp/sharpyuv/sharpyuv_sse2.c:76-124 | the lane program with interleave and tail computes, for all int16 rows and every length, exactly the row the lane model gives, without loading past A[len] or B[len] |
| Sse2.FilterRow32 | libwebp/sharpyuv/sharpyuv_sse2.c:130-174 | the same for the sign-extended 32-bit lanes with saturating packs |
| Sse2.FilterRow | libwebp/sharpyuv/sharpyuv_sse2.c:176-184 | the dispatched filter is the C filter, at every length, in the ranges of its depth |
| Sse2.UpdateY | libwebp/sharpyuv/sharpyuv_sse2.c:24-57 | for up to 14 working bits no lane overflows, dst is the C result, the returned sum is that of the vectored part modulo 2^32 plus the tail, and it is the C sum if and only if the vectored part is below 2^32 |
| Sse2.UpdateRGB | libwebp/sharpyuv/sharpyuv_sse2.c:59-74 | wrapping lanes and tail store exactly the C result for all inputs |
| Neon.FilterRow16 | libwebp/sharpyuv/sharpyuv_neon.c:73-113 | the NEON 16-bit program computes the row its lane model gives, at every length, within bounds |
| Neon.FilterRow32 | libwebp/sharpyuv/sharpyuv_neon.c:115-153 | the same for the 32-bit program |
| Neon.FilterRow | libwebp/sharpyuv/sharpyuv_neon.c:155-163 | the dispatched filter is the C filter, at every length, in the ranges of its depth |
| Neon.UpdateY | libwebp/sharpyuv/sharpyuv_neon.c:25-54 | for up to 14 working bits dst and the returned sum are the C results |
| Neon.UpdateRGB | libwebp/sharpyuv/sharpyuv_neon.c:56-71 | wrapping lanes and tail store exactly the C result for all inputs |
| UpdateLanes.HorizontalSum | libwebp/sharpyuv/sharpyuv_sse2.c:46-55 | adding four 32-bit partial sums mod 2^32 gives the total mod 2^32, which is the total if and only if that fits 32 bits |
| SimdRuns.NeonFilterInEveryRun | libwebp/sharpyuv/sharpyuv_neon.c:155-163 | on every row of every run, wrapped chroma included, NEON's wide filter computes the C filter |
| VectorRuns.NeonRunIsC | libwebp/sharpyuv/sharpyuv.c:378-420 | with NEON's wide filter and lane-wise updates in the driver, every picture is refined to the same image, in the same number of sweeps, with the same final difference |
| VectorRuns.Sse2TenBitRunIsC | libwebp/sharpyuv/sharpyuv.c:378-420 | with SSE2's wide filter, its lane-wise updates and its 32-bit sums in the driver, so is every 10-bit picture up to 131070 samples wide, even if a chroma store wraps |
| VectorRuns.EightBitRunIsC | libwebp/sharpyuv/sharpyuv.c:378-420 | with either 16-bit filter, so is every 8-bit picture that the C kernels refine in two sweeps |
| VectorRuns.RunWithIsC | libwebp/sharpyuv/sharpyuv.c:378-420 | any vector filter and sum that agree with C on every row pair of the sweeps that the C run makes lead to the C run |
| VectorRuns.Sse2RunIsC | libwebp/sharpyuv/sharpyuv.c:378-420 | SSE2's run is the C run where no vectored sum of luma and tap in it exceeds 32767 |
| VectorRuns.Sse2PairLikeC | libwebp/sharpyuv/sharpyuv_sse2.c:130-174 | around a row pair of int16 chroma, SSE2's wide filter computes the C rows if and only if no vectored sum exceeds 32767 |
| WideFilterRun.Sse2RunDiffers | libwebp/sharpyuv/sharpyuv.c:378-420 | a 10x2 16-bit picture of saturated pixels, refined under the linear curve in two sweeps by both, ends with blue chroma 19668 in one cell under the C filter and 23469 under SSE2's |
| VectorRuns.SweepWithIsC | libwebp/sharpyuv/sharpyuv.c:384-413 | sweep by sweep the images and the difference sums are the same, where filter and sum agree on its rows |
| SimdRuns.SimdFilterInSweep | libwebp/sharpyuv/sharpyuv.c:390-406 | a vector filter that suits the chroma bounds before and after a sweep computes the C filter on every row of that sweep |
| SimdRuns.EightBitFirstTwoSweeps | libwebp/sharpyuv/sharpyuv_sse2.c:176-184 | for 8-bit input both 16-bit filters are exact throughout the first two sweeps, which every run has |
| SimdRuns.TenBitEverySweep | libwebp/sharpyuv/sharpyuv_sse2.c:176-184 | for 10-bit input SSE2's 32-bit filter is exact throughout all the sweeps a run may have, under any curve |
| SimdRuns.UpdateRangesInEveryRun | libwebp/sharpyuv/sharpyuv.c:401-406 | in every state of every run the luma update's operands are in the ranges in which the vector updates equal C |
| SimdRuns.Sse2SumFitsInRun | libwebp/sharpyuv/sharpyuv_sse2.c:24-57 | the SSE2 sum cannot wrap for pictures up to 131070 samples wide |
| StringStyles.CombineAssociative | BonMot/Sources/StringStyle.swift:242-313 | combining styles is associative across all field policies |
| StringStyles.CombineIdentity | BonMot/Sources/StringStyle.swift:242-313 | the empty style is an identity on both sides |
| StringStyles.NewerWins | BonMot/Sources/StringStyle.swift:238-286 | a field the newer style sets overrides, one it leaves unset is inherited |
| StringStyles.Policies | BonMot/Sources/StringStyle.swift:231-313 | everything else, part by part: dictionaries and alternates merge key by key, providers and adaptations follow the older ones, small caps replace if there are any, emphasis is united, XML styler and transform override if set |
| StringStyles.StripCombine | BonMot/Sources/XMLBuilder.swift:320-322 | removing the XML styler commutes with combining |
| StringStyles.StringStyle.AddExtraAttributes | BonMot/Sources/StringStyle.swift:231-235 | the loop over entries, in any order, is a map merge |
| StringStyles.StringStyle.AddStringStyle | BonMot/Sources/StringStyle.swift:242-313 | the mutating add leaves exactly the combined style |
| StringStyles.StringStyle.ByAdding | BonMot/Sources/StringStyle.swift:315-319 | the copying add returns the combined style and leaves the receiver alone |
| XmlBuilder.DocumentRenders | BonMot/Sources/XMLBuilder.swift:252-361 | driving the builder with the callbacks of any wrapped element tree, text split into chunks anyhow, yields exactly the recursive rendering, nothing pending, and both stacks as they began |
| XmlBuilder.DriveRenders | BonMot/Sources/XMLBuilder.swift:307-361 | the same from any machine with nothing pending: the rendering under its top styler and style is appended |
| XmlBuilder.ExitUndoesEnter | BonMot/Sources/XMLBuilder.swift:307-337 | leaving an element pops exactly what entering pushed; the prefix comes from the outer styler, the suffix from the inner one |
| XmlBuilder.StacksAtEveryMoment | BonMot/Sources/XMLBuilder.swift:252-337 | after every prefix of the callbacks both stacks hold one entry more than there are open elements, so neither is empty, and no stacked style carries an XML styler |
| XmlBuilder.StacksFollowDepth | BonMot/Sources/XMLBuilder.swift:307-361 | callbacks that never close more than they opened never meet an empty stack |
| XmlBuilder.ChunkingIsInvisible | BonMot/Sources/XMLBuilder.swift:246-250 | trees that differ only in how text is chunked render alike |
| XmlBuilder.TextIsTransformedWhole | BonMot/Sources/XMLBuilder.swift:246-250 | text in any chunks, parsed under a base style with a transform, is one run of what the transform makes of the whole text; without one it is one run as it is, and empty text is none |
| XmlBuilder.XMLBuilder.constructor | BonMot/Sources/XMLBuilder.swift:262-286 | one styler, one style with its XML styler removed, nothing pending |
| XmlBuilder.XMLBuilder.EnterElement | BonMot/Sources/XMLBuilder.swift:307-329 | the method updates the fields to the specified machine, container element transparent |
| XmlBuilder.XMLBuilder.ExitElement | BonMot/Sources/XMLBuilder.swift:331-337 | suffix under the top style, then both stacks popped |
| XmlBuilder.XMLBuilder.FoundNewString | BonMot/Sources/XMLBuilder.swift:339-346 | pending text is styled whole, appended and cleared; without pending text nothing changes |
| XmlBuilder.XMLBuilder.ParseAttributedString | BonMot/Sources/XMLBuilder.swift:288-361 | a builder that receives the callbacks one by one ends with the recursive rendering and its initial stacks, and never meets an empty stack on the way |
| StyleRules.PathsDetermineStyles | BonMot/Sources/XMLBuilder.swift:307-337 | under stylers that ignore the current style, rendering with a style stack equals rendering each text from the base style and its ancestors' single combined style |
| StyleRules.DocumentStyledByPath | BonMot/Sources/XMLBuilder.swift:136-185 | so parsing under rule-based stylers styles every text with the base style plus the combined style of its ancestors, the XML styler being inherited apart |
| StyleRules.FirstRuleWins | BonMot/Sources/XMLBuilder.swift:140-150 | an element takes the style of its first own rule, wherever that stands among the collections of named styles |
| StyleRules.NamedStylesAreLast | BonMot/Sources/XMLBuilder.swift:151-156 | without an own rule the first collection of named styles answers |
| StyleRules.FirstEnterRuleInserts | BonMot/Sources/XMLBuilder.swift:159-170 | the first enter rule with the element's name gives its insert, or what its block makes of the element's attributes; without one there is no prefix |
| StyleRules.FirstExitRuleInserts | BonMot/Sources/XMLBuilder.swift:172-183 | the first exit rule with the element's name gives its insert or its block's value; without one there is no suffix |
| StyleRules.ElementByRules | BonMot/Sources/XMLBuilder.swift:307-337 | an element renders as its first enter rule's insert, its children and its first exit rule's insert, all under the style around it plus its own, the exit rule being that of the styler inside |
| StyleRules.ParagraphsEnd | BonMot/Sources/XMLBuilder.swift:172-183 | with a rule that ends every p with a line feed, <p>a</p> parses to a and a line feed |
| StyleRules.CustomIsInserted | BonMot/Sources/XMLBuilder.swift:307-329 | a composable made by an enter block is appended under the base style plus the element's own |
| Specials.NamesAreDistinct | BonMot/Sources/Special.swift:57-86 | no two special characters share a name |
| Specials.NameIs | BonMot/Sources/Special.swift:57-86 | the names, case by case |
| Specials.RawValueIs | BonMot/Sources/Special.swift:13-43 | the scalars, case by case, in the order of the cases |
| Specials.ScalarsIncrease | BonMot/Sources/Special.swift:15-43 | the cases are sorted by scalar |
| Specials.FromScalarExactly | BonMot/Sources/Special.swift:13-43 | a scalar is looked up as a case exactly if it is canonically equivalent to that case's character |
| Specials.InsertionRulesInsert | BonMot/Sources/XMLBuilder.swift:98-105 | under the insertion rules, followed by any others, every named character's element inserts that character and adds no style |
| Specials.InsertionRulesOnly | BonMot/Sources/XMLBuilder.swift:87-105 | under the default rules an element of any name has no suffix and inserts nothing but a named character of that name |
| DebugPrinter.DebugString | BonMot/Sources/NSAttributedString+BonMot.swift:20-86 | both collect-then-edit-in-reverse passes leave the code units of the text in which every special scalar and image is named and then every unassigned character of the result, every edit in range |
| DebugPrinter.ScalarIsPrinted | BonMot/Sources/NSAttributedString+BonMot.swift:33-57 | an attached image is printed with its size in place of its character, any other special character but the space by its name, and everything else as it is |
| DebugPrinter.ImageIsPrinted | BonMot/Sources/NSAttributedString+BonMot.swift:33-57 | an image inside a text is looked up at the code units before it |
| DebugPrinter.UnitsAre | BonMot/Sources/NSAttributedString+BonMot.swift:50-54 | scalars of the basic plane are one code unit, others the two surrogates that hold their upper and lower ten bits |
| DebugPrinter.ReversedEditsExpand | BonMot/Sources/NSAttributedString+BonMot.swift:31-84 | in either pass, applying the collected replacements last to first equals putting them in from left to right, for pieces of any number of code units |
| DebugPrinter.CollectOrdered | BonMot/Sources/NSAttributedString+BonMot.swift:31-84 | the ranges that a pass collects are ordered, disjoint and inside the string |
| DebugPrinter.DecodedUtf16 | BonMot/Sources/NSAttributedString+BonMot.swift:66-68 | the code units left by the first pass spell exactly the string that the second goes over |
| DebugPrinter.Utf16Injective | BonMot/Sources/NSAttributedString+BonMot.swift:50-54 | a string is determined by its code units, so the units fix the printed text |
| DebugRoundTrip.RestoredExactlyWhen | BonMot/Sources/NSAttributedString+BonMot.swift:20-86 | printing a text and building it again under the default styler gives that text back if and only if no character was replaced as unassigned and every scalar is restorable: no '<' or '&', not U+2000 or U+2001, named or allowed in XML, and not beginning ']]>' |
| DebugRoundTrip.PrintedTextIsRestored | BonMot/Sources/XMLBuilder.swift:84-107 | without markup characters and where nothing was replaced as unassigned, the text comes back up to canonical equivalence, all of it under the base style, exactly when it can be read at all; otherwise never |
| DebugRoundTrip.RenderShallow | BonMot/Sources/XMLBuilder.swift:307-346 | under a style without transform the builder's text is the text read, with the named characters put in for their elements |
| DebugRoundTrip.SecondPassTakes | BonMot/Sources/NSAttributedString+BonMot.swift:59-84 | the second pass either leaves the string alone or makes its number of unassigned scalars smaller |
| DebugRoundTrip.ReplacedExactly | BonMot/Sources/NSAttributedString+BonMot.swift:66-80 | a character is replaced if and only if its first scalar is unassigned and the name of its last one ends with a bracket |
| DebugRoundTrip.UnassignedAreTagged | BonMot/Sources/NSAttributedString+BonMot.swift:70-77 | a character made of unassigned scalars only is replaced by one element for each, with their numbers |
| DebugRoundTrip.AssignedIsKept | BonMot/Sources/NSAttributedString+BonMot.swift:59-84 | it leaves alone what the first pass makes of a text without unassigned scalars |
| DebugRoundTrip.UnassignedIsLost | BonMot/Sources/NSAttributedString+BonMot.swift:59-84 | an unassigned scalar on its own is printed as an element with its number, of which the default rules make nothing |
| DebugRoundTrip.EnQuadBecomesEnSpace | BonMot/Sources/NSAttributedString+BonMot.swift:34-46 | U+2000 comes back as U+2002 |
| DebugRoundTrip.MarkupIsObeyed | BonMot/Sources/NSAttributedString+BonMot.swift:56-58 | text that spells out the element of a named character comes back as that character |
| Base83.CharacterDenotes | blurhash/Swift/BlurHashEncode.swift:128-130 | the 83 characters are distinct: each denotes its own position |
| Base83.DecodeCharacters | blurhash/Swift/BlurHashDecode.swift:110-116 | the filled dictionary has exactly the 83 characters, each with its position |
| Base83.EncodeBase83 | blurhash/Swift/BlurHashEncode.swift:132-145 | the loop of separate divisions by powers yields the last `length` base-83 digits |
| Base83.DecodeBase83 | blurhash/Swift/BlurHashDecode.swift:118-128 | the accumulating loop yields the value of the string's numerals |
| Base83.DecodeEncode | blurhash/Swift/BlurHashEncode.swift:132-145 | decoding an encoded number gives it modulo 83^length, for every number and length |
| Base83.EncodeDecode | blurhash/Swift/BlurHashDecode.swift:118-128 | encoding a decoded string gives it back if and only if every character is one of the 83 |
| Base83.OtherCharactersAreSkipped | blurhash/Swift/BlurHashDecode.swift:118-128 | characters outside the alphabet do not affect the value |
| BlurHash.ParsePrint | blurhash/Swift/BlurHashEncode.swift:50-73 | parsing a printed hash returns all its fields if and only if every field fits its place |
| BlurHash.TenWideIsRejected | blurhash/Swift/BlurHashDecode.swift:4-15 | a hash ten components wide and one high is printed and not accepted |
| BlurHash.PrintParse | blurhash/Swift/BlurHashDecode.swift:4-24 | an accepted string is reproduced by printing its parsed integers if and only if all its characters are in the alphabet |
| BlurHash.ParsedFits | blurhash/Swift/BlurHashDecode.swift:4-24 | whatever the parser accepts fits: sizes, maximum, DC and every AC |
| BlurHash.ParsedDigits | blurhash/Swift/BlurHashDecode.swift:4-24 | digit by digit: the first character holds both numbers of components, the second the maximum, the next four the average colour, most significant first, and every following pair one factor |
| BlurHash.PrintedLength | blurhash/Swift/BlurHashEncode.swift:50-73 | the printed length is always 4 + 2*numX*numY |
| BlurHash.ColoursFit | blurhash/Swift/BlurHashEncode.swift:97-110 | every byte triple fits four digits, every one of the 19^3 factors fits two |
| BlurHash.PictureRoundTrip | blurhash/Swift/BlurHashEncode.swift:50-110 | quantised components survive printing and parsing if and only if they are encodable, and everything the encoder quantises to is |
| BlurHash.UnpackPackDC | blurhash/Swift/BlurHashDecode.swift:69-74 | unpacking packed DC components is exact if and only if green and blue are bytes |
| BlurHash.UnpackPackAC | blurhash/Swift/BlurHashDecode.swift:76-79 | unpacking packed AC components is exact if and only if green and blue are below 19 |
| BlurHash.ColourPlaces | blurhash/Swift/BlurHashEncode.swift:97-110 | red is the most significant part of a packed colour, blue the least |
| BlurHash.BlurHashString | blurhash/Swift/BlurHashEncode.swift:50-72 | the encoder's appending loop produces the printed form, with maximum 0 when there is only one component |

## Left out

- The floating-point transfer curves, the contents of the two gamma tables and
  SharpYuvComputeConversionMatrix: tables are any monotone ones with the stated end entries, other
  curves are uninterpreted functions, matrices are the constant ones or parameters.
- Memory allocation and its failure, NULL arguments, byte strides, pixel steps, 8- and 16-bit
  storage of input and output, locking, CPU detection and function-pointer dispatch.
- Convert.ConvertWRGBToYUV: the C `int` sum in RGBToYUVComponent is unbounded. That it stays in `int`
  is proved, with a built-in matrix, for output shallower than the input, for 10-bit output of 10-bit
  input and for 8- and 10-bit output of 8-bit input. For 12-bit output of 8-, 10- and 12-bit input
  the bounds on the chroma are not enough.
- The 64-bit difference accumulators are unbounded.
- Convert.SharpYuvConvertWithOptions: steps and strides other than their parity; the input planes are
  the samples that they lead to.
- Driver.ImportPicture: samples stay within the declared bit depth, which is what `sharpyuv.h:127-128`
  asks of a caller and nothing checks. Which larger ones leave the to-linear table is
  `Import.DeepSamplesExactly`; what a run makes of those that do not is not followed further.
- Refine.RefineSweep: the driver's methods call the C kernels; runs with the vector kernels are stated
  on values (`VectorRuns`).
- Gamma.FromLinearSrgb: only for linear values up to 65536, which every tame curve guarantees.
- Gamma.InitTable: the curve it samples is a parameter, monotone from 0 to 65536.
- Gamma.MeanAndLumaRange: for curves whose linear values are not negative and at most 2^30 - 1, and
  which take every linear value up to their own highest back to at most 2^depth. That the
  floating-point curves do so is not modelled.
- ChromaRuns.ChromaFitsInt16: only while the bound fits int16. At 16 bits a real picture overflows.
  Whether the blue chroma of a 10-bit picture can, in its fourth sweep and under another curve than
  the linear one, depends on the contents of the tables.
- SimdRuns.EightBitFirstTwoSweeps: the third and fourth sweep, where the sum of the chroma bounds
  exceeds 8189; whether a picture gets there is not settled.
- VectorRuns.Sse2TenBitRunIsC: in pictures wider than 131070 samples the sum of a row pair may wrap and
  stop the run elsewhere.
- XmlBuilder.DocumentRenders: XMLParser itself, its errors and its line and column numbers; the
  callbacks are those of a well-formed tree.
- Text attributes, kerning, paragraph styles, fonts and default attributes of attributed strings;
  appending of composables other than strings is an uninterpreted function, so a composable that
  looks at the text before it is not captured.
- A transform is applied to a whole text run; the enumeration of attribute ranges inside a run and
  styles whose own XML styler re-parses inserted strings are not modelled.
- StringStyles.StringStyle.AddStringStyle: attribute values are opaque tokens; fields compiled for
  some platforms only are all present.
- DebugPrinter.DebugString: what the characters of a string are and how its scalars are named is a
  parameter, of which the round trip uses what holds of every version of Unicode
  (`DebugRoundTrip.Sound`); images are given by the formatted size found at a code unit.
- DebugRoundTrip.RestoredExactlyWhen: for text without image attachments and a base style without
  transform; markup other than empty elements with at most one attribute counts as not readable.
- Base83.EncodeBase83: machine-integer overflow of the power, which the source would trap on for
  lengths above 10; the format uses 1, 2 and 4.
- Base83.DecodeBase83: grapheme clusters; a string is a sequence of scalars.
- BlurHash's cosine sums, sRGB conversion, quantisation of floats and pixel buffers: the model
  starts from, and ends with, the quantised integers.
- The other libraries beside these three.
