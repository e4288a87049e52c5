// Pictures the refinement leaves alone: gray pictures under any curve, and constant
// colours under the linear curve.
module FixedPoints {
  import opened FixedPoint
  import opened Gamma
  import opened Kernels
  import opened Rows
  import opened Measure
  import opened Sweep
  import opened Import
  import opened ColorSpace
  import opened Driver
  import opened Invariants
  import opened Convert

  // ---- A sweep over an image that already looks like its target ----

  // The chroma buffers hold int16 values.
  ghost predicate Int16Planes(p: Planes) {
    AllWithin(p.r, -0x8000, 0x7FFF) && AllWithin(p.g, -0x8000, 0x7FFF) && AllWithin(p.b, -0x8000, 0x7FFF)
  }

  // Row pair k looks exactly like its target and is stored without loss.
  ghost predicate Settled(cfg: Config, n: nat, m: nat, target: Image, img: Image, k: nat)
    requires cfg.Valid() && img.Shape(n, m) && target.Shape(n, m) && k < m
  {
    && SeenAt(cfg, n, m, img, k) == Pair(target.ys[k], target.uvs[k])
    && AllWithin(img.ys[k], 0, cfg.Top()) && Int16Planes(img.uvs[k])
  }

  lemma NothingToCorrect(cfg: Config, n: nat, target: Pair, was: Pair)
    requires PairShape(target, n) && PairShape(was, n) && AllWithin(was.y, 0, cfg.Top()) && Int16Planes(was.uv)
    ensures Corrected(cfg, n, target, target, was) == was
  {
    hide MaxY;
    var now := Corrected(cfg, n, target, target, was);
    assert now.y == was.y;
    assert now.uv.r == was.uv.r && now.uv.g == was.uv.g && now.uv.b == was.uv.b;
  }

  lemma SettledStep(cfg: Config, n: nat, m: nat, target: Image, img: Image, k: nat)
    requires cfg.Valid() && img.Shape(n, m) && target.Shape(n, m) && k < m && Settled(cfg, n, m, target, img, k)
    ensures StepAt(cfg, n, m, target, img, k) == img && SadAt(cfg, n, m, target, img, k) == 0
  {
    hide SeenAt, Corrected, Sad, Config.Valid;
    NothingToCorrect(cfg, n, Pair(target.ys[k], target.uvs[k]), Pair(img.ys[k], img.uvs[k]));
    SadZero(target.ys[k]);
    assert img.ys[k := img.ys[k]] == img.ys && img.uvs[k := img.uvs[k]] == img.uvs;
  }

  // A settled image is a fixed point of the sweep, at distance 0 from its target.
  lemma {:induction false} SettledSweep(cfg: Config, n: nat, m: nat, target: Image, img: Image, k: nat)
    requires cfg.Valid() && img.Shape(n, m) && target.Shape(n, m) && k <= m
    requires forall i :: 0 <= i < m ==> Settled(cfg, n, m, target, img, i)
    ensures SweepTo(cfg, n, m, target, img, k) == img && DiffTo(cfg, n, m, target, img, k) == 0
  {
    hide Settled, StepAt, SadAt, Config.Valid;
    if k > 0 {
      SettledSweep(cfg, n, m, target, img, k - 1);
      SettledStep(cfg, n, m, target, img, k - 1);
    }
  }

  // The stopping rule ends the run after exactly two sweeps.
  lemma SettledRun(cfg: Config, n: nat, m: nat, target: Image, img: Image)
    requires cfg.Valid() && img.Shape(n, m) && target.Shape(n, m) && n >= 1 && m >= 1
    requires forall i :: 0 <= i < m ==> Settled(cfg, n, m, target, img, i)
    ensures Iterate(cfg, n, m, target, img, 0, UINT64_MAX) == Outcome(img, 2, 0)
  {
    hide Settled, SweepTo, DiffTo, Config.Valid;
    SettledSweep(cfg, n, m, target, img, m);
    assert 3 * (2 * n) * (2 * m) > 0;
    assert Iterate(cfg, n, m, target, img, 1, 0) == Outcome(img, 2, 0);
  }

  // ---- Gray pictures ----

  ghost predicate GrayPicture(src: Source) {
    src.r == src.g == src.b
  }

  function Constant(v: int, n: nat): (s: seq<int>)
    ensures |s| == n
  {
    seq(n, _ => v)
  }

  function ConstantRow(r: int, g: int, b: int, n: nat): (p: Planes)
    ensures p.Shape(n)
  {
    Planes(Constant(r, n), Constant(g, n), Constant(b, n))
  }

  function NoChroma(n: nat): (p: Planes)
    ensures p.Shape(n)
  {
    ConstantRow(0, 0, 0, n)
  }

  ghost predicate Flat(rgb: Planes) {
    rgb.r == rgb.g == rgb.b
  }

  // Upsampling a constant chroma row adds that constant: the filter weights sum to one.
  lemma UpsampleUniform(n: nat, u: int, y: seq<int>, goal: seq<int>, max: nat)
    requires |y| == |goal| == 2 * n && forall i :: 0 <= i < 2 * n ==> goal[i] == y[i] + u && 0 <= goal[i] <= max
    ensures Upsample(Constant(u, n), Constant(u, n), y, max) == goal
  {
    hide UpsampleTap;
    var up := Upsample(Constant(u, n), Constant(u, n), y, max);
    forall x | 0 <= x < 2 * n
      ensures up[x] == goal[x]
    {
      UniformTap(n, u, x);
    }
  }

  lemma UniformTap(n: nat, u: int, x: nat)
    requires x < 2 * n
    ensures UpsampleTap(Constant(u, n), Constant(u, n), x) == u
  {
    assert Tap(u, u, u, u) == u;
  }

  // Without chroma, upsampling shows the luma itself on all three channels.
  lemma UpsampleNoChroma(n: nat, y: seq<int>, max: nat)
    requires |y| == 2 * n && AllWithin(y, 0, max)
    ensures UpsampledRow(NoChroma(n), NoChroma(n), y, max) == Planes(y, y, y)
  {
    hide Upsample;
    UpsampleUniform(n, 0, y, y, max);
  }

  // Equal channels have no chroma under any curve at all.
  lemma FlatHasNoChroma(cfg: Config, upper: Planes, lower: Planes, n: nat)
    requires cfg.Valid() && RowPair(cfg, upper, lower, n) && Flat(upper) && Flat(lower)
    ensures ChromaRow(cfg, upper, lower, n) == NoChroma(n)
  {
    hide BlockMean, ChromaOf, ChromaRow, Config.Valid, AllWithin;
    var uv := ChromaRow(cfg, upper, lower, n);
    forall i | 0 <= i < n
      ensures uv.r[i] == 0 && uv.g[i] == 0 && uv.b[i] == 0
    {
      assert (uv.r[i], uv.g[i], uv.b[i]) == ChromaAt(cfg, upper, lower, n, i);
      NoChromaOfEqual(BlockMean(cfg, upper.r, lower.r, i));
    }
    assert uv.r == Constant(0, n) && uv.g == Constant(0, n) && uv.b == Constant(0, n);
  }

  lemma NoChromaOfEqual(v: int)
    ensures ChromaOf(v, v, v) == (0, 0, 0)
  {
    GrayOffset(0, 0, 0, v);
  }

  // Its gray row is any of its channels.
  lemma GrayOfFlat(rgb: Planes, max: nat)
    requires rgb.Shape(|rgb.r|) && Flat(rgb) && rgb.Within(0, max) && max <= 0xFFFF
    ensures GrayRow(rgb) == rgb.r
  {
    hide RGBToGray;
    forall i | 0 <= i < |rgb.r|
      ensures GrayRow(rgb)[i] == rgb.r[i]
    {
      GrayOffset(0, 0, 0, rgb.r[i]);
    }
  }

  // Row pair k of a gray picture, padded: the same two rows on every channel.
  lemma PaddedGray(cfg: Config, src: Source, rgbBitDepth: nat, k: nat)
    requires Fits(cfg, src, rgbBitDepth) && GrayPicture(src)
    ensures var rows := PaddedPair(cfg, src, rgbBitDepth, k);
            && Flat(rows.0) && Flat(rows.1)
            && FirstLuma(cfg, src, rgbBitDepth, k) == rows.0.r + rows.1.r
            && TargetPair(cfg, src, rgbBitDepth, k).uv == NoChroma(src.Cells())
  {
    hide PaddedLine, GrayRow, ChromaRow, LumaRow, MaxY, Source.Channel;
    var rows := PaddedPair(cfg, src, rgbBitDepth, k);
    assert Flat(rows.0) && Flat(rows.1);
    TopAtMost14Bits(cfg);
    GrayOfFlat(rows.0, cfg.Top());
    GrayOfFlat(rows.1, cfg.Top());
    FlatHasNoChroma(cfg, rows.0, rows.1, src.Cells());
  }

  // Luma y without chroma around it looks like the flat rows it stands for.
  lemma SeenWithoutChroma(cfg: Config, n: nat, upper: seq<int>, lower: seq<int>)
    requires cfg.Valid() && |upper| == |lower| == 2 * n
    requires AllWithin(upper, 0, cfg.Top()) && AllWithin(lower, 0, cfg.Top())
    ensures Seen(cfg, n, NoChroma(n), NoChroma(n), NoChroma(n), upper + lower) ==
            Measured(cfg, n, Planes(upper, upper, upper), Planes(lower, lower, lower))
  {
    hide Upsample, LumaRow, ChromaRow, MaxY, Config.Valid, UpsampledRow;
    assert (upper + lower)[..2 * n] == upper && (upper + lower)[2 * n..] == lower;
    UpsampleNoChroma(n, upper, cfg.Top());
    UpsampleNoChroma(n, lower, cfg.Top());
  }

  lemma GraySettled(cfg: Config, src: Source, rgbBitDepth: nat, k: nat)
    requires Fits(cfg, src, rgbBitDepth) && GrayPicture(src) && k < src.Pairs()
    ensures Settled(cfg, src.Cells(), src.Pairs(), Target(cfg, src, rgbBitDepth), FirstGuess(cfg, src, rgbBitDepth), k)
    ensures FirstGuess(cfg, src, rgbBitDepth).uvs[k] == NoChroma(src.Cells())
  {
    hide PaddedPair, FirstLuma, Seen, Measured, MaxY, Source.Channel, GrayRow;
    var n, m, first := src.Cells(), src.Pairs(), FirstGuess(cfg, src, rgbBitDepth);
    PaddedGray(cfg, src, rgbBitDepth, k);
    PaddedGray(cfg, src, rgbBitDepth, Before(k));
    PaddedGray(cfg, src, rgbBitDepth, After(k, m));
    var rows := PaddedPair(cfg, src, rgbBitDepth, k);
    SeenWithoutChroma(cfg, n, rows.0.r, rows.1.r);
    AllWithinConcat(rows.0.r, rows.1.r, 0, cfg.Top());
  }

  // A gray picture, under any curve, stops after exactly two sweeps at distance 0, with
  // its luma as imported and both chroma buffers exactly zero.
  lemma GrayPictureRun(cfg: Config, src: Source, rgbBitDepth: nat)
    requires Fits(cfg, src, rgbBitDepth) && GrayPicture(src)
    ensures Refined(cfg, src, rgbBitDepth) == Outcome(FirstGuess(cfg, src, rgbBitDepth), 2, 0)
    ensures forall k :: 0 <= k < src.Pairs() ==> Refined(cfg, src, rgbBitDepth).best.uvs[k] == NoChroma(src.Cells())
    ensures forall k :: 0 <= k < src.Pairs() ==>
              var rows := PaddedPair(cfg, src, rgbBitDepth, k);
              Refined(cfg, src, rgbBitDepth).best.ys[k] == rows.0.r + rows.1.r
  {
    hide Settled, FirstLuma, TargetPair, PaddedPair, Iterate, NoChroma, Source.Channel;
    var n, m, target, first := src.Cells(), src.Pairs(), Target(cfg, src, rgbBitDepth),
        FirstGuess(cfg, src, rgbBitDepth);
    forall k | 0 <= k < m
      ensures Settled(cfg, n, m, target, first, k) && first.uvs[k] == NoChroma(n)
      ensures var rows := PaddedPair(cfg, src, rgbBitDepth, k); first.ys[k] == rows.0.r + rows.1.r
    {
      GraySettled(cfg, src, rgbBitDepth, k);
      PaddedGray(cfg, src, rgbBitDepth, k);
    }
    SettledRun(cfg, n, m, target, first);
  }

  // Its U and V are the rounded matrix offsets everywhere.
  lemma GrayPictureChroma(cfg: Config, src: Source, rgbBitDepth: nat, f: Format, j: nat, i: nat)
    requires Fits(cfg, src, rgbBitDepth) && GrayPicture(src) && f.Valid() && j < src.Pairs() && i < src.Cells()
    ensures var img := Refined(cfg, src, rgbBitDepth).best;
            var half, unit := Pow2(15 + f.sfix), Pow2(16 + f.sfix);
            && UPixel(f, img, src.Cells(), src.Pairs(), j, i) == f.Stored((f.matrix.toU.offset + half) / unit)
            && VPixel(f, img, src.Cells(), src.Pairs(), j, i) == f.Stored((f.matrix.toV.offset + half) / unit)
  {
    hide Refined, FirstGuess, PaddedPair, Format.Stored, Pow2, Source.Valid, Config.Valid;
    GrayPictureRun(cfg, src, rgbBitDepth);
    assert NoChroma(src.Cells()).r[i] == 0 && NoChroma(src.Cells()).g[i] == 0 && NoChroma(src.Cells()).b[i] == 0;
  }

  // With a built-in matrix and 8 bits in and out, that is 128.
  lemma GrayIs128(cfg: Config, src: Source, t: MatrixType, j: nat, i: nat)
    requires Fits(cfg, src, 8) && GrayPicture(src) && j < src.Pairs() && i < src.Cells()
    ensures var img := Refined(cfg, src, 8).best;
            var f := OutputFormat(GetConversionMatrix(t), 8, 8);
            && UPixel(f, img, src.Cells(), src.Pairs(), j, i) == 128
            && VPixel(f, img, src.Cells(), src.Pairs(), j, i) == 128
  {
    hide Refined, UPixel, VPixel, Source.Valid, Config.Valid, GetConversionMatrix, Pow2;
    var f := OutputFormat(GetConversionMatrix(t), 8, 8);
    GrayPictureChroma(cfg, src, 8, f, j, i);
    OffsetRoundsTo128(t);
  }

  lemma OffsetRoundsTo128(t: MatrixType)
    ensures var f := OutputFormat(GetConversionMatrix(t), 8, 8);
            && f.sfix == 2
            && f.Stored((f.matrix.toU.offset + Pow2(17)) / Pow2(18)) == 128
            && f.Stored((f.matrix.toV.offset + Pow2(17)) / Pow2(18)) == 128
  {
    Pow2Values();
    Pow2Add(16, 2);
    Pow2Add(16, 1);
  }

  // ---- Constant colours under the linear curve ----

  ghost predicate ConstantPicture(src: Source, r: int, g: int, b: int) {
    && src.r == seq(src.height, _ => Constant(r, src.width))
    && src.g == seq(src.height, _ => Constant(g, src.width))
    && src.b == seq(src.height, _ => Constant(b, src.width))
  }

  // The bilinear filter is exact on constant rows.
  lemma ConstantRowsUpsampled(n: nat, r: int, g: int, b: int, w: int, max: nat)
    requires 0 <= r <= max && 0 <= g <= max && 0 <= b <= max
    ensures UpsampledRow(ConstantRow(r - w, g - w, b - w, n), ConstantRow(r - w, g - w, b - w, n), Constant(w, 2 * n),
            max)
            == ConstantRow(r, g, b, 2 * n)
  {
    hide Upsample;
    UpsampleUniform(n, r - w, Constant(w, 2 * n), Constant(r, 2 * n), max);
    UpsampleUniform(n, g - w, Constant(w, 2 * n), Constant(g, 2 * n), max);
    UpsampleUniform(n, b - w, Constant(w, 2 * n), Constant(b, 2 * n), max);
  }

  lemma LinearMeasures(v: nat, r: nat, g: nat, b: nat, bitDepth: nat)
    requires WorkingDepth(bitDepth) && v <= MaxY(bitDepth) && r <= MaxY(bitDepth) && g <= MaxY(bitDepth)
             && b <= MaxY(bitDepth)
    ensures ScaleDown(v, v, v, v, bitDepth, Linear) == v
    ensures LumaOf(r, g, b, bitDepth, Linear) == RGBToGray(r, g, b)
  {
    ScaleDownOfEqual(v, bitDepth, Linear);
    LinearRoundTrip(v, bitDepth);
    GrayRange(r, g, b, 0, MaxY(bitDepth));
    Pow2AtMost14(bitDepth);
  }

  // Two constant rows measure as their gray and their distance from it.
  lemma MeasuredConstant(cfg: Config, n: nat, r: nat, g: nat, b: nat)
    requires cfg.Valid() && cfg.t == Linear && r <= cfg.Top() && g <= cfg.Top() && b <= cfg.Top()
    ensures var w := RGBToGray(r, g, b);
            && 0 <= w <= cfg.Top()
            && RowPair(cfg, ConstantRow(r, g, b, 2 * n), ConstantRow(r, g, b, 2 * n), n)
            && Measured(cfg, n, ConstantRow(r, g, b, 2 * n), ConstantRow(r, g, b, 2 * n)) ==
               Pair(Constant(w, 2 * n) + Constant(w, 2 * n), ConstantRow(r - w, g - w, b - w, n))
            && GrayRow(ConstantRow(r, g, b, 2 * n)) == Constant(w, 2 * n)
            && Int16Planes(ConstantRow(r - w, g - w, b - w, n))
  {
    hide LumaOf, ScaleDown, RGBToGray, MaxY;
    var w := RGBToGray(r, g, b);
    var row := ConstantRow(r, g, b, 2 * n);
    GrayRange(r, g, b, 0, cfg.Top());
    TopAtMost14Bits(cfg);
    LinearMeasures(r, r, g, b, cfg.bitDepth);
    LinearMeasures(g, r, g, b, cfg.bitDepth);
    LinearMeasures(b, r, g, b, cfg.bitDepth);
    assert LumaRow(cfg, row) == Constant(w, 2 * n);
    assert GrayRow(row) == Constant(w, 2 * n);
    ConstantChroma(cfg, n, r, g, b);
  }

  lemma ConstantBlock(cfg: Config, n: nat, v: nat, i: nat)
    requires cfg.Valid() && cfg.t == Linear && v <= cfg.Top() && i < n
    ensures BlockMean(cfg, Constant(v, 2 * n), Constant(v, 2 * n), i) == v
  {
    hide ScaleDown, MaxY;
    LinearMeasures(v, v, v, v, cfg.bitDepth);
  }

  lemma ConstantChroma(cfg: Config, n: nat, r: nat, g: nat, b: nat)
    requires cfg.Valid() && cfg.t == Linear && r <= cfg.Top() && g <= cfg.Top() && b <= cfg.Top()
    ensures var w, row := RGBToGray(r, g, b), ConstantRow(r, g, b, 2 * n);
            RowPair(cfg, row, row, n) && ChromaRow(cfg, row, row, n) == ConstantRow(r - w, g - w, b - w, n)
  {
    hide BlockMean, RGBToGray, MaxY, ChromaRow, ChromaOf;
    var w, row := RGBToGray(r, g, b), ConstantRow(r, g, b, 2 * n);
    TopAtMost14Bits(cfg);
    ChromaOfBounds(r, g, b, cfg.Top());
    var uv, goal := ChromaRow(cfg, row, row, n), ConstantRow(r - w, g - w, b - w, n);
    forall i | 0 <= i < n
      ensures uv.r[i] == r - w && uv.g[i] == g - w && uv.b[i] == b - w
    {
      ConstantBlock(cfg, n, r, i);
      ConstantBlock(cfg, n, g, i);
      ConstantBlock(cfg, n, b, i);
      assert (uv.r[i], uv.g[i], uv.b[i]) == ChromaAt(cfg, row, row, n, i);
    }
    assert uv.r == goal.r && uv.g == goal.g && uv.b == goal.b;
  }

  lemma PaddedConstant(cfg: Config, src: Source, rgbBitDepth: nat, r: int, g: int, b: int, k: nat)
    requires Fits(cfg, src, rgbBitDepth) && ConstantPicture(src, r, g, b)
    ensures var row := ConstantRow(Scaled(r, rgbBitDepth), Scaled(g, rgbBitDepth), Scaled(b, rgbBitDepth),
            2 * src.Cells());
            PaddedPair(cfg, src, rgbBitDepth, k) == (row, row)
    ensures 0 <= Scaled(r, rgbBitDepth) <= cfg.Top() && 0 <= Scaled(g, rgbBitDepth) <= cfg.Top()
            && 0 <= Scaled(b, rgbBitDepth) <= cfg.Top()
  {
    hide Scaled, MaxY, Config.Valid;
    PaddedConstantRow(cfg, src, rgbBitDepth, r, g, b, 2 * k);
    PaddedConstantRow(cfg, src, rgbBitDepth, r, g, b, 2 * k + 1);
  }

  lemma PaddedConstantRow(cfg: Config, src: Source, rgbBitDepth: nat, r: int, g: int, b: int, j: nat)
    requires Fits(cfg, src, rgbBitDepth) && ConstantPicture(src, r, g, b)
    ensures PaddedRow(src, rgbBitDepth, j) ==
            ConstantRow(Scaled(r, rgbBitDepth), Scaled(g, rgbBitDepth), Scaled(b, rgbBitDepth), 2 * src.Cells())
    ensures 0 <= Scaled(r, rgbBitDepth) <= cfg.Top() && 0 <= Scaled(g, rgbBitDepth) <= cfg.Top()
            && 0 <= Scaled(b, rgbBitDepth) <= cfg.Top()
  {
    hide Scaled, MaxY, Config.Valid;
    var w := 2 * src.Cells();
    PaddedRowInRange(src, rgbBitDepth, j);
    var row := PaddedRow(src, rgbBitDepth, j);
    assert row.r == Constant(Scaled(r, rgbBitDepth), w) && row.r[0] == Scaled(r, rgbBitDepth);
    assert row.g == Constant(Scaled(g, rgbBitDepth), w) && row.g[0] == Scaled(g, rgbBitDepth);
    assert row.b == Constant(Scaled(b, rgbBitDepth), w) && row.b[0] == Scaled(b, rgbBitDepth);
  }

  lemma SeenConstant(cfg: Config, n: nat, r: nat, g: nat, b: nat)
    requires cfg.Valid() && cfg.t == Linear && r <= cfg.Top() && g <= cfg.Top() && b <= cfg.Top()
    ensures var w := RGBToGray(r, g, b);
            var uv := ConstantRow(r - w, g - w, b - w, n);
            Seen(cfg, n, uv, uv, uv, Constant(w, 2 * n) + Constant(w, 2 * n)) ==
            Pair(Constant(w, 2 * n) + Constant(w, 2 * n), uv)
  {
    hide UpsampledRow, Measured, RGBToGray, MaxY, ConstantRow, Constant;
    var w := RGBToGray(r, g, b);
    var y := Constant(w, 2 * n);
    assert (y + y)[..2 * n] == y && (y + y)[2 * n..] == y;
    ConstantRowsUpsampled(n, r, g, b, w, cfg.Top());
    MeasuredConstant(cfg, n, r, g, b);
  }

  lemma ConstantSettled(cfg: Config, src: Source, rgbBitDepth: nat, r: int, g: int, b: int, k: nat)
    requires Fits(cfg, src, rgbBitDepth) && cfg.t == Linear && ConstantPicture(src, r, g, b) && k < src.Pairs()
    ensures Settled(cfg, src.Cells(), src.Pairs(), Target(cfg, src, rgbBitDepth), FirstGuess(cfg, src, rgbBitDepth), k)
    ensures var r', g', b' := Scaled(r, rgbBitDepth), Scaled(g, rgbBitDepth), Scaled(b, rgbBitDepth);
            var w := RGBToGray(r', g', b');
            && FirstGuess(cfg, src, rgbBitDepth).ys[k] == Constant(w, 2 * src.Cells()) + Constant(w, 2 * src.Cells())
            && FirstGuess(cfg, src, rgbBitDepth).uvs[k] == ConstantRow(r' - w, g' - w, b' - w, src.Cells())
  {
    hide PaddedPair, Seen, Measured, MaxY, Source.Channel, GrayRow, ConstantRow, RGBToGray, Scaled, Config.Valid,
         ConstantPicture;
    var n, m := src.Cells(), src.Pairs();
    var r', g', b' := Scaled(r, rgbBitDepth), Scaled(g, rgbBitDepth), Scaled(b, rgbBitDepth);
    PaddedConstant(cfg, src, rgbBitDepth, r, g, b, k);
    PaddedConstant(cfg, src, rgbBitDepth, r, g, b, Before(k));
    PaddedConstant(cfg, src, rgbBitDepth, r, g, b, After(k, m));
    MeasuredConstant(cfg, n, r', g', b');
    SeenConstant(cfg, n, r', g', b');
  }

  // Under the linear curve a constant colour of any size is a fixed point, and every output
  // pixel is the direct conversion of that colour: Y with any matrix row, U and V with any
  // row that sums to zero.
  lemma ConstantPictureRun(cfg: Config, src: Source, rgbBitDepth: nat, r: int, g: int, b: int)
    requires Fits(cfg, src, rgbBitDepth) && cfg.t == Linear && ConstantPicture(src, r, g, b)
    ensures Refined(cfg, src, rgbBitDepth) == Outcome(FirstGuess(cfg, src, rgbBitDepth), 2, 0)
  {
    hide Settled, FirstLuma, TargetPair, Iterate, Source.Channel, RGBToGray, Scaled, ConstantPicture;
    var n, m, target, first := src.Cells(), src.Pairs(), Target(cfg, src, rgbBitDepth),
        FirstGuess(cfg, src, rgbBitDepth);
    forall k | 0 <= k < m
      ensures Settled(cfg, n, m, target, first, k)
    {
      ConstantSettled(cfg, src, rgbBitDepth, r, g, b, k);
    }
    SettledRun(cfg, n, m, target, first);
  }

  lemma ConstantPictureLuma(cfg: Config, src: Source, rgbBitDepth: nat, r: int, g: int, b: int, f: Format, j: nat,
                            i: nat)
    requires Fits(cfg, src, rgbBitDepth) && cfg.t == Linear && ConstantPicture(src, r, g, b) && f.Valid()
    requires j < 2 * src.Pairs() && i < 2 * src.Cells()
    ensures LumaPixel(f, Refined(cfg, src, rgbBitDepth).best, src.Cells(), src.Pairs(), j, i) ==
            YOf(f, Scaled(r, rgbBitDepth), Scaled(g, rgbBitDepth), Scaled(b, rgbBitDepth))
  {
    hide Refined, FirstGuess, LumaPixel, RGBToGray, Scaled, ConstantPicture, Source.Channel, Config.Valid;
    var w := RGBToGray(Scaled(r, rgbBitDepth), Scaled(g, rgbBitDepth), Scaled(b, rgbBitDepth));
    ConstantPictureRun(cfg, src, rgbBitDepth, r, g, b);
    ConstantSettled(cfg, src, rgbBitDepth, r, g, b, j / 2);
    ConstantPixel(f, Refined(cfg, src, rgbBitDepth).best, src.Cells(), src.Pairs(), j, i, w,
                  Scaled(r, rgbBitDepth), Scaled(g, rgbBitDepth), Scaled(b, rgbBitDepth));
  }

  lemma ConstantPixel(f: Format, img: Image, n: nat, m: nat, j: nat, i: nat, w: int, r: int, g: int, b: int)
    requires f.Valid() && img.Shape(n, m) && j < 2 * m && i < 2 * n
    requires img.ys[j / 2] == Constant(w, 2 * n) + Constant(w, 2 * n)
    requires img.uvs[j / 2] == ConstantRow(r - w, g - w, b - w, n)
    ensures LumaPixel(f, img, n, m, j, i) == YOf(f, r, g, b)
  {
    hide YOf;
  }

  lemma ConstantPictureChroma(cfg: Config, src: Source, rgbBitDepth: nat, r: int, g: int, b: int, f: Format, j: nat,
                              i: nat)
    requires Fits(cfg, src, rgbBitDepth) && cfg.t == Linear && ConstantPicture(src, r, g, b) && f.Valid()
    requires j < src.Pairs() && i < src.Cells()
    ensures var n, m, img := src.Cells(), src.Pairs(), Refined(cfg, src, rgbBitDepth).best;
            var r', g', b' := Scaled(r, rgbBitDepth), Scaled(g, rgbBitDepth), Scaled(b, rgbBitDepth);
            && (f.matrix.toU.Sum() == 0 ==> UPixel(f, img, n, m, j, i) == UOf(f, r', g', b'))
            && (f.matrix.toV.Sum() == 0 ==> VPixel(f, img, n, m, j, i) == VOf(f, r', g', b'))
  {
    hide Refined, FirstGuess, Component, RGBToGray, Scaled, ConstantPicture, Source.Channel, Config.Valid, Pow2,
         Format.Stored;
    var r', g', b' := Scaled(r, rgbBitDepth), Scaled(g, rgbBitDepth), Scaled(b, rgbBitDepth);
    var w := RGBToGray(r', g', b');
    ConstantPictureRun(cfg, src, rgbBitDepth, r, g, b);
    ConstantSettled(cfg, src, rgbBitDepth, r, g, b, j);
    DroppingTheOffset(r' - w, g' - w, b' - w, w, f.matrix.toU, f.sfix);
    DroppingTheOffset(r' - w, g' - w, b' - w, w, f.matrix.toV, f.sfix);
  }
}
