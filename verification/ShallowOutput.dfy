// The conversion of deeper pictures to fewer bits: that chroma is int16 is enough for the C sums
// to stay in int and for the narrowing to lose nothing, in every run, wrapped or not.
module ShallowOutput {
  import opened FixedPoint
  import opened Rows
  import opened Measure
  import opened Sweep
  import opened Import
  import opened Driver
  import opened ColorSpace
  import opened Convert
  import opened SimdRuns
  import opened ScaledMatrices
  import opened EightBitOutput

  predicate Shallower(rgbBitDepth: nat, yuvBitDepth: nat) {
    Depths(rgbBitDepth, yuvBitDepth) && yuvBitDepth < rgbBitDepth
  }

  // The luma of 14 bits on top of an int16.
  const MOST := 0x8000 + 0x3FFF

  function Weight(c: Coeffs): nat {
    Abs(c.r) + Abs(c.g) + Abs(c.b)
  }

  // What a row has to satisfy at a scale of 2^(16 + sfix).
  predicate LightRow(c: Coeffs, sfix: int) {
    (sfix == 2 && Weight(c) <= 16400 && 0 <= c.offset <= 0x200_0000)
    || (sfix == -2 && Weight(c) <= 4110 && 0 <= c.offset <= 0x20_0000)
  }

  predicate Most(x: int) {
    -MOST <= x <= MOST
  }

  lemma LightRowLossless(f: Format, c: Coeffs, r: int, g: int, b: int)
    requires f.Valid() && LightRow(c, f.sfix) && Most(r) && Most(g) && Most(b)
    ensures Lossless(f, c, r, g, b)
  {
    LightProducts(c, r, g, b);
    if f.sfix == 2 {
      SumsGrow(c.r * r, c.g * g, c.b * b, Weight(c) * MOST, 16400 * MOST);
      RoundedWithin2(c.r * r, c.g * g, c.b * b, c.offset);
      hide Sums, LightRow, Most;
      Lossless2(f, c, r, g, b);
    } else {
      SumsGrow(c.r * r, c.g * g, c.b * b, Weight(c) * MOST, 4110 * MOST);
      RoundedWithin4(c.r * r, c.g * g, c.b * b, c.offset);
      hide Sums, LightRow, Most;
      Lossless4(f, c, r, g, b);
    }
  }

  lemma LightProducts(c: Coeffs, r: int, g: int, b: int)
    requires Most(r) && Most(g) && Most(b)
    ensures Sums(c.r * r, c.g * g, c.b * b, Weight(c) * MOST)
  {
    ProductWithin(c.r, r, MOST);
    ProductWithin(c.g, g, MOST);
    ProductWithin(c.b, b, MOST);
    SumsWithin(c.r * r, c.g * g, c.b * b, Abs(c.r), Abs(c.g), Abs(c.b), Weight(c));
  }

  lemma SumsGrow(x: int, y: int, z: int, bound: int, wider: int)
    requires Sums(x, y, z, bound) && bound <= wider
    ensures Sums(x, y, z, wider)
  {
  }

  lemma Lossless2(f: Format, c: Coeffs, r: int, g: int, b: int)
    requires f.Valid() && f.sfix == 2 && SumsInInt32(c.r * r, c.g * g, c.b * b, c.offset, 131072)
    requires IsS16((c.r * r + c.g * g + c.b * b + c.offset + 131072) / 262144)
    ensures Lossless(f, c, r, g, b)
  {
    Powers();
    hide Pow2;
  }

  lemma Lossless4(f: Format, c: Coeffs, r: int, g: int, b: int)
    requires f.Valid() && f.sfix == -2 && SumsInInt32(c.r * r, c.g * g, c.b * b, c.offset, 8192)
    requires IsS16((c.r * r + c.g * g + c.b * b + c.offset + 8192) / 16384)
    ensures Lossless(f, c, r, g, b)
  {
    Powers();
    hide Pow2;
  }

  predicate SumsInInt32(x: int, y: int, z: int, offset: int, half: int) {
    && IsS32(x) && IsS32(y) && IsS32(z) && IsS32(x + y) && IsS32(x + y + z)
    && IsS32(x + y + z + offset) && IsS32(x + y + z + offset + half)
  }

  predicate Sums(x: int, y: int, z: int, bound: int) {
    Abs(x) <= bound && Abs(y) <= bound && Abs(z) <= bound && Abs(x + y) <= bound && Abs(x + y + z) <= bound
  }

  lemma RoundedWithin2(x: int, y: int, z: int, offset: int)
    requires Sums(x, y, z, 16400 * MOST) && 0 <= offset <= 0x200_0000
    ensures SumsInInt32(x, y, z, offset, 131072) && IsS16((x + y + z + offset + 131072) / 262144)
  {
  }

  lemma RoundedWithin4(x: int, y: int, z: int, offset: int)
    requires Sums(x, y, z, 4110 * MOST) && 0 <= offset <= 0x20_0000
    ensures SumsInInt32(x, y, z, offset, 8192) && IsS16((x + y + z + offset + 8192) / 16384)
  {
  }

  lemma SumsWithin(x: int, y: int, z: int, a: nat, b: nat, c: nat, weight: nat)
    requires Abs(x) <= a * MOST && Abs(y) <= b * MOST && Abs(z) <= c * MOST && a + b + c <= weight
    ensures Sums(x, y, z, weight * MOST)
  {
  }

  // Every row of every built-in matrix qualifies.
  predicate LightMatrix(m: Matrix, sfix: int) {
    LightRow(m.toY, sfix) && LightRow(m.toU, sfix) && LightRow(m.toV, sfix)
  }

  lemma LightFrom10(t: MatrixType)
    ensures LightMatrix(From10To8(t), 2)
  {
  }

  lemma LightFrom12(t: MatrixType)
    ensures LightMatrix(From12To8(t), 2) && LightMatrix(From12To10(t), 2)
  {
  }

  lemma LightFrom16(t: MatrixType)
    ensures LightMatrix(From16To8(t), -2) && LightMatrix(From16To10(t), -2) && LightMatrix(From16To12(t), -2)
  {
  }

  lemma BuiltInIsLight(t: MatrixType, rgbBitDepth: nat, yuvBitDepth: nat)
    requires Shallower(rgbBitDepth, yuvBitDepth)
    ensures var f := OutputFormat(GetConversionMatrix(t), rgbBitDepth, yuvBitDepth); LightMatrix(f.matrix, f.sfix)
  {
    hide LightMatrix, ScaledMatrix, GetConversionMatrix;
    match rgbBitDepth
    case 10 =>
      LightFrom10(t);
      From10To8Is(t);
    case 12 =>
      LightFrom12(t);
      From12To8Is(t);
      From12To10Is(t);
    case _ =>
      LightFrom16(t);
      From16To8Is(t);
      From16To10Is(t);
      From16To12Is(t);
  }

  // ---- Whole runs ----

  lemma RefinedIsInt16(cfg: Config, src: Source, rgbBitDepth: nat)
    requires Fits(cfg, src, rgbBitDepth)
    ensures var img := Refined(cfg, src, rgbBitDepth).best;
            img.LumaWithin(0x3FFF) && UVWithin(img, -0x8000, 0x7FFF)
  {
    hide AfterSweeps, SweepTo, Target, FirstGuess, UVWithin, Image.LumaWithin, Source.Valid, Iterate;
    RefinedCounts(cfg, src, rgbBitDepth);
    var sweeps := Refined(cfg, src, rgbBitDepth).sweeps;
    MidRunInRange(cfg, src, rgbBitDepth, sweeps, 0);
    TopAtMost14Bits(cfg);
    var target, img := Target(cfg, src, rgbBitDepth), Refined(cfg, src, rgbBitDepth).best;
    NothingSwept(cfg, src.Cells(), src.Pairs(), target, img);
    LumaWidens(img, cfg.Top(), 0x3FFF);
  }

  lemma NothingSwept(cfg: Config, n: nat, m: nat, target: Image, img: Image)
    requires cfg.Valid() && img.Shape(n, m) && target.Shape(n, m)
    ensures SweepTo(cfg, n, m, target, img, 0) == img
  {
  }

  lemma LumaWidens(img: Image, top: nat, wider: nat)
    requires img.LumaWithin(top) && top <= wider
    ensures img.LumaWithin(wider)
  {
    forall k | 0 <= k < |img.ys|
      ensures AllWithin(img.ys[k], 0, wider)
    {
      assert AllWithin(img.ys[k], 0, top);
    }
  }

  // Whatever the picture, the curve and the run: where the output is shallower than the input,
  // every product and partial sum fits int and every component fits int16.
  lemma ShallowOutputLossless(cfg: Config, src: Source, rgbBitDepth: nat, t: MatrixType, yuvBitDepth: nat, j: nat,
                              i: nat)
    requires Fits(cfg, src, rgbBitDepth) && Shallower(rgbBitDepth, yuvBitDepth)
    requires j < 2 * src.Pairs() && i < 2 * src.Cells()
    ensures PixelLossless(OutputFormat(GetConversionMatrix(t), rgbBitDepth, yuvBitDepth),
                          Refined(cfg, src, rgbBitDepth).best, src.Cells(), src.Pairs(), j, i)
  {
    hide Refined, Lossless, LightRow, OutputFormat, GetConversionMatrix, Source.Valid;
    var img, f := Refined(cfg, src, rgbBitDepth).best, OutputFormat(GetConversionMatrix(t), rgbBitDepth, yuvBitDepth);
    var uv, w := img.uvs[j / 2], img.ys[j / 2][LineOffset(j, src.Cells()) + i];
    RefinedIsInt16(cfg, src, rgbBitDepth);
    assert AllWithin(img.ys[j / 2], 0, 0x3FFF) && uv.Within(-0x8000, 0x7FFF);
    BuiltInIsLight(t, rgbBitDepth, yuvBitDepth);
    LightRowLossless(f, f.matrix.toY, uv.r[i / 2] + w, uv.g[i / 2] + w, uv.b[i / 2] + w);
    LightRowLossless(f, f.matrix.toU, uv.r[i / 2], uv.g[i / 2], uv.b[i / 2]);
    LightRowLossless(f, f.matrix.toV, uv.r[i / 2], uv.g[i / 2], uv.b[i / 2]);
  }
}
