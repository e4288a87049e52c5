// The conversion of a refined 8-bit picture with a built-in matrix: the C sums stay in int and
// the narrowing of each component to int16 loses nothing.
module EightBitOutput {
  import opened FixedPoint
  import opened Gamma
  import opened Rows
  import opened Measure
  import opened Sweep
  import opened Import
  import opened Driver
  import opened ColorSpace
  import opened Convert
  import opened Invariants
  import opened ChromaRuns
  import opened ScaledMatrices

  // Chroma as at most four sweeps leave it.
  predicate Refined8(r: int, g: int, b: int) {
    Drift(r, g, b, 4) && Magnitude(r, g, b, 9216)
  }

  // The component is computed without overflow and narrowed without loss.
  predicate Lossless(f: Format, c: Coeffs, r: int, g: int, b: int)
    requires f.Valid()
  {
    SumInInt32(r, g, b, c, f.sfix) && S16(Component(r, g, b, c, f.sfix)) == Component(r, g, b, c, f.sfix)
  }

  // ---- A sum of three terms, where the luma weights of the chroma nearly cancel ----

  const LIMIT := 0x7FFF_FFFF - 0x210_0000

  // Taking y / 46871 of the gray out of x r + y g + z b leaves no g.
  predicate SmallSum(x: int, y: int, z: int) {
    Abs(y) * 294908 + Abs(46871 * x - 13933 * y) * 9216 + Abs(46871 * z - 4732 * y) * 9216
    + 46871 * (Abs(x + y + z) * 1023) <= 46871 * LIMIT
  }

  lemma ProductWithin(x: int, y: int, bound: int)
    requires -bound <= y <= bound
    ensures Abs(x * y) <= Abs(x) * bound
  {
    if x >= 0 {
      MulMonotone(x, y, bound);
      MulMonotone(x, -bound, y);
    } else {
      MulMonotone(-x, y, bound);
      MulMonotone(-x, -bound, y);
    }
  }

  lemma WithoutGreen(x: int, y: int, z: int, r: int, g: int, b: int, w: int)
    ensures 46871 * (x * (r + w) + y * (g + w) + z * (b + w)) ==
            y * WeightedSum(r, g, b) + (46871 * x - 13933 * y) * r + (46871 * z - 4732 * y) * b
            + 46871 * ((x + y + z) * w)
  {
    assert y * WeightedSum(r, g, b) == 13933 * (y * r) + 46871 * (y * g) + 4732 * (y * b);
    assert (46871 * x - 13933 * y) * r == 46871 * (x * r) - 13933 * (y * r);
    assert (46871 * z - 4732 * y) * b == 46871 * (z * b) - 4732 * (y * b);
    assert x * (r + w) == x * r + x * w && y * (g + w) == y * g + y * w && z * (b + w) == z * b + z * w;
    assert (x + y + z) * w == x * w + y * w + z * w;
  }

  lemma SumWithin(x: int, y: int, z: int, r: int, g: int, b: int, w: int)
    requires SmallSum(x, y, z) && Refined8(r, g, b) && 0 <= w <= 1023
    ensures -LIMIT <= x * (r + w) + y * (g + w) + z * (b + w) <= LIMIT
  {
    WithoutGreen(x, y, z, r, g, b, w);
    ProductWithin(y, WeightedSum(r, g, b), 294908);
    ProductWithin(46871 * x - 13933 * y, r, 9216);
    ProductWithin(46871 * z - 4732 * y, b, 9216);
    ProductWithin(x + y + z, w, 1023);
    hide WeightedSum;
    var sum := x * (r + w) + y * (g + w) + z * (b + w);
    Within(sum, y * WeightedSum(r, g, b), (46871 * x - 13933 * y) * r, (46871 * z - 4732 * y) * b, (x + y + z) * w,
           Abs(y) * 294908, Abs(46871 * x - 13933 * y) * 9216, Abs(46871 * z - 4732 * y) * 9216, Abs(x + y + z) * 1023);
  }

  lemma Within(sum: int, a: int, b: int, c: int, d: int, a': int, b': int, c': int, d': int)
    requires 46871 * sum == a + b + c + 46871 * d && a' + b' + c' + 46871 * d' <= 46871 * LIMIT
    requires Abs(a) <= a' && Abs(b) <= b' && Abs(c) <= c' && Abs(d) <= d'
    ensures -LIMIT <= sum <= LIMIT
  {
  }

  // What a matrix row has to satisfy.
  predicate SmallRow(c: Coeffs) {
    && Abs(c.r) <= 190000 && Abs(c.g) <= 190000 && Abs(c.b) <= 190000
    && SmallSum(c.r, c.g, c.b) && SmallSum(c.r, c.g, 0) && 0 <= c.offset <= 0x200_0000
  }

  lemma SmallRowLossless(f: Format, c: Coeffs, r: int, g: int, b: int, w: int)
    requires f.Valid() && f.sfix == 2 && SmallRow(c) && Refined8(r, g, b) && 0 <= w <= 1023
    ensures Lossless(f, c, r + w, g + w, b + w)
  {
    hide SmallSum;
    SumWithin(c.r, c.g, c.b, r, g, b, w);
    SumWithin(c.r, c.g, 0, r, g, b, w);
    ProductWithin(c.r, r + w, 10239);
    ProductWithin(c.g, g + w, 10239);
    ProductWithin(c.b, b + w, 10239);
    assert 0 * (b + w) == 0;
    RoundedWithin(c.r * (r + w) + c.g * (g + w) + c.b * (b + w), c.offset);
    hide Pow2, Drift;
  }

  lemma RoundedWithin(sum: int, offset: int)
    requires -LIMIT <= sum <= LIMIT && 0 <= offset <= 0x200_0000
    ensures IsS32(sum + offset) && IsS32(sum + offset + Pow2(17)) && IsS16((sum + offset + Pow2(17)) / Pow2(18))
  {
    Pow2Values();
    Pow2Add(16, 1);
    Pow2Add(16, 2);
  }

  // Every row of every built-in matrix qualifies at either depth.
  lemma LumaRowsSmall(t: MatrixType)
    ensures var c := GetConversionMatrix(t).toY; SmallRow(c.(offset := c.offset * 4)) && SmallRow(From8To10(t).toY)
  {
  }

  lemma URowsSmall(t: MatrixType)
    ensures var c := GetConversionMatrix(t).toU; SmallRow(c.(offset := c.offset * 4)) && SmallRow(From8To10(t).toU)
  {
  }

  lemma VRowsSmall(t: MatrixType)
    ensures var c := GetConversionMatrix(t).toV; SmallRow(c.(offset := c.offset * 4)) && SmallRow(From8To10(t).toV)
  {
  }

  lemma BuiltInRowsSmall(t: MatrixType, yuvBitDepth: nat)
    requires yuvBitDepth == 8 || yuvBitDepth == 10
    ensures var f := OutputFormat(GetConversionMatrix(t), 8, yuvBitDepth);
            f.sfix == 2 && SmallRow(f.matrix.toY) && SmallRow(f.matrix.toU) && SmallRow(f.matrix.toV)
  {
    Powers();
    hide SmallRow, From8To10, GetConversionMatrix, Pow2;
    From8To10Is(t);
    LumaRowsSmall(t);
    URowsSmall(t);
    VRowsSmall(t);
  }

  // The three conversions made of luma sample (j, i) and of its chroma cell.
  ghost predicate PixelLossless(f: Format, img: Image, n: nat, m: nat, j: nat, i: nat)
    requires f.Valid() && img.Shape(n, m) && j < 2 * m && i < 2 * n
  {
    var uv, w := img.uvs[j / 2], img.ys[j / 2][LineOffset(j, n) + i];
    && Lossless(f, f.matrix.toY, uv.r[i / 2] + w, uv.g[i / 2] + w, uv.b[i / 2] + w)
    && Lossless(f, f.matrix.toU, uv.r[i / 2], uv.g[i / 2], uv.b[i / 2])
    && Lossless(f, f.matrix.toV, uv.r[i / 2], uv.g[i / 2], uv.b[i / 2])
  }

  // Whatever the picture, converting its refined image computes no sum that leaves int and
  // narrows no component that leaves int16: every Y, U and V is the clipped component itself.
  lemma EightBitOutputLossless(cfg: Config, src: Source, t: MatrixType, yuvBitDepth: nat, j: nat, i: nat)
    requires Fits(cfg, src, 8) && cfg.t.Tame(cfg.bitDepth) && (yuvBitDepth == 8 || yuvBitDepth == 10)
    requires j < 2 * src.Pairs() && i < 2 * src.Cells()
    ensures PixelLossless(OutputFormat(GetConversionMatrix(t), 8, yuvBitDepth), Refined(cfg, src, 8).best, src.Cells(),
            src.Pairs(), j, i)
  {
    hide Refined, Lossless, SmallRow, OutputFormat, GetConversionMatrix, SweptTriple, Refined8, Transfer.Tame,
         Source.Valid;
    var img, f := Refined(cfg, src, 8).best, OutputFormat(GetConversionMatrix(t), 8, yuvBitDepth);
    var uv := img.uvs[j / 2];
    var w := img.ys[j / 2][LineOffset(j, src.Cells()) + i];
    EightBitRun(cfg, src, j / 2);
    assert SweptTriple(uv.r[i / 2], uv.g[i / 2], uv.b[i / 2], Refined(cfg, src, 8).sweeps);
    Swept(uv.r[i / 2], uv.g[i / 2], uv.b[i / 2], Refined(cfg, src, 8).sweeps);
    RefinedLuma(cfg, src, 8);
    Pow2Values();
    assert AllWithin(img.ys[j / 2], 0, 1023);
    BuiltInRowsSmall(t, yuvBitDepth);
    SmallRowLossless(f, f.matrix.toY, uv.r[i / 2], uv.g[i / 2], uv.b[i / 2], w);
    SmallRowLossless(f, f.matrix.toU, uv.r[i / 2], uv.g[i / 2], uv.b[i / 2], 0);
    SmallRowLossless(f, f.matrix.toV, uv.r[i / 2], uv.g[i / 2], uv.b[i / 2], 0);
  }

  lemma Swept(r: int, g: int, b: int, sweeps: nat)
    requires SweptTriple(r, g, b, sweeps) && sweeps <= 4
    ensures Refined8(r, g, b)
  {
    hide RGBToGray, WeightedSum;
  }

  lemma RefinedLuma(cfg: Config, src: Source, rgbBitDepth: nat)
    requires Fits(cfg, src, rgbBitDepth)
    ensures Refined(cfg, src, rgbBitDepth).best.LumaWithin(cfg.Top())
  {
    hide Refined, AfterSweeps, SweepTo, Target, FirstGuess, Source.Valid, Image.LumaWithin;
    RefinedCounts(cfg, src, rgbBitDepth);
    ReachableLumaInRange(cfg, src, rgbBitDepth, Refined(cfg, src, rgbBitDepth).sweeps, 0);
  }
}
