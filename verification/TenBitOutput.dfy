// The conversion of a refined 10-bit picture to 10 bits with a built-in matrix: the C sums stay
// in int and the narrowing of each component to int16 loses nothing, even where the last sweep
// has wrapped a blue chroma store.
module TenBitOutput {
  import opened FixedPoint
  import opened Gamma
  import opened Rows
  import opened Measure
  import opened Sweep
  import opened Import
  import opened Driver
  import opened ColorSpace
  import opened Convert
  import opened ChromaRuns
  import opened TenBitRuns
  import opened EightBitOutput
  import opened ShallowOutput

  // Red and green as four sweeps leave them, blue as an int16 holds it, luma on top.
  const RED := 9 * 3225 + 4095
  const GREEN := 9 * 1167 + 4095
  const BLUE := 0x8000 + 4095

  const TOTAL := 0x7FFF_FFFF - 0x202_0000

  predicate TenBitRow(c: Coeffs) {
    Abs(c.r) * RED + Abs(c.g) * GREEN + Abs(c.b) * BLUE <= TOTAL && 0 <= c.offset <= 0x200_0000
  }

  predicate TenBitTriple(r: int, g: int, b: int) {
    Abs(r) <= RED && Abs(g) <= GREEN && Abs(b) <= BLUE
  }

  lemma TenBitRowLossless(f: Format, c: Coeffs, r: int, g: int, b: int)
    requires f.Valid() && f.sfix == 2 && TenBitRow(c) && TenBitTriple(r, g, b)
    ensures Lossless(f, c, r, g, b)
  {
    hide Lossless, SumsInInt32;
    ProductWithin(c.r, r, RED);
    ProductWithin(c.g, g, GREEN);
    ProductWithin(c.b, b, BLUE);
    TotalWithin(c.r * r, c.g * g, c.b * b, Abs(c.r) * RED, Abs(c.g) * GREEN, Abs(c.b) * BLUE, c.offset);
    Lossless2(f, c, r, g, b);
  }

  lemma TotalWithin(x: int, y: int, z: int, a: nat, b: nat, c: nat, offset: int)
    requires Abs(x) <= a && Abs(y) <= b && Abs(z) <= c && a + b + c <= TOTAL && 0 <= offset <= 0x200_0000
    ensures SumsInInt32(x, y, z, offset, 131072) && IsS16((x + y + z + offset + 131072) / 262144)
  {
  }

  lemma RowsQualify(t: MatrixType)
    ensures var m := GetConversionMatrix(t);
            && TenBitRow(m.toY.(offset := m.toY.offset * 4)) && TenBitRow(m.toU.(offset := m.toU.offset * 4))
            && TenBitRow(m.toV.(offset := m.toV.offset * 4))
  {
  }

  lemma BuiltInQualifies(t: MatrixType)
    ensures var f := OutputFormat(GetConversionMatrix(t), 10, 10);
            f.sfix == 2 && TenBitRow(f.matrix.toY) && TenBitRow(f.matrix.toU) && TenBitRow(f.matrix.toV)
  {
    Pow2Values();
    hide TenBitRow, GetConversionMatrix, Pow2;
    RowsQualify(t);
  }

  lemma RefinedTriple(cfg: Config, src: Source, k: nat, i: nat, w: int)
    requires Fits(cfg, src, 10) && cfg.t.Tame(cfg.bitDepth) && k < src.Pairs() && i < src.Cells() && 0 <= w <= 4095
    ensures var uv := Refined(cfg, src, 10).best.uvs[k];
            TenBitTriple(uv.r[i], uv.g[i], uv.b[i]) && TenBitTriple(uv.r[i] + w, uv.g[i] + w, uv.b[i] + w)
  {
    hide AfterSweeps, OwedChroma, Target, FirstGuess, Iterate, Transfer.Tame, Source.Valid;
    RefinedCounts(cfg, src, 10);
    var sweeps := Refined(cfg, src, 10).sweeps;
    RedAndGreenFit(cfg, src, sweeps, k);
    OwedChromaReached(cfg, src, sweeps, k);
    RefinedIsInt16(cfg, src, 10);
    var uv, owed := Refined(cfg, src, 10).best.uvs[k], OwedChroma(cfg, src, 10, sweeps, k);
    assert Reached(owed.r[i], owed.g[i], owed.b[i], 2 * sweeps + 1);
    assert uv.Within(-0x8000, 0x7FFF);
  }

  lemma TenBitOutputLossless(cfg: Config, src: Source, t: MatrixType, j: nat, i: nat)
    requires Fits(cfg, src, 10) && cfg.t.Tame(cfg.bitDepth) && j < 2 * src.Pairs() && i < 2 * src.Cells()
    ensures PixelLossless(OutputFormat(GetConversionMatrix(t), 10, 10), Refined(cfg, src, 10).best, src.Cells(),
                          src.Pairs(), j, i)
  {
    hide Refined, Lossless, TenBitRow, TenBitTriple, OutputFormat, GetConversionMatrix, Source.Valid, Transfer.Tame;
    var img, f := Refined(cfg, src, 10).best, OutputFormat(GetConversionMatrix(t), 10, 10);
    var uv, w := img.uvs[j / 2], img.ys[j / 2][LineOffset(j, src.Cells()) + i];
    RefinedLuma(cfg, src, 10);
    Pow2Values();
    assert AllWithin(img.ys[j / 2], 0, 4095);
    RefinedTriple(cfg, src, j / 2, i / 2, w);
    BuiltInQualifies(t);
    TenBitRowLossless(f, f.matrix.toY, uv.r[i / 2] + w, uv.g[i / 2] + w, uv.b[i / 2] + w);
    TenBitRowLossless(f, f.matrix.toU, uv.r[i / 2], uv.g[i / 2], uv.b[i / 2]);
    TenBitRowLossless(f, f.matrix.toV, uv.r[i / 2], uv.g[i / 2], uv.b[i / 2]);
  }
}
