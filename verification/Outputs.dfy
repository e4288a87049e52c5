// What comes out: every output sample as the rounded and clipped row of the matrix on the
// colour that stands there, and whole conversions of gray pictures and of single colours.
module Outputs {
  import opened FixedPoint
  import opened Gamma
  import opened Measure
  import opened Sweep
  import opened Import
  import opened ColorSpace
  import opened Driver
  import opened Convert
  import opened FixedPoints

  // The largest sample of a depth.
  function Largest(yuvBitDepth: nat): nat
    requires SupportedYuvDepth(yuvBitDepth)
  {
    if yuvBitDepth == 8 then 255 else if yuvBitDepth == 10 then 1023 else 4095
  }

  // v is the row of the matrix on (r, g, b), without its 16 + sfix fractional bits.
  predicate Weighs(c: Coeffs, sfix: int, r: int, g: int, b: int, v: int)
    requires sfix >= -15
  {
    RoundsTo(c.r * r + c.g * g + c.b * b + c.offset, Pow2(16 + sfix), v)
  }

  // out is v, or the nearest sample that there is.
  predicate Clips(yuvBitDepth: nat, v: int, out: int)
    requires SupportedYuvDepth(yuvBitDepth)
  {
    && (v < 0 ==> out == 0) && (v > Largest(yuvBitDepth) ==> out == Largest(yuvBitDepth))
    && (0 <= v <= Largest(yuvBitDepth) ==> out == v)
  }

  lemma ComponentWeighs(r: int, g: int, b: int, c: Coeffs, sfix: int, v: int)
    requires sfix >= -15 && Weighs(c, sfix, r, g, b, v)
    ensures Component(r, g, b, c, sfix) == v
  {
    var n, half := c.r * r + c.g * g + c.b * b + c.offset, Pow2(15 + sfix);
    assert Pow2(16 + sfix) == 2 * half;
    hide Pow2;
    RoundingIs(n, 2 * half, half, (n + half) / (2 * half));
    RoundingIsUnique(n, 2 * half, (n + half) / (2 * half), v);
  }

  // There is one such value for every colour, and no other.
  lemma WeighsOnce(r: int, g: int, b: int, c: Coeffs, sfix: int) returns (v: int)
    requires sfix >= -15
    ensures Weighs(c, sfix, r, g, b, v) && forall u :: Weighs(c, sfix, r, g, b, u) ==> u == v
  {
    var n, half := c.r * r + c.g * g + c.b * b + c.offset, Pow2(15 + sfix);
    assert Pow2(16 + sfix) == 2 * half;
    v := Component(r, g, b, c, sfix);
    hide Pow2;
    RoundingIs(n, 2 * half, half, v);
    hide Component;
    forall u | Weighs(c, sfix, r, g, b, u)
      ensures u == v
    {
      ComponentWeighs(r, g, b, c, sfix, u);
    }
  }

  // u is v as an int16 holds it.
  predicate WrapsTo(v: int, u: int) {
    IsS16(u) && (v - u) % 0x1_0000 == 0
  }

  lemma StoredClips(f: Format, v: int, u: int)
    requires SupportedYuvDepth(f.yuvBitDepth) && WrapsTo(v, u)
    ensures Clips(f.yuvBitDepth, u, f.Stored(v))
  {
    Pow2Values();
    hide Pow2;
    assert S16(v) == u;
  }

  // The value of one row on one colour, by way of an int16, as an output sample.
  ghost predicate Converts(f: Format, c: Coeffs, r: int, g: int, b: int, out: int)
    requires f.Valid() && SupportedYuvDepth(f.yuvBitDepth)
  {
    forall v, u :: Weighs(c, f.sfix, r, g, b, v) && WrapsTo(v, u) ==> Clips(f.yuvBitDepth, u, out)
  }

  lemma StoredConverts(f: Format, c: Coeffs, r: int, g: int, b: int)
    requires f.Valid() && SupportedYuvDepth(f.yuvBitDepth)
    ensures Converts(f, c, r, g, b, f.Stored(Component(r, g, b, c, f.sfix)))
  {
    hide Weighs, Component, Clips, WrapsTo, Format.Stored;
    forall v, u | Weighs(c, f.sfix, r, g, b, v) && WrapsTo(v, u)
      ensures Clips(f.yuvBitDepth, u, f.Stored(Component(r, g, b, c, f.sfix)))
    {
      ComponentWeighs(r, g, b, c, f.sfix, v);
      StoredClips(f, v, u);
    }
  }

  // Output Y at line j, column i is made of the refined luma there and of the chroma of cell
  // (j / 2, i / 2), red from red, green from green, blue from blue.
  lemma LumaOutput(f: Format, img: Image, n: nat, m: nat, j: nat, i: nat)
    requires f.Valid() && SupportedYuvDepth(f.yuvBitDepth) && img.Shape(n, m) && j < 2 * m && i < 2 * n
    ensures var w, uv := img.ys[j / 2][if j % 2 == 1 then 2 * n + i else i], img.uvs[j / 2];
            Converts(f, f.matrix.toY, uv.r[i / 2] + w, uv.g[i / 2] + w, uv.b[i / 2] + w, LumaPixel(f, img, n, m, j, i))
  {
    hide Converts, Component, Format.Stored;
    var w, uv := img.ys[j / 2][if j % 2 == 1 then 2 * n + i else i], img.uvs[j / 2];
    StoredConverts(f, f.matrix.toY, uv.r[i / 2] + w, uv.g[i / 2] + w, uv.b[i / 2] + w);
  }

  // Output U and V of cell (j, i) are made of its chroma alone.
  lemma ChromaOutput(f: Format, img: Image, n: nat, m: nat, j: nat, i: nat)
    requires f.Valid() && SupportedYuvDepth(f.yuvBitDepth) && img.Shape(n, m) && j < m && i < n
    ensures var uv := img.uvs[j];
            && Converts(f, f.matrix.toU, uv.r[i], uv.g[i], uv.b[i], UPixel(f, img, n, m, j, i))
            && Converts(f, f.matrix.toV, uv.r[i], uv.g[i], uv.b[i], VPixel(f, img, n, m, j, i))
  {
    hide Converts, Component, Format.Stored;
    var uv := img.uvs[j];
    StoredConverts(f, f.matrix.toU, uv.r[i], uv.g[i], uv.b[i]);
    StoredConverts(f, f.matrix.toV, uv.r[i], uv.g[i], uv.b[i]);
  }

  // How a matrix is prepared: 16 + 2 fractional bits, 16 - 2 for 16-bit input; coefficients of
  // another depth in the ratio of the largest samples, toward zero from half a unit up.
  lemma FormatIs(m: Matrix, rgbBitDepth: nat, yuvBitDepth: nat)
    requires SupportedDepth(rgbBitDepth) && SupportedYuvDepth(yuvBitDepth)
    ensures var f := OutputFormat(m, rgbBitDepth, yuvBitDepth);
            && f.yuvBitDepth == yuvBitDepth && f.sfix == (if rgbBitDepth == 16 then -2 else 2)
            && RowPrepared(m.toY, f.matrix.toY, rgbBitDepth, yuvBitDepth)
            && RowPrepared(m.toU, f.matrix.toU, rgbBitDepth, yuvBitDepth)
            && RowPrepared(m.toV, f.matrix.toV, rgbBitDepth, yuvBitDepth)
  {
    hide RowPrepared, ScaledRow;
    RowIsPrepared(m.toY, rgbBitDepth, yuvBitDepth);
    RowIsPrepared(m.toU, rgbBitDepth, yuvBitDepth);
    RowIsPrepared(m.toV, rgbBitDepth, yuvBitDepth);
  }

  predicate RowPrepared(c: Coeffs, d: Coeffs, rgbBitDepth: nat, yuvBitDepth: nat)
    requires SupportedDepth(rgbBitDepth) && SupportedYuvDepth(yuvBitDepth)
  {
    && (rgbBitDepth != 16 ==> d.offset == 4 * c.offset)
    && (rgbBitDepth == 16 ==> 4 * d.offset <= c.offset < 4 * d.offset + 4)
    && (rgbBitDepth == yuvBitDepth ==> d.r == c.r && d.g == c.g && d.b == c.b)
    && (rgbBitDepth != yuvBitDepth ==>
          var m, k := if rgbBitDepth == 16 then 65535 else Largest(rgbBitDepth), Largest(yuvBitDepth);
          InRatio(c.r, d.r, m, k) && InRatio(c.g, d.g, m, k) && InRatio(c.b, d.b, m, k))
  }

  lemma RowIsPrepared(c: Coeffs, rgbBitDepth: nat, yuvBitDepth: nat)
    requires SupportedDepth(rgbBitDepth) && SupportedYuvDepth(yuvBitDepth)
    ensures RowPrepared(c, ScaledRow(c, rgbBitDepth, yuvBitDepth), rgbBitDepth, yuvBitDepth)
  {
    hide RescaleCoeff, InRatio;
    LargestIs(rgbBitDepth, yuvBitDepth);
    ShiftIs(c.offset, 2);
    hide Shift, Pow2, MaxY;
    RescaleIs(c.r, rgbBitDepth, yuvBitDepth);
    RescaleIs(c.g, rgbBitDepth, yuvBitDepth);
    RescaleIs(c.b, rgbBitDepth, yuvBitDepth);
  }

  lemma LargestIs(rgbBitDepth: nat, yuvBitDepth: nat)
    requires SupportedDepth(rgbBitDepth) && SupportedYuvDepth(yuvBitDepth)
    ensures MaxY(rgbBitDepth) == (if rgbBitDepth == 16 then 65535 else Largest(rgbBitDepth))
    ensures MaxY(yuvBitDepth) == Largest(yuvBitDepth) && Pow2(2) == 4
  {
    Pow2Values();
  }

  // ---- Gray pictures ----

  // Under any curve, the output Y of a gray picture is at every place the luma row of the
  // matrix on the gray of the picture there.
  lemma GrayPictureConverts(cfg: Config, src: Source, rgbBitDepth: nat, f: Format, outY: array2<int>,
                            outU: array2<int>, outV: array2<int>, j: nat, i: nat)
    requires Fits(cfg, src, rgbBitDepth) && GrayPicture(src) && f.Valid() && SupportedYuvDepth(f.yuvBitDepth)
    requires OutputFor(src.width, src.height, outY, outU, outV) && j < src.height && i < src.width
    requires ShowsRefined(f, cfg, src, rgbBitDepth, outY, outU, outV)
    ensures var v := Scaled(src.r[j][i], rgbBitDepth); Converts(f, f.matrix.toY, v, v, v, outY[j, i])
    ensures Converts(f, f.matrix.toU, 0, 0, 0, outU[j / 2, i / 2])
    ensures Converts(f, f.matrix.toV, 0, 0, 0, outV[j / 2, i / 2])
  {
    hide Refined, Converts, Scaled, FirstGuess, PaddedPair, LumaPixel, UPixel, VPixel, Source.Channel, Config.Valid;
    var img, n, m := Refined(cfg, src, rgbBitDepth).best, src.Cells(), src.Pairs();
    GrayPictureRun(cfg, src, rgbBitDepth);
    PaddedPicture(cfg, src, rgbBitDepth, j / 2, i);
    LumaOutput(f, img, n, m, j, i);
    ChromaOutput(f, img, n, m, j / 2, i / 2);
    assert j == 2 * (j / 2) + j % 2;
  }

  // ---- Single colours ----

  // Under the linear curve, the output Y of a picture of one colour is at every place the
  // luma row of the matrix on that colour, scaled channel by channel; U and V are what their
  // rows make of it, if they sum to zero.
  lemma ConstantPictureConverts(cfg: Config, src: Source, rgbBitDepth: nat, r: int, g: int, b: int, f: Format,
                                outY: array2<int>, outU: array2<int>, outV: array2<int>, j: nat, i: nat)
    requires Fits(cfg, src, rgbBitDepth) && cfg.t == Linear && ConstantPicture(src, r, g, b)
    requires f.Valid() && SupportedYuvDepth(f.yuvBitDepth)
    requires OutputFor(src.width, src.height, outY, outU, outV) && j < src.height && i < src.width
    requires ShowsRefined(f, cfg, src, rgbBitDepth, outY, outU, outV)
    ensures var r', g', b' := Scaled(r, rgbBitDepth), Scaled(g, rgbBitDepth), Scaled(b, rgbBitDepth);
            && Converts(f, f.matrix.toY, r', g', b', outY[j, i])
            && (f.matrix.toU.Sum() == 0 ==> Converts(f, f.matrix.toU, r', g', b', outU[j / 2, i / 2]))
            && (f.matrix.toV.Sum() == 0 ==> Converts(f, f.matrix.toV, r', g', b', outV[j / 2, i / 2]))
  {
    hide Refined, Converts, Scaled, ConstantPicture, Format.Stored, Component, Source.Channel, Config.Valid;
    var r', g', b' := Scaled(r, rgbBitDepth), Scaled(g, rgbBitDepth), Scaled(b, rgbBitDepth);
    ConstantPictureLuma(cfg, src, rgbBitDepth, r, g, b, f, j, i);
    ConstantPictureChroma(cfg, src, rgbBitDepth, r, g, b, f, j / 2, i / 2);
    StoredConverts(f, f.matrix.toY, r', g', b');
    StoredConverts(f, f.matrix.toU, r', g', b');
    StoredConverts(f, f.matrix.toV, r', g', b');
  }

  // U and V for any row: what it makes of the distance of the colour from its gray w.
  lemma ConstantPictureChromaConverts(cfg: Config, src: Source, rgbBitDepth: nat, r: int, g: int, b: int, f: Format,
                                      outY: array2<int>, outU: array2<int>, outV: array2<int>, j: nat, i: nat, w: int)
    requires Fits(cfg, src, rgbBitDepth) && cfg.t == Linear && ConstantPicture(src, r, g, b)
    requires f.Valid() && SupportedYuvDepth(f.yuvBitDepth)
    requires OutputFor(src.width, src.height, outY, outU, outV) && j < src.Pairs() && i < src.Cells()
    requires ShowsRefined(f, cfg, src, rgbBitDepth, outY, outU, outV)
    requires RoundsTo(13933 * Scaled(r, rgbBitDepth) + 46871 * Scaled(g, rgbBitDepth) + 4732 * Scaled(b, rgbBitDepth),
                      65536, w)
    ensures var r', g', b' := Scaled(r, rgbBitDepth) - w, Scaled(g, rgbBitDepth) - w, Scaled(b, rgbBitDepth) - w;
            Converts(f, f.matrix.toU, r', g', b', outU[j, i]) && Converts(f, f.matrix.toV, r', g', b', outV[j, i])
  {
    hide Refined, FirstGuess, Converts, Scaled, ConstantPicture, UPixel, VPixel, RGBToGray, Source.Channel,
         Config.Valid, RoundsTo;
    GrayIsRounded(Scaled(r, rgbBitDepth), Scaled(g, rgbBitDepth), Scaled(b, rgbBitDepth), w);
    ConstantPictureRun(cfg, src, rgbBitDepth, r, g, b);
    ConstantSettled(cfg, src, rgbBitDepth, r, g, b, j);
    ChromaOutput(f, Refined(cfg, src, rgbBitDepth).best, src.Cells(), src.Pairs(), j, i);
  }

  // The primary colours at 8 bits, with the matrix that WebP uses.
  function PrimaryY(r: int, g: int, b: int): int {
    if r == 255 then 82 else if g == 255 then 145 else 41
  }

  function PrimaryU(r: int, g: int, b: int): int {
    if r == 255 then 90 else if g == 255 then 54 else 240
  }

  function PrimaryV(r: int, g: int, b: int): int {
    if r == 255 then 240 else if g == 255 then 34 else 110
  }

  lemma PrimaryPicture(cfg: Config, src: Source, r: int, g: int, b: int, outY: array2<int>, outU: array2<int>,
                       outV: array2<int>, j: nat, i: nat)
    requires Fits(cfg, src, 8) && cfg.t == Linear && ConstantPicture(src, r, g, b)
    requires (r, g, b) == (255, 0, 0) || (r, g, b) == (0, 255, 0) || (r, g, b) == (0, 0, 255)
    requires OutputFor(src.width, src.height, outY, outU, outV) && j < src.height && i < src.width
    requires ShowsRefined(OutputFormat(GetConversionMatrix(WebP), 8, 8), cfg, src, 8, outY, outU, outV)
    ensures outY[j, i] == PrimaryY(r, g, b)
    ensures outU[j / 2, i / 2] == PrimaryU(r, g, b) && outV[j / 2, i / 2] == PrimaryV(r, g, b)
  {
    hide Refined, Converts, Scaled, ConstantPicture, OutputFormat, Source.Channel, Config.Valid, GetConversionMatrix;
    var f := OutputFormat(GetConversionMatrix(WebP), 8, 8);
    WebPFormat();
    ConstantPictureConverts(cfg, src, 8, r, g, b, f, outY, outU, outV, j, i);
    PrimaryScaled();
    PrimaryConverts(f, r, g, b, outY[j, i], outU[j / 2, i / 2], outV[j / 2, i / 2]);
  }

  lemma PrimaryScaled()
    ensures Scaled(0, 8) == 0 && Scaled(255, 8) == 1020
  {
    Pow2Values();
  }

  lemma WebPFormat()
    ensures OutputFormat(GetConversionMatrix(WebP), 8, 8) ==
            Format(Matrix(Coeffs(16839, 33059, 6420, 0x40_0000), Coeffs(-9719, -19081, 28800, 0x200_0000),
                          Coeffs(28800, -24116, -4684, 0x200_0000)), 2, 8)
  {
    Pow2Values();
    hide Pow2;
  }

  lemma PrimaryConverts(f: Format, r: int, g: int, b: int, y: int, u: int, v: int)
    requires f == OutputFormat(GetConversionMatrix(WebP), 8, 8)
    requires (r, g, b) == (255, 0, 0) || (r, g, b) == (0, 255, 0) || (r, g, b) == (0, 0, 255)
    requires Converts(f, f.matrix.toY, 4 * r, 4 * g, 4 * b, y) && Converts(f, f.matrix.toU, 4 * r, 4 * g, 4 * b, u)
             && Converts(f, f.matrix.toV, 4 * r, 4 * g, 4 * b, v)
    ensures y == PrimaryY(r, g, b) && u == PrimaryU(r, g, b) && v == PrimaryV(r, g, b)
  {
    WebPFormat();
    Pow2Values();
    Pow2Add(16, 2);
    hide OutputFormat, GetConversionMatrix, Pow2;
    assert WrapsTo(PrimaryY(r, g, b), PrimaryY(r, g, b)) && WrapsTo(PrimaryU(r, g, b), PrimaryU(r, g, b))
           && WrapsTo(PrimaryV(r, g, b), PrimaryV(r, g, b));
    assert Weighs(f.matrix.toY, 2, 4 * r, 4 * g, 4 * b, PrimaryY(r, g, b));
    assert Weighs(f.matrix.toU, 2, 4 * r, 4 * g, 4 * b, PrimaryU(r, g, b));
    assert Weighs(f.matrix.toV, 2, 4 * r, 4 * g, 4 * b, PrimaryV(r, g, b));
  }
}
