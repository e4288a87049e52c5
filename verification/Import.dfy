// Importing the RGB picture: pad to even size by edge replication, scale to the working
// depth, and derive the first guess and the targets of the refinement.
module Import {
  import opened FixedPoint
  import opened Gamma
  import opened Kernels
  import opened Rows
  import opened Measure
  import opened Sweep
  import opened Refine

  // The source picture, one sequence per scan line and channel.
  datatype Source = Source(r: seq<seq<int>>, g: seq<seq<int>>, b: seq<seq<int>>, width: nat, height: nat) {
    ghost predicate Valid(rgbBitDepth: nat) {
      width >= 1 && height >= 1 && Channel(r, rgbBitDepth) && Channel(g, rgbBitDepth) && Channel(b, rgbBitDepth)
    }

    ghost predicate Channel(c: seq<seq<int>>, rgbBitDepth: nat) {
      && |c| == height
      && (forall j :: 0 <= j < height ==> |c[j]| == width)
      && (forall j :: 0 <= j < height ==> AllWithin(c[j], 0, MaxY(rgbBitDepth)))
    }

    // Chroma cells per row, and row pairs, after rounding the size up to even.
    function Cells(): nat {
      (width + 1) / 2
    }

    function Pairs(): nat {
      (height + 1) / 2
    }
  }

  predicate SupportedDepth(rgbBitDepth: nat) {
    rgbBitDepth == 8 || rgbBitDepth == 10 || rgbBitDepth == 12 || rgbBitDepth == 16
  }

  function WorkDepth(rgbBitDepth: nat): (d: nat)
    requires SupportedDepth(rgbBitDepth)
    ensures d == (if rgbBitDepth == 8 then 10 else if rgbBitDepth == 10 then 12 else 14)
  {
    rgbBitDepth + PrecisionShift(rgbBitDepth)
  }

  // A sample scaled to the working depth, as stored in a uint16.
  function Scaled(v: int, rgbBitDepth: nat): int {
    U16(Shift(v, PrecisionShift(rgbBitDepth)))
  }

  // One scan line of w samples: scaled, with the last column replicated.
  function PaddedLine(line: seq<int>, w: nat, rgbBitDepth: nat): (p: seq<int>)
    requires |line| >= 1
    ensures |p| == w
  {
    seq(w, i requires 0 <= i < w => Scaled(line[Min(i, |line| - 1)], rgbBitDepth))
  }

  // Scan line j of the padded picture; lines below the picture repeat the last one.
  function PaddedRow(src: Source, rgbBitDepth: nat, j: nat): (rgb: Planes)
    requires src.Valid(rgbBitDepth)
    ensures rgb.Shape(2 * src.Cells())
  {
    var line, w := Min(j, src.height - 1), 2 * src.Cells();
    Planes(PaddedLine(src.r[line], w, rgbBitDepth), PaddedLine(src.g[line], w, rgbBitDepth),
        PaddedLine(src.b[line], w, rgbBitDepth))
  }

  // Scaling keeps every sample within the working depth, and the store loses nothing.
  lemma ScaledInRange(v: int, rgbBitDepth: nat)
    requires SupportedDepth(rgbBitDepth) && 0 <= v <= MaxY(rgbBitDepth)
    ensures Scaled(v, rgbBitDepth) == Shift(v, PrecisionShift(rgbBitDepth))
    ensures 0 <= Scaled(v, rgbBitDepth) <= MaxY(WorkDepth(rgbBitDepth))
  {
    Pow2Values();
  }

  // The source does not reject deeper samples in 16-bit storage. These are the ones for which
  // the to-linear table, guard entry included, is still large enough.
  lemma DeepSamplesExactly(v: nat, rgbBitDepth: nat)
    requires (rgbBitDepth == 10 || rgbBitDepth == 12 || rgbBitDepth == 16) && v <= 0xFFFF
    ensures Scaled(v, rgbBitDepth) >= 0
    ensures var pos := TabPos(Scaled(v, rgbBitDepth), WorkDepth(rgbBitDepth) - TO_LINEAR_TAB_BITS);
            pos + 1 < Pow2(TO_LINEAR_TAB_BITS) + 2
            <==> (rgbBitDepth == 10 ==> v % 0x4000 <= 1024) && (rgbBitDepth == 12 ==> v % 0x4000 < 4100)
  {
    DeepScaled(v, rgbBitDepth);
    DeepLimits();
    hide Pow2, TabPos, Scaled;
    ToLinearIndexExactly(Scaled(v, rgbBitDepth), WorkDepth(rgbBitDepth));
  }

  lemma DeepScaled(v: nat, rgbBitDepth: nat)
    requires (rgbBitDepth == 10 || rgbBitDepth == 12 || rgbBitDepth == 16) && v <= 0xFFFF
    ensures Scaled(v, rgbBitDepth) == if rgbBitDepth == 16 then v / 4 else 4 * (v % 0x4000)
  {
    Pow2Values();
    hide Pow2;
    assert 4 * v == 0x1_0000 * (v / 0x4000) + 4 * (v % 0x4000);
  }

  lemma DeepLimits()
    ensures Pow2(12) + Pow2(2) == 4100 && Pow2(14) + Pow2(4) == 16400 && Pow2(TO_LINEAR_TAB_BITS) + 2 == 1026
  {
    Pow2Values();
  }

  // A full 16-bit sample in a 10-bit picture is stored as 65532 and asks for entries 16383 and
  // 16384 of the 1026.
  lemma DeepSampleOutside()
    ensures Scaled(65535, 10) == 65532 && TabPos(65532, 2) == 16383 && Pow2(TO_LINEAR_TAB_BITS) + 2 == 1026
  {
    Pow2Values();
    hide Pow2;
  }

  lemma PaddedRowInRange(src: Source, rgbBitDepth: nat, j: nat)
    requires SupportedDepth(rgbBitDepth) && src.Valid(rgbBitDepth)
    ensures PaddedRow(src, rgbBitDepth, j).Within(0, MaxY(WorkDepth(rgbBitDepth)))
  {
    PaddedLineInRange(src.r[Min(j, src.height - 1)], 2 * src.Cells(), rgbBitDepth);
    PaddedLineInRange(src.g[Min(j, src.height - 1)], 2 * src.Cells(), rgbBitDepth);
    PaddedLineInRange(src.b[Min(j, src.height - 1)], 2 * src.Cells(), rgbBitDepth);
  }

  lemma PaddedLineInRange(line: seq<int>, w: nat, rgbBitDepth: nat)
    requires SupportedDepth(rgbBitDepth) && |line| >= 1 && AllWithin(line, 0, MaxY(rgbBitDepth))
    ensures AllWithin(PaddedLine(line, w, rgbBitDepth), 0, MaxY(WorkDepth(rgbBitDepth)))
  {
    hide Scaled, MaxY;
    forall i | 0 <= i < w
      ensures 0 <= PaddedLine(line, w, rgbBitDepth)[i] <= MaxY(WorkDepth(rgbBitDepth))
    {
      ScaledInRange(line[Min(i, |line| - 1)], rgbBitDepth);
    }
  }

  ghost predicate Fits(cfg: Config, src: Source, rgbBitDepth: nat) {
    && SupportedDepth(rgbBitDepth) && src.Valid(rgbBitDepth)
    && cfg.Valid() && cfg.bitDepth == WorkDepth(rgbBitDepth)
  }

  // The two padded lines of row pair k.
  function PaddedPair(cfg: Config, src: Source, rgbBitDepth: nat, k: nat): (p: (Planes, Planes))
    requires Fits(cfg, src, rgbBitDepth)
    ensures RowPair(cfg, p.0, p.1, src.Cells())
  {
    PaddedRowInRange(src, rgbBitDepth, 2 * k);
    PaddedRowInRange(src, rgbBitDepth, 2 * k + 1);
    (PaddedRow(src, rgbBitDepth, 2 * k), PaddedRow(src, rgbBitDepth, 2 * k + 1))
  }

  function TargetPair(cfg: Config, src: Source, rgbBitDepth: nat, k: nat): (p: Pair)
    requires Fits(cfg, src, rgbBitDepth)
    ensures PairShape(p, src.Cells())
  {
    var rows := PaddedPair(cfg, src, rgbBitDepth, k);
    Measured(cfg, src.Cells(), rows.0, rows.1)
  }

  function FirstLuma(cfg: Config, src: Source, rgbBitDepth: nat, k: nat): (y: seq<int>)
    requires Fits(cfg, src, rgbBitDepth)
    ensures |y| == 4 * src.Cells()
  {
    var rows := PaddedPair(cfg, src, rgbBitDepth, k);
    GrayRow(rows.0) + GrayRow(rows.1)
  }

  // What every row pair should measure as once reconstructed.
  function Target(cfg: Config, src: Source, rgbBitDepth: nat): (img: Image)
    requires Fits(cfg, src, rgbBitDepth)
    ensures img.Shape(src.Cells(), src.Pairs())
  {
    Image(seq(src.Pairs(), k requires 0 <= k < src.Pairs() => TargetPair(cfg, src, rgbBitDepth, k).y),
          seq(src.Pairs(), k requires 0 <= k < src.Pairs() => TargetPair(cfg, src, rgbBitDepth, k).uv))
  }

  // The image the refinement starts from: plain gray luma over the target chroma.
  function FirstGuess(cfg: Config, src: Source, rgbBitDepth: nat): (img: Image)
    requires Fits(cfg, src, rgbBitDepth)
    ensures img.Shape(src.Cells(), src.Pairs())
  {
    Image(seq(src.Pairs(), k requires 0 <= k < src.Pairs() => FirstLuma(cfg, src, rgbBitDepth, k)),
          Target(cfg, src, rgbBitDepth).uvs)
  }

  // ---- The padded picture, sample by sample ----

  // The line or column of the picture that is used for one of the padded picture.
  function Clamped(j: nat, size: nat): (r: nat)
    requires size >= 1
    ensures j < size ==> r == j
    ensures j >= size ==> r == size - 1
  {
    Min(j, size - 1)
  }

  // Samples of up to 12 bits gain two, and 16-bit ones lose two.
  lemma ScaledIs(v: int, rgbBitDepth: nat)
    requires SupportedDepth(rgbBitDepth) && 0 <= v <= MaxY(rgbBitDepth)
    ensures rgbBitDepth != 16 ==> Scaled(v, rgbBitDepth) == 4 * v
    ensures rgbBitDepth == 16 ==> 4 * Scaled(v, rgbBitDepth) <= v <= 4 * Scaled(v, rgbBitDepth) + 3
  {
    ScaledInRange(v, rgbBitDepth);
    Pow2Values();
  }

  // Line 0 or 1 of row pair k is the scaled line of the picture, and where the picture has an
  // odd height the last line is there twice; columns likewise.
  lemma PaddedPicture(cfg: Config, src: Source, rgbBitDepth: nat, k: nat, i: nat)
    requires Fits(cfg, src, rgbBitDepth) && k < src.Pairs() && i < 2 * src.Cells()
    ensures src.height <= 2 * src.Pairs() <= src.height + 1 && src.width <= 2 * src.Cells() <= src.width + 1
    ensures var rows := PaddedPair(cfg, src, rgbBitDepth, k);
            var j, j', i' := Clamped(2 * k, src.height), Clamped(2 * k + 1, src.height), Clamped(i, src.width);
            && rows.0.r[i] == Scaled(src.r[j][i'], rgbBitDepth) && rows.1.r[i] == Scaled(src.r[j'][i'], rgbBitDepth)
            && rows.0.g[i] == Scaled(src.g[j][i'], rgbBitDepth) && rows.1.g[i] == Scaled(src.g[j'][i'], rgbBitDepth)
            && rows.0.b[i] == Scaled(src.b[j][i'], rgbBitDepth) && rows.1.b[i] == Scaled(src.b[j'][i'], rgbBitDepth)
  {
    hide Scaled, MaxY;
  }

  // Where the height is odd, both lines of the last row pair are the last line.
  lemma LastLineTwice(cfg: Config, src: Source, rgbBitDepth: nat, i: nat)
    requires Fits(cfg, src, rgbBitDepth) && src.height % 2 == 1 && i < src.width
    ensures var rows, last := PaddedPair(cfg, src, rgbBitDepth, src.Pairs() - 1), src.height - 1;
            && rows.0 == rows.1
            && rows.1.r[i] == Scaled(src.r[last][i], rgbBitDepth)
            && rows.1.g[i] == Scaled(src.g[last][i], rgbBitDepth)
            && rows.1.b[i] == Scaled(src.b[last][i], rgbBitDepth)
  {
    hide Scaled, MaxY;
    var k := src.Pairs() - 1;
    PaddedPicture(cfg, src, rgbBitDepth, k, i);
    var rows := PaddedPair(cfg, src, rgbBitDepth, k);
    forall x | 0 <= x < 2 * src.Cells()
      ensures rows.0.r[x] == rows.1.r[x] && rows.0.g[x] == rows.1.g[x] && rows.0.b[x] == rows.1.b[x]
    {
      PaddedPicture(cfg, src, rgbBitDepth, k, x);
    }
    assert rows.0.r == rows.1.r && rows.0.g == rows.1.g && rows.0.b == rows.1.b;
  }

  // The scaled colour at line j, column i of the padded picture.
  function ColourAt(src: Source, rgbBitDepth: nat, j: nat, i: nat): (int, int, int)
    requires src.Valid(rgbBitDepth)
  {
    var j', i' := Clamped(j, src.height), Clamped(i, src.width);
    (Scaled(src.r[j'][i'], rgbBitDepth), Scaled(src.g[j'][i'], rgbBitDepth), Scaled(src.b[j'][i'], rgbBitDepth))
  }

  lemma ColourInRange(cfg: Config, src: Source, rgbBitDepth: nat, j: nat, i: nat)
    requires Fits(cfg, src, rgbBitDepth)
    ensures var c := ColourAt(src, rgbBitDepth, j, i);
            0 <= c.0 <= cfg.Top() && 0 <= c.1 <= cfg.Top() && 0 <= c.2 <= cfg.Top() <= 16383
  {
    hide Scaled, MaxY, Config.Valid;
    var j', i' := Clamped(j, src.height), Clamped(i, src.width);
    assert AllWithin(src.r[j'], 0, MaxY(rgbBitDepth)) && AllWithin(src.g[j'], 0, MaxY(rgbBitDepth))
           && AllWithin(src.b[j'], 0, MaxY(rgbBitDepth));
    ScaledInRange(src.r[j'][i'], rgbBitDepth);
    ScaledInRange(src.g[j'][i'], rgbBitDepth);
    ScaledInRange(src.b[j'][i'], rgbBitDepth);
    TopAtMost14Bits(cfg);
  }

  // The first guess at line j, column i is the gray of the colour there.
  lemma FirstGuessIs(cfg: Config, src: Source, rgbBitDepth: nat, j: nat, i: nat)
    requires Fits(cfg, src, rgbBitDepth) && j < 2 * src.Pairs() && i < 2 * src.Cells()
    ensures var c := ColourAt(src, rgbBitDepth, j, i);
            var y := FirstGuess(cfg, src, rgbBitDepth).ys[j / 2][LineOffset(j, src.Cells()) + i];
            RoundsTo(13933 * c.0 + 46871 * c.1 + 4732 * c.2, 65536, y)
  {
    hide PaddedPair, RoundsTo, Scaled, MaxY, Config.Valid, Source.Channel, Target;
    var c := ColourAt(src, rgbBitDepth, j, i);
    PaddedPicture(cfg, src, rgbBitDepth, j / 2, i);
    ColourInRange(cfg, src, rgbBitDepth, j, i);
    GrayRange(c.0, c.1, c.2, 0, 16383);
    GrayRounds(c.0, c.1, c.2);
    hide RGBToGray, WeightedSum;
    assert j == 2 * (j / 2) + j % 2;
  }

  // The luma to be measured there is its luma in linear light.
  lemma TargetLumaIs(cfg: Config, src: Source, rgbBitDepth: nat, j: nat, i: nat)
    requires Fits(cfg, src, rgbBitDepth) && j < 2 * src.Pairs() && i < 2 * src.Cells()
    ensures var c := ColourAt(src, rgbBitDepth, j, i);
            && 0 <= c.0 <= cfg.Top() && 0 <= c.1 <= cfg.Top() && 0 <= c.2 <= cfg.Top()
            && Target(cfg, src, rgbBitDepth).ys[j / 2][LineOffset(j, src.Cells()) + i] ==
               LumaOf(c.0, c.1, c.2, cfg.bitDepth, cfg.t)
  {
    hide PaddedPair, Scaled, MaxY, Config.Valid, Source.Channel, LumaOf, ChromaRow;
    PaddedPicture(cfg, src, rgbBitDepth, j / 2, i);
    ColourInRange(cfg, src, rgbBitDepth, j, i);
    assert j == 2 * (j / 2) + j % 2;
  }

  // The chroma to be measured in cell (k, i), and the first guess of it, is what the means of
  // its four colours are away from the gray w of the three means.
  lemma TargetChromaIs(cfg: Config, src: Source, rgbBitDepth: nat, k: nat, i: nat, r: nat, g: nat, b: nat, w: int)
    requires Fits(cfg, src, rgbBitDepth) && cfg.t.Tame(cfg.bitDepth) && k < src.Pairs() && i < src.Cells()
    requires var p, q := ColourAt(src, rgbBitDepth, 2 * k, 2 * i), ColourAt(src, rgbBitDepth, 2 * k, 2 * i + 1);
             var s, t := ColourAt(src, rgbBitDepth, 2 * k + 1, 2 * i), ColourAt(src, rgbBitDepth, 2 * k + 1, 2 * i + 1);
             MeansAre(cfg, p, q, s, t, r, g, b)
    requires RoundsTo(13933 * r + 46871 * g + 4732 * b, 65536, w)
    ensures var uv := Target(cfg, src, rgbBitDepth).uvs[k];
            uv.r[i] == r - w && uv.g[i] == g - w && uv.b[i] == b - w
    ensures FirstGuess(cfg, src, rgbBitDepth).uvs[k] == Target(cfg, src, rgbBitDepth).uvs[k]
  {
    hide PaddedPair, Scaled, MaxY, Source.Channel, ScaleDown, LumaRow, RGBToGray, RoundsTo, Transfer.Tame;
    PaddedPicture(cfg, src, rgbBitDepth, k, 2 * i);
    PaddedPicture(cfg, src, rgbBitDepth, k, 2 * i + 1);
    var rows := PaddedPair(cfg, src, rgbBitDepth, k);
    MeanIsMean(cfg, rows.0.r, rows.1.r, i);
    MeanIsMean(cfg, rows.0.g, rows.1.g, i);
    MeanIsMean(cfg, rows.0.b, rows.1.b, i);
    GrayIsRounded(r, g, b, w);
    GrayRange(r, g, b, 0, 16384);
  }

  ghost predicate MeansAre(cfg: Config, p: (int, int, int), q: (int, int, int), s: (int, int, int), t: (int, int, int),
                           r: nat, g: nat, b: nat)
    requires cfg.Valid()
  {
    && MeanIs(cfg, p.0, q.0, s.0, t.0, r) && MeanIs(cfg, p.1, q.1, s.1, t.1, g) && MeanIs(cfg, p.2, q.2, s.2, t.2, b)
  }

  ghost predicate MeanIs(cfg: Config, p: int, q: int, s: int, t: int, m: nat)
    requires cfg.Valid()
  {
    && 0 <= p <= cfg.Top() && 0 <= q <= cfg.Top() && 0 <= s <= cfg.Top() && 0 <= t <= cfg.Top()
    && m == ScaleDown(p, q, s, t, cfg.bitDepth, cfg.t)
  }

  lemma MeanIsMean(cfg: Config, p1: seq<int>, p2: seq<int>, i: nat)
    requires cfg.Valid() && cfg.t.Tame(cfg.bitDepth) && |p1| == |p2| && 2 * i + 1 < |p1|
    requires AllWithin(p1, 0, cfg.Top()) && AllWithin(p2, 0, cfg.Top())
    ensures MeanIs(cfg, p1[2 * i], p1[2 * i + 1], p2[2 * i], p2[2 * i + 1], BlockMean(cfg, p1, p2, i))
    ensures BlockMean(cfg, p1, p2, i) <= 16384
  {
    hide ScaleDown;
    MeanAndLumaRange(p1[2 * i], p1[2 * i + 1], p2[2 * i], p2[2 * i + 1], cfg.bitDepth, cfg.t);
    Pow2AtMost14(cfg.bitDepth);
  }

  lemma GrayRounds(r: int, g: int, b: int)
    ensures RoundsTo(13933 * r + 46871 * g + 4732 * b, 65536, RGBToGray(r, g, b))
  {
    RoundingIs(WeightedSum(r, g, b), 65536, YUV_HALF, RGBToGray(r, g, b));
  }

  lemma GrayIsRounded(r: int, g: int, b: int, w: int)
    requires RoundsTo(13933 * r + 46871 * g + 4732 * b, 65536, w)
    ensures RGBToGray(r, g, b) == w
  {
    GrayRounds(r, g, b);
    RoundingIsUnique(WeightedSum(r, g, b), 65536, RGBToGray(r, g, b), w);
  }

  lemma PaddedSample(line: seq<int>, w: nat, rgbBitDepth: nat, i: nat)
    requires |line| >= 1 && i < w
    ensures i < |line| ==> PaddedLine(line, w, rgbBitDepth)[i] == Scaled(line[i], rgbBitDepth)
    ensures i == |line| ==> PaddedLine(line, w, rgbBitDepth)[i] == PaddedLine(line, w, rgbBitDepth)[i - 1]
  {
  }

  // The pixel loop of ImportOneRow.
  method ImportPixels(r: seq<int>, g: seq<int>, b: seq<int>, rgbBitDepth: nat, width: nat, dst: array<int>, d: nat,
                      w: nat,
                      ghost p: Planes)
    requires |r| == |g| == |b| == width >= 1 && width <= w && d + 3 * w <= dst.Length
    requires p == Planes(PaddedLine(r, w, rgbBitDepth), PaddedLine(g, w, rgbBitDepth), PaddedLine(b, w, rgbBitDepth))
    modifies dst
    ensures forall i :: 0 <= i < width ==> dst[d + i] == p.r[i]
    ensures forall i :: 0 <= i < width ==> dst[d + w + i] == p.g[i]
    ensures forall i :: 0 <= i < width ==> dst[d + 2 * w + i] == p.b[i]
    ensures OnlyWrites(dst, d, d + 3 * w)
  {
    hide Shift, PrecisionShift, PaddedLine, U16;
    var shift := PrecisionShift(rgbBitDepth);
    for i := 0 to width
      invariant OnlyWrites(dst, d, d + 3 * w)
      invariant forall j :: 0 <= j < i ==> dst[d + j] == p.r[j]
      invariant forall j :: 0 <= j < i ==> dst[d + w + j] == p.g[j]
      invariant forall j :: 0 <= j < i ==> dst[d + 2 * w + j] == p.b[j]
    {
      PaddedSample(r, w, rgbBitDepth, i);
      PaddedSample(g, w, rgbBitDepth, i);
      PaddedSample(b, w, rgbBitDepth, i);
      dst[d + i] := U16(Shift(r[i], shift));
      dst[d + w + i] := U16(Shift(g[i], shift));
      dst[d + 2 * w + i] := U16(Shift(b[i], shift));
    }
  }

  // The pixels of one scan line followed by the replication of the rightmost one.
  method PadPixels(r: seq<int>, g: seq<int>, b: seq<int>, rgbBitDepth: nat, width: nat, dst: array<int>, d: nat, w: nat,
                   ghost p: Planes)
    requires |r| == |g| == |b| == width >= 1 && w == width + width % 2 && d + 3 * w <= dst.Length
    requires p == Planes(PaddedLine(r, w, rgbBitDepth), PaddedLine(g, w, rgbBitDepth), PaddedLine(b, w, rgbBitDepth))
    modifies dst
    ensures forall i :: 0 <= i < w ==> dst[d + i] == p.r[i]
    ensures forall i :: 0 <= i < w ==> dst[d + w + i] == p.g[i]
    ensures forall i :: 0 <= i < w ==> dst[d + 2 * w + i] == p.b[i]
    ensures OnlyWrites(dst, d, d + 3 * w)
  {
    hide PaddedLine;
    ImportPixels(r, g, b, rgbBitDepth, width, dst, d, w, p);
    if width % 2 == 1 {
      PaddedSample(r, w, rgbBitDepth, width);
      PaddedSample(g, w, rgbBitDepth, width);
      PaddedSample(b, w, rgbBitDepth, width);
      dst[d + width] := dst[d + width - 1];
      dst[d + w + width] := dst[d + w + width - 1];
      dst[d + 2 * w + width] := dst[d + 2 * w + width - 1];
    }
  }

  // ImportOneRow: three planes of one scan line, each padded to even width.
  method ImportOneRow(r: seq<int>, g: seq<int>, b: seq<int>, rgbBitDepth: nat, width: nat, dst: array<int>, d: nat,
                      w: nat)
    requires |r| == |g| == |b| == width >= 1 && w == (width + 1) / 2 * 2 && d + 3 * w <= dst.Length
    modifies dst
    ensures PlanesAt(dst, d, w) == Planes(PaddedLine(r, w, rgbBitDepth), PaddedLine(g, w, rgbBitDepth),
            PaddedLine(b, w, rgbBitDepth))
    ensures RowsKept(dst, d, d + 3 * w)
  {
    hide PaddedLine;
    ghost var p := Planes(PaddedLine(r, w, rgbBitDepth), PaddedLine(g, w, rgbBitDepth), PaddedLine(b, w, rgbBitDepth));
    PadPixels(r, g, b, rgbBitDepth, width, dst, d, w, p);
    assert RowAt(dst, d, w) == p.r && RowAt(dst, d + w, w) == p.g && RowAt(dst, d + 2 * w, w) == p.b;
  }

  // memcpy within or between buffers.
  method CopyRow(src: array<int>, s: nat, dst: array<int>, d: nat, len: nat)
    requires s + len <= src.Length && d + len <= dst.Length
    requires src == dst ==> s + len <= d
    modifies dst
    ensures RowAt(dst, d, len) == old(RowAt(src, s, len))
    ensures RowsKept(dst, d, d + len)
  {
    ghost var was := RowAt(src, s, len);
    for i := 0 to len
      invariant OnlyWrites(dst, d, d + i)
      invariant forall j :: 0 <= j < i ==> dst[d + j] == was[j]
    {
      assert was[i] == src[s + i];
      dst[d + i] := src[s + i];
    }
  }

  method CopyPlanes(src: array<int>, s: nat, dst: array<int>, d: nat, n: nat)
    requires s + 3 * n <= src.Length && d + 3 * n <= dst.Length
    requires src == dst ==> s + 3 * n <= d
    modifies dst
    ensures PlanesAt(dst, d, n) == old(PlanesAt(src, s, n))
    ensures RowsKept(dst, d, d + 3 * n)
  {
    hide RowAt, PlanesAt;
    PlanesAreThirds(src, s, n);
    CopyRow(src, s, dst, d, 3 * n);
    PlanesAreThirds(dst, d, n);
  }
}
