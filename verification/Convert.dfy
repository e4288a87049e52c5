// The final conversion to YUV 4:2:0 and the public entry point.
module Convert {
  import opened Options
  import opened FixedPoint
  import opened Gamma
  import opened Kernels
  import opened Rows
  import opened Measure
  import opened Sweep
  import opened Refine
  import opened Import
  import opened ColorSpace
  import opened Driver

  // How components are scaled and stored.
  datatype Format = Format(matrix: Matrix, sfix: int, yuvBitDepth: nat) {
    predicate Valid() {
      sfix >= -15
    }

    // The clip helpers take an int16 argument, so the component wraps first.
    function Stored(v: int): int {
      if yuvBitDepth <= 8 then Clip(S16(v), 255) else Clip(S16(v), MaxY(yuvBitDepth))
    }
  }

  function YOf(f: Format, r: int, g: int, b: int): int
    requires f.Valid()
  {
    f.Stored(Component(r, g, b, f.matrix.toY, f.sfix))
  }

  function UOf(f: Format, r: int, g: int, b: int): int
    requires f.Valid()
  {
    f.Stored(Component(r, g, b, f.matrix.toU, f.sfix))
  }

  function VOf(f: Format, r: int, g: int, b: int): int
    requires f.Valid()
  {
    f.Stored(Component(r, g, b, f.matrix.toV, f.sfix))
  }

  // Output luma (j, i): the refined luma at (j, i) over chroma cell (j / 2, i / 2).
  function LumaPixel(f: Format, img: Image, n: nat, m: nat, j: nat, i: nat): int
    requires f.Valid() && img.Shape(n, m) && j < 2 * m && i < 2 * n
  {
    var w := img.ys[j / 2][LineOffset(j, n) + i];
    var uv := img.uvs[j / 2];
    YOf(f, uv.r[i / 2] + w, uv.g[i / 2] + w, uv.b[i / 2] + w)
  }

  function UPixel(f: Format, img: Image, n: nat, m: nat, j: nat, i: nat): int
    requires f.Valid() && img.Shape(n, m) && j < m && i < n
  {
    UOf(f, img.uvs[j].r[i], img.uvs[j].g[i], img.uvs[j].b[i])
  }

  function VPixel(f: Format, img: Image, n: nat, m: nat, j: nat, i: nat): int
    requires f.Valid() && img.Shape(n, m) && j < m && i < n
  {
    VOf(f, img.uvs[j].r[i], img.uvs[j].g[i], img.uvs[j].b[i])
  }

  // One line of output luma.
  method ConvertLumaLine(f: Format, bestY: array<int>, y: nat, bestUV: array<int>, uv: nat, n: nat, width: nat,
                         out: array2<int>, j: nat, ghost row: seq<int>, ghost p: Planes)
    requires f.Valid() && y + 2 * n <= bestY.Length && uv + 3 * n <= bestUV.Length
    requires row == RowAt(bestY, y, 2 * n) && p == PlanesAt(bestUV, uv, n)
    requires width <= 2 * n && out.Length1 == width && j < out.Length0
    modifies out
    ensures forall i :: 0 <= i < width ==>
              out[j, i] == YOf(f, p.r[i / 2] + row[i], p.g[i / 2] + row[i], p.b[i / 2] + row[i])
    ensures forall l, i :: 0 <= l < out.Length0 && l != j && 0 <= i < width ==> out[l, i] == old(out[l, i])
  {
    hide YOf, RowAt, PlanesAt;
    for i := 0 to width
      invariant forall x :: 0 <= x < i ==>
                  out[j, x] == YOf(f, p.r[x / 2] + row[x], p.g[x / 2] + row[x], p.b[x / 2] + row[x])
      invariant forall l, x :: 0 <= l < out.Length0 && l != j && 0 <= x < width ==> out[l, x] == old(out[l, x])
    {
      var off := i / 2;
      var w := bestY[y + i];
      RowElement(bestY, y, 2 * n, i);
      PlanesElement(bestUV, uv, n, off);
      var r := bestUV[uv + off + 0 * n] + w;
      var g := bestUV[uv + off + 1 * n] + w;
      var b := bestUV[uv + off + 2 * n] + w;
      out[j, i] := YOf(f, r, g, b);
    }
  }

  // One line of both output chroma planes.
  method ConvertChromaLine(f: Format, bestUV: array<int>, uv: nat, n: nat, outU: array2<int>, outV: array2<int>,
                           j: nat, ghost p: Planes)
    requires f.Valid() && uv + 3 * n <= bestUV.Length && p == PlanesAt(bestUV, uv, n) && outU != outV
    requires outU.Length1 == outV.Length1 == n && outU.Length0 == outV.Length0 && j < outU.Length0
    modifies outU, outV
    ensures forall i :: 0 <= i < n ==> outU[j, i] == UOf(f, p.r[i], p.g[i], p.b[i])
    ensures forall i :: 0 <= i < n ==> outV[j, i] == VOf(f, p.r[i], p.g[i], p.b[i])
    ensures forall l, i :: 0 <= l < outU.Length0 && l != j && 0 <= i < n ==> outU[l, i] == old(outU[l, i])
    ensures forall l, i :: 0 <= l < outV.Length0 && l != j && 0 <= i < n ==> outV[l, i] == old(outV[l, i])
  {
    hide UOf, VOf, PlanesAt;
    for i := 0 to n
      invariant forall x :: 0 <= x < i ==> outU[j, x] == UOf(f, p.r[x], p.g[x], p.b[x])
      invariant forall x :: 0 <= x < i ==> outV[j, x] == VOf(f, p.r[x], p.g[x], p.b[x])
      invariant forall l, x :: 0 <= l < outU.Length0 && l != j && 0 <= x < n ==> outU[l, x] == old(outU[l, x])
      invariant forall l, x :: 0 <= l < outV.Length0 && l != j && 0 <= x < n ==> outV[l, x] == old(outV[l, x])
    {
      PlanesElement(bestUV, uv, n, i);
      var r := bestUV[uv + i + 0 * n];
      var g := bestUV[uv + i + 1 * n];
      var b := bestUV[uv + i + 2 * n];
      outU[j, i] := UOf(f, r, g, b);
      outV[j, i] := VOf(f, r, g, b);
    }
  }

  lemma LumaLineAt(b: Buffers, n: nat, m: nat, j: nat)
    requires b.Sized(n, m) && j < 2 * m
    ensures Start(j / 2, 4 * n) + 4 * n <= b.bestY.Length
    ensures RowAt(b.bestY, Start(j / 2, 4 * n) + LineOffset(j, n), 2 * n) ==
            ImageIn(b.bestY, b.bestUV, n, m).ys[j / 2][LineOffset(j, n)..LineOffset(j, n) + 2 * n]
  {
    hide Start;
    StartFits(j / 2, m, 4 * n);
    RowHalves(b.bestY, Start(j / 2, 4 * n), 2 * n, 2 * n);
  }

  lemma ChromaRowAt(b: Buffers, n: nat, m: nat, k: nat)
    requires b.Sized(n, m) && k < m
    ensures Start(k, 3 * n) + 3 * n <= b.bestUV.Length
    ensures PlanesAt(b.bestUV, Start(k, 3 * n), n) == ImageIn(b.bestY, b.bestUV, n, m).uvs[k]
  {
    hide Start;
    StartFits(k, m, 3 * n);
  }

  lemma LumaPixelOf(f: Format, img: Image, n: nat, m: nat, j: nat, i: nat)
    requires f.Valid() && img.Shape(n, m) && j < 2 * m && i < 2 * n
    ensures var w := img.ys[j / 2][LineOffset(j, n)..LineOffset(j, n) + 2 * n][i];
            var p := img.uvs[j / 2];
            LumaPixel(f, img, n, m, j, i) == YOf(f, p.r[i / 2] + w, p.g[i / 2] + w, p.b[i / 2] + w)
  {
    hide YOf;
  }

  // Where the luma and the chroma of the next line start.
  lemma NextLine(j: nat, n: nat)
    ensures Start((j + 1) / 2, 4 * n) + LineOffset(j + 1, n) == Start(j / 2, 4 * n) + LineOffset(j, n) + 2 * n
    ensures Start((j + 1) / 2, 3 * n) == Start(j / 2, 3 * n) + j % 2 * (3 * n)
  {
    StartStep(j / 2, 4 * n);
    StartStep(j / 2, 3 * n);
    hide Start;
    if j % 2 == 0 {
      assert (j + 1) / 2 == j / 2;
    } else {
      assert (j + 1) / 2 == j / 2 + 1;
    }
  }

  method ConvertLuma(f: Format, b: Buffers, n: nat, m: nat, width: nat, height: nat, outY: array2<int>)
    requires f.Valid() && b.Sized(n, m) && n == (width + 1) / 2 && m == (height + 1) / 2
    requires outY.Length0 == height && outY.Length1 == width
    modifies outY
    ensures var img := ImageIn(b.bestY, b.bestUV, n, m);
            forall j, i :: 0 <= j < height && 0 <= i < width ==> outY[j, i] == LumaPixel(f, img, n, m, j, i)
  {
    hide Start, ImageIn, RowAt, PlanesAt, YOf, LumaPixel;
    ghost var img := ImageIn(b.bestY, b.bestUV, n, m);
    var w := 2 * n;
    var bestY, bestUV := 0, 0;
    StartStep(0, 4 * n);
    StartStep(0, 3 * n);
    for j := 0 to height
      invariant bestY == Start(j / 2, 4 * n) + LineOffset(j, n)
      invariant bestUV == Start(j / 2, 3 * n)
      invariant forall l, i :: 0 <= l < j && 0 <= i < width ==> outY[l, i] == LumaPixel(f, img, n, m, l, i)
    {
      LumaLineAt(b, n, m, j);
      ChromaRowAt(b, n, m, j / 2);
      NextLine(j, n);
      ghost var row := img.ys[j / 2][LineOffset(j, n)..LineOffset(j, n) + 2 * n];
      ConvertLumaLine(f, b.bestY, bestY, b.bestUV, bestUV, n, width, outY, j, row, img.uvs[j / 2]);
      forall i | 0 <= i < width
        ensures outY[j, i] == LumaPixel(f, img, n, m, j, i)
      {
        LumaPixelOf(f, img, n, m, j, i);
      }
      bestY := bestY + w;
      bestUV := bestUV + j % 2 * (3 * n);
    }
  }

  method ConvertChroma(f: Format, b: Buffers, n: nat, m: nat, outU: array2<int>, outV: array2<int>)
    requires f.Valid() && b.Sized(n, m) && outU != outV
    requires outU.Length0 == outV.Length0 == m && outU.Length1 == outV.Length1 == n
    modifies outU, outV
    ensures var img := ImageIn(b.bestY, b.bestUV, n, m);
            && (forall j, i :: 0 <= j < m && 0 <= i < n ==> outU[j, i] == UPixel(f, img, n, m, j, i))
            && (forall j, i :: 0 <= j < m && 0 <= i < n ==> outV[j, i] == VPixel(f, img, n, m, j, i))
  {
    hide Start, ImageIn, RowAt, PlanesAt, UOf, VOf;
    ghost var img := ImageIn(b.bestY, b.bestUV, n, m);
    var bestUV := 0;
    StartStep(0, 3 * n);
    for j := 0 to m
      invariant bestUV == Start(j, 3 * n)
      invariant forall l, i :: 0 <= l < j && 0 <= i < n ==> outU[l, i] == UPixel(f, img, n, m, l, i)
      invariant forall l, i :: 0 <= l < j && 0 <= i < n ==> outV[l, i] == VPixel(f, img, n, m, l, i)
    {
      ChromaRowAt(b, n, m, j);
      StartStep(j, 3 * n);
      ConvertChromaLine(f, b.bestUV, bestUV, n, outU, outV, j, img.uvs[j]);
      bestUV := bestUV + 3 * n;
    }
  }

  // The three output planes hold the conversion of the image `img`.
  ghost predicate Shows(f: Format, img: Image, n: nat, m: nat, outY: array2<int>, outU: array2<int>, outV: array2<int>)
    requires f.Valid() && img.Shape(n, m) && outY.Length0 <= 2 * m && outY.Length1 <= 2 * n
    requires outU.Length0 == outV.Length0 == m && outU.Length1 == outV.Length1 == n
    reads outY, outU, outV
  {
    && (forall j, i :: 0 <= j < outY.Length0 && 0 <= i < outY.Length1 ==> outY[j, i] == LumaPixel(f, img, n, m, j, i))
    && (forall j, i :: 0 <= j < m && 0 <= i < n ==> outU[j, i] == UPixel(f, img, n, m, j, i))
    && (forall j, i :: 0 <= j < m && 0 <= i < n ==> outV[j, i] == VPixel(f, img, n, m, j, i))
  }

  ghost predicate OutputFor(width: nat, height: nat, outY: array2<int>, outU: array2<int>, outV: array2<int>) {
    && outY != outU && outY != outV && outU != outV
    && outY.Length0 == height && outY.Length1 == width
    && outU.Length0 == outV.Length0 == (height + 1) / 2 && outU.Length1 == outV.Length1 == (width + 1) / 2
  }

  method ConvertWRGBToYUV(f: Format, b: Buffers, n: nat, m: nat, width: nat, height: nat,
                          outY: array2<int>, outU: array2<int>, outV: array2<int>)
    requires f.Valid() && b.Sized(n, m) && n == (width + 1) / 2 && m == (height + 1) / 2
    requires OutputFor(width, height, outY, outU, outV)
    modifies outY, outU, outV
    ensures Shows(f, ImageIn(b.bestY, b.bestUV, n, m), n, m, outY, outU, outV)
  {
    hide ImageIn, LumaPixel, UPixel, VPixel, Start;
    ConvertLuma(f, b, n, m, width, height, outY);
    ConvertChroma(f, b, n, m, outU, outV);
  }

  // The outputs hold the conversion of the refined picture.
  ghost predicate ShowsRefined(f: Format, cfg: Config, src: Source, rgbBitDepth: nat, outY: array2<int>,
                               outU: array2<int>, outV: array2<int>)
    requires Fits(cfg, src, rgbBitDepth) && f.Valid() && OutputFor(src.width, src.height, outY, outU, outV)
    reads outY, outU, outV
  {
    hide Fits, Config.Valid, Source.Valid;
    Shows(f, Refined(cfg, src, rgbBitDepth).best, src.Cells(), src.Pairs(), outY, outU, outV)
  }

  // DoSharpArgbToYuv: the outputs are the conversion of the refined picture.
  method DoSharpArgbToYuv(cfg: Config, src: Source, rgbBitDepth: nat, f: Format,
                          outY: array2<int>, outU: array2<int>, outV: array2<int>)
    requires Fits(cfg, src, rgbBitDepth) && f.Valid() && OutputFor(src.width, src.height, outY, outU, outV)
    modifies outY, outU, outV
    ensures ShowsRefined(f, cfg, src, rgbBitDepth, outY, outU, outV)
  {
    hide ImageIn, Shows, Iterate, FirstGuess, Target, Source.Channel, Config.Valid, Start;
    var n, m := src.Cells(), src.Pairs();
    var tmp := new int[12 * n];
    var bestY := new int[Start(m, 4 * n)];
    var targetY := new int[Start(m, 4 * n)];
    var rgbY := new int[4 * n];
    var bestUV := new int[Start(m, 3 * n)];
    var targetUV := new int[Start(m, 3 * n)];
    var rgbUV := new int[3 * n];
    var b := Buffers(tmp, bestY, targetY, rgbY, bestUV, targetUV, rgbUV);
    ImportPicture(cfg, src, rgbBitDepth, b);
    var sweeps := RefineAll(cfg, b, n, m);
    ConvertWRGBToYUV(f, b, n, m, src.width, src.height, outY, outU, outV);
  }

  const INT_MAX := 0x7FFF_FFFF

  predicate SupportedYuvDepth(yuvBitDepth: nat) {
    yuvBitDepth == 8 || yuvBitDepth == 10 || yuvBitDepth == 12
  }

  function OutputFormat(matrix: Matrix, rgbBitDepth: nat, yuvBitDepth: nat): (f: Format)
    requires SupportedDepth(rgbBitDepth) && SupportedYuvDepth(yuvBitDepth)
    ensures f.Valid()
  {
    Format(ScaledMatrix(matrix, rgbBitDepth, yuvBitDepth), PrecisionShift(rgbBitDepth), yuvBitDepth)
  }

  // Bytes between neighbouring pixels of the input and between neighbouring lines. The planes
  // here are the samples that they lead to; only their parity is looked at.
  datatype Layout = Layout(rgbStep: int, rgbStride: int, yStride: int, uStride: int, vStride: int) {
    // Samples of two bytes start at even addresses.
    predicate Suits(rgbBitDepth: nat, yuvBitDepth: nat) {
      && (rgbBitDepth > 8 ==> rgbStep % 2 == 0 && rgbStride % 2 == 0)
      && (yuvBitDepth > 8 ==> yStride % 2 == 0 && uStride % 2 == 0 && vStride % 2 == 0)
    }
  }

  // An input plane, or NULL.
  type Plane = Option<seq<seq<int>>>

  predicate Given(r: Plane, g: Plane, b: Plane, outY: array2?<int>, outU: array2?<int>, outV: array2?<int>) {
    r.Some? && g.Some? && b.Some? && outY != null && outU != null && outV != null
  }

  // The public entry point: what it does not support is rejected and leaves the outputs alone.
  method SharpYuvConvertWithOptions(r: Plane, g: Plane, b: Plane, width: int, height: int, layout: Layout,
                                    rgbBitDepth: nat, yuvBitDepth: nat, matrix: Matrix, t: Transfer,
                                    outY: array2?<int>, outU: array2?<int>, outV: array2?<int>)
    returns (ok: bool)
    requires t.Valid()
    requires Given(r, g, b, outY, outU, outV) && SupportedDepth(rgbBitDepth) && width >= 1 && height >= 1 ==>
               && Source(r.value, g.value, b.value, width, height).Valid(rgbBitDepth)
               && OutputFor(width, height, outY, outU, outV)
    modifies outY, outU, outV
    ensures ok <==> && Given(r, g, b, outY, outU, outV)
                    && 1 <= width && 1 <= height && width != INT_MAX && height != INT_MAX
                    && SupportedDepth(rgbBitDepth) && SupportedYuvDepth(yuvBitDepth)
                    && layout.Suits(rgbBitDepth, yuvBitDepth)
    ensures !ok && outY != null ==> unchanged(outY)
    ensures !ok && outU != null ==> unchanged(outU)
    ensures !ok && outV != null ==> unchanged(outV)
    ensures ok ==> ShowsRefined(OutputFormat(matrix, rgbBitDepth, yuvBitDepth), Config(t, WorkDepth(rgbBitDepth)),
                                Source(r.value, g.value, b.value, width, height), rgbBitDepth, outY, outU, outV)
  {
    hide ShowsRefined, Refined, Source.Valid, ScaledMatrix;
    if width < 1 || height < 1 || width == INT_MAX || height == INT_MAX
       || r.None? || g.None? || b.None? || outY == null || outU == null || outV == null {
      return false;
    }
    if rgbBitDepth != 8 && rgbBitDepth != 10 && rgbBitDepth != 12 && rgbBitDepth != 16 {
      return false;
    }
    if yuvBitDepth != 8 && yuvBitDepth != 10 && yuvBitDepth != 12 {
      return false;
    }
    if rgbBitDepth > 8 && (layout.rgbStep % 2 != 0 || layout.rgbStride % 2 != 0) {
      return false;
    }
    if yuvBitDepth > 8 && (layout.yStride % 2 != 0 || layout.uStride % 2 != 0 || layout.vStride % 2 != 0) {
      return false;
    }
    DoSharpArgbToYuv(Config(t, WorkDepth(rgbBitDepth)), Source(r.value, g.value, b.value, width, height), rgbBitDepth,
                     OutputFormat(matrix, rgbBitDepth, yuvBitDepth), outY, outU, outV);
    return true;
  }
}
