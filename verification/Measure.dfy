// Measuring a pair of full-resolution rows: linear-light luma, subsampled chroma, gray.
module Measure {
  import opened FixedPoint
  import opened Gamma
  import opened Kernels
  import opened Rows

  // The curve and the working depth, fixed for one conversion.
  datatype Config = Config(t: Transfer, bitDepth: nat) {
    ghost predicate Valid() {
      WorkingDepth(bitDepth) && t.Valid()
    }

    function Top(): nat {
      MaxY(bitDepth)
    }
  }

  lemma TopAtMost14Bits(cfg: Config)
    requires cfg.Valid()
    ensures cfg.Top() <= 16383
  {
    Pow2AtMost14(cfg.bitDepth);
  }

  // ---- UpdateW ----

  function LumaRow(cfg: Config, rgb: Planes): (y: seq<int>)
    requires cfg.Valid() && rgb.Shape(|rgb.r|) && rgb.Within(0, cfg.Top())
    ensures |y| == |rgb.r|
    ensures forall i :: 0 <= i < |y| ==> 0 <= y[i] <= 0xFFFF
  {
    seq(|rgb.r|, i requires 0 <= i < |rgb.r| => LumaOf(rgb.r[i], rgb.g[i], rgb.b[i], cfg.bitDepth, cfg.t))
  }

  method UpdateW(cfg: Config, src: array<int>, s: nat, dst: array<int>, d: nat, w: nat)
    requires cfg.Valid() && w > 0 && s + 3 * w <= src.Length && d + w <= dst.Length && src != dst
    requires PlanesAt(src, s, w).Within(0, cfg.Top())
    modifies dst
    ensures RowAt(dst, d, w) == old(LumaRow(cfg, PlanesAt(src, s, w)))
    ensures RowsKept(dst, d, d + w)
  {
    hide LumaOf, LumaRow, PlanesAt;
    ghost var rgb := PlanesAt(src, s, w);
    ghost var luma := LumaRow(cfg, rgb);
    for i := 0 to w
      invariant OnlyWrites(dst, d, d + i)
      invariant forall j :: 0 <= j < i ==> dst[d + j] == luma[j]
    {
      PlanesElement(src, s, w, i);
      LumaRowAt(cfg, rgb, i);
      dst[d + i] := LumaOf(src[s + 0 * w + i], src[s + 1 * w + i], src[s + 2 * w + i], cfg.bitDepth, cfg.t);
    }
  }

  lemma LumaRowAt(cfg: Config, rgb: Planes, i: nat)
    requires cfg.Valid() && rgb.Shape(|rgb.r|) && rgb.Within(0, cfg.Top()) && i < |rgb.r|
    ensures LumaRow(cfg, rgb)[i] == LumaOf(rgb.r[i], rgb.g[i], rgb.b[i], cfg.bitDepth, cfg.t)
  {
    hide LumaOf;
  }

  // ---- UpdateChroma ----

  // The gamma-aware mean of the 2x2 block over cell i.
  function BlockMean(cfg: Config, p1: seq<int>, p2: seq<int>, i: nat): (m: nat)
    requires cfg.Valid() && |p1| == |p2| && 2 * i + 1 < |p1|
    requires AllWithin(p1, 0, cfg.Top()) && AllWithin(p2, 0, cfg.Top())
    ensures m <= 0xFFFF
  {
    ScaleDown(p1[2 * i], p1[2 * i + 1], p2[2 * i], p2[2 * i + 1], cfg.bitDepth, cfg.t)
  }

  // Chroma is stored as the distance of each mean from the gray of the three means.
  function ChromaOf(r: int, g: int, b: int): (int, int, int) {
    var w := RGBToGray(r, g, b);
    (S16(r - w), S16(g - w), S16(b - w))
  }

  ghost predicate RowPair(cfg: Config, rgb1: Planes, rgb2: Planes, n: nat) {
    && rgb1.Shape(2 * n) && rgb2.Shape(2 * n)
    && rgb1.Within(0, cfg.Top()) && rgb2.Within(0, cfg.Top())
  }

  function ChromaAt(cfg: Config, rgb1: Planes, rgb2: Planes, n: nat, i: nat): (int, int, int)
    requires cfg.Valid() && RowPair(cfg, rgb1, rgb2, n) && i < n
  {
    ChromaOf(BlockMean(cfg, rgb1.r, rgb2.r, i), BlockMean(cfg, rgb1.g, rgb2.g, i), BlockMean(cfg, rgb1.b, rgb2.b, i))
  }

  function ChromaRow(cfg: Config, rgb1: Planes, rgb2: Planes, n: nat): (uv: Planes)
    requires cfg.Valid() && RowPair(cfg, rgb1, rgb2, n)
    ensures uv.Shape(n)
    ensures forall i :: 0 <= i < n ==> (uv.r[i], uv.g[i], uv.b[i]) == ChromaAt(cfg, rgb1, rgb2, n, i)
  {
    Planes(seq(n, i requires 0 <= i < n => ChromaAt(cfg, rgb1, rgb2, n, i).0),
           seq(n, i requires 0 <= i < n => ChromaAt(cfg, rgb1, rgb2, n, i).1),
           seq(n, i requires 0 <= i < n => ChromaAt(cfg, rgb1, rgb2, n, i).2))
  }

  method UpdateChroma(cfg: Config, src: array<int>, s1: nat, s2: nat, dst: array<int>, d: nat, uvW: nat)
    requires cfg.Valid() && uvW > 0 && src != dst
    requires s1 + 3 * (2 * uvW) <= src.Length && s2 + 3 * (2 * uvW) <= src.Length && d + 3 * uvW <= dst.Length
    requires RowPair(cfg, PlanesAt(src, s1, 2 * uvW), PlanesAt(src, s2, 2 * uvW), uvW)
    modifies dst
    ensures PlanesAt(dst, d, uvW) == old(ChromaRow(cfg, PlanesAt(src, s1, 2 * uvW), PlanesAt(src, s2, 2 * uvW), uvW))
    ensures RowsKept(dst, d, d + 3 * uvW)
  {
    hide ChromaAt, ChromaRow, RowPair;
    ghost var p1, p2 := PlanesAt(src, s1, 2 * uvW), PlanesAt(src, s2, 2 * uvW);
    ghost var uv := ChromaRow(cfg, p1, p2, uvW);
    FillChroma(cfg, src, s1, s2, dst, d, uvW, p1, p2, uv);
    assert RowAt(dst, d, uvW) == uv.r && RowAt(dst, d + uvW, uvW) == uv.g && RowAt(dst, d + 2 * uvW, uvW) == uv.b;
  }

  // The chroma loop itself, sample by sample.
  method FillChroma(cfg: Config, src: array<int>, s1: nat, s2: nat, dst: array<int>, d: nat, uvW: nat,
                    ghost p1: Planes, ghost p2: Planes, ghost uv: Planes)
    requires cfg.Valid() && uvW > 0 && src != dst
    requires s1 + 3 * (2 * uvW) <= src.Length && s2 + 3 * (2 * uvW) <= src.Length && d + 3 * uvW <= dst.Length
    requires p1 == PlanesAt(src, s1, 2 * uvW) && p2 == PlanesAt(src, s2, 2 * uvW)
    requires RowPair(cfg, p1, p2, uvW) && uv == ChromaRow(cfg, p1, p2, uvW)
    modifies dst
    ensures forall j :: 0 <= j < uvW ==> dst[d + j] == uv.r[j]
    ensures forall j :: 0 <= j < uvW ==> dst[d + uvW + j] == uv.g[j]
    ensures forall j :: 0 <= j < uvW ==> dst[d + 2 * uvW + j] == uv.b[j]
    ensures OnlyWrites(dst, d, d + 3 * uvW)
  {
    hide ChromaAt, ChromaRow, RowPair, RowAt, PlanesAt;
    for i := 0 to uvW
      invariant OnlyWrites(dst, d, d + 3 * uvW)
      invariant forall j :: 0 <= j < i ==> dst[d + j] == uv.r[j]
      invariant forall j :: 0 <= j < i ==> dst[d + uvW + j] == uv.g[j]
      invariant forall j :: 0 <= j < i ==> dst[d + 2 * uvW + j] == uv.b[j]
    {
      var u, v, t := CellChroma(cfg, src, s1, s2, 2 * uvW, uvW, i, p1, p2);
      assert (u, v, t) == (uv.r[i], uv.g[i], uv.b[i]);
      StoreTriple(dst, d, uvW, i, u, v, t);
    }
  }

  // Sample i of three planes of n samples.
  method StoreTriple(dst: array<int>, d: nat, n: nat, i: nat, u: int, v: int, t: int)
    requires i < n && d + 3 * n <= dst.Length
    modifies dst
    ensures dst[d + i] == u && dst[d + n + i] == v && dst[d + 2 * n + i] == t
    ensures forall x :: 0 <= x < dst.Length && x != d + i && x != d + n + i && x != d + 2 * n + i ==>
            dst[x] == old(dst[x])
  {
    dst[d + i] := u;
    dst[d + n + i] := v;
    dst[d + 2 * n + i] := t;
  }

  // The body of the chroma loop: the three means of cell i and their distance from gray.
  method CellChroma(cfg: Config, src: array<int>, s1: nat, s2: nat, w: nat, n: nat, i: nat, ghost p1: Planes,
                    ghost p2: Planes)
    returns (u: int, v: int, t: int)
    requires cfg.Valid() && w == 2 * n && i < n && s1 + 3 * w <= src.Length && s2 + 3 * w <= src.Length
    requires p1 == PlanesAt(src, s1, w) && p2 == PlanesAt(src, s2, w) && RowPair(cfg, p1, p2, n)
    ensures (u, v, t) == ChromaAt(cfg, p1, p2, n, i)
  {
    hide RowAt, BlockMean, AllWithin, RGBToGray, S16;
    var r := ChannelMean(cfg, src, s1, s2, w, i, p1.r, p2.r);
    var g := ChannelMean(cfg, src, s1 + w, s2 + w, w, i, p1.g, p2.g);
    var b := ChannelMean(cfg, src, s1 + 2 * w, s2 + 2 * w, w, i, p1.b, p2.b);
    var gray := RGBToGray(r, g, b);
    u, v, t := S16(r - gray), S16(g - gray), S16(b - gray);
  }

  method ChannelMean(cfg: Config, src: array<int>, at1: nat, at2: nat, len: nat, i: nat, ghost p1: seq<int>,
                     ghost p2: seq<int>)
    returns (m: int)
    requires cfg.Valid() && at1 + len <= src.Length && at2 + len <= src.Length && 2 * i + 1 < len
    requires p1 == RowAt(src, at1, len) && p2 == RowAt(src, at2, len)
    requires AllWithin(p1, 0, cfg.Top()) && AllWithin(p2, 0, cfg.Top())
    ensures m == BlockMean(cfg, p1, p2, i)
  {
    hide ScaleDown;
    var q1, q2 := at1 + 2 * i, at2 + 2 * i;
    assert p1[2 * i] == src[q1] && p1[2 * i + 1] == src[q1 + 1];
    assert p2[2 * i] == src[q2] && p2[2 * i + 1] == src[q2 + 1];
    m := ScaleDown(src[q1], src[q1 + 1], src[q2], src[q2 + 1], cfg.bitDepth, cfg.t);
  }

  // ---- StoreGray ----

  function GrayRow(rgb: Planes): (y: seq<int>)
    requires rgb.Shape(|rgb.r|)
    ensures |y| == |rgb.r|
  {
    seq(|rgb.r|, i requires 0 <= i < |rgb.r| => U16(RGBToGray(rgb.r[i], rgb.g[i], rgb.b[i])))
  }

  lemma GrayRowAt(rgb: Planes, i: nat)
    requires rgb.Shape(|rgb.r|) && i < |rgb.r|
    ensures GrayRow(rgb)[i] == U16(RGBToGray(rgb.r[i], rgb.g[i], rgb.b[i]))
  {
  }

  method StoreGray(rgb: array<int>, s: nat, y: array<int>, d: nat, w: nat)
    requires w > 0 && s + 3 * w <= rgb.Length && d + w <= y.Length && rgb != y
    modifies y
    ensures RowAt(y, d, w) == old(GrayRow(PlanesAt(rgb, s, w)))
    ensures RowsKept(y, d, d + w)
  {
    hide RGBToGray, U16, GrayRow, PlanesAt;
    ghost var p := PlanesAt(rgb, s, w);
    ghost var gray := GrayRow(p);
    for i := 0 to w
      invariant OnlyWrites(y, d, d + i)
      invariant forall j :: 0 <= j < i ==> y[d + j] == gray[j]
    {
      PlanesElement(rgb, s, w, i);
      GrayRowAt(p, i);
      y[d + i] := U16(RGBToGray(rgb[s + 0 * w + i], rgb[s + 1 * w + i], rgb[s + 2 * w + i]));
    }
  }
}
