// A sweep cell by cell under the linear curve at 14 bits: what a cell becomes is a function of
// its luma, the chroma of the cells around it and its target, on plain records of integers, so
// that a run of a small picture can be worked out.
module CellByCell {
  import opened FixedPoint
  import opened Gamma
  import opened Kernels
  import opened Rows
  import opened Measure
  import opened Sweep
  import opened Import
  import opened Driver
  import opened SimdRows
  import opened UpdateLanes
  import opened FilterLanes
  import opened SimdRuns
  import opened VectorRuns

  const LINEAR := Config(Linear, 14)
  const TOP := 16383

  lemma LinearConfig()
    ensures LINEAR.Valid() && LINEAR.Top() == TOP == MaxY(14) && LINEAR.t.Tame(14)
  {
    Pow2Values();
  }

  // ---- Records ----

  datatype Uv = Uv(r: int, g: int, b: int)

  // The four samples of a channel over a cell: upper left, upper right, lower left, lower right.
  datatype Four = Four(a: int, b: int, c: int, d: int)

  datatype Cell = Cell(luma: Four, uv: Uv)

  // A cell's chroma between its neighbours', replicated at the edges.
  datatype Across = Across(left: Uv, mid: Uv, right: Uv)

  // Whether the left and the right column of a cell get the exact sum of luma and tap, or the
  // 16-bit one of SSE2's wide filter.
  datatype Columns = Columns(left: bool, right: bool)

  // ---- What a cell becomes ----

  function Sum(y: int, near: int, beside: int, across: int, diagonal: int, exact: bool): int {
    if exact then Clip(y + Tap(near, beside, across, diagonal), TOP)
        else WideSum(y, Tap(near, beside, across, diagonal))
  }

  // A sum beyond int16 wraps to a negative one, which is clamped to 0.
  function WideSum(y: int, tap: int): int {
    if y + tap <= 0x7FFF then Clip(y + tap, TOP) else 0
  }

  lemma WideSumIsAddLuma(y: int, tap: int)
    requires 0 <= y <= TOP && IsS16(tap)
    ensures AddLuma16(y, tap, TOP) == WideSum(y, tap)
  {
    AddLuma16Exact(y, tap, TOP);
  }

  // One channel of a cell, from the chroma across it in its own row, above and below.
  function Shown(y: Four, cl: int, cm: int, cr: int, al: int, am: int, ar: int, bl: int, bm: int, br: int,
                 e: Columns): Four {
    Four(Sum(y.a, cm, cl, am, al, e.left), Sum(y.b, cm, cr, am, ar, e.right),
         Sum(y.c, cm, cl, bm, bl, e.left), Sum(y.d, cm, cr, bm, br, e.right))
  }

  datatype Shows = Shows(r: Four, g: Four, b: Four)

  function ShownCell(y: Four, cur: Across, above: Across, below: Across, e: Columns): Shows {
    Shows(Shown(y, cur.left.r, cur.mid.r, cur.right.r, above.left.r, above.mid.r, above.right.r,
                below.left.r, below.mid.r, below.right.r, e),
          Shown(y, cur.left.g, cur.mid.g, cur.right.g, above.left.g, above.mid.g, above.right.g,
                below.left.g, below.mid.g, below.right.g, e),
          Shown(y, cur.left.b, cur.mid.b, cur.right.b, above.left.b, above.mid.b, above.right.b,
                below.left.b, below.mid.b, below.right.b, e))
  }

  function Mean(f: Four): int {
    (f.a + f.b + f.c + f.d + 2) / 4
  }

  function Measures(s: Shows): Cell {
    var (u, v, w) := ChromaOf(Mean(s.r), Mean(s.g), Mean(s.b));
    Cell(Four(RGBToGray(s.r.a, s.g.a, s.b.a), RGBToGray(s.r.b, s.g.b, s.b.b),
              RGBToGray(s.r.c, s.g.c, s.b.c), RGBToGray(s.r.d, s.g.d, s.b.d)), Uv(u, v, w))
  }

  function Corrects(t: Cell, s: Cell, c: Cell): Cell {
    var (x, y, z) := (t.luma, s.luma, c.luma);
    Cell(Four(Clip(z.a + (x.a - y.a), TOP), Clip(z.b + (x.b - y.b), TOP), Clip(z.c + (x.c - y.c), TOP),
        Clip(z.d + (x.d - y.d), TOP)),
         Uv(S16(c.uv.r + (t.uv.r - s.uv.r)), S16(c.uv.g + (t.uv.g - s.uv.g)), S16(c.uv.b + (t.uv.b - s.uv.b))))
  }

  function Distance(x: Four, y: Four): nat {
    Abs(x.a - y.a) + Abs(x.b - y.b) + Abs(x.c - y.c) + Abs(x.d - y.d)
  }

  // ---- Cells of rows ----

  function UvAt(p: Planes, i: nat): Uv
    requires p.Shape(|p.r|) && i < |p.r|
  {
    Uv(p.r[i], p.g[i], p.b[i])
  }

  function FourAt(upper: seq<int>, lower: seq<int>, i: nat): Four
    requires |upper| == |lower| && 2 * i + 1 < |upper|
  {
    Four(upper[2 * i], upper[2 * i + 1], lower[2 * i], lower[2 * i + 1])
  }

  function CellAt(p: Pair, n: nat, i: nat): Cell
    requires PairShape(p, n) && i < n
  {
    Cell(FourAt(p.y[..2 * n], p.y[2 * n..], i), UvAt(p.uv, i))
  }

  // A row pair is its cells.
  lemma SameCells(p: Pair, q: Pair, n: nat)
    requires PairShape(p, n) && PairShape(q, n) && forall i :: 0 <= i < n ==> CellAt(p, n, i) == CellAt(q, n, i)
    ensures p == q
  {
    forall x | 0 <= x < 4 * n
      ensures p.y[x] == q.y[x]
    {
      var i := if x < 2 * n then x / 2 else (x - 2 * n) / 2;
      assert CellAt(p, n, i) == CellAt(q, n, i);
      SampleOfCell(p, n, x);
      SampleOfCell(q, n, x);
    }
    forall i | 0 <= i < n
      ensures p.uv.r[i] == q.uv.r[i] && p.uv.g[i] == q.uv.g[i] && p.uv.b[i] == q.uv.b[i]
    {
      assert CellAt(p, n, i) == CellAt(q, n, i);
    }
    assert p.y == q.y && p.uv.r == q.uv.r && p.uv.g == q.uv.g && p.uv.b == q.uv.b;
  }

  function Pick(f: Four, lower: bool, right: bool): int {
    if lower then (if right then f.d else f.c) else if right then f.b else f.a
  }

  lemma SampleOfCell(p: Pair, n: nat, x: nat)
    requires PairShape(p, n) && x < 4 * n
    ensures var i := if x < 2 * n then x / 2 else (x - 2 * n) / 2;
            p.y[x] == Pick(CellAt(p, n, i).luma, x >= 2 * n, x % 2 == 1)
  {
    var upper, lower := p.y[..2 * n], p.y[2 * n..];
    if x < 2 * n {
      assert upper[x] == p.y[x];
      HalfOf(x);
    } else {
      assert lower[x - 2 * n] == p.y[x];
      HalfOf(x - 2 * n);
    }
  }

  lemma HalfOf(x: nat)
    ensures x == 2 * (x / 2) + (if x % 2 == 1 then 1 else 0)
  {
  }

  // The row pair of given cells.
  function RowOf(cells: seq<Cell>): (p: Pair)
    ensures PairShape(p, |cells|)
  {
    var n := |cells|;
    Pair(seq(4 * n, x requires 0 <= x < 4 * n =>
           Pick(cells[if x < 2 * n then x / 2 else (x - 2 * n) / 2].luma, x >= 2 * n, x % 2 == 1)),
         Planes(seq(n, i requires 0 <= i < n => cells[i].uv.r), seq(n, i requires 0 <= i < n => cells[i].uv.g),
                seq(n, i requires 0 <= i < n => cells[i].uv.b)))
  }

  lemma CellOfRow(cells: seq<Cell>, i: nat)
    requires i < |cells|
    ensures CellAt(RowOf(cells), |cells|, i) == cells[i]
  {
    hide FourAt, RowOf;
    LumaOfRow(cells, i);
    UvOfRow(cells, i);
  }

  lemma UvOfRow(cells: seq<Cell>, i: nat)
    requires i < |cells|
    ensures UvAt(RowOf(cells).uv, i) == cells[i].uv
  {
    hide Pick;
  }

  lemma LumaOfRow(cells: seq<Cell>, i: nat)
    requires i < |cells|
    ensures FourAt(RowOf(cells).y[..2 * |cells|], RowOf(cells).y[2 * |cells|..], i) == cells[i].luma
  {
    hide RowOf;
    var n, y := |cells|, RowOf(cells).y;
    SampleOfRow(cells, i, false, false);
    SampleOfRow(cells, i, false, true);
    SampleOfRow(cells, i, true, false);
    SampleOfRow(cells, i, true, true);
    var upper, lower := y[..2 * n], y[2 * n..];
    assert upper[2 * i] == y[2 * i] && upper[2 * i + 1] == y[2 * i + 1];
    assert lower[2 * i] == y[2 * n + 2 * i] && lower[2 * i + 1] == y[2 * n + 2 * i + 1];
  }

  lemma SampleOfRow(cells: seq<Cell>, i: nat, lower: bool, right: bool)
    requires i < |cells|
    ensures var x := (if lower then 2 * |cells| else 0) + 2 * i + (if right then 1 else 0);
            RowOf(cells).y[x] == Pick(cells[i].luma, lower, right)
  {
    hide Pick, RowOf;
    var b := if right then 1 else 0;
    TwiceAndOne(i, b);
    TwiceAndOne(|cells| + i, b);
    if lower {
      SampleOfLower(cells, i, b);
    } else {
      SampleOfUpper(cells, i, b);
    }
  }

  lemma TwiceAndOne(i: nat, b: nat)
    requires b < 2
    ensures (2 * i + b) / 2 == i && (2 * i + b) % 2 == b
  {
  }

  lemma SampleOfUpper(cells: seq<Cell>, i: nat, b: nat)
    requires i < |cells| && b < 2 && (2 * i + b) / 2 == i && (2 * i + b) % 2 == b
    ensures RowOf(cells).y[2 * i + b] == Pick(cells[i].luma, false, b == 1)
  {
    hide Pick;
  }

  lemma SampleOfLower(cells: seq<Cell>, i: nat, b: nat)
    requires i < |cells| && b < 2 && (2 * i + b) / 2 == i && (2 * (|cells| + i) + b) % 2 == b
    ensures RowOf(cells).y[2 * |cells| + 2 * i + b] == Pick(cells[i].luma, true, b == 1)
  {
    hide Pick;
    var x := 2 * |cells| + 2 * i + b;
    assert x - 2 * |cells| == 2 * i + b && x == 2 * (|cells| + i) + b;
  }

  ghost predicate Grid(rows: seq<seq<Cell>>, n: nat) {
    forall k :: 0 <= k < |rows| ==> |rows[k]| == n
  }

  function ImageOf(rows: seq<seq<Cell>>, n: nat): (img: Image)
    requires Grid(rows, n)
    ensures img.Shape(n, |rows|)
  {
    Image(seq(|rows|, k requires 0 <= k < |rows| => RowOf(rows[k]).y),
        seq(|rows|, k requires 0 <= k < |rows| => RowOf(rows[k]).uv))
  }

  function AcrossAt(cells: seq<Cell>, i: nat): Across
    requires i < |cells|
  {
    Across(cells[Beside(2 * i, |cells|)].uv, cells[i].uv, cells[Beside(2 * i + 1, |cells|)].uv)
  }

  // ---- What is measured on a cell ----

  predicate InRange(f: Four) {
    0 <= f.a <= TOP && 0 <= f.b <= TOP && 0 <= f.c <= TOP && 0 <= f.d <= TOP
  }

  function ShowsAt(upper: Planes, lower: Planes, i: nat): Shows
    requires upper.Shape(|upper.r|) && lower.Shape(|upper.r|) && 2 * i + 1 < |upper.r|
  {
    Shows(FourAt(upper.r, lower.r, i), FourAt(upper.g, lower.g, i), FourAt(upper.b, lower.b, i))
  }

  lemma LinearMeasure(f: Four)
    requires InRange(f)
    ensures f.a <= MaxY(14) && f.b <= MaxY(14) && f.c <= MaxY(14) && f.d <= MaxY(14)
    ensures ScaleDown(f.a, f.b, f.c, f.d, 14, Linear) == Mean(f)
  {
    LinearConfig();
    hide Pow2;
  }

  lemma LinearLumaOf(r: int, g: int, b: int)
    requires 0 <= r <= TOP && 0 <= g <= TOP && 0 <= b <= TOP
    ensures r <= MaxY(14) && g <= MaxY(14) && b <= MaxY(14) && LumaOf(r, g, b, 14, Linear) == RGBToGray(r, g, b)
  {
    LinearConfig();
    GrayRange(r, g, b, 0, TOP);
    hide Pow2, RGBToGray;
  }

  lemma LumaIsGray(rgb: Planes, x: nat)
    requires LINEAR.Valid() && LINEAR.Top() == TOP && rgb.Shape(|rgb.r|) && rgb.Within(0, LINEAR.Top()) && x < |rgb.r|
    ensures LumaRow(LINEAR, rgb)[x] == RGBToGray(rgb.r[x], rgb.g[x], rgb.b[x])
  {
    hide LumaOf, RGBToGray, MaxY;
    LinearLumaOf(rgb.r[x], rgb.g[x], rgb.b[x]);
  }

  lemma BlockIsMean(upper: seq<int>, lower: seq<int>, i: nat)
    requires LINEAR.Valid() && LINEAR.Top() == TOP && |upper| == |lower| && 2 * i + 1 < |upper|
    requires AllWithin(upper, 0, LINEAR.Top()) && AllWithin(lower, 0, LINEAR.Top())
    ensures BlockMean(LINEAR, upper, lower, i) == Mean(FourAt(upper, lower, i))
  {
    hide ScaleDown, MaxY, Mean;
    LinearMeasure(FourAt(upper, lower, i));
  }

  lemma MeasuredChroma(upper: Planes, lower: Planes, n: nat, i: nat)
    requires LINEAR.Valid() && LINEAR.Top() == TOP && RowPair(LINEAR, upper, lower, n) && i < n
    ensures UvAt(ChromaRow(LINEAR, upper, lower, n), i) == Measures(ShowsAt(upper, lower, i)).uv
  {
    hide BlockMean, Mean, ChromaOf, ChromaRow, RGBToGray, MaxY, AllWithin;
    BlockIsMean(upper.r, lower.r, i);
    BlockIsMean(upper.g, lower.g, i);
    BlockIsMean(upper.b, lower.b, i);
    var uv := ChromaRow(LINEAR, upper, lower, n);
    assert (uv.r[i], uv.g[i], uv.b[i]) == ChromaAt(LINEAR, upper, lower, n, i);
  }

  lemma MeasuredLuma(upper: Planes, lower: Planes, n: nat, i: nat)
    requires LINEAR.Valid() && LINEAR.Top() == TOP && RowPair(LINEAR, upper, lower, n) && i < n
    ensures FourAt(LumaRow(LINEAR, upper), LumaRow(LINEAR, lower), i) == Measures(ShowsAt(upper, lower, i)).luma
  {
    hide LumaRow, Mean, ChromaOf, RGBToGray, MaxY, AllWithin;
    LumaIsGray(upper, 2 * i);
    LumaIsGray(upper, 2 * i + 1);
    LumaIsGray(lower, 2 * i);
    LumaIsGray(lower, 2 * i + 1);
  }

  lemma MeasuredCell(upper: Planes, lower: Planes, n: nat, i: nat)
    requires LINEAR.Valid() && LINEAR.Top() == TOP && RowPair(LINEAR, upper, lower, n) && i < n
    ensures CellAt(Measured(LINEAR, n, upper, lower), n, i) == Measures(ShowsAt(upper, lower, i))
  {
    hide LumaRow, ChromaRow, Measures, MaxY, AllWithin;
    MeasuredChroma(upper, lower, n, i);
    MeasuredLuma(upper, lower, n, i);
    var p := Measured(LINEAR, n, upper, lower);
    assert p.y[..2 * n] == LumaRow(LINEAR, upper) && p.y[2 * n..] == LumaRow(LINEAR, lower);
  }

  // ---- What a cell shows ----

  const EXACT := Columns(true, true)

  function AcrossOf(p: Planes, i: nat): Across
    requires p.Shape(|p.r|) && i < |p.r|
  {
    Across(UvAt(p, Beside(2 * i, |p.r|)), UvAt(p, i), UvAt(p, Beside(2 * i + 1, |p.r|)))
  }

  lemma ChannelShows(cur: seq<int>, above: seq<int>, below: seq<int>, y1: seq<int>, y2: seq<int>, i: nat)
    requires |cur| == |above| == |below| && |y1| == |y2| == 2 * |cur| && i < |cur|
    ensures var l, r := Beside(2 * i, |cur|), Beside(2 * i + 1, |cur|);
            FourAt(Upsample(cur, above, y1, TOP), Upsample(cur, below, y2, TOP), i) ==
            Shown(FourAt(y1, y2, i), cur[l], cur[i], cur[r], above[l], above[i], above[r], below[l], below[i],
                below[r], EXACT)
  {
    hide Clip, Tap;
  }

  lemma CellShows(cur: Planes, above: Planes, below: Planes, y1: seq<int>, y2: seq<int>, i: nat)
    requires cur.Shape(|cur.r|) && above.Shape(|cur.r|) && below.Shape(|cur.r|)
    requires |y1| == |y2| == 2 * |cur.r| && i < |cur.r|
    ensures ShowsAt(UpsampledRow(cur, above, y1, TOP), UpsampledRow(cur, below, y2, TOP), i) ==
            ShownCell(FourAt(y1, y2, i), AcrossOf(cur, i), AcrossOf(above, i), AcrossOf(below, i), EXACT)
  {
    hide Upsample, Shown, FourAt, Beside;
    ChannelShows(cur.r, above.r, below.r, y1, y2, i);
    ChannelShows(cur.g, above.g, below.g, y1, y2, i);
    ChannelShows(cur.b, above.b, below.b, y1, y2, i);
  }

  lemma SeenCell(img: Image, n: nat, m: nat, k: nat, i: nat)
    requires LINEAR.Valid() && LINEAR.Top() == TOP && img.Shape(n, m) && k < m && i < n
    ensures CellAt(SeenAt(LINEAR, n, m, img, k), n, i) ==
            Measures(ShownCell(FourAt(img.ys[k][..2 * n], img.ys[k][2 * n..], i), AcrossOf(img.uvs[k], i),
                               AcrossOf(img.uvs[Before(k)], i), AcrossOf(img.uvs[After(k, m)], i), EXACT))
  {
    hide UpsampledRow, Measured, Measures, ShownCell, FourAt, AcrossOf, ShowsAt, CellAt, MaxY;
    var y1, y2 := img.ys[k][..2 * n], img.ys[k][2 * n..];
    CellShows(img.uvs[k], img.uvs[Before(k)], img.uvs[After(k, m)], y1, y2, i);
    MeasuredCell(UpperRow(LINEAR, n, img.uvs[Before(k)], img.uvs[k], img.ys[k]),
                 LowerRow(LINEAR, n, img.uvs[k], img.uvs[After(k, m)], img.ys[k]), n, i);
  }

  // ---- What a cell shows with SSE2's wide filter ----

  // Whether sample x of a row gets the exact sum: the two edges and the scalar tail do.
  predicate ExactAt(n: nat, x: nat)
    requires n >= 1
  {
    x == 0 || Sse2On32.Vectored(n - 1) < x
  }

  function WideColumns(n: nat, i: nat): Columns
    requires n >= 1
  {
    Columns(ExactAt(n, 2 * i), ExactAt(n, 2 * i + 1))
  }

  lemma WideSample(cur: seq<int>, other: seq<int>, y: seq<int>, x: nat)
    requires |cur| == |other| >= 1 && |y| == 2 * |cur| && x < |y| && MaxY(14) == TOP && Int16Row(cur) && Int16Row(other)
    requires AllWithin(y, 0, TOP)
    ensures UpsampleWith(Sse2On32, cur, other, y, 14)[x] ==
            if ExactAt(|cur|, x) then Clip(y[x] + UpsampleTap(cur, other, x), TOP)
            else WideSum(y[x], UpsampleTap(cur, other, x))
  {
    hide UpsampleTap, FilterTap, LaneTapAt, AddLuma16, WideSum, Clip, MaxY, Tap;
    var last := |y| - 1;
    EdgeTaps(cur, other);
    VectoredInside(|cur|);
    if 0 < x < last {
      InteriorTap(cur, other, x);
      Tap32(Sse2On32, cur, other, x - 1);
      WideSumIsAddLuma(y[x], FilterTap(cur, other, x - 1));
      var inner := y[1..last];
      assert inner[x - 1] == y[x];
      var r := UpsampleWith(Sse2On32, cur, other, y, 14);
      assert r[x] == SimdSample(Sse2On32, cur, other, inner, x - 1, TOP);
    }
  }

  lemma VectoredInside(n: nat)
    requires n >= 1
    ensures 0 <= Sse2On32.Vectored(n - 1) <= 2 * n - 2
  {
  }

  lemma WideChannelShows(cur: seq<int>, above: seq<int>, below: seq<int>, y1: seq<int>, y2: seq<int>, i: nat)
    requires |cur| == |above| == |below| && |y1| == |y2| == 2 * |cur| && i < |cur| && MaxY(14) == TOP
    requires Int16Row(cur) && Int16Row(above) && Int16Row(below) && AllWithin(y1, 0, TOP) && AllWithin(y2, 0, TOP)
    ensures var l, r := Beside(2 * i, |cur|), Beside(2 * i + 1, |cur|);
            FourAt(UpsampleWith(Sse2On32, cur, above, y1, 14), UpsampleWith(Sse2On32, cur, below, y2, 14), i) ==
            Shown(FourAt(y1, y2, i), cur[l], cur[i], cur[r], above[l], above[i], above[r], below[l], below[i], below[r],
                  WideColumns(|cur|, i))
  {
    hide Clip, Tap, UpsampleWith, ExactAt, WideSum, MaxY, Int16Row, AllWithin;
    WideSample(cur, above, y1, 2 * i);
    WideSample(cur, above, y1, 2 * i + 1);
    WideSample(cur, below, y2, 2 * i);
    WideSample(cur, below, y2, 2 * i + 1);
  }

  ghost predicate Int16Planes(p: Planes) {
    Int16Row(p.r) && Int16Row(p.g) && Int16Row(p.b)
  }

  lemma WideCellShows(cur: Planes, above: Planes, below: Planes, y1: seq<int>, y2: seq<int>, i: nat)
    requires cur.Shape(|cur.r|) && above.Shape(|cur.r|) && below.Shape(|cur.r|) && MaxY(14) == TOP
    requires |y1| == |y2| == 2 * |cur.r| && i < |cur.r| && AllWithin(y1, 0, TOP) && AllWithin(y2, 0, TOP)
    requires Int16Planes(cur) && Int16Planes(above) && Int16Planes(below)
    ensures var row1 := UpsampledRowWith(Sse2On32, cur, above, y1, 14);
            var row2 := UpsampledRowWith(Sse2On32, cur, below, y2, 14);
            var luma, columns := FourAt(y1, y2, i), WideColumns(|cur.r|, i);
            ShowsAt(row1, row2, i) ==
            ShownCell(luma, AcrossOf(cur, i), AcrossOf(above, i), AcrossOf(below, i), columns)
  {
    hide UpsampleWith, Shown, FourAt, Beside, WideColumns, Int16Row, MaxY, AllWithin;
    WideChannelShows(cur.r, above.r, below.r, y1, y2, i);
    WideChannelShows(cur.g, above.g, below.g, y1, y2, i);
    WideChannelShows(cur.b, above.b, below.b, y1, y2, i);
  }

  lemma WideSeenCell(img: Image, n: nat, m: nat, k: nat, i: nat)
    requires LINEAR.Valid() && LINEAR.Top() == TOP && img.Shape(n, m) && n >= 1 && k < m && i < n
    requires Int16Planes(img.uvs[k]) && Int16Planes(img.uvs[Before(k)]) && Int16Planes(img.uvs[After(k, m)])
    requires AllWithin(img.ys[k], 0, TOP)
    ensures CellAt(SeenWith(Sse2On32, LINEAR, n, m, img, k), n, i) ==
            Measures(ShownCell(FourAt(img.ys[k][..2 * n], img.ys[k][2 * n..], i), AcrossOf(img.uvs[k], i),
                               AcrossOf(img.uvs[Before(k)], i), AcrossOf(img.uvs[After(k, m)], i), WideColumns(n, i)))
  {
    hide UpsampledRowWith, Measured, Measures, ShownCell, FourAt, AcrossOf, ShowsAt, CellAt, MaxY, WideColumns,
         Int16Planes;
    hide AllWithin;
    SliceWithin(img.ys[k], 0, 2 * n, 0, TOP);
    SliceWithin(img.ys[k], 2 * n, 4 * n, 0, TOP);
    assert img.ys[k][0..2 * n] == img.ys[k][..2 * n] && img.ys[k][2 * n..4 * n] == img.ys[k][2 * n..];
    var y1, y2 := img.ys[k][..2 * n], img.ys[k][2 * n..];
    WideCellShows(img.uvs[k], img.uvs[Before(k)], img.uvs[After(k, m)], y1, y2, i);
    MeasuredCell(UpsampledRowWith(Sse2On32, img.uvs[k], img.uvs[Before(k)], y1, 14),
                 UpsampledRowWith(Sse2On32, img.uvs[k], img.uvs[After(k, m)], y2, 14), n, i);
  }

  // ---- What a cell is corrected to ----

  lemma CorrectedCell(t: Pair, s: Pair, c: Pair, n: nat, i: nat)
    requires LINEAR.Top() == TOP && PairShape(t, n) && PairShape(s, n) && PairShape(c, n) && i < n
    ensures CellAt(Corrected(LINEAR, n, t, s, c), n, i) == Corrects(CellAt(t, n, i), CellAt(s, n, i), CellAt(c, n, i))
  {
    hide S16, Clip, MaxY;
  }

  // The distance of the first i cells of a row pair.
  function Distances(t: seq<Cell>, s: seq<Cell>, i: nat): nat
    requires i <= |t| && i <= |s|
  {
    if i == 0 then 0 else Distances(t, s, i - 1) + Distance(t[i - 1].luma, s[i - 1].luma)
  }

  // The two lines of a row pair, taken two samples at a time.
  lemma {:induction false} LineSums(t1: seq<int>, t2: seq<int>, s1: seq<int>, s2: seq<int>, t: seq<Cell>, s: seq<Cell>,
                                    i: nat)
    requires |t1| == |t2| == |s1| == |s2| && |t| == |s| && 2 * i <= |t1| == 2 * |t|
    requires forall j :: 0 <= j < |t| ==> t[j].luma == FourAt(t1, t2, j) && s[j].luma == FourAt(s1, s2, j)
    ensures Sad(t1[..2 * i], s1[..2 * i]) + Sad(t2[..2 * i], s2[..2 * i]) == Distances(t, s, i)
  {
    hide Abs, Sad;
    if i > 0 {
      LineSums(t1, t2, s1, s2, t, s, i - 1);
      SadStep(t1, s1, 2 * i - 2);
      SadStep(t1, s1, 2 * i - 1);
      SadStep(t2, s2, 2 * i - 2);
      SadStep(t2, s2, 2 * i - 1);
      assert t[i - 1].luma == FourAt(t1, t2, i - 1) && s[i - 1].luma == FourAt(s1, s2, i - 1);
    } else {
      SadStep(t1, s1, 0);
      SadStep(t2, s2, 0);
    }
  }

  lemma SadOfCells(t: seq<Cell>, s: seq<Cell>)
    requires |t| == |s|
    ensures Sad(RowOf(t).y, RowOf(s).y) == Distances(t, s, |t|)
  {
    hide Sad, Distances, RowOf;
    var n, x, y := |t|, RowOf(t).y, RowOf(s).y;
    forall j | 0 <= j < n
      ensures t[j].luma == FourAt(x[..2 * n], x[2 * n..], j) && s[j].luma == FourAt(y[..2 * n], y[2 * n..], j)
    {
      CellOfRow(t, j);
      CellOfRow(s, j);
    }
    LineSums(x[..2 * n], x[2 * n..], y[..2 * n], y[2 * n..], t, s, n);
    assert x[..2 * n][..2 * n] == x[..2 * n] && x[2 * n..][..2 * n] == x[2 * n..];
    assert y[..2 * n][..2 * n] == y[..2 * n] && y[2 * n..][..2 * n] == y[2 * n..];
    assert x == x[..2 * n] + x[2 * n..] && y == y[..2 * n] + y[2 * n..];
    SadConcat(x[..2 * n], y[..2 * n], x[2 * n..], y[2 * n..]);
  }

  // ---- Row pairs worked out ----

  lemma ChromaOfRow(cells: seq<Cell>, i: nat)
    requires i < |cells|
    ensures AcrossOf(RowOf(cells).uv, i) == AcrossAt(cells, i)
  {
  }

  // The cells of row pair k look like `seen` ...
  ghost predicate Sees(rows: seq<seq<Cell>>, n: nat, k: nat, wide: bool, seen: seq<Cell>)
    requires Grid(rows, n) && k < |rows| && n >= 1
  {
    |seen| == n && forall i :: 0 <= i < n ==> seen[i] == SeenFrom(rows, n, k, wide, i)
  }

  // ... and become `now`, at distance d from the target.
  ghost predicate Turns(target: seq<Cell>, seen: seq<Cell>, was: seq<Cell>, now: seq<Cell>, d: nat) {
    && |target| == |seen| == |was| == |now|
    && (forall i :: 0 <= i < |now| ==> now[i] == Corrects(target[i], seen[i], was[i]))
    && Distances(target, seen, |now|) == d
  }

  function SeenFrom(rows: seq<seq<Cell>>, n: nat, k: nat, wide: bool, i: nat): Cell
    requires Grid(rows, n) && k < |rows| && i < n
  {
    Measures(ShownCell(rows[k][i].luma, AcrossAt(rows[k], i), AcrossAt(rows[Before(k)], i),
                       AcrossAt(rows[After(k, |rows|)], i), if wide then WideColumns(n, i) else EXACT))
  }

  lemma SeenIs(rows: seq<seq<Cell>>, n: nat, k: nat, i: nat)
    requires LINEAR.Valid() && LINEAR.Top() == TOP && Grid(rows, n) && k < |rows| && i < n
    ensures CellAt(SeenAt(LINEAR, n, |rows|, ImageOf(rows, n), k), n, i) == SeenFrom(rows, n, k, false, i)
  {
    hide Measures, ShownCell, AcrossAt, AcrossOf, RowOf, FourAt, SeenAt, MaxY;
    SeenCell(ImageOf(rows, n), n, |rows|, k, i);
    CellOfRow(rows[k], i);
    ChromaOfRow(rows[k], i);
    ChromaOfRow(rows[Before(k)], i);
    ChromaOfRow(rows[After(k, |rows|)], i);
  }

  lemma WideSeenIs(rows: seq<seq<Cell>>, n: nat, k: nat, i: nat)
    requires LINEAR.Valid() && LINEAR.Top() == TOP && Grid(rows, n) && k < |rows| && i < n
    requires forall l :: 0 <= l < |rows| ==> Int16Planes(RowOf(rows[l]).uv)
    requires AllWithin(RowOf(rows[k]).y, 0, TOP)
    ensures CellAt(SeenWith(Sse2On32, LINEAR, n, |rows|, ImageOf(rows, n), k), n, i) == SeenFrom(rows, n, k, true, i)
  {
    hide Measures, ShownCell, AcrossAt, AcrossOf, RowOf, FourAt, SeenWith, MaxY, Int16Planes, WideColumns, AllWithin;
    WideSeenCell(ImageOf(rows, n), n, |rows|, k, i);
    CellOfRow(rows[k], i);
    ChromaOfRow(rows[k], i);
    ChromaOfRow(rows[Before(k)], i);
    ChromaOfRow(rows[After(k, |rows|)], i);
  }

  // Two grids of cells of the same size.
  ghost predicate Grids(target: seq<seq<Cell>>, rows: seq<seq<Cell>>, n: nat) {
    n >= 1 && Grid(target, n) && Grid(rows, n) && |target| == |rows|
  }

  // Row pair k of a sweep takes `rows` to `next`, at distance d from the target.
  ghost predicate Becomes(target: seq<seq<Cell>>, rows: seq<seq<Cell>>, n: nat, k: nat, next: seq<seq<Cell>>, d: nat)
    requires LINEAR.Valid() && Grids(target, rows, n) && Grids(rows, next, n) && k < |rows|
  {
    && StepAt(LINEAR, n, |rows|, ImageOf(target, n), ImageOf(rows, n), k) == ImageOf(next, n)
    && SadAt(LINEAR, n, |rows|, ImageOf(target, n), ImageOf(rows, n), k) == d
  }

  lemma RowWorks(target: seq<seq<Cell>>, rows: seq<seq<Cell>>, n: nat, k: nat, seen: seq<Cell>, next: seq<seq<Cell>>,
                 d: nat)
    requires LINEAR.Valid() && LINEAR.Top() == TOP && Grids(target, rows, n) && Grids(rows, next, n) && k < |rows|
    requires |seen| == n && next == rows[k := next[k]]
    requires Sees(rows, n, k, false, seen) && Turns(target[k], seen, rows[k], next[k], d)
    ensures Becomes(target, rows, n, k, next, d)
  {
    hide SeenFrom, Corrects, RowOf, CellAt, SeenAt, Corrected, Sad, Distances, MaxY;
    var m := |rows|;
    var s := SeenAt(LINEAR, n, m, ImageOf(rows, n), k);
    forall i | 0 <= i < n
      ensures CellAt(s, n, i) == CellAt(RowOf(seen), n, i)
    {
      SeenIs(rows, n, k, i);
      CellOfRow(seen, i);
    }
    SameCells(s, RowOf(seen), n);
    NowIs(target[k], seen, rows[k], next[k]);
    SadOfCells(target[k], seen);
    Replaces(rows, n, k, next[k]);
  }

  lemma NowIs(t: seq<Cell>, s: seq<Cell>, c: seq<Cell>, now: seq<Cell>)
    requires LINEAR.Top() == TOP && |t| == |s| == |c| == |now|
    requires forall i :: 0 <= i < |t| ==> now[i] == Corrects(t[i], s[i], c[i])
    ensures Corrected(LINEAR, |t|, RowOf(t), RowOf(s), RowOf(c)) == RowOf(now)
  {
    hide Corrects, RowOf, CellAt, Corrected, MaxY;
    var p := Corrected(LINEAR, |t|, RowOf(t), RowOf(s), RowOf(c));
    forall i | 0 <= i < |t|
      ensures CellAt(p, |t|, i) == CellAt(RowOf(now), |t|, i)
    {
      CorrectedCell(RowOf(t), RowOf(s), RowOf(c), |t|, i);
      CellOfRow(t, i);
      CellOfRow(s, i);
      CellOfRow(c, i);
      CellOfRow(now, i);
    }
    SameCells(p, RowOf(now), |t|);
  }

  lemma Replaces(rows: seq<seq<Cell>>, n: nat, k: nat, now: seq<Cell>)
    requires Grid(rows, n) && k < |rows| && |now| == n
    ensures Replaced(ImageOf(rows, n), n, |rows|, k, RowOf(now)) == ImageOf(rows[k := now], n)
  {
    hide RowOf;
    var a, b := Replaced(ImageOf(rows, n), n, |rows|, k, RowOf(now)), ImageOf(rows[k := now], n);
    assert a.ys == b.ys && a.uvs == b.uvs;
  }

  // The same with SSE2's wide filter.
  ghost predicate WideBecomes(target: seq<seq<Cell>>, rows: seq<seq<Cell>>, n: nat, k: nat, next: seq<seq<Cell>>,
                              d: nat)
    requires LINEAR.Valid() && Grids(target, rows, n) && Grids(rows, next, n) && k < |rows|
  {
    && StepWith(Sse2On32, LINEAR, n, |rows|, ImageOf(target, n), ImageOf(rows, n), k) == ImageOf(next, n)
    && SumWith(Sse2On32, ImageOf(target, n).ys[k], SeenWith(Sse2On32, LINEAR, n, |rows|, ImageOf(rows, n), k).y) == d
  }

  ghost predicate ReadyGrids(target: seq<seq<Cell>>, rows: seq<seq<Cell>>, n: nat)
    requires Grids(target, rows, n)
  {
    Ready(LINEAR, n, |rows|, ImageOf(target, n), ImageOf(rows, n))
  }

  lemma WideRowWorks(target: seq<seq<Cell>>, rows: seq<seq<Cell>>, n: nat, k: nat, seen: seq<Cell>,
                     next: seq<seq<Cell>>, d: nat)
    requires LINEAR.Valid() && LINEAR.Top() == TOP && Grids(target, rows, n) && Grids(rows, next, n) && k < |rows|
    requires |seen| == n && next == rows[k := next[k]]
    requires Sees(rows, n, k, true, seen) && Turns(target[k], seen, rows[k], next[k], d) && ReadyGrids(target, rows, n)
    requires d <= 0xFFFF_FFFF
    ensures WideBecomes(target, rows, n, k, next, d)
  {
    hide SeenFrom, Corrects, RowOf, CellAt, SeenWith, Corrected, CorrectedWith, MaxY, AllWithin, Pow2, Transfer.Tame,
         Image.LumaWithin;
    hide Sad, Distances, Sse2Sum, Sse2SumFits;
    var m := |rows|;
    var s := SeenWith(Sse2On32, LINEAR, n, m, ImageOf(rows, n), k);
    RowsAreInt16(rows, n);
    LumaIsWithin(rows, n, k);
    forall i | 0 <= i < n
      ensures CellAt(s, n, i) == CellAt(RowOf(seen), n, i)
    {
      WideSeenIs(rows, n, k, i);
      CellOfRow(seen, i);
    }
    SameCells(s, RowOf(seen), n);
    NowIs(target[k], seen, rows[k], next[k]);
    SadOfCells(target[k], seen);
    Sse2SumIs(RowOf(target[k]).y, RowOf(seen).y);
    VectorCorrects(Sse2On32, LINEAR, n, m, ImageOf(target, n), ImageOf(rows, n), k);
    Replaces(rows, n, k, next[k]);
  }

  lemma LumaIsWithin(rows: seq<seq<Cell>>, n: nat, k: nat)
    requires LINEAR.Top() == TOP && Grid(rows, n) && k < |rows| && ImageOf(rows, n).LumaWithin(LINEAR.Top())
    ensures AllWithin(RowOf(rows[k]).y, 0, TOP)
  {
    hide RowOf, MaxY, AllWithin;
    var img := ImageOf(rows, n);
    assert AllWithin(img.ys[k], 0, TOP);
  }

  lemma RowsAreInt16(rows: seq<seq<Cell>>, n: nat)
    requires Grid(rows, n) && UVWithin(ImageOf(rows, n), -0x8000, 0x7FFF)
    ensures forall l :: 0 <= l < |rows| ==> Int16Planes(RowOf(rows[l]).uv)
  {
    hide RowOf;
    var img := ImageOf(rows, n);
    forall l | 0 <= l < |rows|
      ensures Int16Planes(RowOf(rows[l]).uv)
    {
      assert img.uvs[l].Within(-0x8000, 0x7FFF);
    }
  }

  // ---- A cell worked out ----

  // From what a cell shows, the means of it and their gray to what is measured.
  lemma MeasureWorks(shows: Shows, means: Uv, gray: int, seen: Cell)
    requires means == Uv(Mean(shows.r), Mean(shows.g), Mean(shows.b)) && gray == RGBToGray(means.r, means.g, means.b)
    requires IsS16(means.r - gray) && IsS16(means.g - gray) && IsS16(means.b - gray)
    requires seen.uv == Uv(means.r - gray, means.g - gray, means.b - gray)
    requires seen.luma == Four(RGBToGray(shows.r.a, shows.g.a, shows.b.a), RGBToGray(shows.r.b, shows.g.b, shows.b.b),
                               RGBToGray(shows.r.c, shows.g.c, shows.b.c), RGBToGray(shows.r.d, shows.g.d, shows.b.d))
    ensures Measures(shows) == seen
  {
    hide S16, RGBToGray, Mean;
  }

  lemma CellWorks(y: Four, cur: Across, above: Across, below: Across, e: Columns, shows: Shows, means: Uv, gray: int,
                  seen: Cell)
    requires ShownCell(y, cur, above, below, e) == shows
    requires means == Uv(Mean(shows.r), Mean(shows.g), Mean(shows.b)) && gray == RGBToGray(means.r, means.g, means.b)
    requires IsS16(means.r - gray) && IsS16(means.g - gray) && IsS16(means.b - gray)
    requires seen.uv == Uv(means.r - gray, means.g - gray, means.b - gray)
    requires seen.luma == Four(RGBToGray(shows.r.a, shows.g.a, shows.b.a), RGBToGray(shows.r.b, shows.g.b, shows.b.b),
                               RGBToGray(shows.r.c, shows.g.c, shows.b.c), RGBToGray(shows.r.d, shows.g.d, shows.b.d))
    ensures Measures(ShownCell(y, cur, above, below, e)) == seen
  {
    hide ShownCell, Measures, RGBToGray, Mean;
    MeasureWorks(shows, means, gray, seen);
  }

  // ---- Sweeps worked out ----

  // A whole sweep takes `rows` to `next`, at distance d from the target.
  ghost predicate Sweeps(target: seq<seq<Cell>>, rows: seq<seq<Cell>>, n: nat, next: seq<seq<Cell>>, d: nat)
    requires LINEAR.Valid() && Grids(target, rows, n) && Grids(rows, next, n)
  {
    && SweepTo(LINEAR, n, |rows|, ImageOf(target, n), ImageOf(rows, n), |rows|) == ImageOf(next, n)
    && DiffTo(LINEAR, n, |rows|, ImageOf(target, n), ImageOf(rows, n), |rows|) == d
  }

  lemma SweepOfOne(target: seq<seq<Cell>>, rows: seq<seq<Cell>>, n: nat, next: seq<seq<Cell>>, d: nat)
    requires LINEAR.Valid() && Grids(target, rows, n) && Grids(rows, next, n) && |rows| == 1
    requires Becomes(target, rows, n, 0, next, d)
    ensures Sweeps(target, rows, n, next, d)
  {
    hide StepAt, SadAt, ImageOf, MaxY, Config.Valid;
    var t, a := ImageOf(target, n), ImageOf(rows, n);
    assert SweepTo(LINEAR, n, 1, t, a, 0) == a && DiffTo(LINEAR, n, 1, t, a, 0) == 0;
  }

  lemma SweepOfTwo(target: seq<seq<Cell>>, rows: seq<seq<Cell>>, n: nat, half: seq<seq<Cell>>, next: seq<seq<Cell>>,
                   d: nat, e: nat)
    requires LINEAR.Valid() && Grids(target, rows, n) && Grids(rows, half, n) && Grids(half, next, n) && |rows| == 2
    requires Grids(target, half, n) && Grids(rows, next, n)
    requires Becomes(target, rows, n, 0, half, d) && Becomes(target, half, n, 1, next, e)
    ensures Sweeps(target, rows, n, next, d + e)
  {
    hide StepAt, SadAt, ImageOf, MaxY, Config.Valid;
    var t, a, b := ImageOf(target, n), ImageOf(rows, n), ImageOf(half, n);
    assert SweepTo(LINEAR, n, 2, t, a, 0) == a && DiffTo(LINEAR, n, 2, t, a, 0) == 0;
    assert SweepTo(LINEAR, n, 2, t, a, 1) == b && DiffTo(LINEAR, n, 2, t, a, 1) == d;
  }

  // The same with SSE2's wide filter, for a single row pair.
  ghost predicate WideSweeps(target: seq<seq<Cell>>, rows: seq<seq<Cell>>, n: nat, next: seq<seq<Cell>>, d: nat)
    requires LINEAR.Valid() && Grids(target, rows, n) && Grids(rows, next, n)
  {
    && SweepWith(Sse2On32, LINEAR, n, |rows|, ImageOf(target, n), ImageOf(rows, n), |rows|) == ImageOf(next, n)
    && DiffWith(Sse2On32, LINEAR, n, |rows|, ImageOf(target, n), ImageOf(rows, n), |rows|) == d
  }

  lemma WideSweepOfOne(target: seq<seq<Cell>>, rows: seq<seq<Cell>>, n: nat, next: seq<seq<Cell>>, d: nat)
    requires LINEAR.Valid() && Grids(target, rows, n) && Grids(rows, next, n) && |rows| == 1
    requires WideBecomes(target, rows, n, 0, next, d)
    ensures WideSweeps(target, rows, n, next, d)
  {
    hide StepWith, SeenWith, SumWith, ImageOf, MaxY, Config.Valid;
    var t, a := ImageOf(target, n), ImageOf(rows, n);
    assert SweepWith(Sse2On32, LINEAR, n, 1, t, a, 0) == a && DiffWith(Sse2On32, LINEAR, n, 1, t, a, 0) == 0;
  }

  // ---- The start of a run ----

  // The pixels over cell i of row pair k of a picture of even size.
  function PixelsOf(c: seq<seq<int>>, k: nat, i: nat): Four
    requires 2 * k + 1 < |c| && 2 * i + 1 < |c[2 * k]| == |c[2 * k + 1]|
  {
    Four(Scaled(c[2 * k][2 * i], 16), Scaled(c[2 * k][2 * i + 1], 16), Scaled(c[2 * k + 1][2 * i], 16),
        Scaled(c[2 * k + 1][2 * i + 1], 16))
  }

  // An even 16-bit picture.
  ghost predicate Even(src: Source, n: nat, m: nat) {
    n >= 1 && m >= 1 && src.width == 2 * n && src.height == 2 * m && Fits(LINEAR, src, 16)
  }

  function PictureCell(src: Source, n: nat, m: nat, k: nat, i: nat): Cell
    requires Even(src, n, m) && k < m && i < n
  {
    Measures(Shows(PixelsOf(src.r, k, i), PixelsOf(src.g, k, i), PixelsOf(src.b, k, i)))
  }

  lemma PaddedPixels(c: seq<seq<int>>, n: nat, k: nat, i: nat)
    requires 2 * k + 1 < |c| && |c[2 * k]| == |c[2 * k + 1]| == 2 * n && i < n
    ensures FourAt(PaddedLine(c[2 * k], 2 * n, 16), PaddedLine(c[2 * k + 1], 2 * n, 16), i) == PixelsOf(c, k, i)
  {
    hide Scaled;
  }

  lemma ImportedCell(src: Source, n: nat, m: nat, k: nat, i: nat)
    requires LINEAR.Valid() && LINEAR.Top() == TOP && Even(src, n, m) && k < m && i < n
    ensures src.Cells() == n && CellAt(TargetPair(LINEAR, src, 16, k), n, i) == PictureCell(src, n, m, k, i)
  {
    hide PaddedLine, PixelsOf, Measures, Measured, CellAt, MaxY;
    PaddedPixels(src.r, n, k, i);
    PaddedPixels(src.g, n, k, i);
    PaddedPixels(src.b, n, k, i);
    var rows := PaddedPair(LINEAR, src, 16, k);
    MeasuredCell(rows.0, rows.1, n, i);
  }

  // Under the linear curve the first luma is the target.
  lemma FirstIsTarget(src: Source, n: nat, m: nat, k: nat)
    requires LINEAR.Valid() && LINEAR.Top() == TOP && Even(src, n, m) && k < m
    ensures FirstLuma(LINEAR, src, 16, k) == TargetPair(LINEAR, src, 16, k).y
  {
    hide PaddedPair, GrayRow, LumaRow, ChromaRow, Source.Valid, MaxY, AllWithin;
    var rows := PaddedPair(LINEAR, src, 16, k);
    GrayIsLuma(rows.0);
    GrayIsLuma(rows.1);
  }

  lemma GrayIsLuma(rgb: Planes)
    requires LINEAR.Valid() && LINEAR.Top() == TOP && rgb.Shape(|rgb.r|) && rgb.Within(0, LINEAR.Top())
    ensures GrayRow(rgb) == LumaRow(LINEAR, rgb)
  {
    hide RGBToGray, LumaRow, MaxY;
    forall x | 0 <= x < |rgb.r|
      ensures GrayRow(rgb)[x] == LumaRow(LINEAR, rgb)[x]
    {
      LumaIsGray(rgb, x);
      GrayRange(rgb.r[x], rgb.g[x], rgb.b[x], 0, TOP);
    }
  }

  lemma Starts(src: Source, n: nat, m: nat, target: seq<seq<Cell>>)
    requires LINEAR.Valid() && LINEAR.Top() == TOP && Even(src, n, m) && Grid(target, n) && |target| == m
    requires forall k, i :: 0 <= k < m && 0 <= i < n ==> target[k][i] == PictureCell(src, n, m, k, i)
    ensures src.Cells() == n && src.Pairs() == m
    ensures Target(LINEAR, src, 16) == ImageOf(target, n) && FirstGuess(LINEAR, src, 16) == ImageOf(target, n)
  {
    hide PictureCell, TargetPair, FirstLuma, RowOf, CellAt, Source.Valid, MaxY;
    var t, f, img := Target(LINEAR, src, 16), FirstGuess(LINEAR, src, 16), ImageOf(target, n);
    forall k | 0 <= k < m
      ensures t.ys[k] == img.ys[k] && f.ys[k] == img.ys[k] && t.uvs[k] == img.uvs[k]
    {
      forall i | 0 <= i < n
        ensures CellAt(TargetPair(LINEAR, src, 16, k), n, i) == CellAt(RowOf(target[k]), n, i)
      {
        ImportedCell(src, n, m, k, i);
        CellOfRow(target[k], i);
      }
      SameCells(TargetPair(LINEAR, src, 16, k), RowOf(target[k]), n);
      FirstIsTarget(src, n, m, k);
    }
    assert t.ys == img.ys && f.ys == img.ys && t.uvs == img.uvs;
  }

  // The darkest and the brightest 16-bit samples.
  lemma FullOrNone16()
    ensures Scaled(0, 16) == 0 && Scaled(65535, 16) == TOP && WorkDepth(16) == 14 && MaxY(16) == 65535
  {
    Pow2Values();
  }

  lemma LineFits(r: seq<int>, g: seq<int>, b: seq<int>)
    requires forall i :: 0 <= i < |r| ==> r[i] == 0 || r[i] == 65535
    requires forall i :: 0 <= i < |g| ==> g[i] == 0 || g[i] == 65535
    requires forall i :: 0 <= i < |b| ==> b[i] == 0 || b[i] == 65535
    ensures AllWithin(r, 0, 65535) && AllWithin(g, 0, 65535) && AllWithin(b, 0, 65535)
  {
  }

  // ---- The iteration loop ----

  // One turn.
  lemma Turn(target: seq<seq<Cell>>, rows: seq<seq<Cell>>, n: nat, next: seq<seq<Cell>>, diff: nat, iter: nat,
             prevDiff: nat)
    requires LINEAR.Valid() && Grids(target, rows, n) && Grids(rows, next, n)
    requires Sweeps(target, rows, n, next, diff) && iter < NUM_ITERATIONS
    ensures var m, t := |rows|, ImageOf(target, n);
            Iterate(LINEAR, n, m, t, ImageOf(rows, n), iter, prevDiff) ==
            if iter > 0 && (diff < 3 * (2 * n) * (2 * m) || diff > prevDiff)
                then Outcome(ImageOf(next, n), iter + 1, diff)
            else if iter + 1 == NUM_ITERATIONS then Outcome(ImageOf(next, n), NUM_ITERATIONS, diff)
            else Iterate(LINEAR, n, m, t, ImageOf(next, n), iter + 1, diff)
  {
    hide SweepTo, DiffTo, Config.Valid, ImageOf;
  }

  lemma WideTurn(target: seq<seq<Cell>>, rows: seq<seq<Cell>>, n: nat, next: seq<seq<Cell>>, diff: nat, iter: nat,
                 prevDiff: nat)
    requires LINEAR.Valid() && Grids(target, rows, n) && Grids(rows, next, n)
    requires WideSweeps(target, rows, n, next, diff) && iter < NUM_ITERATIONS
    ensures var m, t := |rows|, ImageOf(target, n);
            IterateWith(Sse2On32, LINEAR, n, m, t, ImageOf(rows, n), iter, prevDiff) ==
            if iter > 0 && (diff < 3 * (2 * n) * (2 * m) || diff > prevDiff)
                then Outcome(ImageOf(next, n), iter + 1, diff)
            else if iter + 1 == NUM_ITERATIONS then Outcome(ImageOf(next, n), NUM_ITERATIONS, diff)
            else IterateWith(Sse2On32, LINEAR, n, m, t, ImageOf(next, n), iter + 1, diff)
  {
    hide SweepWith, DiffWith, Config.Valid, ImageOf;
  }

  // The run of an even picture ends with the given image, number of sweeps and difference.
  ghost predicate RefinesTo(src: Source, n: nat, m: nat, final: Image, sweeps: nat, diff: nat) {
    && Even(src, n, m) && src.Cells() == n && src.Pairs() == m
    && Refined(LINEAR, src, 16) == Outcome(final, sweeps, diff)
  }

  // Targets and first guess of an even picture are these cells.
  ghost predicate StartsFrom(src: Source, n: nat, t: seq<seq<Cell>>) {
    && LINEAR.Valid() && Even(src, n, |t|) && src.Cells() == n && src.Pairs() == |t| && Grids(t, t, n)
    && Target(LINEAR, src, 16) == ImageOf(t, n) && FirstGuess(LINEAR, src, 16) == ImageOf(t, n)
  }

  // Four sweeps, each closer to the target than the one before and none close enough.
  lemma FourSweeps(src: Source, n: nat, t: seq<seq<Cell>>, a: seq<seq<Cell>>, b: seq<seq<Cell>>, c: seq<seq<Cell>>,
                   d: seq<seq<Cell>>, p: nat, q: nat, r: nat, s: nat)
    requires StartsFrom(src, n, t) && Grids(t, a, n) && Grids(t, b, n) && Grids(t, c, n) && Grids(t, d, n)
    requires Sweeps(t, t, n, a, p) && Sweeps(t, a, n, b, q) && Sweeps(t, b, n, c, r) && Sweeps(t, c, n, d, s)
    requires 3 * (2 * n) * (2 * |t|) <= r <= q <= p
    ensures RefinesTo(src, n, |t|, ImageOf(d, n), 4, s)
  {
    hide Sweeps, Iterate, ImageOf, Target, FirstGuess, Even, Config.Valid, MaxY;
    Turn(t, t, n, a, p, 0, UINT64_MAX);
    Turn(t, a, n, b, q, 1, p);
    Turn(t, b, n, c, r, 2, q);
    Turn(t, c, n, d, s, 3, r);
  }
}
