// 10-bit pictures: in which chroma buffers a run can overflow. Red and green never leave int16,
// whatever the curve is. Under the linear curve blue does not either: it could only by being
// corrected almost fully in the same direction in all four sweeps, and the first sweep cannot
// take a blue cell for yellow, nor a yellow one for blue.
module TenBitRuns {
  import opened FixedPoint
  import opened Gamma
  import opened Kernels
  import opened Rows
  import opened Measure
  import opened Sweep
  import opened Import
  import opened Driver
  import opened Invariants
  import opened ChromaRuns
  import opened SimdRuns

  // ---- The reach of each channel ----

  // Within so many times what red, green and blue can be away from gray at 12 bits.
  predicate Reached(r: int, g: int, b: int, times: nat) {
    Abs(r) <= 3225 * times && Abs(g) <= 1167 * times && Abs(b) <= 3800 * times
  }

  ghost predicate RowReached(p: Planes, n: nat, times: nat)
    requires p.Shape(n)
  {
    forall i :: 0 <= i < n ==> Reached(p.r[i], p.g[i], p.b[i], times)
  }

  lemma TripleReached(r: nat, g: nat, b: nat)
    requires r <= 4096 && g <= 4096 && b <= 4096
    ensures var u := ChromaOf(r, g, b); Reached(u.0, u.1, u.2, 1)
  {
    hide S16, Drift, Magnitude, Reach;
    ChromaOfBounds(r, g, b, 4096);
  }

  lemma MeasuredReached(cfg: Config, n: nat, upper: Planes, lower: Planes)
    requires cfg.Valid() && cfg.t.Tame(12) && cfg.bitDepth == 12 && RowPair(cfg, upper, lower, n)
    ensures RowReached(ChromaRow(cfg, upper, lower, n), n, 1)
  {
    hide BlockMean, ChromaOf, Reached, MaxY, AllWithin;
    var uv := ChromaRow(cfg, upper, lower, n);
    Pow2Values();
    forall i | 0 <= i < n
      ensures Reached(uv.r[i], uv.g[i], uv.b[i], 1)
    {
      BlockMeanInRange(cfg, upper.r, lower.r, i);
      BlockMeanInRange(cfg, upper.g, lower.g, i);
      BlockMeanInRange(cfg, upper.b, lower.b, i);
      TripleReached(BlockMean(cfg, upper.r, lower.r, i), BlockMean(cfg, upper.g, lower.g, i),
                    BlockMean(cfg, upper.b, lower.b, i));
    }
  }

  lemma SeenReached(cfg: Config, n: nat, m: nat, img: Image, k: nat)
    requires cfg.Valid() && cfg.t.Tame(12) && cfg.bitDepth == 12 && img.Shape(n, m) && k < m
    ensures RowReached(SeenAt(cfg, n, m, img, k).uv, n, 1)
  {
    hide LumaRow, ChromaRow, RowReached, UpsampledRow;
    MeasuredReached(cfg, n, UpperRow(cfg, n, img.uvs[Before(k)], img.uvs[k], img.ys[k]),
                    LowerRow(cfg, n, img.uvs[k], img.uvs[After(k, m)], img.ys[k]));
  }

  lemma TargetReached(cfg: Config, src: Source, k: nat)
    requires Fits(cfg, src, 10) && cfg.t.Tame(12) && cfg.bitDepth == 12 && k < src.Pairs()
    ensures RowReached(Target(cfg, src, 10).uvs[k], src.Cells(), 1)
  {
    hide LumaRow, ChromaRow, RowReached, PaddedPair, Source.Valid;
    var rows := PaddedPair(cfg, src, 10, k);
    MeasuredReached(cfg, src.Cells(), rows.0, rows.1);
  }

  lemma PlusReached(was: Planes, target: Planes, seen: Planes, n: nat, times: nat)
    requires was.Shape(n) && target.Shape(n) && seen.Shape(n)
    requires RowReached(was, n, times) && RowReached(target, n, 1) && RowReached(seen, n, 1)
    ensures RowReached(Plus(was, target, seen, n), n, times + 2)
  {
    hide Reached;
    var now := Plus(was, target, seen, n);
    forall i | 0 <= i < n
      ensures Reached(now.r[i], now.g[i], now.b[i], times + 2)
    {
      CorrectionReached((was.r[i], was.g[i], was.b[i]), (target.r[i], target.g[i], target.b[i]),
                        (seen.r[i], seen.g[i], seen.b[i]), times);
    }
  }

  lemma CorrectionReached(was: (int, int, int), t: (int, int, int), s: (int, int, int), times: nat)
    requires Reached(was.0, was.1, was.2, times) && Reached(t.0, t.1, t.2, 1) && Reached(s.0, s.1, s.2, 1)
    ensures Reached(was.0 + (t.0 - s.0), was.1 + (t.1 - s.1), was.2 + (t.2 - s.2), times + 2)
  {
  }

  lemma {:induction false} OwedReached(cfg: Config, n: nat, m: nat, target: Image, img: Image, sweeps: nat, k: nat)
    requires cfg.Valid() && cfg.t.Tame(12) && cfg.bitDepth == 12 && img.Shape(n, m) && target.Shape(n, m) && k < m
    requires img.uvs[k] == target.uvs[k] && RowReached(target.uvs[k], n, 1)
    ensures RowReached(Owed(cfg, n, m, target, img, sweeps, k), n, 2 * sweeps + 1)
  {
    hide SweepTo, AfterSweeps, SeenAt, Plus, RowReached, AllWithin, Config.Valid, Transfer.Tame;
    if sweeps > 0 {
      OwedReached(cfg, n, m, target, img, sweeps - 1, k);
      SeenReached(cfg, n, m, SweepTo(cfg, n, m, target, AfterSweeps(cfg, n, m, target, img, sweeps - 1), k), k);
      PlusReached(Owed(cfg, n, m, target, img, sweeps - 1, k), target.uvs[k],
                  SeenInSweep(cfg, n, m, target, img, sweeps - 1, k), n, 2 * sweeps - 1);
    }
  }

  lemma OwedChromaReached(cfg: Config, src: Source, sweeps: nat, k: nat)
    requires Fits(cfg, src, 10) && cfg.t.Tame(cfg.bitDepth) && k < src.Pairs()
    ensures RowReached(OwedChroma(cfg, src, 10, sweeps, k), src.Cells(), 2 * sweeps + 1)
  {
    hide Owed, Target, FirstGuess, RowReached, Transfer.Tame, Source.Channel;
    TargetReached(cfg, src, k);
    FirstChroma(cfg, src, 10);
    OwedReached(cfg, src.Cells(), src.Pairs(), Target(cfg, src, 10), FirstGuess(cfg, src, 10), sweeps, k);
  }

  // Of a 10-bit picture, red and green chroma are stored exactly through the whole run.
  lemma RedAndGreenFit(cfg: Config, src: Source, sweeps: nat, k: nat)
    requires Fits(cfg, src, 10) && cfg.t.Tame(cfg.bitDepth) && sweeps <= 4 && k < src.Pairs()
    ensures var uv, owed := StoredChroma(cfg, src, 10, sweeps, k), OwedChroma(cfg, src, 10, sweeps, k);
            uv.r == owed.r && uv.g == owed.g
  {
    hide StoredChroma, OwedChroma, ChromaWithin, ChromaBound, S16, Transfer.Tame, Source.Valid;
    var uv, owed := StoredChroma(cfg, src, 10, sweeps, k), OwedChroma(cfg, src, 10, sweeps, k);
    ChromaOfRun(cfg, src, 10, sweeps, k);
    OwedChromaReached(cfg, src, sweeps, k);
    forall i | 0 <= i < src.Cells()
      ensures uv.r[i] == owed.r[i] && uv.g[i] == owed.g[i]
    {
      assert Reached(owed.r[i], owed.g[i], owed.b[i], 2 * sweeps + 1);
      FourSweepsFit(owed.r[i], owed.g[i], owed.b[i], sweeps);
    }
  }

  lemma FourSweepsFit(r: int, g: int, b: int, sweeps: nat)
    requires Reached(r, g, b, 2 * sweeps + 1) && sweeps <= 4
    ensures IsS16(r) && IsS16(g)
  {
  }

  // ---- What the first sweep sees of a cell, under the linear curve ----

  // Adding a tap and clamping moves a sample by the tap or less.
  lemma ClipMoves(y: int, tap: int, max: int)
    requires 0 <= y <= max
    ensures y + Min(0, tap) <= Clip(y + tap, max) <= y + Max(0, tap)
  {
  }

  // The most and the least that a tap can be, for what the cell itself holds, its row within
  // one bound and the row across within another.
  function Most(own: int, near: nat, far: nat): int {
    (9 * own + 3 * near + 4 * far + 8) / 16
  }

  function Least(own: int, near: nat, far: nat): int {
    (9 * own - 3 * near - 4 * far + 8) / 16
  }

  lemma TapBetween(own: int, beside: int, across: int, diagonal: int, near: nat, far: nat)
    requires Abs(beside) <= near && Abs(across) <= far && Abs(diagonal) <= far
    ensures Least(own, near, far) <= Tap(own, beside, across, diagonal) <= Most(own, near, far)
  {
  }

  ghost predicate Around(p: seq<int>, bound: nat) {
    forall j :: 0 <= j < |p| ==> Abs(p[j]) <= bound
  }

  lemma SampleMoves(cur: seq<int>, other: seq<int>, y: seq<int>, x: nat, max: nat, near: nat, far: nat)
    requires |cur| == |other| && x < |y| == 2 * |cur| && AllWithin(y, 0, max)
    requires Around(cur, near) && Around(other, far)
    ensures var own := cur[x / 2];
            y[x] + Min(0, Least(own, near, far)) <= Upsample(cur, other, y, max)[x]
            <= y[x] + Max(0, Most(own, near, far))
  {
    hide Tap, Least, Most, Clip;
    var i, j := x / 2, Beside(x, |cur|);
    TapBetween(cur[i], cur[j], other[i], other[j], near, far);
    ClipMoves(y[x], Tap(cur[i], cur[j], other[i], other[j]), max);
  }

  // The four samples of cell i of a row pair, added up.
  function FourOf(upper: seq<int>, lower: seq<int>, i: nat): int
    requires |upper| == |lower| && 2 * i + 1 < |upper|
  {
    upper[2 * i] + upper[2 * i + 1] + lower[2 * i] + lower[2 * i + 1]
  }

  // How far they can be from the luma. The row above has been corrected once already.
  function Up(own: int, reach: nat): nat {
    2 * Max(0, Most(own, reach, 3 * reach)) + 2 * Max(0, Most(own, reach, reach))
  }

  function Down(own: int, reach: nat): nat {
    2 * Max(0, -Least(own, reach, 3 * reach)) + 2 * Max(0, -Least(own, reach, reach))
  }

  lemma FourMove(cur: seq<int>, above: seq<int>, below: seq<int>, y1: seq<int>, y2: seq<int>, i: nat, max: nat,
                 reach: nat)
    requires |cur| == |above| == |below| && |y1| == |y2| == 2 * |cur| && i < |cur|
    requires AllWithin(y1, 0, max) && AllWithin(y2, 0, max)
    requires Around(cur, reach) && Around(above, 3 * reach) && Around(below, reach)
    ensures FourOf(y1, y2, i) - Down(cur[i], reach) <=
            FourOf(Upsample(cur, above, y1, max), Upsample(cur, below, y2, max), i) <=
            FourOf(y1, y2, i) + Up(cur[i], reach)
  {
    hide Upsample, Least, Most, Around;
    SampleMoves(cur, above, y1, 2 * i, max, reach, 3 * reach);
    SampleMoves(cur, above, y1, 2 * i + 1, max, reach, 3 * reach);
    SampleMoves(cur, below, y2, 2 * i, max, reach, reach);
    SampleMoves(cur, below, y2, 2 * i + 1, max, reach, reach);
  }

  // A target that is blue enough is not seen as yellow, ...
  lemma BlueStaysBlue(r: nat, g: nat, b: nat, luma: int, sr: nat, sg: nat, sb: nat)
    requires r <= 4095 && g <= 4095 && b <= 4095
    requires var w := RGBToGray(r, g, b);
             && b - w >= 3480 && luma <= 4 * w + 8
             && 4 * sr <= luma + Up(r - w, 3225) + 2 && 4 * sg <= luma + Up(g - w, 1167) + 2
    ensures sb - RGBToGray(sr, sg, sb) >= -2367
  {
    var w := RGBToGray(r, g, b);
    assert 13933 * r + 46871 * g <= 65536 * w + 32768 - 4732 * b;
  }

  // ... and one that is yellow enough not as blue.
  lemma YellowStaysYellow(r: nat, g: nat, b: nat, luma: int, sr: nat, sg: nat, sb: nat)
    requires r <= 4095 && g <= 4095 && b <= 4095 && sb <= 4095
    requires var w := RGBToGray(r, g, b);
             && b - w <= -3480 && luma >= 4 * w - 8
             && 4 * sr >= luma - Down(r - w, 3225) - 2 && 4 * sg >= luma - Down(g - w, 1167) - 2
    ensures sb - RGBToGray(sr, sg, sb) <= 2367
  {
    var w := RGBToGray(r, g, b);
    assert 13933 * r + 46871 * g >= 65536 * w - 32768 - 4732 * b;
  }

  predicate Agree(t: int, s: int) {
    (t >= 3480 ==> s >= -2367) && (t <= -3480 ==> s <= 2367)
  }

  lemma MeanOfFour(a: nat, b: nat, c: nat, d: nat)
    requires a <= 4095 && b <= 4095 && c <= 4095 && d <= 4095
    ensures MaxY(12) == 4095 && ScaleDown(a, b, c, d, 12, Linear) == (a + b + c + d + 2) / 4
  {
    Pow2Values();
    hide Pow2;
  }

  lemma BlockMeanIs(cfg: Config, p1: seq<int>, p2: seq<int>, i: nat)
    requires cfg.Valid() && cfg == Config(Linear, 12) && |p1| == |p2| && 2 * i + 1 < |p1|
    requires AllWithin(p1, 0, cfg.Top()) && AllWithin(p2, 0, cfg.Top())
    ensures BlockMean(cfg, p1, p2, i) == (FourOf(p1, p2, i) + 2) / 4 <= 4095
  {
    hide ScaleDown;
    Pow2Values();
    MeanOfFour(p1[2 * i], p1[2 * i + 1], p2[2 * i], p2[2 * i + 1]);
  }

  // The luma of four pixels adds up to four times the gray of their mean, but for rounding.
  lemma FourGrays(rgb1: Planes, rgb2: Planes, i: nat)
    requires rgb1.Shape(|rgb1.r|) && rgb2.Shape(|rgb1.r|) && 2 * i + 1 < |rgb1.r|
    requires rgb1.Within(0, 4095) && rgb2.Within(0, 4095)
    ensures var w := RGBToGray((FourOf(rgb1.r, rgb2.r, i) + 2) / 4, (FourOf(rgb1.g, rgb2.g, i) + 2) / 4,
                               (FourOf(rgb1.b, rgb2.b, i) + 2) / 4);
            Abs(FourOf(GrayRow(rgb1), GrayRow(rgb2), i) - 4 * w) <= 8
  {
    hide RGBToGray, Abs;
    var x := 2 * i;
    forall j | x <= j <= x + 1
      ensures GrayRow(rgb1)[j] == RGBToGray(rgb1.r[j], rgb1.g[j], rgb1.b[j])
      ensures GrayRow(rgb2)[j] == RGBToGray(rgb2.r[j], rgb2.g[j], rgb2.b[j])
    {
      GrayRange(rgb1.r[j], rgb1.g[j], rgb1.b[j], 0, 4095);
      GrayRange(rgb2.r[j], rgb2.g[j], rgb2.b[j], 0, 4095);
    }
    GrayOfMean((rgb1.r[x], rgb1.r[x + 1], rgb2.r[x], rgb2.r[x + 1]),
               (rgb1.g[x], rgb1.g[x + 1], rgb2.g[x], rgb2.g[x + 1]),
               (rgb1.b[x], rgb1.b[x + 1], rgb2.b[x], rgb2.b[x + 1]));
  }

  lemma GrayOfMean(r: (int, int, int, int), g: (int, int, int, int), b: (int, int, int, int))
    ensures var w := RGBToGray((r.0 + r.1 + r.2 + r.3 + 2) / 4, (g.0 + g.1 + g.2 + g.3 + 2) / 4,
                               (b.0 + b.1 + b.2 + b.3 + 2) / 4);
            var luma := RGBToGray(r.0, g.0, b.0) + RGBToGray(r.1, g.1, b.1) + RGBToGray(r.2, g.2, b.2)
                        + RGBToGray(r.3, g.3, b.3);
            Abs(luma - 4 * w) <= 8
  {
    var mr, mg, mb := (r.0 + r.1 + r.2 + r.3 + 2) / 4, (g.0 + g.1 + g.2 + g.3 + 2) / 4, (b.0 + b.1 + b.2 + b.3 + 2) / 4;
    GrayRemainder(r.0, g.0, b.0);
    GrayRemainder(r.1, g.1, b.1);
    GrayRemainder(r.2, g.2, b.2);
    GrayRemainder(r.3, g.3, b.3);
    GrayRemainder(mr, mg, mb);
    hide RGBToGray;
  }

  // One channel of a row pair that holds the luma y1, y2, as the first sweep sees its cell i.
  lemma ChannelMoves(cfg: Config, cur: seq<int>, above: seq<int>, below: seq<int>, y1: seq<int>, y2: seq<int>, i: nat,
                     reach: nat)
    requires cfg.Valid() && cfg == Config(Linear, 12)
    requires |cur| == |above| == |below| && |y1| == |y2| == 2 * |cur| && i < |cur|
    requires AllWithin(y1, 0, cfg.Top()) && AllWithin(y2, 0, cfg.Top())
    requires Around(cur, reach) && Around(above, 3 * reach) && Around(below, reach)
    ensures var mean := BlockMean(cfg, Upsample(cur, above, y1, cfg.Top()), Upsample(cur, below, y2, cfg.Top()), i);
            FourOf(y1, y2, i) - Down(cur[i], reach) - 2 <= 4 * mean <= FourOf(y1, y2, i) + Up(cur[i], reach) + 2
  {
    hide Upsample, Up, Down, Around, BlockMean, MaxY;
    FourMove(cur, above, below, y1, y2, i, cfg.Top(), reach);
    BlockMeanIs(cfg, Upsample(cur, above, y1, cfg.Top()), Upsample(cur, below, y2, cfg.Top()), i);
  }

  lemma AroundReached(p: Planes, n: nat, times: nat)
    requires p.Shape(n) && RowReached(p, n, times)
    ensures Around(p.r, 3225 * times) && Around(p.g, 1167 * times)
  {
    hide Abs;
    forall j | 0 <= j < n
      ensures Abs(p.r[j]) <= 3225 * times && Abs(p.g[j]) <= 1167 * times
    {
      assert Reached(p.r[j], p.g[j], p.b[j], times);
    }
  }

  // Chroma of a cell in terms of the means that it is measured by.
  lemma ChromaIs(cfg: Config, n: nat, rgb1: Planes, rgb2: Planes, i: nat)
    requires cfg.Valid() && cfg == Config(Linear, 12) && RowPair(cfg, rgb1, rgb2, n) && i < n
    ensures var r, g, b := BlockMean(cfg, rgb1.r, rgb2.r, i), BlockMean(cfg, rgb1.g, rgb2.g, i),
                           BlockMean(cfg, rgb1.b, rgb2.b, i);
            var w, uv := RGBToGray(r, g, b), ChromaRow(cfg, rgb1, rgb2, n);
            && r <= 4095 && g <= 4095 && b <= 4095
            && uv.r[i] == r - w && uv.g[i] == g - w && uv.b[i] == b - w
  {
    hide BlockMean, ChromaOf, RGBToGray, Drift, Magnitude, MaxY;
    BlockMeanIs(cfg, rgb1.r, rgb2.r, i);
    BlockMeanIs(cfg, rgb1.g, rgb2.g, i);
    BlockMeanIs(cfg, rgb1.b, rgb2.b, i);
    ChromaOfBounds(BlockMean(cfg, rgb1.r, rgb2.r, i), BlockMean(cfg, rgb1.g, rgb2.g, i),
                   BlockMean(cfg, rgb1.b, rgb2.b, i), 4095);
  }

  lemma LumaIs(cfg: Config, n: nat, rgb1: Planes, rgb2: Planes, i: nat)
    requires cfg.Valid() && cfg == Config(Linear, 12) && RowPair(cfg, rgb1, rgb2, n) && i < n
    ensures var w := RGBToGray(BlockMean(cfg, rgb1.r, rgb2.r, i), BlockMean(cfg, rgb1.g, rgb2.g, i),
                               BlockMean(cfg, rgb1.b, rgb2.b, i));
            4 * w - 8 <= FourOf(GrayRow(rgb1), GrayRow(rgb2), i) <= 4 * w + 8
  {
    hide BlockMean, RGBToGray, GrayRow;
    Pow2Values();
    BlockMeanIs(cfg, rgb1.r, rgb2.r, i);
    BlockMeanIs(cfg, rgb1.g, rgb2.g, i);
    BlockMeanIs(cfg, rgb1.b, rgb2.b, i);
    FourGrays(rgb1, rgb2, i);
  }

  // A cell that holds the luma and the chroma of a picture, as the first sweep sees it between
  // the row above and the row below.
  lemma CellAgrees(cfg: Config, n: nat, rgb1: Planes, rgb2: Planes, above: Planes, below: Planes, i: nat)
    requires cfg.Valid() && cfg == Config(Linear, 12) && RowPair(cfg, rgb1, rgb2, n) && i < n
    requires above.Shape(n) && below.Shape(n) && RowReached(above, n, 3) && RowReached(below, n, 1)
    ensures var cur, y := ChromaRow(cfg, rgb1, rgb2, n), GrayRow(rgb1) + GrayRow(rgb2);
            Agree(cur.b[i], Seen(cfg, n, above, cur, below, y).uv.b[i])
  {
    hide ChromaRow, Upsample, GrayRow, RowReached, MaxY, BlockMean, RGBToGray, Up, Down, Around, FourOf, LumaRow;
    hide AllWithin;
    var cur, y1, y2 := ChromaRow(cfg, rgb1, rgb2, n), GrayRow(rgb1), GrayRow(rgb2);
    assert (y1 + y2)[..2 * n] == y1 && (y1 + y2)[2 * n..] == y2;
    var upper, lower := UpsampledRow(cur, above, y1, cfg.Top()), UpsampledRow(cur, below, y2, cfg.Top());
    TopAtMost14Bits(cfg);
    GrayRowInRange(rgb1, cfg.Top());
    GrayRowInRange(rgb2, cfg.Top());
    MeasuredReached(cfg, n, rgb1, rgb2);
    AroundReached(cur, n, 1);
    AroundReached(above, n, 3);
    AroundReached(below, n, 1);
    ChannelMoves(cfg, cur.r, above.r, below.r, y1, y2, i, 3225);
    ChannelMoves(cfg, cur.g, above.g, below.g, y1, y2, i, 1167);
    ChromaIs(cfg, n, rgb1, rgb2, i);
    ChromaIs(cfg, n, upper, lower, i);
    LumaIs(cfg, n, rgb1, rgb2, i);
    var r, g, b := BlockMean(cfg, rgb1.r, rgb2.r, i), BlockMean(cfg, rgb1.g, rgb2.g, i),
        BlockMean(cfg, rgb1.b, rgb2.b, i);
    var sr, sg, sb := BlockMean(cfg, upper.r, lower.r, i), BlockMean(cfg, upper.g, lower.g, i),
        BlockMean(cfg, upper.b, lower.b, i);
    if cur.b[i] >= 3480 {
      BlueStaysBlue(r, g, b, FourOf(y1, y2, i), sr, sg, sb);
    } else if cur.b[i] <= -3480 {
      YellowStaysYellow(r, g, b, FourOf(y1, y2, i), sr, sg, sb);
    }
  }

  // ---- The run ----

  // What the first sweep of a 10-bit picture sees in a cell under the linear curve.
  lemma FirstSweepAgrees(cfg: Config, src: Source, k: nat, i: nat)
    requires Fits(cfg, src, 10) && cfg.t == Linear && k < src.Pairs() && i < src.Cells()
    ensures var target, first := Target(cfg, src, 10), FirstGuess(cfg, src, 10);
            Agree(target.uvs[k].b[i], SeenInSweep(cfg, src.Cells(), src.Pairs(), target, first, 0, k).b[i])
  {
    hide ChromaRow, GrayRow, RowReached, Agree, PaddedPair, MidRun, StoredChroma, Source.Valid, Seen, LumaRow;
    var n, m := src.Cells(), src.Pairs();
    var img, rows := MidRun(cfg, src, 10, 0, k), PaddedPair(cfg, src, 10, k);
    RowsOfFirstSweep(cfg, src, k);
    CellAgrees(cfg, n, rows.0, rows.1, img.uvs[Before(k)], img.uvs[After(k, m)], i);
    MidRunIs(cfg, src, k);
  }

  lemma MidRunIs(cfg: Config, src: Source, k: nat)
    requires Fits(cfg, src, 10) && k < src.Pairs()
    ensures var n, m, target, first := src.Cells(), src.Pairs(), Target(cfg, src, 10), FirstGuess(cfg, src, 10);
            var img, rows := MidRun(cfg, src, 10, 0, k), PaddedPair(cfg, src, 10, k);
            && SeenInSweep(cfg, n, m, target, first, 0, k) == SeenAt(cfg, n, m, img, k).uv
            && img.uvs[k] == target.uvs[k] == ChromaRow(cfg, rows.0, rows.1, n)
            && img.ys[k] == GrayRow(rows.0) + GrayRow(rows.1)
  {
    hide ChromaRow, GrayRow, PaddedPair, Source.Valid, SeenAt, LumaRow, SweepTo;
    SweepPrefix(cfg, src.Cells(), src.Pairs(), Target(cfg, src, 10), FirstGuess(cfg, src, 10), k, src.Pairs());
  }

  // The row above has had one correction, or is the row itself; the row below none.
  lemma RowsOfFirstSweep(cfg: Config, src: Source, k: nat)
    requires Fits(cfg, src, 10) && cfg.t.Tame(cfg.bitDepth) && k < src.Pairs()
    ensures var img := MidRun(cfg, src, 10, 0, k);
            RowReached(img.uvs[Before(k)], src.Cells(), 3) && RowReached(img.uvs[After(k, src.Pairs())], src.Cells(), 1)
  {
    hide MidRun, StoredChroma, OwedChroma, RowReached, ChromaBound, Transfer.Tame, Source.Valid, ChromaWithin;
    var above, below := Before(k), After(k, src.Pairs());
    MidRunRow(cfg, src, 10, 0, k, above);
    MidRunRow(cfg, src, 10, 0, k, below);
    StoredReached(cfg, src, if above < k then 1 else 0, above, 3);
    StoredReached(cfg, src, 0, below, 1);
  }

  lemma StoredReached(cfg: Config, src: Source, sweeps: nat, k: nat, times: nat)
    requires Fits(cfg, src, 10) && cfg.t.Tame(cfg.bitDepth) && k < src.Pairs() && sweeps <= 3
    requires 2 * sweeps + 1 <= times
    ensures RowReached(StoredChroma(cfg, src, 10, sweeps, k), src.Cells(), times)
  {
    hide StoredChroma, OwedChroma, Transfer.Tame, Source.Valid, ChromaWithin;
    ReachValues();
    ChromaFitsInt16(cfg, src, 10, sweeps, k);
    OwedChromaReached(cfg, src, sweeps, k);
    var p := StoredChroma(cfg, src, 10, sweeps, k);
    forall i | 0 <= i < src.Cells()
      ensures Reached(p.r[i], p.g[i], p.b[i], times)
    {
      assert Reached(p.r[i], p.g[i], p.b[i], 2 * sweeps + 1);
    }
  }

  // The exact sum of the blue chroma of a cell, sweep by sweep.
  function BlueSeen(cfg: Config, src: Source, sweep: nat, k: nat, i: nat): int
    requires Fits(cfg, src, 10) && k < src.Pairs() && i < src.Cells()
  {
    SeenInSweep(cfg, src.Cells(), src.Pairs(), Target(cfg, src, 10), FirstGuess(cfg, src, 10), sweep, k).b[i]
  }

  lemma BlueStep(cfg: Config, src: Source, sweeps: nat, k: nat, i: nat)
    requires Fits(cfg, src, 10) && cfg.t.Tame(cfg.bitDepth) && k < src.Pairs() && i < src.Cells()
    ensures var t := OwedChroma(cfg, src, 10, 0, k).b[i];
            && Abs(t) <= 3800 && Abs(BlueSeen(cfg, src, sweeps, k, i)) <= 3800
            && OwedChroma(cfg, src, 10, sweeps + 1, k).b[i] ==
               OwedChroma(cfg, src, 10, sweeps, k).b[i] + (t - BlueSeen(cfg, src, sweeps, k, i))
  {
    hide Target, FirstGuess, SeenAt, SweepTo, AfterSweeps, Source.Valid, Transfer.Tame, Config.Valid;
    var n, m, target, first := src.Cells(), src.Pairs(), Target(cfg, src, 10), FirstGuess(cfg, src, 10);
    FirstChroma(cfg, src, 10);
    TargetReached(cfg, src, k);
    SeenReached(cfg, n, m, SweepTo(cfg, n, m, target, AfterSweeps(cfg, n, m, target, first, sweeps), k), k);
  }

  // Four corrections of a sample, the first of which is not against its target.
  lemma FourCorrectionsFit(t: int, s0: int, s1: int, s2: int, s3: int)
    requires Abs(t) <= 3800 && Abs(s0) <= 3800 && Abs(s1) <= 3800 && Abs(s2) <= 3800 && Abs(s3) <= 3800
    requires Agree(t, s0)
    ensures IsS16(t + (t - s0)) && IsS16(t + (t - s0) + (t - s1)) && IsS16(t + (t - s0) + (t - s1) + (t - s2))
    ensures IsS16(t + (t - s0) + (t - s1) + (t - s2) + (t - s3))
  {
  }

  lemma BlueFits(cfg: Config, src: Source, sweeps: nat, k: nat, i: nat)
    requires Fits(cfg, src, 10) && cfg.t == Linear && sweeps <= 4 && k < src.Pairs() && i < src.Cells()
    ensures IsS16(OwedChroma(cfg, src, 10, sweeps, k).b[i])
  {
    hide OwedChroma, BlueSeen, Source.Valid, Config.Valid, Agree, IsS16, Abs;
    BlueStep(cfg, src, 0, k, i);
    BlueStep(cfg, src, 1, k, i);
    BlueStep(cfg, src, 2, k, i);
    BlueStep(cfg, src, 3, k, i);
    FirstBlueAgrees(cfg, src, k, i);
    var t := OwedChroma(cfg, src, 10, 0, k).b[i];
    FourCorrectionsFit(t, BlueSeen(cfg, src, 0, k, i), BlueSeen(cfg, src, 1, k, i), BlueSeen(cfg, src, 2, k, i),
                       BlueSeen(cfg, src, 3, k, i));
    SmallFits(t);
  }

  lemma SmallFits(t: int)
    requires Abs(t) <= 3800
    ensures IsS16(t)
  {
  }

  lemma FirstBlueAgrees(cfg: Config, src: Source, k: nat, i: nat)
    requires Fits(cfg, src, 10) && cfg.t == Linear && k < src.Pairs() && i < src.Cells()
    ensures Agree(OwedChroma(cfg, src, 10, 0, k).b[i], BlueSeen(cfg, src, 0, k, i))
  {
    hide Target, FirstGuess, SeenInSweep, Agree, Source.Valid, Config.Valid;
    FirstChroma(cfg, src, 10);
    FirstSweepAgrees(cfg, src, k, i);
  }

  // Under the linear curve no chroma store of a 10-bit run loses anything.
  lemma LinearTenBitFits(cfg: Config, src: Source, sweeps: nat, k: nat)
    requires Fits(cfg, src, 10) && cfg.t == Linear && sweeps <= 4 && k < src.Pairs()
    ensures StoredChroma(cfg, src, 10, sweeps, k) == OwedChroma(cfg, src, 10, sweeps, k)
  {
    hide StoredChroma, OwedChroma, ChromaWithin, ChromaBound, S16, Source.Valid, Config.Valid;
    var uv, owed := StoredChroma(cfg, src, 10, sweeps, k), OwedChroma(cfg, src, 10, sweeps, k);
    RedAndGreenFit(cfg, src, sweeps, k);
    ChromaOfRun(cfg, src, 10, sweeps, k);
    forall i | 0 <= i < src.Cells()
      ensures uv.b[i] == owed.b[i]
    {
      BlueFits(cfg, src, sweeps, k, i);
    }
  }
}
