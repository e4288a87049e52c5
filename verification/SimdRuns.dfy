// Where the vector row filters meet the driver: on the very rows that a run hands them, they
// compute what the C filter computes.
module SimdRuns {
  import opened FixedPoint
  import opened Gamma
  import opened Kernels
  import opened Rows
  import opened Measure
  import opened Sweep
  import opened Import
  import opened Driver
  import opened Invariants
  import opened ChromaRuns
  import opened SimdRows
  import opened UpdateLanes

  // The interior of each of the three planes of one output row.
  ghost predicate FiltersLikeC(kernel: Kernel, cfg: Config, cur: Planes, other: Planes, y: seq<int>)
    requires cur.Shape(|cur.r|) && other.Shape(|cur.r|) && |cur.r| >= 1 && |y| == 2 * (|cur.r| - 1)
  {
    && SimdRow(kernel, cur.r, other.r, y, cfg.Top()) == FilteredRow(cur.r, other.r, y, cfg.Top())
    && SimdRow(kernel, cur.g, other.g, y, cfg.Top()) == FilteredRow(cur.g, other.g, y, cfg.Top())
    && SimdRow(kernel, cur.b, other.b, y, cfg.Top()) == FilteredRow(cur.b, other.b, y, cfg.Top())
  }

  // Both output rows of row pair k, upsampled against the row above and the row below.
  ghost predicate FiltersLikeCAt(kernel: Kernel, cfg: Config, n: nat, m: nat, img: Image, k: nat)
    requires img.Shape(n, m) && n >= 1 && k < m
  {
    && FiltersLikeC(kernel, cfg, img.uvs[k], img.uvs[Before(k)], img.ys[k][1..2 * n - 1])
    && FiltersLikeC(kernel, cfg, img.uvs[k], img.uvs[After(k, m)], img.ys[k][2 * n + 1..4 * n - 1])
  }

  ghost predicate UVWithin(img: Image, lo: int, hi: int) {
    forall i :: 0 <= i < |img.uvs| ==> img.uvs[i].Within(lo, hi)
  }

  // What each vector filter needs of the chroma of the row itself and of its neighbour: 16-bit
  // lanes room for the tap, SSE2's wider lanes room for the tap plus the luma, NEON's only that
  // it is int16.
  predicate Suits(kernel: Kernel, bitDepth: nat, own: int, other: int) {
    match kernel
    case Sse2On16 => own + other <= 8189
    case NeonOn16 => own + other <= 8189
    case Sse2On32 => (12 * own + 4 * other + 8) / 16 + MaxY(bitDepth) <= 0x7FFF
    case NeonOn32 => true
  }

  predicate Bounded(a: seq<int>, bound: int) {
    AllWithin(a, -0x8000, 0x7FFF) && AllWithin(a, -bound, bound)
  }

  lemma RowLikeC(kernel: Kernel, a: seq<int>, b: seq<int>, y: seq<int>, bitDepth: nat, own: int, other: int)
    requires |a| == |b| >= 1 && |y| == 2 * (|a| - 1) && 1 <= bitDepth <= 14 && Suits(kernel, bitDepth, own, other)
    requires Bounded(a, own) && Bounded(b, other) && AllWithin(y, 0, MaxY(bitDepth))
    ensures SimdRow(kernel, a, b, y, MaxY(bitDepth)) == FilteredRow(a, b, y, MaxY(bitDepth))
  {
    hide SimdRow, FilteredRow, MaxY;
    DepthMax(bitDepth);
    match kernel
    case Sse2On16 => On16IsC(kernel, a, b, y, MaxY(bitDepth), own, other);
    case NeonOn16 => On16IsC(kernel, a, b, y, MaxY(bitDepth), own, other);
    case NeonOn32 => NeonOn32IsC(a, b, y, MaxY(bitDepth));
    case Sse2On32 =>
      Sse2On32IsC(a, b, y, MaxY(bitDepth));
      forall x | 0 <= x < |y|
        ensures y[x] + FilterTap(a, b, x) <= 0x7FFF
      {
        TapWithin(a, b, x, own, other);
      }
  }

  // The tap is a weighted mean, three quarters of it from the row itself.
  lemma TapWithin(a: seq<int>, b: seq<int>, x: nat, own: int, other: int)
    requires |a| == |b| && x / 2 + 1 < |a| && AllWithin(a, -own, own) && AllWithin(b, -other, other)
    ensures FilterTap(a, b, x) <= (12 * own + 4 * other + 8) / 16
  {
    var i := x / 2;
    MeanWithin(a[i], a[i + 1], b[i], b[i + 1], own, other);
    MeanWithin(a[i + 1], a[i], b[i + 1], b[i], own, other);
  }

  lemma MeanWithin(near: int, beside: int, across: int, diagonal: int, own: int, other: int)
    requires near <= own && beside <= own && across <= other && diagonal <= other
    ensures Tap(near, beside, across, diagonal) <= (12 * own + 4 * other + 8) / 16
  {
  }

  ghost predicate PlanesBounded(p: Planes, bound: int) {
    p.Within(-0x8000, 0x7FFF) && p.Within(-bound, bound)
  }

  lemma PlanesLikeC(kernel: Kernel, cfg: Config, cur: Planes, beyond: Planes, y: seq<int>, own: int, other: int)
    requires cfg.Valid() && Suits(kernel, cfg.bitDepth, own, other)
    requires cur.Shape(|cur.r|) && beyond.Shape(|cur.r|) && |cur.r| >= 1 && |y| == 2 * (|cur.r| - 1)
    requires AllWithin(y, 0, cfg.Top()) && PlanesBounded(cur, own) && PlanesBounded(beyond, other)
    ensures FiltersLikeC(kernel, cfg, cur, beyond, y)
  {
    hide SimdRow, FilteredRow, MaxY, AllWithin, Suits;
    RowLikeC(kernel, cur.r, beyond.r, y, cfg.bitDepth, own, other);
    RowLikeC(kernel, cur.g, beyond.g, y, cfg.bitDepth, own, other);
    RowLikeC(kernel, cur.b, beyond.b, y, cfg.bitDepth, own, other);
  }

  lemma SliceWithin(s: seq<int>, i: nat, j: nat, lo: int, hi: int)
    requires AllWithin(s, lo, hi) && i <= j <= |s|
    ensures AllWithin(s[i..j], lo, hi)
  {
  }

  // A row within one bound between rows within another.
  ghost predicate RowsBounded(img: Image, k: nat, own: int, other: int)
    requires k < |img.uvs|
  {
    && PlanesBounded(img.uvs[k], own)
    && PlanesBounded(img.uvs[Before(k)], other) && PlanesBounded(img.uvs[After(k, |img.uvs|)], other)
  }

  lemma PairLikeC(kernel: Kernel, cfg: Config, n: nat, m: nat, img: Image, k: nat, own: int, other: int)
    requires cfg.Valid() && img.Shape(n, m) && n >= 1 && k < m && Suits(kernel, cfg.bitDepth, own, other)
    requires img.LumaWithin(cfg.Top()) && RowsBounded(img, k, own, other)
    ensures FiltersLikeCAt(kernel, cfg, n, m, img, k)
  {
    hide FiltersLikeC, AllWithin, Suits, MaxY, Config.Valid, PlanesBounded;
    SliceWithin(img.ys[k], 1, 2 * n - 1, 0, cfg.Top());
    SliceWithin(img.ys[k], 2 * n + 1, 4 * n - 1, 0, cfg.Top());
    PlanesLikeC(kernel, cfg, img.uvs[k], img.uvs[Before(k)], img.ys[k][1..2 * n - 1], own, other);
    PlanesLikeC(kernel, cfg, img.uvs[k], img.uvs[After(k, m)], img.ys[k][2 * n + 1..4 * n - 1], own, other);
  }

  // ---- Chroma is int16 in every reachable state ----

  lemma StoredIsInt16(ref: seq<int>, src: seq<int>, dst: seq<int>)
    requires |ref| == |src| == |dst|
    ensures AllWithin(UpdatedUV(ref, src, dst), -0x8000, 0x7FFF)
  {
  }

  lemma StepStoresInt16(cfg: Config, n: nat, m: nat, target: Image, img: Image, k: nat)
    requires cfg.Valid() && img.Shape(n, m) && target.Shape(n, m) && k < m
    ensures CorrectedAt(cfg, n, m, target, img, k).uv.Within(-0x8000, 0x7FFF)
  {
    hide AllWithin, UpdatedUV, SeenAt, UpdatedY;
    var t, s, d := target.uvs[k], SeenAt(cfg, n, m, img, k).uv, img.uvs[k];
    StoredIsInt16(t.r, s.r, d.r);
    StoredIsInt16(t.g, s.g, d.g);
    StoredIsInt16(t.b, s.b, d.b);
  }

  lemma {:induction false} SweepKeepsInt16(cfg: Config, n: nat, m: nat, target: Image, img: Image, k: nat)
    requires cfg.Valid() && img.Shape(n, m) && target.Shape(n, m) && k <= m && UVWithin(img, -0x8000, 0x7FFF)
    ensures UVWithin(SweepTo(cfg, n, m, target, img, k), -0x8000, 0x7FFF)
  {
    hide CorrectedAt, Config.Valid, Planes.Within;
    if k > 0 {
      SweepKeepsInt16(cfg, n, m, target, img, k - 1);
      StepStoresInt16(cfg, n, m, target, SweepTo(cfg, n, m, target, img, k - 1), k - 1);
    }
  }

  lemma {:induction false} RunKeepsInt16(cfg: Config, n: nat, m: nat, target: Image, img: Image, sweeps: nat)
    requires cfg.Valid() && img.Shape(n, m) && target.Shape(n, m) && UVWithin(img, -0x8000, 0x7FFF)
    ensures UVWithin(AfterSweeps(cfg, n, m, target, img, sweeps), -0x8000, 0x7FFF)
  {
    hide SweepTo, Config.Valid, UVWithin;
    if sweeps > 0 {
      RunKeepsInt16(cfg, n, m, target, img, sweeps - 1);
      SweepKeepsInt16(cfg, n, m, target, AfterSweeps(cfg, n, m, target, img, sweeps - 1), m);
    }
  }

  lemma ChromaRowIsInt16(cfg: Config, rgb1: Planes, rgb2: Planes, n: nat)
    requires cfg.Valid() && RowPair(cfg, rgb1, rgb2, n)
    ensures ChromaRow(cfg, rgb1, rgb2, n).Within(-0x8000, 0x7FFF)
  {
    hide BlockMean, RGBToGray;
  }

  // The state in the middle of a run: k row pairs into the sweep after the first `sweeps`.
  function MidRun(cfg: Config, src: Source, rgbBitDepth: nat, sweeps: nat, k: nat): (img: Image)
    requires Fits(cfg, src, rgbBitDepth) && k <= src.Pairs()
    ensures img.Shape(src.Cells(), src.Pairs())
  {
    var n, m, target := src.Cells(), src.Pairs(), Target(cfg, src, rgbBitDepth);
    SweepTo(cfg, n, m, target, AfterSweeps(cfg, n, m, target, FirstGuess(cfg, src, rgbBitDepth), sweeps), k)
  }

  lemma FirstGuessIsInt16(cfg: Config, src: Source, rgbBitDepth: nat)
    requires Fits(cfg, src, rgbBitDepth)
    ensures UVWithin(FirstGuess(cfg, src, rgbBitDepth), -0x8000, 0x7FFF)
  {
    hide ChromaRow, Planes.Within, PaddedPair, LumaRow, Source.Valid, Source.Channel;
    forall k | 0 <= k < src.Pairs()
      ensures FirstGuess(cfg, src, rgbBitDepth).uvs[k].Within(-0x8000, 0x7FFF)
    {
      var rows := PaddedPair(cfg, src, rgbBitDepth, k);
      ChromaRowIsInt16(cfg, rows.0, rows.1, src.Cells());
    }
  }

  lemma MidRunInRange(cfg: Config, src: Source, rgbBitDepth: nat, sweeps: nat, k: nat)
    requires Fits(cfg, src, rgbBitDepth) && k <= src.Pairs()
    ensures var img := MidRun(cfg, src, rgbBitDepth, sweeps, k);
            img.LumaWithin(cfg.Top()) && UVWithin(img, -0x8000, 0x7FFF)
  {
    hide AfterSweeps, SweepTo, Target, FirstGuess, UVWithin, Image.LumaWithin;
    var n, m, target, first := src.Cells(), src.Pairs(), Target(cfg, src, rgbBitDepth),
        FirstGuess(cfg, src, rgbBitDepth);
    ReachableLumaInRange(cfg, src, rgbBitDepth, sweeps, k);
    FirstGuessIsInt16(cfg, src, rgbBitDepth);
    RunKeepsInt16(cfg, n, m, target, first, sweeps);
    SweepKeepsInt16(cfg, n, m, target, AfterSweeps(cfg, n, m, target, first, sweeps), k);
  }

  // Row i in the middle of a sweep: after the sweep above k, before it from k on.
  lemma MidRunRow(cfg: Config, src: Source, rgbBitDepth: nat, sweeps: nat, k: nat, i: nat)
    requires Fits(cfg, src, rgbBitDepth) && k <= src.Pairs() && i < src.Pairs()
    ensures MidRun(cfg, src, rgbBitDepth, sweeps, k).uvs[i] ==
            StoredChroma(cfg, src, rgbBitDepth, if i < k then sweeps + 1 else sweeps, i)
  {
    hide SweepTo, Target, FirstGuess, Source.Valid;
    var n, m, target := src.Cells(), src.Pairs(), Target(cfg, src, rgbBitDepth);
    var first := FirstGuess(cfg, src, rgbBitDepth);
    var was := AfterSweeps(cfg, n, m, target, first, sweeps);
    assert AfterSweeps(cfg, n, m, target, first, sweeps + 1) == SweepTo(cfg, n, m, target, was, m);
    SweepPrefix(cfg, n, m, target, was, k, m);
  }

  // A row that no store can have wrapped is within its bound, any row within int16.
  lemma StoredIsBounded(cfg: Config, src: Source, rgbBitDepth: nat, sweeps: nat, k: nat, bound: int)
    requires Fits(cfg, src, rgbBitDepth) && cfg.t.Tame(cfg.bitDepth) && k < src.Pairs()
    requires ChromaBound(cfg.bitDepth, sweeps) <= bound || bound == 0x8000
    ensures PlanesBounded(StoredChroma(cfg, src, rgbBitDepth, sweeps, k), bound)
  {
    hide StoredChroma, ChromaWithin, Pow2, ChromaBound, Transfer.Tame, Source.Valid, Planes.Within;
    var p := StoredChroma(cfg, src, rgbBitDepth, sweeps, k);
    StoredRowIsInt16(cfg, src, rgbBitDepth, sweeps, k);
    if bound < 0x8000 {
      ChromaFitsInt16(cfg, src, rgbBitDepth, sweeps, k);
      ChromaIsWithin(p, src.Cells(), sweeps, ChromaBound(cfg.bitDepth, sweeps), bound);
    } else {
      Int16IsWithin(p, bound);
    }
  }

  lemma StoredRowIsInt16(cfg: Config, src: Source, rgbBitDepth: nat, sweeps: nat, k: nat)
    requires Fits(cfg, src, rgbBitDepth) && k < src.Pairs()
    ensures StoredChroma(cfg, src, rgbBitDepth, sweeps, k).Within(-0x8000, 0x7FFF)
  {
    hide MidRun, StoredChroma, Planes.Within, Source.Valid;
    MidRunInRange(cfg, src, rgbBitDepth, sweeps, 0);
    MidRunRow(cfg, src, rgbBitDepth, sweeps, 0, k);
  }

  lemma Int16IsWithin(p: Planes, bound: int)
    requires p.Within(-0x8000, 0x7FFF) && bound >= 0x8000
    ensures p.Within(-bound, bound)
  {
  }

  lemma ChromaIsWithin(p: Planes, n: nat, c: nat, bound: int, wider: int)
    requires p.Shape(n) && ChromaWithin(p, n, c, bound) && bound <= wider
    ensures p.Within(-wider, wider)
  {
    hide Drift;
    forall i | 0 <= i < n
      ensures -wider <= p.r[i] <= wider && -wider <= p.g[i] <= wider && -wider <= p.b[i] <= wider
    {
      assert Magnitude(p.r[i], p.g[i], p.b[i], bound);
    }
  }

  // The rows that a sweep reads around row k: the one above has been corrected once more.
  lemma RowsOfSweep(cfg: Config, src: Source, rgbBitDepth: nat, sweeps: nat, k: nat, own: int, other: int)
    requires Fits(cfg, src, rgbBitDepth) && cfg.t.Tame(cfg.bitDepth) && k < src.Pairs() && own <= other
    requires ChromaBound(cfg.bitDepth, sweeps) <= own || own == 0x8000
    requires ChromaBound(cfg.bitDepth, sweeps + 1) <= other || other == 0x8000
    ensures RowsBounded(MidRun(cfg, src, rgbBitDepth, sweeps, k), k, own, other)
  {
    hide MidRun, StoredChroma, PlanesBounded, ChromaBound, Transfer.Tame, Source.Valid;
    var above, below := Before(k), After(k, src.Pairs());
    ChromaBoundStep(cfg.bitDepth, sweeps);
    MidRunRow(cfg, src, rgbBitDepth, sweeps, k, k);
    MidRunRow(cfg, src, rgbBitDepth, sweeps, k, above);
    MidRunRow(cfg, src, rgbBitDepth, sweeps, k, below);
    StoredIsBounded(cfg, src, rgbBitDepth, sweeps, k, own);
    StoredIsBounded(cfg, src, rgbBitDepth, if above < k then sweeps + 1 else sweeps, above, other);
    StoredIsBounded(cfg, src, rgbBitDepth, sweeps, below, other);
  }

  // ---- The vector filters in a run ----

  // NEON's wide filter computes the C filter on every row of every run, wrapped chroma included.
  lemma NeonFilterInEveryRun(cfg: Config, src: Source, rgbBitDepth: nat, sweeps: nat, k: nat)
    requires Fits(cfg, src, rgbBitDepth) && k < src.Pairs()
    ensures FiltersLikeCAt(NeonOn32, cfg, src.Cells(), src.Pairs(), MidRun(cfg, src, rgbBitDepth, sweeps, k), k)
  {
    hide MidRun, FiltersLikeCAt, Source.Valid;
    var img := MidRun(cfg, src, rgbBitDepth, sweeps, k);
    MidRunInRange(cfg, src, rgbBitDepth, sweeps, k);
    Int16IsWithin(img.uvs[k], 0x8000);
    Int16IsWithin(img.uvs[Before(k)], 0x8000);
    Int16IsWithin(img.uvs[After(k, src.Pairs())], 0x8000);
    HasCells(src, rgbBitDepth);
    PairLikeC(NeonOn32, cfg, src.Cells(), src.Pairs(), img, k, 0x8000, 0x8000);
  }

  lemma HasCells(src: Source, rgbBitDepth: nat)
    requires src.Valid(rgbBitDepth)
    ensures src.Cells() >= 1
  {
  }

  // Any filter that suits the chroma bounds of a sweep computes the C filter all through it:
  // the bound before it for the row itself, the bound after it for the rows around. A bound of
  // 0x8000 is always kept.
  lemma SimdFilterInSweep(kernel: Kernel, cfg: Config, src: Source, rgbBitDepth: nat, sweeps: nat, k: nat, own: int,
                          other: int)
    requires Fits(cfg, src, rgbBitDepth) && cfg.t.Tame(cfg.bitDepth) && k < src.Pairs() && own <= other
    requires ChromaBound(cfg.bitDepth, sweeps) <= own || own == 0x8000
    requires ChromaBound(cfg.bitDepth, sweeps + 1) <= other || other == 0x8000
    requires Suits(kernel, cfg.bitDepth, own, other)
    ensures FiltersLikeCAt(kernel, cfg, src.Cells(), src.Pairs(), MidRun(cfg, src, rgbBitDepth, sweeps, k), k)
  {
    hide MidRun, FiltersLikeCAt, Source.Valid, ChromaBound, Suits, Transfer.Tame;
    MidRunInRange(cfg, src, rgbBitDepth, sweeps, k);
    RowsOfSweep(cfg, src, rgbBitDepth, sweeps, k, own, other);
    HasCells(src, rgbBitDepth);
    PairLikeC(kernel, cfg, src.Cells(), src.Pairs(), MidRun(cfg, src, rgbBitDepth, sweeps, k), k, own, other);
  }

  // For 8-bit input both 16-bit filters are exact throughout the first two sweeps, which every
  // run has.
  lemma EightBitFirstTwoSweeps(kernel: Kernel, cfg: Config, src: Source, sweeps: nat, k: nat)
    requires kernel.Sse2On16? || kernel.NeonOn16?
    requires Fits(cfg, src, 8) && cfg.t.Tame(cfg.bitDepth) && sweeps < 2 && k < src.Pairs()
    ensures FiltersLikeCAt(kernel, cfg, src.Cells(), src.Pairs(), MidRun(cfg, src, 8, sweeps, k), k)
  {
    hide MidRun, FiltersLikeCAt, Source.Valid, Transfer.Tame;
    ReachValues();
    SimdFilterInSweep(kernel, cfg, src, 8, sweeps, k, 2850, 4750);
  }

  // For 10-bit input SSE2's 32-bit filter is exact throughout the four sweeps that a run may
  // have, even though the last may wrap the row above: three quarters of a tap are from the
  // row itself, which the first three sweeps leave within 26600.
  lemma TenBitEverySweep(cfg: Config, src: Source, sweeps: nat, k: nat)
    requires Fits(cfg, src, 10) && cfg.t.Tame(cfg.bitDepth) && sweeps < 4 && k < src.Pairs()
    ensures FiltersLikeCAt(Sse2On32, cfg, src.Cells(), src.Pairs(), MidRun(cfg, src, 10, sweeps, k), k)
  {
    hide MidRun, FiltersLikeCAt, Source.Valid, Transfer.Tame;
    ReachValues();
    Pow2Values();
    SimdFilterInSweep(Sse2On32, cfg, src, 10, sweeps, k, 26600, 0x8000);
  }

  // ---- The luma update in a run ----

  // In every state of every run the luma update's operands are in the ranges in which the
  // vector updates equal the C one.
  lemma UpdateRangesInEveryRun(cfg: Config, src: Source, rgbBitDepth: nat, sweeps: nat, k: nat)
    requires Fits(cfg, src, rgbBitDepth) && cfg.t.Tame(cfg.bitDepth) && k < src.Pairs()
    ensures var n, m, target := src.Cells(), src.Pairs(), Target(cfg, src, rgbBitDepth);
            var img := MidRun(cfg, src, rgbBitDepth, sweeps, k);
            UpdateRanges(target.ys[k], SeenAt(cfg, n, m, img, k).y, img.ys[k], cfg.Top())
  {
    hide MidRun, Target, SeenAt, ChromaWithin, Transfer.Tame, Source.Valid, MaxY, Pow2;
    var n, m, target := src.Cells(), src.Pairs(), Target(cfg, src, rgbBitDepth);
    var img := MidRun(cfg, src, rgbBitDepth, sweeps, k);
    MidRunInRange(cfg, src, rgbBitDepth, sweeps, k);
    TargetInRange(cfg, src, rgbBitDepth, k);
    SeenInRange(cfg, n, m, img, k);
    TopAtMost14Bits(cfg);
    Pow2AtMost14(cfg.bitDepth);
    assert AllWithin(img.ys[k], 0, cfg.Top());
  }

  lemma {:induction false} SadWithin(ref: seq<int>, src: seq<int>)
    requires |ref| == |src| && AllWithin(ref, 0, 16384) && AllWithin(src, 0, 16384)
    ensures Sad(ref, src) <= 16384 * |ref|
  {
    hide Abs;
    if |ref| > 0 {
      SadWithin(ref[..|ref| - 1], src[..|src| - 1]);
      AbsWithin(ref[|ref| - 1], src[|src| - 1]);
    }
  }

  lemma AbsWithin(a: int, b: int)
    requires 0 <= a <= 16384 && 0 <= b <= 16384
    ensures Abs(a - b) <= 16384
  {
  }

  // SSE2 sums in four 32-bit lanes: enough for every row pair of a picture up to 131070 samples
  // wide.
  lemma Sse2SumFitsInRun(cfg: Config, src: Source, rgbBitDepth: nat, sweeps: nat, k: nat)
    requires Fits(cfg, src, rgbBitDepth) && cfg.t.Tame(cfg.bitDepth) && k < src.Pairs() && src.width <= 131070
    ensures var n, m, target := src.Cells(), src.Pairs(), Target(cfg, src, rgbBitDepth);
            Sse2SumFits(target.ys[k], SeenAt(cfg, n, m, MidRun(cfg, src, rgbBitDepth, sweeps, k), k).y)
  {
    hide MidRun, Target, SeenAt, Transfer.Tame, Source.Valid, AllWithin, Sad, MaxY;
    var n, m, target := src.Cells(), src.Pairs(), Target(cfg, src, rgbBitDepth);
    var seen := SeenAt(cfg, n, m, MidRun(cfg, src, rgbBitDepth, sweeps, k), k);
    var v := 4 * n - 4 * n % 8;
    UpdateRangesInEveryRun(cfg, src, rgbBitDepth, sweeps, k);
    SliceWithin(target.ys[k], 0, v, 0, 16384);
    SliceWithin(seen.y, 0, v, 0, 16384);
    assert target.ys[k][0..v] == target.ys[k][..v] && seen.y[0..v] == seen.y[..v];
    SadWithin(target.ys[k][..v], seen.y[..v]);
  }
}
