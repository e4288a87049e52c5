// The driver with vector kernels in place of the C ones, as a function of the kernel, and when
// the run that they make is the C run: the same images, differences and number of sweeps.
module VectorRuns {
  import opened FixedPoint
  import opened Gamma
  import opened Kernels
  import opened Rows
  import opened Measure
  import opened Sweep
  import opened Import
  import opened Driver
  import opened Invariants
  import opened SimdRows
  import opened UpdateLanes
  import opened SimdRuns

  // ---- The kernels on whole rows ----

  // The two edge samples and the vector filter between them.
  function UpsampleWith(kernel: Kernel, cur: seq<int>, other: seq<int>, y: seq<int>, bitDepth: nat): (r: seq<int>)
    requires |cur| == |other| >= 1 && |y| == 2 * |cur|
    ensures |r| == |y|
  {
    var last := |cur| - 1;
    [Filter2(cur[0], other[0], y[0], bitDepth)] + SimdRow(kernel, cur, other, y[1..|y| - 1], MaxY(bitDepth))
    + [Filter2(cur[last], other[last], y[|y| - 1], bitDepth)]
  }

  function UpsampledRowWith(kernel: Kernel, cur: Planes, other: Planes, y: seq<int>, bitDepth: nat): (rgb: Planes)
    requires cur.Shape(|cur.r|) && other.Shape(|cur.r|) && |cur.r| >= 1 && |y| == 2 * |cur.r|
    ensures rgb.Shape(|y|) && rgb.Within(0, MaxY(bitDepth))
  {
    UpsampleWithRange(kernel, cur.r, other.r, y, bitDepth);
    UpsampleWithRange(kernel, cur.g, other.g, y, bitDepth);
    UpsampleWithRange(kernel, cur.b, other.b, y, bitDepth);
    Planes(UpsampleWith(kernel, cur.r, other.r, y, bitDepth), UpsampleWith(kernel, cur.g, other.g, y, bitDepth),
           UpsampleWith(kernel, cur.b, other.b, y, bitDepth))
  }

  lemma SampleRange(kernel: Kernel, a: seq<int>, b: seq<int>, y: seq<int>, x: nat, max: nat)
    requires |a| == |b| >= 1 && |y| == 2 * (|a| - 1) && x < |y|
    ensures 0 <= SimdSample(kernel, a, b, y, x, max) <= max
  {
    hide LaneTapAt, FilterTap, S16, S32;
  }

  // Clamping keeps every vector filter within the depth, right or wrong.
  lemma UpsampleWithRange(kernel: Kernel, cur: seq<int>, other: seq<int>, y: seq<int>, bitDepth: nat)
    requires |cur| == |other| >= 1 && |y| == 2 * |cur|
    ensures AllWithin(UpsampleWith(kernel, cur, other, y, bitDepth), 0, MaxY(bitDepth))
  {
    hide SimdSample, MaxY;
    var inner := y[1..|y| - 1];
    forall x | 0 <= x < |inner|
      ensures 0 <= SimdRow(kernel, cur, other, inner, MaxY(bitDepth))[x] <= MaxY(bitDepth)
    {
      SampleRange(kernel, cur, other, inner, x, MaxY(bitDepth));
    }
  }

  // The luma update of either vector kernel: eight lanes at a time, then the scalar tail.
  function LaneUpdatedY(ref: seq<int>, src: seq<int>, dst: seq<int>, max: nat): (r: seq<int>)
    requires |ref| == |src| == |dst|
    ensures |r| == |dst|
    ensures AllWithin(r, 0, max)
  {
    seq(|dst|, i requires 0 <= i < |dst| =>
      if i < |dst| - |dst| % 8 then Max(Min(S16(S16(dst[i]) + S16(S16(ref[i]) - S16(src[i]))), max), 0)
      else Clip(dst[i] + (ref[i] - src[i]), max))
  }

  lemma LaneUpdatedYIsC(ref: seq<int>, src: seq<int>, dst: seq<int>, max: nat)
    requires UpdateRanges(ref, src, dst, max)
    ensures LaneUpdatedY(ref, src, dst, max) == UpdatedY(ref, src, dst, max)
  {
    hide S16, Clip;
    forall i | 0 <= i < |dst|
      ensures LaneUpdatedY(ref, src, dst, max)[i] == UpdatedY(ref, src, dst, max)[i]
    {
      DiffLane(ref[i], src[i], dst[i], max);
    }
  }

  // The sum that a luma update returns.
  function SumWith(kernel: Kernel, ref: seq<int>, src: seq<int>): nat
    requires |ref| == |src|
  {
    if kernel.Sse2On16? || kernel.Sse2On32? then Sse2Sum(ref, src) else Sad(ref, src)
  }

  predicate SumLikeC(kernel: Kernel, ref: seq<int>, src: seq<int>)
    requires |ref| == |src|
  {
    kernel.Sse2On16? || kernel.Sse2On32? ==> Sse2SumFits(ref, src)
  }

  lemma SumWithIsC(kernel: Kernel, ref: seq<int>, src: seq<int>)
    requires |ref| == |src|
    ensures SumWith(kernel, ref, src) == Sad(ref, src) <==> SumLikeC(kernel, ref, src)
  {
    hide Sad, Sse2Sum, Sse2SumFits;
    Sse2SumIs(ref, src);
  }

  // ---- The driver with a vector filter ----

  function SeenWith(kernel: Kernel, cfg: Config, n: nat, m: nat, img: Image, k: nat): (p: Pair)
    requires cfg.Valid() && n >= 1 && img.Shape(n, m) && k < m
    ensures PairShape(p, n)
  {
    Measured(cfg, n, UpsampledRowWith(kernel, img.uvs[k], img.uvs[Before(k)], img.ys[k][..2 * n], cfg.bitDepth),
                     UpsampledRowWith(kernel, img.uvs[k], img.uvs[After(k, m)], img.ys[k][2 * n..], cfg.bitDepth))
  }

  function CorrectedWith(cfg: Config, n: nat, target: Pair, seen: Pair, was: Pair): (p: Pair)
    requires PairShape(target, n) && PairShape(seen, n) && PairShape(was, n)
    ensures PairShape(p, n)
  {
    Pair(LaneUpdatedY(target.y, seen.y, was.y, cfg.Top()), UpdatedPlanes(target.uv, seen.uv, was.uv, n))
  }

  function StepWith(kernel: Kernel, cfg: Config, n: nat, m: nat, target: Image, img: Image, k: nat): (r: Image)
    requires cfg.Valid() && n >= 1 && img.Shape(n, m) && target.Shape(n, m) && k < m
    ensures r.Shape(n, m)
  {
    Replaced(img, n, m, k,
             CorrectedWith(cfg, n, Pair(target.ys[k], target.uvs[k]), SeenWith(kernel, cfg, n, m, img, k),
                 Pair(img.ys[k], img.uvs[k])))
  }

  function SweepWith(kernel: Kernel, cfg: Config, n: nat, m: nat, target: Image, img: Image, k: nat): (r: Image)
    requires cfg.Valid() && n >= 1 && img.Shape(n, m) && target.Shape(n, m) && k <= m
    ensures r.Shape(n, m)
  {
    if k == 0 then img else StepWith(kernel, cfg, n, m, target, SweepWith(kernel, cfg, n, m, target, img, k - 1), k - 1)
  }

  function DiffWith(kernel: Kernel, cfg: Config, n: nat, m: nat, target: Image, img: Image, k: nat): nat
    requires cfg.Valid() && n >= 1 && img.Shape(n, m) && target.Shape(n, m) && k <= m
  {
    if k == 0 then 0
    else DiffWith(kernel, cfg, n, m, target, img, k - 1)
         + SumWith(kernel, target.ys[k - 1],
                   SeenWith(kernel, cfg, n, m, SweepWith(kernel, cfg, n, m, target, img, k - 1), k - 1).y)
  }

  function IterateWith(kernel: Kernel, cfg: Config, n: nat, m: nat, target: Image, best: Image, iter: nat,
                       prevDiff: nat): (o: Outcome)
    requires cfg.Valid() && n >= 1 && best.Shape(n, m) && target.Shape(n, m) && iter < NUM_ITERATIONS
    ensures o.best.Shape(n, m)
    decreases NUM_ITERATIONS - iter
  {
    var next, diff := SweepWith(kernel, cfg, n, m, target, best, m), DiffWith(kernel, cfg, n, m, target, best, m);
    if iter > 0 && (diff < 3 * (2 * n) * (2 * m) || diff > prevDiff) then Outcome(next, iter + 1, diff)
    else if iter + 1 == NUM_ITERATIONS then Outcome(next, NUM_ITERATIONS, diff)
    else IterateWith(kernel, cfg, n, m, target, next, iter + 1, diff)
  }

  // ---- Where it is the C run ----

  lemma UpsampleWithIsC(kernel: Kernel, cur: seq<int>, other: seq<int>, y: seq<int>, bitDepth: nat)
    requires |cur| == |other| >= 1 && |y| == 2 * |cur|
    requires SimdRow(kernel, cur, other, y[1..|y| - 1], MaxY(bitDepth)) ==
             FilteredRow(cur, other, y[1..|y| - 1], MaxY(bitDepth))
    ensures UpsampleWith(kernel, cur, other, y, bitDepth) == Upsample(cur, other, y, MaxY(bitDepth))
  {
    hide SimdRow, FilteredRow, MaxY, Filter2, Upsample;
    var row := UpsampleWith(kernel, cur, other, y, bitDepth);
    assert row[1..|row| - 1] == SimdRow(kernel, cur, other, y[1..|y| - 1], MaxY(bitDepth));
    UpsampleFromParts(cur, other, y, bitDepth, row);
  }

  lemma UpsampledRowWithIsC(kernel: Kernel, cfg: Config, cur: Planes, other: Planes, y: seq<int>)
    requires cur.Shape(|cur.r|) && other.Shape(|cur.r|) && |cur.r| >= 1 && |y| == 2 * |cur.r|
    requires FiltersLikeC(kernel, cfg, cur, other, y[1..|y| - 1])
    ensures UpsampledRowWith(kernel, cur, other, y, cfg.bitDepth) == UpsampledRow(cur, other, y, cfg.Top())
  {
    hide SimdRow, FilteredRow, MaxY, UpsampleWith, Upsample;
    UpsampleWithIsC(kernel, cur.r, other.r, y, cfg.bitDepth);
    UpsampleWithIsC(kernel, cur.g, other.g, y, cfg.bitDepth);
    UpsampleWithIsC(kernel, cur.b, other.b, y, cfg.bitDepth);
  }

  lemma SeenWithIsC(kernel: Kernel, cfg: Config, n: nat, m: nat, img: Image, k: nat)
    requires cfg.Valid() && n >= 1 && img.Shape(n, m) && k < m && FiltersLikeCAt(kernel, cfg, n, m, img, k)
    ensures SeenWith(kernel, cfg, n, m, img, k) == SeenAt(cfg, n, m, img, k)
  {
    hide FiltersLikeC, UpsampledRowWith, UpsampledRow, Measured, MaxY;
    var upper, lower := img.ys[k][..2 * n], img.ys[k][2 * n..];
    assert upper[1..|upper| - 1] == img.ys[k][1..2 * n - 1] && lower[1..|lower| - 1] == img.ys[k][2 * n + 1..4 * n - 1];
    UpsampledRowWithIsC(kernel, cfg, img.uvs[k], img.uvs[Before(k)], upper);
    UpsampledRowWithIsC(kernel, cfg, img.uvs[k], img.uvs[After(k, m)], lower);
  }

  // What the vector kernels need of an image and of the targets.
  ghost predicate Ready(cfg: Config, n: nat, m: nat, target: Image, img: Image)
  {
    && cfg.Valid() && cfg.t.Tame(cfg.bitDepth) && n >= 1 && img.Shape(n, m) && target.Shape(n, m)
    && img.LumaWithin(cfg.Top()) && UVWithin(img, -0x8000, 0x7FFF)
    && forall k :: 0 <= k < m ==> AllWithin(target.ys[k], 0, Pow2(cfg.bitDepth))
  }

  lemma StepWithIsC(kernel: Kernel, cfg: Config, n: nat, m: nat, target: Image, img: Image, k: nat)
    requires Ready(cfg, n, m, target, img) && k < m && FiltersLikeCAt(kernel, cfg, n, m, img, k)
    ensures SeenWith(kernel, cfg, n, m, img, k) == SeenAt(cfg, n, m, img, k)
    ensures StepWith(kernel, cfg, n, m, target, img, k) == StepAt(cfg, n, m, target, img, k)
  {
    hide SeenWith, SeenAt, LaneUpdatedY, UpdatedY, UpdatedPlanes, FiltersLikeCAt, MaxY, Pow2, AllWithin;
    hide Transfer.Tame, ChromaWithin;
    SeenWithIsC(kernel, cfg, n, m, img, k);
    SeenInRange(cfg, n, m, img, k);
    RangesForUpdate(cfg, target.ys[k], SeenAt(cfg, n, m, img, k).y, img.ys[k]);
    LaneUpdatedYIsC(target.ys[k], SeenAt(cfg, n, m, img, k).y, img.ys[k], cfg.Top());
  }

  // Right or wrong, what a vector filter makes is in range, so that the lane-wise corrections
  // that follow are those of C.
  lemma VectorCorrects(kernel: Kernel, cfg: Config, n: nat, m: nat, target: Image, img: Image, k: nat)
    requires Ready(cfg, n, m, target, img) && k < m
    ensures var t, c := Pair(target.ys[k], target.uvs[k]), Pair(img.ys[k], img.uvs[k]);
            var s := SeenWith(kernel, cfg, n, m, img, k);
            CorrectedWith(cfg, n, t, s, c) == Corrected(cfg, n, t, s, c)
  {
    hide UpsampledRowWith, LumaRow, ChromaRow, LaneUpdatedY, UpdatedY, UpdatedPlanes, MaxY, Pow2, AllWithin,
         Transfer.Tame;
    var upper := UpsampledRowWith(kernel, img.uvs[k], img.uvs[Before(k)], img.ys[k][..2 * n], cfg.bitDepth);
    var lower := UpsampledRowWith(kernel, img.uvs[k], img.uvs[After(k, m)], img.ys[k][2 * n..], cfg.bitDepth);
    LumaRowInRange(cfg, upper);
    LumaRowInRange(cfg, lower);
    AllWithinConcat(LumaRow(cfg, upper), LumaRow(cfg, lower), 0, Pow2(cfg.bitDepth));
    var s := SeenWith(kernel, cfg, n, m, img, k);
    RangesForUpdate(cfg, target.ys[k], s.y, img.ys[k]);
    LaneUpdatedYIsC(target.ys[k], s.y, img.ys[k], cfg.Top());
  }

  lemma RangesForUpdate(cfg: Config, ref: seq<int>, src: seq<int>, dst: seq<int>)
    requires cfg.Valid() && |ref| == |src| == |dst|
    requires AllWithin(ref, 0, Pow2(cfg.bitDepth)) && AllWithin(src, 0, Pow2(cfg.bitDepth))
             && AllWithin(dst, 0, cfg.Top())
    ensures UpdateRanges(ref, src, dst, cfg.Top())
  {
    hide Pow2, MaxY;
    TopAtMost14Bits(cfg);
    Pow2AtMost14(cfg.bitDepth);
  }

  // The filter computes the C filter around row pair k, and the luma update the C sum.
  ghost predicate StepLikeC(kernel: Kernel, cfg: Config, n: nat, m: nat, target: Image, img: Image, k: nat)
    requires cfg.Valid() && n >= 1 && img.Shape(n, m) && target.Shape(n, m) && k < m
  {
    FiltersLikeCAt(kernel, cfg, n, m, img, k) && SumLikeC(kernel, target.ys[k], SeenAt(cfg, n, m, img, k).y)
  }

  // They do on each of the first k row pairs of a sweep, ...
  ghost predicate SweepsLikeC(kernel: Kernel, cfg: Config, n: nat, m: nat, target: Image, img: Image, k: nat)
    requires cfg.Valid() && n >= 1 && img.Shape(n, m) && target.Shape(n, m) && k <= m
  {
    forall i :: 0 <= i < k ==> StepLikeC(kernel, cfg, n, m, target, SweepTo(cfg, n, m, target, img, i), i)
  }

  lemma {:induction false} SweepWithIsC(kernel: Kernel, cfg: Config, n: nat, m: nat, target: Image, img: Image, k: nat)
    requires Ready(cfg, n, m, target, img) && k <= m && SweepsLikeC(kernel, cfg, n, m, target, img, k)
    ensures SweepWith(kernel, cfg, n, m, target, img, k) == SweepTo(cfg, n, m, target, img, k)
    ensures DiffWith(kernel, cfg, n, m, target, img, k) == DiffTo(cfg, n, m, target, img, k)
    ensures Ready(cfg, n, m, target, SweepTo(cfg, n, m, target, img, k))
  {
    hide SeenWith, StepWith, SeenAt, StepAt, Sad, UVWithin, Image.LumaWithin, MaxY, Pow2, AllWithin;
    hide Transfer.Tame, Config.Valid, FiltersLikeCAt, SumWith, SumLikeC;
    SweepKeepsInt16(cfg, n, m, target, img, k);
    SweepKeepsLuma(cfg, n, m, target, img, k);
    if k > 0 {
      var was := SweepTo(cfg, n, m, target, img, k - 1);
      SweepWithIsC(kernel, cfg, n, m, target, img, k - 1);
      assert StepLikeC(kernel, cfg, n, m, target, was, k - 1);
      StepWithIsC(kernel, cfg, n, m, target, was, k - 1);
      SumWithIsC(kernel, target.ys[k - 1], SeenAt(cfg, n, m, was, k - 1).y);
    }
  }

  // ... and in each sweep of a run from one on.
  ghost predicate RunsLikeC(kernel: Kernel, cfg: Config, n: nat, m: nat, target: Image, first: Image, from: nat,
                            to: nat)
    requires cfg.Valid() && n >= 1 && first.Shape(n, m) && target.Shape(n, m)
  {
    forall s: nat :: from <= s < to ==>
      SweepsLikeC(kernel, cfg, n, m, target, AfterSweeps(cfg, n, m, target, first, s), m)
  }

  lemma {:induction false} IterateWithIsC(kernel: Kernel, cfg: Config, n: nat, m: nat, target: Image, first: Image,
                                          best: Image, iter: nat, prevDiff: nat)
    requires Ready(cfg, n, m, target, best) && first.Shape(n, m) && iter < NUM_ITERATIONS
    requires best == AfterSweeps(cfg, n, m, target, first, iter)
    requires RunsLikeC(kernel, cfg, n, m, target, first, iter, Iterate(cfg, n, m, target, best, iter, prevDiff).sweeps)
    ensures IterateWith(kernel, cfg, n, m, target, best, iter, prevDiff) ==
            Iterate(cfg, n, m, target, best, iter, prevDiff)
    decreases NUM_ITERATIONS - iter
  {
    hide SweepWith, DiffWith, SweepTo, DiffTo, UVWithin, Image.LumaWithin, MaxY, Pow2, AllWithin;
    hide Transfer.Tame, Config.Valid, SweepsLikeC;
    IterateCounts(cfg, n, m, target, best, iter, prevDiff);
    assert SweepsLikeC(kernel, cfg, n, m, target, AfterSweeps(cfg, n, m, target, first, iter), m);
    SweepWithIsC(kernel, cfg, n, m, target, best, m);
    var next, diff := SweepTo(cfg, n, m, target, best, m), DiffTo(cfg, n, m, target, best, m);
    if iter + 1 < NUM_ITERATIONS && !(iter > 0 && (diff < 3 * (2 * n) * (2 * m) || diff > prevDiff)) {
      assert next == AfterSweeps(cfg, n, m, target, first, iter + 1);
      IterateWithIsC(kernel, cfg, n, m, target, first, next, iter + 1, diff);
    }
  }

  // The run of a picture with a vector kernel for every interior sample and every update.
  function RefinedWith(kernel: Kernel, cfg: Config, src: Source, rgbBitDepth: nat): (o: Outcome)
    requires Fits(cfg, src, rgbBitDepth)
    ensures o.best.Shape(src.Cells(), src.Pairs())
  {
    HasCells(src, rgbBitDepth);
    IterateWith(kernel, cfg, src.Cells(), src.Pairs(), Target(cfg, src, rgbBitDepth),
        FirstGuess(cfg, src, rgbBitDepth), 0, UINT64_MAX)
  }

  lemma FirstIsReady(cfg: Config, src: Source, rgbBitDepth: nat)
    requires Fits(cfg, src, rgbBitDepth) && cfg.t.Tame(cfg.bitDepth)
    ensures Ready(cfg, src.Cells(), src.Pairs(), Target(cfg, src, rgbBitDepth), FirstGuess(cfg, src, rgbBitDepth))
  {
    hide Target, FirstGuess, MaxY, Pow2, AllWithin, Transfer.Tame, Source.Channel, UVWithin, Image.LumaWithin,
         ChromaWithin;
    HasCells(src, rgbBitDepth);
    FirstGuessInRange(cfg, src, rgbBitDepth);
    FirstGuessIsInt16(cfg, src, rgbBitDepth);
    forall k | 0 <= k < src.Pairs()
      ensures AllWithin(Target(cfg, src, rgbBitDepth).ys[k], 0, Pow2(cfg.bitDepth))
    {
      TargetInRange(cfg, src, rgbBitDepth, k);
    }
  }

  // What the C run asks of the kernels at row pair k of one of its sweeps.
  ghost predicate LikeCInRun(kernel: Kernel, cfg: Config, src: Source, rgbBitDepth: nat, s: nat, k: nat)
    requires Fits(cfg, src, rgbBitDepth) && k < src.Pairs()
  {
    && src.Cells() >= 1
    && StepLikeC(kernel, cfg, src.Cells(), src.Pairs(), Target(cfg, src, rgbBitDepth),
                 MidRun(cfg, src, rgbBitDepth, s, k), k)
  }

  // Vector kernels that compute what the C kernels compute, filter and sum, on every row that
  // the C run hands them make the very same run.
  lemma RunWithIsC(kernel: Kernel, cfg: Config, src: Source, rgbBitDepth: nat)
    requires Fits(cfg, src, rgbBitDepth) && cfg.t.Tame(cfg.bitDepth)
    requires forall s: nat, k: nat :: s < Refined(cfg, src, rgbBitDepth).sweeps && k < src.Pairs() ==>
               LikeCInRun(kernel, cfg, src, rgbBitDepth, s, k)
    ensures RefinedWith(kernel, cfg, src, rgbBitDepth) == Refined(cfg, src, rgbBitDepth)
  {
    hide Iterate, IterateWith, Target, FirstGuess, MaxY, Pow2, AllWithin, Transfer.Tame, Source.Channel, UVWithin;
    hide Image.LumaWithin, ChromaWithin, StepLikeC, SweepTo;
    var n, m, target, first := src.Cells(), src.Pairs(), Target(cfg, src, rgbBitDepth),
        FirstGuess(cfg, src, rgbBitDepth);
    HasCells(src, rgbBitDepth);
    FirstIsReady(cfg, src, rgbBitDepth);
    forall s: nat | s < Refined(cfg, src, rgbBitDepth).sweeps
      ensures SweepsLikeC(kernel, cfg, n, m, target, AfterSweeps(cfg, n, m, target, first, s), m)
    {
      forall i | 0 <= i < m
        ensures StepLikeC(kernel, cfg, n, m, target,
                          SweepTo(cfg, n, m, target, AfterSweeps(cfg, n, m, target, first, s), i), i)
      {
        assert LikeCInRun(kernel, cfg, src, rgbBitDepth, s, i);
      }
    }
    IterateWithIsC(kernel, cfg, n, m, target, first, first, 0, UINT64_MAX);
  }

  // Of the sums only SSE2's can differ, in pictures wider than 131070 samples.
  lemma LikeCIfFiltersAre(kernel: Kernel, cfg: Config, src: Source, rgbBitDepth: nat, s: nat, k: nat)
    requires Fits(cfg, src, rgbBitDepth) && cfg.t.Tame(cfg.bitDepth) && k < src.Pairs()
    requires kernel.NeonOn16? || kernel.NeonOn32? || src.width <= 131070
    requires src.Cells() >= 1 ==>
               FiltersLikeCAt(kernel, cfg, src.Cells(), src.Pairs(), MidRun(cfg, src, rgbBitDepth, s, k), k)
    ensures LikeCInRun(kernel, cfg, src, rgbBitDepth, s, k)
  {
    hide MidRun, Target, SeenAt, FiltersLikeCAt, Transfer.Tame, Source.Valid, Sse2SumFits;
    HasCells(src, rgbBitDepth);
    if kernel.Sse2On16? || kernel.Sse2On32? {
      Sse2SumFitsInRun(cfg, src, rgbBitDepth, s, k);
    }
  }

  // With NEON's wide kernels, which 10-, 12- and 16-bit input is given to, every picture is
  // refined to the same image in the same number of sweeps with the same final difference as
  // with the C kernels.
  lemma NeonRunIsC(cfg: Config, src: Source, rgbBitDepth: nat)
    requires Fits(cfg, src, rgbBitDepth) && cfg.t.Tame(cfg.bitDepth)
    ensures RefinedWith(NeonOn32, cfg, src, rgbBitDepth) == Refined(cfg, src, rgbBitDepth)
  {
    hide RefinedWith, Refined, MidRun, FiltersLikeCAt, LikeCInRun, Transfer.Tame, Source.Valid;
    forall s: nat, k: nat | s < Refined(cfg, src, rgbBitDepth).sweeps && k < src.Pairs()
      ensures LikeCInRun(NeonOn32, cfg, src, rgbBitDepth, s, k)
    {
      NeonFilterInEveryRun(cfg, src, rgbBitDepth, s, k);
      LikeCIfFiltersAre(NeonOn32, cfg, src, rgbBitDepth, s, k);
    }
    RunWithIsC(NeonOn32, cfg, src, rgbBitDepth);
  }

  // With SSE2's wide kernels, which 10-bit input is given to, so is every 10-bit picture.
  lemma Sse2TenBitRunIsC(cfg: Config, src: Source)
    requires Fits(cfg, src, 10) && cfg.t.Tame(cfg.bitDepth) && src.width <= 131070
    ensures RefinedWith(Sse2On32, cfg, src, 10) == Refined(cfg, src, 10)
  {
    hide RefinedWith, Refined, MidRun, FiltersLikeCAt, LikeCInRun, Transfer.Tame, Source.Valid;
    RefinedCounts(cfg, src, 10);
    forall s: nat, k: nat | s < Refined(cfg, src, 10).sweeps && k < src.Pairs()
      ensures LikeCInRun(Sse2On32, cfg, src, 10, s, k)
    {
      TenBitEverySweep(cfg, src, s, k);
      LikeCIfFiltersAre(Sse2On32, cfg, src, 10, s, k);
    }
    RunWithIsC(Sse2On32, cfg, src, 10);
  }

  // With either 16-bit kernel, which 8-bit input is given to, so is every 8-bit picture whose
  // run takes two sweeps.
  lemma EightBitRunIsC(kernel: Kernel, cfg: Config, src: Source)
    requires kernel.Sse2On16? || kernel.NeonOn16?
    requires Fits(cfg, src, 8) && cfg.t.Tame(cfg.bitDepth) && (kernel.NeonOn16? || src.width <= 131070)
    requires Refined(cfg, src, 8).sweeps == 2
    ensures RefinedWith(kernel, cfg, src, 8) == Refined(cfg, src, 8)
  {
    hide RefinedWith, Refined, MidRun, FiltersLikeCAt, LikeCInRun, Transfer.Tame, Source.Valid;
    forall s: nat, k: nat | s < Refined(cfg, src, 8).sweeps && k < src.Pairs()
      ensures LikeCInRun(kernel, cfg, src, 8, s, k)
    {
      EightBitFirstTwoSweeps(kernel, cfg, src, s, k);
      LikeCIfFiltersAre(kernel, cfg, src, 8, s, k);
    }
    RunWithIsC(kernel, cfg, src, 8);
  }

  // ---- SSE2's wide filter ----

  // No vectored sum of luma and tap leaves int16.
  ghost predicate SumsFit(cur: seq<int>, other: seq<int>, y: seq<int>)
    requires |cur| == |other| >= 1 && |y| == 2 * (|cur| - 1)
  {
    forall x :: 0 <= x < Sse2On32.Vectored(|cur| - 1) ==> y[x] + FilterTap(cur, other, x) <= 0x7FFF
  }

  ghost predicate PlanesFit(cur: Planes, other: Planes, y: seq<int>)
    requires cur.Shape(|cur.r|) && other.Shape(|cur.r|) && |cur.r| >= 1 && |y| == 2 * (|cur.r| - 1)
  {
    SumsFit(cur.r, other.r, y) && SumsFit(cur.g, other.g, y) && SumsFit(cur.b, other.b, y)
  }

  ghost predicate PairFits(n: nat, m: nat, img: Image, k: nat)
    requires img.Shape(n, m) && n >= 1 && k < m
  {
    && PlanesFit(img.uvs[k], img.uvs[Before(k)], img.ys[k][1..2 * n - 1])
    && PlanesFit(img.uvs[k], img.uvs[After(k, m)], img.ys[k][2 * n + 1..4 * n - 1])
  }

  lemma Sse2PlanesLikeC(cfg: Config, cur: Planes, other: Planes, y: seq<int>)
    requires cfg.Valid() && cur.Shape(|cur.r|) && other.Shape(|cur.r|) && |cur.r| >= 1 && |y| == 2 * (|cur.r| - 1)
    requires AllWithin(y, 0, cfg.Top()) && cur.Within(-0x8000, 0x7FFF) && other.Within(-0x8000, 0x7FFF)
    ensures FiltersLikeC(Sse2On32, cfg, cur, other, y) <==> PlanesFit(cur, other, y)
  {
    hide SimdRow, FilteredRow, MaxY, AllWithin, FilterTap;
    DepthMax(cfg.bitDepth);
    Sse2On32IsC(cur.r, other.r, y, cfg.Top());
    Sse2On32IsC(cur.g, other.g, y, cfg.Top());
    Sse2On32IsC(cur.b, other.b, y, cfg.Top());
  }

  // In any state of any run, SSE2's wide filter computes the C rows of a row pair if and only
  // if no vectored sum leaves int16.
  lemma Sse2PairLikeC(cfg: Config, n: nat, m: nat, img: Image, k: nat)
    requires cfg.Valid() && img.Shape(n, m) && n >= 1 && k < m && img.LumaWithin(cfg.Top())
             && UVWithin(img, -0x8000, 0x7FFF)
    ensures FiltersLikeCAt(Sse2On32, cfg, n, m, img, k) <==> PairFits(n, m, img, k)
  {
    hide FiltersLikeC, PlanesFit, AllWithin, MaxY, Config.Valid, Planes.Within;
    SliceWithin(img.ys[k], 1, 2 * n - 1, 0, cfg.Top());
    SliceWithin(img.ys[k], 2 * n + 1, 4 * n - 1, 0, cfg.Top());
    Sse2PlanesLikeC(cfg, img.uvs[k], img.uvs[Before(k)], img.ys[k][1..2 * n - 1]);
    Sse2PlanesLikeC(cfg, img.uvs[k], img.uvs[After(k, m)], img.ys[k][2 * n + 1..4 * n - 1]);
  }

  // So where no vectored sum of luma and tap in the C run leaves int16, SSE2's run is the C run.
  lemma Sse2RunIsC(cfg: Config, src: Source, rgbBitDepth: nat)
    requires Fits(cfg, src, rgbBitDepth) && cfg.t.Tame(cfg.bitDepth) && src.width <= 131070
    requires forall s: nat, k: nat :: s < Refined(cfg, src, rgbBitDepth).sweeps && k < src.Pairs() ==>
               src.Cells() >= 1 && PairFits(src.Cells(), src.Pairs(), MidRun(cfg, src, rgbBitDepth, s, k), k)
    ensures RefinedWith(Sse2On32, cfg, src, rgbBitDepth) == Refined(cfg, src, rgbBitDepth)
  {
    hide RefinedWith, Refined, MidRun, FiltersLikeCAt, PairFits, LikeCInRun, Transfer.Tame, Source.Valid;
    HasCells(src, rgbBitDepth);
    forall s: nat, k: nat | s < Refined(cfg, src, rgbBitDepth).sweeps && k < src.Pairs()
      ensures LikeCInRun(Sse2On32, cfg, src, rgbBitDepth, s, k)
    {
      MidRunInRange(cfg, src, rgbBitDepth, s, k);
      Sse2PairLikeC(cfg, src.Cells(), src.Pairs(), MidRun(cfg, src, rgbBitDepth, s, k), k);
      LikeCIfFiltersAre(Sse2On32, cfg, src, rgbBitDepth, s, k);
    }
    RunWithIsC(Sse2On32, cfg, src, rgbBitDepth);
  }
}
