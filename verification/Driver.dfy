// The driver: import, up to four sweeps, conversion to YUV 4:2:0.
module Driver {
  import opened FixedPoint
  import opened Kernels
  import opened Rows
  import opened Measure
  import opened Sweep
  import opened Refine
  import opened Import

  const NUM_ITERATIONS := 4

  // ---- The stopping rule ----

  datatype Outcome = Outcome(best: Image, sweeps: nat, diff: nat)

  // Sweeps from iteration `iter` on. The first sweep is never the last one; later ones stop
  // the loop when little changed or when more changed than in the sweep before.
  function Iterate(cfg: Config, n: nat, m: nat, target: Image, best: Image, iter: nat, prevDiff: nat): (o: Outcome)
    requires cfg.Valid() && best.Shape(n, m) && target.Shape(n, m) && iter < NUM_ITERATIONS
    ensures o.best.Shape(n, m)
    decreases NUM_ITERATIONS - iter
  {
    var next, diff := SweepTo(cfg, n, m, target, best, m), DiffTo(cfg, n, m, target, best, m);
    if iter > 0 && (diff < 3 * (2 * n) * (2 * m) || diff > prevDiff) then Outcome(next, iter + 1, diff)
    else if iter + 1 == NUM_ITERATIONS then Outcome(next, NUM_ITERATIONS, diff)
    else Iterate(cfg, n, m, target, next, iter + 1, diff)
  }

  const UINT64_MAX := 0xFFFF_FFFF_FFFF_FFFF

  function Refined(cfg: Config, src: Source, rgbBitDepth: nat): (o: Outcome)
    requires Fits(cfg, src, rgbBitDepth)
    ensures o.best.Shape(src.Cells(), src.Pairs())
  {
    Iterate(cfg, src.Cells(), src.Pairs(), Target(cfg, src, rgbBitDepth), FirstGuess(cfg, src, rgbBitDepth), 0,
        UINT64_MAX)
  }

  // The image after exactly k sweeps.
  function AfterSweeps(cfg: Config, n: nat, m: nat, target: Image, best: Image, k: nat): (r: Image)
    requires cfg.Valid() && best.Shape(n, m) && target.Shape(n, m)
    ensures r.Shape(n, m)
  {
    if k == 0 then best else SweepTo(cfg, n, m, target, AfterSweeps(cfg, n, m, target, best, k - 1), m)
  }

  lemma {:induction false} SweepsCompose(cfg: Config, n: nat, m: nat, target: Image, best: Image, k: nat)
    requires cfg.Valid() && best.Shape(n, m) && target.Shape(n, m)
    ensures AfterSweeps(cfg, n, m, target, SweepTo(cfg, n, m, target, best, m), k) ==
            AfterSweeps(cfg, n, m, target, best, k + 1)
  {
    hide SweepTo, Config.Valid;
    if k > 0 {
      SweepsCompose(cfg, n, m, target, best, k - 1);
    }
  }

  // Whatever the stopping rule decides, the result is the image after that many sweeps.
  lemma {:induction false} IterateCounts(cfg: Config, n: nat, m: nat, target: Image, best: Image, iter: nat,
                                         prevDiff: nat)
    requires cfg.Valid() && best.Shape(n, m) && target.Shape(n, m) && iter < NUM_ITERATIONS
    ensures var o := Iterate(cfg, n, m, target, best, iter, prevDiff);
            && Max(iter + 1, 2) <= o.sweeps <= NUM_ITERATIONS
            && o.best == AfterSweeps(cfg, n, m, target, best, o.sweeps - iter)
    decreases NUM_ITERATIONS - iter
  {
    hide SweepTo, DiffTo, Config.Valid;
    var next, diff := SweepTo(cfg, n, m, target, best, m), DiffTo(cfg, n, m, target, best, m);
    assert AfterSweeps(cfg, n, m, target, best, 0) == best && AfterSweeps(cfg, n, m, target, best, 1) == next;
    if iter + 1 < NUM_ITERATIONS {
      IterateCounts(cfg, n, m, target, next, iter + 1, diff);
      var o := Iterate(cfg, n, m, target, next, iter + 1, diff);
      SweepsCompose(cfg, n, m, target, best, o.sweeps - iter - 1);
    }
  }

  lemma RefinedCounts(cfg: Config, src: Source, rgbBitDepth: nat)
    requires Fits(cfg, src, rgbBitDepth)
    ensures var o := Refined(cfg, src, rgbBitDepth);
            && 2 <= o.sweeps <= NUM_ITERATIONS
            && o.best == AfterSweeps(cfg, src.Cells(), src.Pairs(), Target(cfg, src, rgbBitDepth),
                                     FirstGuess(cfg, src, rgbBitDepth), o.sweeps)
  {
    hide Iterate, AfterSweeps, Target, FirstGuess;
    IterateCounts(cfg, src.Cells(), src.Pairs(), Target(cfg, src, rgbBitDepth), FirstGuess(cfg, src, rgbBitDepth), 0,
        UINT64_MAX);
  }

  // ---- When the loop stops ----

  // How far sweep s, counted from 1, finds its image from the target.
  function DistanceIn(cfg: Config, n: nat, m: nat, target: Image, first: Image, s: nat): nat
    requires cfg.Valid() && first.Shape(n, m) && target.Shape(n, m) && s >= 1
  {
    DiffTo(cfg, n, m, target, AfterSweeps(cfg, n, m, target, first, s - 1), m)
  }

  // Sweep s is one to stop after: it changed less than three per sample of the padded luma, or
  // more than the sweep before it.
  predicate Enough(cfg: Config, n: nat, m: nat, target: Image, first: Image, s: nat)
    requires cfg.Valid() && first.Shape(n, m) && target.Shape(n, m) && s >= 2
  {
    || DistanceIn(cfg, n, m, target, first, s) < 12 * n * m
    || DistanceIn(cfg, n, m, target, first, s) > DistanceIn(cfg, n, m, target, first, s - 1)
  }

  lemma {:induction false} IterateStops(cfg: Config, n: nat, m: nat, target: Image, first: Image, best: Image,
                                        iter: nat, prevDiff: nat)
    requires cfg.Valid() && first.Shape(n, m) && best.Shape(n, m) && target.Shape(n, m) && iter < NUM_ITERATIONS
    requires best == AfterSweeps(cfg, n, m, target, first, iter)
    requires iter > 0 ==> prevDiff == DistanceIn(cfg, n, m, target, first, iter)
    ensures var o := Iterate(cfg, n, m, target, best, iter, prevDiff);
            && iter < o.sweeps <= NUM_ITERATIONS && o.diff == DistanceIn(cfg, n, m, target, first, o.sweeps)
            && (forall s :: 2 <= s && iter < s < o.sweeps ==> !Enough(cfg, n, m, target, first, s))
            && (o.sweeps < NUM_ITERATIONS ==> o.sweeps >= 2 && Enough(cfg, n, m, target, first, o.sweeps))
    decreases NUM_ITERATIONS - iter
  {
    hide SweepTo, DiffTo, Config.Valid;
    var next, diff := SweepTo(cfg, n, m, target, best, m), DiffTo(cfg, n, m, target, best, m);
    assert next == AfterSweeps(cfg, n, m, target, first, iter + 1);
    assert diff == DistanceIn(cfg, n, m, target, first, iter + 1);
    SamplesOf(n, m);
    if iter + 1 < NUM_ITERATIONS && !(iter > 0 && (diff < 3 * (2 * n) * (2 * m) || diff > prevDiff)) {
      IterateStops(cfg, n, m, target, first, next, iter + 1, diff);
    }
  }

  lemma SamplesOf(n: nat, m: nat)
    ensures 3 * (2 * n) * (2 * m) == 12 * n * m
  {
  }

  // A run ends with the first sweep from the second on that is enough, or with the fourth.
  lemma RefinedStops(cfg: Config, src: Source, rgbBitDepth: nat)
    requires Fits(cfg, src, rgbBitDepth)
    ensures var o, n, m := Refined(cfg, src, rgbBitDepth), src.Cells(), src.Pairs();
            var target, first := Target(cfg, src, rgbBitDepth), FirstGuess(cfg, src, rgbBitDepth);
            && 2 <= o.sweeps <= 4 && o.diff == DistanceIn(cfg, n, m, target, first, o.sweeps)
            && (forall s :: 2 <= s < o.sweeps ==> !Enough(cfg, n, m, target, first, s))
            && (o.sweeps < 4 ==> Enough(cfg, n, m, target, first, o.sweeps))
  {
    hide Iterate, DistanceIn, Enough, Target, FirstGuess, Source.Channel;
    var target, first := Target(cfg, src, rgbBitDepth), FirstGuess(cfg, src, rgbBitDepth);
    RefinedCounts(cfg, src, rgbBitDepth);
    assert AfterSweeps(cfg, src.Cells(), src.Pairs(), target, first, 0) == first;
    IterateStops(cfg, src.Cells(), src.Pairs(), target, first, first, 0, UINT64_MAX);
  }

  method RefineAll(cfg: Config, b: Buffers, n: nat, m: nat) returns (sweeps: nat)
    requires cfg.Valid() && b.Separate() && b.Sized(n, m)
    modifies b.tmp, b.rgbY, b.rgbUV, b.bestY, b.bestUV
    ensures var o := old(Iterate(cfg, n, m, ImageIn(b.targetY, b.targetUV, n, m), ImageIn(b.bestY, b.bestUV, n, m), 0,
            UINT64_MAX));
            ImageIn(b.bestY, b.bestUV, n, m) == o.best && sweeps == o.sweeps
  {
    hide SweepTo, DiffTo, ImageIn, Start, Config.Valid;
    ghost var target := ImageIn(b.targetY, b.targetUV, n, m);
    ghost var goal := Iterate(cfg, n, m, target, ImageIn(b.bestY, b.bestUV, n, m), 0, UINT64_MAX);
    var prevDiff: nat := UINT64_MAX;
    var iter := 0;
    while true
      invariant 0 <= iter < NUM_ITERATIONS
      invariant target == ImageIn(b.targetY, b.targetUV, n, m)
      invariant goal == Iterate(cfg, n, m, target, ImageIn(b.bestY, b.bestUV, n, m), iter, prevDiff)
      decreases NUM_ITERATIONS - iter
    {
      var diff := RefineSweep(cfg, b, n, m);
      if iter > 0 {
        if diff < 3 * (2 * n) * (2 * m) { break; }
        if diff > prevDiff { break; }
      }
      prevDiff := diff;
      if iter + 1 == NUM_ITERATIONS { break; }
      iter := iter + 1;
    }
    sweeps := iter + 1;
  }

  // ---- Import ----

  // Prepare two lines of input; a last line without a partner is used twice.
  method LoadRowPair(cfg: Config, src: Source, rgbBitDepth: nat, tmp: array<int>, n: nat, ghost k: nat, j: nat)
    requires Fits(cfg, src, rgbBitDepth) && n == src.Cells() && j == 2 * k && j < src.height && tmp.Length == 12 * n
    modifies tmp
    ensures (PlanesAt(tmp, 0, 2 * n), PlanesAt(tmp, 6 * n, 2 * n)) == PaddedPair(cfg, src, rgbBitDepth, k)
  {
    hide RowAt, PaddedLine, MaxY, Config.Valid;
    var w := 2 * n;
    ImportOneRow(src.r[j], src.g[j], src.b[j], rgbBitDepth, src.width, tmp, 0, w);
    if j != src.height - 1 {
      ImportOneRow(src.r[j + 1], src.g[j + 1], src.b[j + 1], rgbBitDepth, src.width, tmp, 3 * w, w);
    } else {
      CopyPlanes(tmp, 0, tmp, 3 * w, w);
    }
  }

  // The body of the import loop: two padded lines become one row pair in four buffers.
  method ImportRowPair(cfg: Config, src: Source, rgbBitDepth: nat, b: Buffers, n: nat, ghost k: nat, j: nat, y: nat,
                       uv: nat)
    requires Fits(cfg, src, rgbBitDepth) && b.Separate() && n == src.Cells() && j == 2 * k && j < src.height
    requires b.tmp.Length == 12 * n && y + 4 * n <= b.bestY.Length && y + 4 * n <= b.targetY.Length
    requires uv + 3 * n <= b.bestUV.Length && uv + 3 * n <= b.targetUV.Length
    modifies b.tmp, b.bestY, b.targetY, b.bestUV, b.targetUV
    ensures RowAt(b.bestY, y, 4 * n) == FirstLuma(cfg, src, rgbBitDepth, k)
    ensures Pair(RowAt(b.targetY, y, 4 * n), PlanesAt(b.targetUV, uv, n)) == TargetPair(cfg, src, rgbBitDepth, k)
    ensures PlanesAt(b.bestUV, uv, n) == TargetPair(cfg, src, rgbBitDepth, k).uv
    ensures RowsKept(b.bestY, y, y + 4 * n) && RowsKept(b.targetY, y, y + 4 * n)
    ensures RowsKept(b.bestUV, uv, uv + 3 * n) && RowsKept(b.targetUV, uv, uv + 3 * n)
  {
    hide RowAt, PaddedPair, LumaRow, ChromaRow, GrayRow, MaxY, Source.Channel;
    var w := 2 * n;
    LoadRowPair(cfg, src, rgbBitDepth, b.tmp, n, k, j);
    StoreGray(b.tmp, 0, b.bestY, y, w);
    StoreGray(b.tmp, 3 * w, b.bestY, y + w, w);
    RowHalves(b.bestY, y, w, w);
    UpdateW(cfg, b.tmp, 0, b.targetY, y, w);
    UpdateW(cfg, b.tmp, 3 * w, b.targetY, y + w, w);
    RowHalves(b.targetY, y, w, w);
    UpdateChroma(cfg, b.tmp, 0, 3 * w, b.targetUV, uv, n);
    CopyPlanes(b.targetUV, uv, b.bestUV, uv, n);
  }

  method ImportPicture(cfg: Config, src: Source, rgbBitDepth: nat, b: Buffers)
    requires Fits(cfg, src, rgbBitDepth) && b.Separate() && b.Sized(src.Cells(), src.Pairs())
    modifies b.tmp, b.bestY, b.targetY, b.bestUV, b.targetUV
    ensures ImageIn(b.bestY, b.bestUV, src.Cells(), src.Pairs()) == FirstGuess(cfg, src, rgbBitDepth)
    ensures ImageIn(b.targetY, b.targetUV, src.Cells(), src.Pairs()) == Target(cfg, src, rgbBitDepth)
  {
    hide Start, RowAt, TargetPair, FirstLuma, Source.Channel, Config.Valid;
    var n := src.Cells();
    ghost var m := src.Pairs();
    var w := 2 * n;
    var bestY, bestUV, j := 0, 0, 0;
    ghost var k := 0;
    StartStep(0, 4 * n);
    StartStep(0, 3 * n);
    while j < src.height
      invariant j == 2 * k && k <= m
      invariant bestY == Start(k, 4 * n) && bestUV == Start(k, 3 * n)
      invariant forall i :: 0 <= i < k ==> PairImported(cfg, src, rgbBitDepth, b, n, m, i)
    {
      StartFits(k, m, 4 * n);
      StartFits(k, m, 3 * n);
      StartStep(k, 4 * n);
      StartStep(k, 3 * n);
      label before:
      ImportRowPair(cfg, src, rgbBitDepth, b, n, k, j, bestY, bestUV);
      forall i | 0 <= i < k
        ensures PairImported(cfg, src, rgbBitDepth, b, n, m, i)
      {
        StartFits(i, k, 4 * n);
        StartFits(i, k, 3 * n);
        assert old@before(PairImported(cfg, src, rgbBitDepth, b, n, m, i));
        assert LumaIn(b.bestY, n, m, i) == old@before(LumaIn(b.bestY, n, m, i));
        assert LumaIn(b.targetY, n, m, i) == old@before(LumaIn(b.targetY, n, m, i));
        assert ChromaIn(b.bestUV, n, m, i) == old@before(ChromaIn(b.bestUV, n, m, i));
        assert ChromaIn(b.targetUV, n, m, i) == old@before(ChromaIn(b.targetUV, n, m, i));
      }
      assert PairImported(cfg, src, rgbBitDepth, b, n, m, k);
      bestY := bestY + 2 * w;
      bestUV := bestUV + 3 * n;
      j := j + 2;
      k := k + 1;
    }
    AllImported(cfg, src, rgbBitDepth, b, n, m);
  }

  lemma AllImported(cfg: Config, src: Source, rgbBitDepth: nat, b: Buffers, n: nat, m: nat)
    requires Fits(cfg, src, rgbBitDepth) && b.Sized(n, m) && n == src.Cells() && m == src.Pairs()
    requires forall i :: 0 <= i < m ==> PairImported(cfg, src, rgbBitDepth, b, n, m, i)
    ensures ImageIn(b.bestY, b.bestUV, n, m) == FirstGuess(cfg, src, rgbBitDepth)
    ensures ImageIn(b.targetY, b.targetUV, n, m) == Target(cfg, src, rgbBitDepth)
  {
    hide LumaIn, ChromaIn, TargetPair, FirstLuma, Config.Valid, Source.Valid;
    var best, target := ImageIn(b.bestY, b.bestUV, n, m), ImageIn(b.targetY, b.targetUV, n, m);
    var best', target' := FirstGuess(cfg, src, rgbBitDepth), Target(cfg, src, rgbBitDepth);
    forall i | 0 <= i < m
      ensures best.ys[i] == best'.ys[i] && best.uvs[i] == best'.uvs[i]
      ensures target.ys[i] == target'.ys[i] && target.uvs[i] == target'.uvs[i]
    {
      assert PairImported(cfg, src, rgbBitDepth, b, n, m, i);
    }
    assert best.ys == best'.ys && best.uvs == best'.uvs && target.ys == target'.ys && target.uvs == target'.uvs;
  }

  ghost predicate PairImported(cfg: Config, src: Source, rgbBitDepth: nat, b: Buffers, n: nat, m: nat, k: nat)
    requires Fits(cfg, src, rgbBitDepth) && b.Sized(n, m) && n == src.Cells() && k < m
    reads b.bestY, b.targetY, b.bestUV, b.targetUV
  {
    && LumaIn(b.bestY, n, m, k) == FirstLuma(cfg, src, rgbBitDepth, k)
    && Pair(LumaIn(b.targetY, n, m, k), ChromaIn(b.targetUV, n, m, k)) == TargetPair(cfg, src, rgbBitDepth, k)
    && ChromaIn(b.bestUV, n, m, k) == TargetPair(cfg, src, rgbBitDepth, k).uv
  }
}
