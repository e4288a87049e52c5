// What every run of the refinement keeps: luma range, chroma magnitude, and the gray of
// the stored chroma.
module Invariants {
  import opened FixedPoint
  import opened Gamma
  import opened Rows
  import opened Measure
  import opened Sweep
  import opened Import
  import opened Driver

  // ---- Ranges ----

  lemma GrayRowInRange(rgb: Planes, max: nat)
    requires rgb.Shape(|rgb.r|) && rgb.Within(0, max) && max <= 0xFFFF
    ensures AllWithin(GrayRow(rgb), 0, max)
  {
    hide RGBToGray;
    forall i | 0 <= i < |rgb.r|
      ensures 0 <= GrayRow(rgb)[i] <= max
    {
      GrayRange(rgb.r[i], rgb.g[i], rgb.b[i], 0, max);
    }
  }

  lemma AllWithinConcat(a: seq<int>, b: seq<int>, lo: int, hi: int)
    requires AllWithin(a, lo, hi) && AllWithin(b, lo, hi)
    ensures AllWithin(a + b, lo, hi)
  {
  }

  lemma FirstGuessInRange(cfg: Config, src: Source, rgbBitDepth: nat)
    requires Fits(cfg, src, rgbBitDepth)
    ensures FirstGuess(cfg, src, rgbBitDepth).LumaWithin(cfg.Top())
  {
    hide GrayRow, Target, PaddedRow, MaxY, Source.Channel;
    forall k | 0 <= k < src.Pairs()
      ensures AllWithin(FirstGuess(cfg, src, rgbBitDepth).ys[k], 0, cfg.Top())
    {
      var rows := PaddedPair(cfg, src, rgbBitDepth, k);
      TopAtMost14Bits(cfg);
      GrayRowInRange(rows.0, cfg.Top());
      GrayRowInRange(rows.1, cfg.Top());
      AllWithinConcat(GrayRow(rows.0), GrayRow(rows.1), 0, cfg.Top());
    }
  }

  // However far a sweep has got, every luma sample is within the working depth.
  lemma {:induction false} SweepKeepsLuma(cfg: Config, n: nat, m: nat, target: Image, img: Image, k: nat)
    requires cfg.Valid() && img.Shape(n, m) && target.Shape(n, m) && k <= m && img.LumaWithin(cfg.Top())
    ensures SweepTo(cfg, n, m, target, img, k).LumaWithin(cfg.Top())
  {
    hide CorrectedAt, Config.Valid;
    if k > 0 {
      SweepKeepsLuma(cfg, n, m, target, img, k - 1);
    }
  }

  lemma {:induction false} RunKeepsLuma(cfg: Config, n: nat, m: nat, target: Image, img: Image, sweeps: nat)
    requires cfg.Valid() && img.Shape(n, m) && target.Shape(n, m) && img.LumaWithin(cfg.Top())
    ensures AfterSweeps(cfg, n, m, target, img, sweeps).LumaWithin(cfg.Top())
  {
    hide SweepTo, Config.Valid;
    if sweeps > 0 {
      RunKeepsLuma(cfg, n, m, target, img, sweeps - 1);
      SweepKeepsLuma(cfg, n, m, target, AfterSweeps(cfg, n, m, target, img, sweeps - 1), m);
    }
  }

  // In every reachable state, between and inside sweeps, luma is within the working depth,
  // whatever the chroma holds.
  lemma ReachableLumaInRange(cfg: Config, src: Source, rgbBitDepth: nat, sweeps: nat, k: nat)
    requires Fits(cfg, src, rgbBitDepth) && k <= src.Pairs()
    ensures var n, m, target := src.Cells(), src.Pairs(), Target(cfg, src, rgbBitDepth);
            var img := AfterSweeps(cfg, n, m, target, FirstGuess(cfg, src, rgbBitDepth), sweeps);
            img.LumaWithin(cfg.Top()) && SweepTo(cfg, n, m, target, img, k).LumaWithin(cfg.Top())
  {
    hide AfterSweeps, SweepTo, Target, FirstGuess;
    var n, m, target, first := src.Cells(), src.Pairs(), Target(cfg, src, rgbBitDepth),
        FirstGuess(cfg, src, rgbBitDepth);
    FirstGuessInRange(cfg, src, rgbBitDepth);
    RunKeepsLuma(cfg, n, m, target, first, sweeps);
    SweepKeepsLuma(cfg, n, m, target, AfterSweeps(cfg, n, m, target, first, sweeps), k);
  }

  // ---- What is measured ----

  lemma LumaRowInRange(cfg: Config, rgb: Planes)
    requires cfg.Valid() && cfg.t.Tame(cfg.bitDepth) && rgb.Shape(|rgb.r|) && rgb.Within(0, cfg.Top())
    ensures AllWithin(LumaRow(cfg, rgb), 0, Pow2(cfg.bitDepth))
  {
    hide LumaOf;
    forall i | 0 <= i < |rgb.r|
      ensures 0 <= LumaRow(cfg, rgb)[i] <= Pow2(cfg.bitDepth)
    {
      MeanAndLumaRange(rgb.r[i], rgb.g[i], rgb.b[i], 0, cfg.bitDepth, cfg.t);
    }
  }

  lemma BlockMeanInRange(cfg: Config, p1: seq<int>, p2: seq<int>, i: nat)
    requires cfg.Valid() && cfg.t.Tame(cfg.bitDepth) && |p1| == |p2| && 2 * i + 1 < |p1|
    requires AllWithin(p1, 0, cfg.Top()) && AllWithin(p2, 0, cfg.Top())
    ensures BlockMean(cfg, p1, p2, i) <= Pow2(cfg.bitDepth)
  {
    hide ScaleDown;
    MeanAndLumaRange(p1[2 * i], p1[2 * i + 1], p2[2 * i], p2[2 * i + 1], cfg.bitDepth, cfg.t);
  }

  // How far the weighted sum of a stored chroma triple may be from zero after c corrections.
  predicate Drift(r: int, g: int, b: int, c: nat) {
    -(32768 + 65535 * c) <= WeightedSum(r, g, b) <= 32767 + 65535 * c
  }

  predicate Magnitude(r: int, g: int, b: int, bound: int) {
    -bound <= r <= bound && -bound <= g <= bound && -bound <= b <= bound
  }

  // The most that a channel within the bound can be away from the gray of its triple, which is
  // what blue is away from the gray of full blue.
  function Reach(bound: nat): nat {
    (60804 * bound + 32768) / 65536
  }

  lemma ReachValues()
    ensures Reach(Pow2(10)) == 950 && Reach(Pow2(12)) == 3800 && Reach(Pow2(14)) == 15201
  {
    Pow2Values();
  }

  lemma WithinReach(r: nat, g: nat, b: nat, bound: nat)
    requires r <= bound && g <= bound && b <= bound
    ensures var w := RGBToGray(r, g, b); Magnitude(r - w, g - w, b - w, Reach(bound)) && Reach(bound) <= bound
  {
  }

  // A measured chroma triple never wraps, has gray exactly zero, and is bounded by the reach of
  // one depth.
  lemma ChromaOfBounds(r: nat, g: nat, b: nat, bound: nat)
    requires r <= bound && g <= bound && b <= bound <= 16384
    ensures var u := ChromaOf(r, g, b);
            && u == (r - RGBToGray(r, g, b), g - RGBToGray(r, g, b), b - RGBToGray(r, g, b))
            && Magnitude(u.0, u.1, u.2, Reach(bound)) && Drift(u.0, u.1, u.2, 0) && RGBToGray(u.0, u.1, u.2) == 0
  {
    hide RGBToGray, S16, Reach;
    var w := RGBToGray(r, g, b);
    WithinReach(r, g, b, bound);
    GrayOffset(r, g, b, -w);
    GrayRemainder(r, g, b);
    assert WeightedSum(r - w, g - w, b - w) == WeightedSum(r, g, b) - 65536 * w;
  }

  ghost predicate ChromaWithin(p: Planes, n: nat, c: nat, bound: int)
    requires p.Shape(n)
  {
    forall i :: 0 <= i < n ==> Drift(p.r[i], p.g[i], p.b[i], c) && Magnitude(p.r[i], p.g[i], p.b[i], bound)
  }

  lemma MeasuredChroma(cfg: Config, n: nat, upper: Planes, lower: Planes)
    requires cfg.Valid() && cfg.t.Tame(cfg.bitDepth) && RowPair(cfg, upper, lower, n)
    ensures ChromaWithin(ChromaRow(cfg, upper, lower, n), n, 0, Reach(Pow2(cfg.bitDepth)))
  {
    hide BlockMean, ChromaOf, Drift, Magnitude, Reach;
    var uv := ChromaRow(cfg, upper, lower, n);
    Pow2AtMost14(cfg.bitDepth);
    forall i | 0 <= i < n
      ensures Drift(uv.r[i], uv.g[i], uv.b[i], 0) && Magnitude(uv.r[i], uv.g[i], uv.b[i], Reach(Pow2(cfg.bitDepth)))
    {
      BlockMeanInRange(cfg, upper.r, lower.r, i);
      BlockMeanInRange(cfg, upper.g, lower.g, i);
      BlockMeanInRange(cfg, upper.b, lower.b, i);
      ChromaOfBounds(BlockMean(cfg, upper.r, lower.r, i), BlockMean(cfg, upper.g, lower.g, i),
                     BlockMean(cfg, upper.b, lower.b, i), Pow2(cfg.bitDepth));
    }
  }

  // Everything a sweep measures, from any image whatever, is within one depth, and chroma within
  // its reach.
  lemma SeenInRange(cfg: Config, n: nat, m: nat, img: Image, k: nat)
    requires cfg.Valid() && cfg.t.Tame(cfg.bitDepth) && img.Shape(n, m) && k < m
    ensures var seen := SeenAt(cfg, n, m, img, k);
            AllWithin(seen.y, 0, Pow2(cfg.bitDepth)) && ChromaWithin(seen.uv, n, 0, Reach(Pow2(cfg.bitDepth)))
  {
    hide LumaRow, ChromaRow, ChromaWithin, UpsampledRow;
    var upper := UpperRow(cfg, n, img.uvs[Before(k)], img.uvs[k], img.ys[k]);
    var lower := LowerRow(cfg, n, img.uvs[k], img.uvs[After(k, m)], img.ys[k]);
    MeasuredChroma(cfg, n, upper, lower);
    LumaRowInRange(cfg, upper);
    LumaRowInRange(cfg, lower);
    AllWithinConcat(LumaRow(cfg, upper), LumaRow(cfg, lower), 0, Pow2(cfg.bitDepth));
  }

  lemma TargetInRange(cfg: Config, src: Source, rgbBitDepth: nat, k: nat)
    requires Fits(cfg, src, rgbBitDepth) && cfg.t.Tame(cfg.bitDepth) && k < src.Pairs()
    ensures var target := Target(cfg, src, rgbBitDepth);
            && AllWithin(target.ys[k], 0, Pow2(cfg.bitDepth))
            && ChromaWithin(target.uvs[k], src.Cells(), 0, Reach(Pow2(cfg.bitDepth)))
  {
    hide LumaRow, ChromaRow, ChromaWithin, PaddedPair, Source.Valid;
    var n := src.Cells();
    var rows := PaddedPair(cfg, src, rgbBitDepth, k);
    MeasuredChroma(cfg, n, rows.0, rows.1);
    LumaRowInRange(cfg, rows.0);
    LumaRowInRange(cfg, rows.1);
    AllWithinConcat(LumaRow(cfg, rows.0), LumaRow(cfg, rows.1), 0, Pow2(cfg.bitDepth));
  }
}
