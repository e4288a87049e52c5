// How chroma evolves over whole runs. Beside what the buffers store as int16, every row has
// the exact sum of its corrections; the gray of the exact sums drifts from zero by at most one
// unit a sweep, and the gray of what is stored does exactly as long as nothing has wrapped.
module ChromaRuns {
  import opened FixedPoint
  import opened Gamma
  import opened Kernels
  import opened Rows
  import opened Measure
  import opened Sweep
  import opened Import
  import opened Driver
  import opened Invariants

  // ---- The exact sums ----

  // One correction without the int16 store.
  function Plus(was: Planes, target: Planes, seen: Planes, n: nat): (p: Planes)
    requires was.Shape(n) && target.Shape(n) && seen.Shape(n)
    ensures p.Shape(n)
  {
    Planes(seq(n, i requires 0 <= i < n => was.r[i] + (target.r[i] - seen.r[i])),
           seq(n, i requires 0 <= i < n => was.g[i] + (target.g[i] - seen.g[i])),
           seq(n, i requires 0 <= i < n => was.b[i] + (target.b[i] - seen.b[i])))
  }

  // The chroma that sweep `sweeps` (counted from 0) measures on row pair k.
  function SeenInSweep(cfg: Config, n: nat, m: nat, target: Image, img: Image, sweeps: nat, k: nat): (p: Planes)
    requires cfg.Valid() && img.Shape(n, m) && target.Shape(n, m) && k < m
    ensures p.Shape(n)
  {
    SeenAt(cfg, n, m, SweepTo(cfg, n, m, target, AfterSweeps(cfg, n, m, target, img, sweeps), k), k).uv
  }

  // Chroma row k with the corrections of the first `sweeps` sweeps summed exactly.
  function Owed(cfg: Config, n: nat, m: nat, target: Image, img: Image, sweeps: nat, k: nat): (p: Planes)
    requires cfg.Valid() && img.Shape(n, m) && target.Shape(n, m) && k < m
    ensures p.Shape(n)
  {
    if sweeps == 0 then img.uvs[k]
    else Plus(Owed(cfg, n, m, target, img, sweeps - 1, k), target.uvs[k],
        SeenInSweep(cfg, n, m, target, img, sweeps - 1, k), n)
  }

  // ---- What is stored is the exact sum, wrapped ----

  ghost predicate Wraps(stored: Planes, exact: Planes, n: nat)
    requires stored.Shape(n) && exact.Shape(n)
  {
    forall i :: 0 <= i < n ==>
      stored.r[i] == S16(exact.r[i]) && stored.g[i] == S16(exact.g[i]) && stored.b[i] == S16(exact.b[i])
  }

  lemma WrapsStep(stored: Planes, exact: Planes, target: Planes, seen: Planes, n: nat)
    requires stored.Shape(n) && exact.Shape(n) && target.Shape(n) && seen.Shape(n) && Wraps(stored, exact, n)
    ensures Wraps(UpdatedPlanes(target, seen, stored, n), Plus(exact, target, seen, n), n)
  {
    hide S16;
    var now, owed := UpdatedPlanes(target, seen, stored, n), Plus(exact, target, seen, n);
    forall i | 0 <= i < n
      ensures now.r[i] == S16(owed.r[i]) && now.g[i] == S16(owed.g[i]) && now.b[i] == S16(owed.b[i])
    {
      S16Absorbs(exact.r[i], target.r[i] - seen.r[i]);
      S16Absorbs(exact.g[i], target.g[i] - seen.g[i]);
      S16Absorbs(exact.b[i], target.b[i] - seen.b[i]);
    }
  }

  // A sweep stores in row k the correction by what it saw there.
  lemma SweepStores(cfg: Config, n: nat, m: nat, target: Image, img: Image, sweeps: nat, k: nat)
    requires cfg.Valid() && img.Shape(n, m) && target.Shape(n, m) && k < m
    ensures AfterSweeps(cfg, n, m, target, img, sweeps + 1).uvs[k] ==
            UpdatedPlanes(target.uvs[k], SeenInSweep(cfg, n, m, target, img, sweeps, k),
                AfterSweeps(cfg, n, m, target, img, sweeps).uvs[k], n)
  {
    hide SweepTo, SeenAt, UpdatedPlanes, UpdatedY, Config.Valid;
    var was := AfterSweeps(cfg, n, m, target, img, sweeps);
    SweepStep(cfg, n, m, target, was, k);
    SweepPrefix(cfg, n, m, target, was, k, m);
  }

  lemma {:induction false} StoredIsWrapped(cfg: Config, n: nat, m: nat, target: Image, img: Image, sweeps: nat, k: nat)
    requires cfg.Valid() && img.Shape(n, m) && target.Shape(n, m) && k < m && Wraps(img.uvs[k], img.uvs[k], n)
    ensures Wraps(AfterSweeps(cfg, n, m, target, img, sweeps).uvs[k], Owed(cfg, n, m, target, img, sweeps, k), n)
  {
    hide Wraps, Plus, SeenInSweep, UpdatedPlanes, Config.Valid, SweepTo;
    if sweeps > 0 {
      StoredIsWrapped(cfg, n, m, target, img, sweeps - 1, k);
      SweepStores(cfg, n, m, target, img, sweeps - 1, k);
      WrapsStep(AfterSweeps(cfg, n, m, target, img, sweeps - 1).uvs[k], Owed(cfg, n, m, target, img, sweeps - 1, k),
                target.uvs[k], SeenInSweep(cfg, n, m, target, img, sweeps - 1, k), n);
    }
  }

  // ---- Drift and magnitude of the exact sums ----

  // One cell: a correction adds the target's weighted sum and takes away the measured one.
  lemma DriftStep(was: (int, int, int), t: (int, int, int), s: (int, int, int), c: nat)
    requires Drift(was.0, was.1, was.2, c) && Drift(t.0, t.1, t.2, 0) && Drift(s.0, s.1, s.2, 0)
    ensures Drift(was.0 + (t.0 - s.0), was.1 + (t.1 - s.1), was.2 + (t.2 - s.2), c + 1)
  {
    assert WeightedSum(was.0 + (t.0 - s.0), was.1 + (t.1 - s.1), was.2 + (t.2 - s.2)) ==
           WeightedSum(was.0, was.1, was.2) + WeightedSum(t.0, t.1, t.2) - WeightedSum(s.0, s.1, s.2);
  }

  lemma PlusBounds(was: Planes, target: Planes, seen: Planes, n: nat, c: nat, bound: int, depth: int)
    requires was.Shape(n) && target.Shape(n) && seen.Shape(n)
    requires ChromaWithin(was, n, c, bound) && ChromaWithin(target, n, 0, depth) && ChromaWithin(seen, n, 0, depth)
    ensures ChromaWithin(Plus(was, target, seen, n), n, c + 1, bound + 2 * depth)
  {
    hide Drift;
    var now := Plus(was, target, seen, n);
    forall i | 0 <= i < n
      ensures Drift(now.r[i], now.g[i], now.b[i], c + 1) && Magnitude(now.r[i], now.g[i], now.b[i], bound + 2 * depth)
    {
      DriftStep((was.r[i], was.g[i], was.b[i]), (target.r[i], target.g[i], target.b[i]),
          (seen.r[i], seen.g[i], seen.b[i]), c);
    }
  }

  function ChromaBound(bitDepth: nat, sweeps: nat): nat {
    (2 * sweeps + 1) * Reach(Pow2(bitDepth))
  }

  lemma ChromaBoundStep(bitDepth: nat, sweeps: nat)
    ensures ChromaBound(bitDepth, 0) == Reach(Pow2(bitDepth))
    ensures ChromaBound(bitDepth, sweeps + 1) == ChromaBound(bitDepth, sweeps) + 2 * Reach(Pow2(bitDepth))
  {
    hide Pow2, Reach;
  }

  // After k sweeps the exact sums have drifted by at most k units of gray and are within
  // (2k + 1) * Reach(2^depth).
  lemma {:induction false} OwedBounds(cfg: Config, n: nat, m: nat, target: Image, img: Image, sweeps: nat, k: nat)
    requires cfg.Valid() && cfg.t.Tame(cfg.bitDepth) && img.Shape(n, m) && target.Shape(n, m) && k < m
    requires img.uvs[k] == target.uvs[k] && ChromaWithin(target.uvs[k], n, 0, Reach(Pow2(cfg.bitDepth)))
    ensures ChromaWithin(Owed(cfg, n, m, target, img, sweeps, k), n, sweeps, ChromaBound(cfg.bitDepth, sweeps))
  {
    hide SweepTo, AfterSweeps, SeenAt, Plus, ChromaWithin, AllWithin, ChromaBound, Config.Valid, Transfer.Tame, Pow2;
    hide Reach;
    if sweeps > 0 {
      OwedBounds(cfg, n, m, target, img, sweeps - 1, k);
      SeenInRange(cfg, n, m, SweepTo(cfg, n, m, target, AfterSweeps(cfg, n, m, target, img, sweeps - 1), k), k);
      ChromaBoundStep(cfg.bitDepth, sweeps - 1);
      PlusBounds(Owed(cfg, n, m, target, img, sweeps - 1, k), target.uvs[k],
          SeenInSweep(cfg, n, m, target, img, sweeps - 1, k), n,
                 sweeps - 1, ChromaBound(cfg.bitDepth, sweeps - 1), Reach(Pow2(cfg.bitDepth)));
    } else {
      ChromaBoundStep(cfg.bitDepth, 0);
    }
  }

  // ---- One cell, stored ----

  // c corrections move the gray of a triple by at most c.
  lemma DriftIsGray(r: int, g: int, b: int, c: nat)
    requires Drift(r, g, b, c)
    ensures Abs(RGBToGray(r, g, b)) <= c
  {
  }

  // Wrapping moves the gray by the weights of the channels that wrapped.
  lemma WrappedGray(r: int, g: int, b: int)
    ensures RGBToGray(S16(r), S16(g), S16(b)) ==
            RGBToGray(r, g, b) - (13933 * WrapCount(r) + 46871 * WrapCount(g) + 4732 * WrapCount(b))
  {
    hide S16, WrapCount;
    WrapCounts(r);
    WrapCounts(g);
    WrapCounts(b);
    var net := 13933 * WrapCount(r) + 46871 * WrapCount(g) + 4732 * WrapCount(b);
    assert WeightedSum(S16(r), S16(g), S16(b)) == WeightedSum(r, g, b) - 65536 * net;
  }

  // No mixture of up to two wraps of each channel leaves the gray near zero.
  lemma WrapsShow(a: int, b: int, c: int)
    requires -2 <= a <= 2 && -2 <= b <= 2 && -2 <= c <= 2
    ensures a == b == c == 0 || Abs(13933 * a + 46871 * b + 4732 * c) > 8
  {
  }

  // Within four sweeps at 14 bits, the stored gray is within c of zero exactly if no channel
  // of the exact sum is outside int16.
  lemma StoredGrayExactly(r: int, g: int, b: int, c: nat)
    requires Drift(r, g, b, c) && Magnitude(r, g, b, 9 * 16384) && c <= 4
    ensures Abs(RGBToGray(S16(r), S16(g), S16(b))) <= c <==> IsS16(r) && IsS16(g) && IsS16(b)
  {
    DriftIsGray(r, g, b, c);
    WrappedGray(r, g, b);
    WrapCounts(r);
    WrapCounts(g);
    WrapCounts(b);
    WrapsShow(WrapCount(r), WrapCount(g), WrapCount(b));
    hide S16, RGBToGray, IsS16;
  }

  // ---- Whole runs ----

  // The exact sum of a picture's chroma row k after that many sweeps of its run.
  function OwedChroma(cfg: Config, src: Source, rgbBitDepth: nat, sweeps: nat, k: nat): (p: Planes)
    requires Fits(cfg, src, rgbBitDepth) && k < src.Pairs()
    ensures p.Shape(src.Cells())
  {
    Owed(cfg, src.Cells(), src.Pairs(), Target(cfg, src, rgbBitDepth), FirstGuess(cfg, src, rgbBitDepth), sweeps, k)
  }

  // The chroma row that the buffers hold.
  function StoredChroma(cfg: Config, src: Source, rgbBitDepth: nat, sweeps: nat, k: nat): (p: Planes)
    requires Fits(cfg, src, rgbBitDepth) && k < src.Pairs()
    ensures p.Shape(src.Cells())
  {
    AfterSweeps(cfg, src.Cells(), src.Pairs(), Target(cfg, src, rgbBitDepth), FirstGuess(cfg, src, rgbBitDepth),
        sweeps).uvs[k]
  }

  // In every run, the stored chroma is the exact sum wrapped to int16, and the exact sum has
  // drifted by at most one unit a sweep and stays within (2k + 1) * Reach(2^depth).
  lemma ChromaOfRun(cfg: Config, src: Source, rgbBitDepth: nat, sweeps: nat, k: nat)
    requires Fits(cfg, src, rgbBitDepth) && cfg.t.Tame(cfg.bitDepth) && k < src.Pairs()
    ensures Wraps(StoredChroma(cfg, src, rgbBitDepth, sweeps, k), OwedChroma(cfg, src, rgbBitDepth, sweeps, k),
            src.Cells())
    ensures ChromaWithin(OwedChroma(cfg, src, rgbBitDepth, sweeps, k), src.Cells(), sweeps,
            ChromaBound(cfg.bitDepth, sweeps))
  {
    hide AfterSweeps, Owed, Target, FirstGuess, ChromaWithin, Wraps, Transfer.Tame, Source.Channel, Pow2, ChromaBound,
         AllWithin, Reach;
    var n, m, target, first := src.Cells(), src.Pairs(), Target(cfg, src, rgbBitDepth),
        FirstGuess(cfg, src, rgbBitDepth);
    TargetInRange(cfg, src, rgbBitDepth, k);
    FirstChroma(cfg, src, rgbBitDepth);
    ReachIsSmall(cfg.bitDepth);
    SmallIsUnwrapped(target.uvs[k], n, Reach(Pow2(cfg.bitDepth)));
    StoredIsWrapped(cfg, n, m, target, first, sweeps, k);
    OwedBounds(cfg, n, m, target, first, sweeps, k);
  }

  lemma FirstChroma(cfg: Config, src: Source, rgbBitDepth: nat)
    requires Fits(cfg, src, rgbBitDepth)
    ensures FirstGuess(cfg, src, rgbBitDepth).uvs == Target(cfg, src, rgbBitDepth).uvs
  {
  }

  lemma SmallIsUnwrapped(p: Planes, n: nat, bound: int)
    requires p.Shape(n) && ChromaWithin(p, n, 0, bound) && bound <= 0x7FFF
    ensures Wraps(p, p, n)
  {
    hide Drift;
  }

  // After any number of sweeps up to the four of a run, the gray of a stored chroma triple is
  // within that number of zero if and only if no correction sum has left int16. Adding any W
  // back then gives a colour whose gray is as close to W.
  lemma GrayAfterSweeps(cfg: Config, src: Source, rgbBitDepth: nat, sweeps: nat, k: nat, i: nat, w: int)
    requires Fits(cfg, src, rgbBitDepth) && cfg.t.Tame(cfg.bitDepth) && k < src.Pairs() && i < src.Cells()
             && sweeps <= 4
    ensures var uv := StoredChroma(cfg, src, rgbBitDepth, sweeps, k);
            var owed := OwedChroma(cfg, src, rgbBitDepth, sweeps, k);
            && (Abs(RGBToGray(uv.r[i], uv.g[i], uv.b[i])) <= sweeps <==>
                  IsS16(owed.r[i]) && IsS16(owed.g[i]) && IsS16(owed.b[i]))
            && RGBToGray(uv.r[i] + w, uv.g[i] + w, uv.b[i] + w) - w == RGBToGray(uv.r[i], uv.g[i], uv.b[i])
  {
    hide StoredChroma, OwedChroma, Drift, RGBToGray, S16, IsS16, Transfer.Tame, Source.Valid, Pow2, ChromaBound,
         Magnitude;
    var uv, owed := StoredChroma(cfg, src, rgbBitDepth, sweeps, k), OwedChroma(cfg, src, rgbBitDepth, sweeps, k);
    ChromaOfRun(cfg, src, rgbBitDepth, sweeps, k);
    BoundOfRun(cfg.bitDepth, sweeps);
    MagnitudeWidens(owed.r[i], owed.g[i], owed.b[i], ChromaBound(cfg.bitDepth, sweeps), 9 * 16384);
    StoredGrayExactly(owed.r[i], owed.g[i], owed.b[i], sweeps);
    GrayOffset(uv.r[i], uv.g[i], uv.b[i], w);
  }

  lemma MagnitudeWidens(r: int, g: int, b: int, bound: int, wider: int)
    requires Magnitude(r, g, b, bound) && bound <= wider
    ensures Magnitude(r, g, b, wider)
  {
  }

  lemma BoundOfRun(bitDepth: nat, sweeps: nat)
    requires bitDepth <= 14 && sweeps <= 4
    ensures ChromaBound(bitDepth, sweeps) <= 9 * 16384
  {
    hide Pow2, Reach;
    ReachIsSmall(bitDepth);
    MulMonotone(2 * sweeps + 1, Reach(Pow2(bitDepth)), 16384);
  }

  lemma ReachIsSmall(bitDepth: nat)
    requires bitDepth <= 14
    ensures Reach(Pow2(bitDepth)) <= 16384
  {
    hide Pow2;
    Pow2AtMost14(bitDepth);
  }

  // While (2k + 1) * Reach(2^depth) fits int16, no store of the first k sweeps loses anything: what is
  // stored is the exact sum, with its drift and its bound.
  lemma ChromaFitsInt16(cfg: Config, src: Source, rgbBitDepth: nat, sweeps: nat, k: nat)
    requires Fits(cfg, src, rgbBitDepth) && cfg.t.Tame(cfg.bitDepth) && k < src.Pairs()
    requires ChromaBound(cfg.bitDepth, sweeps) <= 0x7FFF
    ensures StoredChroma(cfg, src, rgbBitDepth, sweeps, k) == OwedChroma(cfg, src, rgbBitDepth, sweeps, k)
    ensures ChromaWithin(StoredChroma(cfg, src, rgbBitDepth, sweeps, k), src.Cells(), sweeps,
            ChromaBound(cfg.bitDepth, sweeps))
  {
    hide StoredChroma, OwedChroma, Transfer.Tame, Source.Valid, Pow2, ChromaBound, Wraps, ChromaWithin;
    ChromaOfRun(cfg, src, rgbBitDepth, sweeps, k);
    UnwrappedIsEqual(StoredChroma(cfg, src, rgbBitDepth, sweeps, k), OwedChroma(cfg, src, rgbBitDepth, sweeps, k),
        src.Cells(),
                     sweeps, ChromaBound(cfg.bitDepth, sweeps));
  }

  lemma UnwrappedIsEqual(stored: Planes, exact: Planes, n: nat, c: nat, bound: int)
    requires stored.Shape(n) && exact.Shape(n) && Wraps(stored, exact, n) && ChromaWithin(exact, n, c, bound)
             && bound <= 0x7FFF
    ensures stored == exact
  {
    hide Drift;
    forall i | 0 <= i < n
      ensures stored.r[i] == exact.r[i] && stored.g[i] == exact.g[i] && stored.b[i] == exact.b[i]
    {
      assert Magnitude(exact.r[i], exact.g[i], exact.b[i], bound);
    }
    assert stored.r == exact.r && stored.g == exact.g && stored.b == exact.b;
  }

  lemma EightBitBound(sweeps: nat)
    ensures ChromaBound(10, sweeps) == (2 * sweeps + 1) * 950
  {
    ReachValues();
  }

  // A chroma triple as k sweeps of an 8-bit run may leave it.
  predicate SweptTriple(r: int, g: int, b: int, sweeps: nat) {
    Drift(r, g, b, sweeps) && Magnitude(r, g, b, (2 * sweeps + 1) * 950) && Abs(RGBToGray(r, g, b)) <= sweeps
  }

  ghost predicate SweptRow(p: Planes, sweeps: nat)
    requires p.Shape(|p.r|)
  {
    forall i :: 0 <= i < |p.r| ==> SweptTriple(p.r[i], p.g[i], p.b[i], sweeps)
  }

  // An 8-bit picture: over its whole run the gray of every chroma triple stays within the
  // number of sweeps, at most 4, and no stored chroma sample exceeds 9 * 950.
  lemma EightBitRun(cfg: Config, src: Source, k: nat)
    requires Fits(cfg, src, 8) && cfg.t.Tame(cfg.bitDepth) && k < src.Pairs()
    ensures var o := Refined(cfg, src, 8); o.sweeps <= 4 && SweptRow(o.best.uvs[k], o.sweeps)
  {
    hide AfterSweeps, OwedChroma, Refined, Target, FirstGuess, Drift, RGBToGray, Magnitude, Transfer.Tame,
         Source.Valid, Pow2, ChromaBound;
    RefinedCounts(cfg, src, 8);
    var o := Refined(cfg, src, 8);
    EightBitBound(o.sweeps);
    ChromaFitsInt16(cfg, src, 8, o.sweeps, k);
    var uv := o.best.uvs[k];
    forall i | 0 <= i < |uv.r|
      ensures SweptTriple(uv.r[i], uv.g[i], uv.b[i], o.sweeps)
    {
      DriftIsGray(uv.r[i], uv.g[i], uv.b[i], o.sweeps);
    }
  }
}
