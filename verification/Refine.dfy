// The refinement sweep as the driver runs it: one loop over row pairs that reads and
// writes the same luma and chroma buffers through advancing offsets.
module Refine {
  import opened FixedPoint
  import opened Kernels
  import opened Rows
  import opened Measure
  import opened Sweep

  // The working buffers for an image of m row pairs over n chroma cells per row.
  datatype Buffers = Buffers(tmp: array<int>, bestY: array<int>, targetY: array<int>, rgbY: array<int>,
                             bestUV: array<int>, targetUV: array<int>, rgbUV: array<int>) {
    ghost predicate Separate() {
      && tmp != bestY && tmp != targetY && tmp != rgbY && tmp != bestUV && tmp != targetUV && tmp != rgbUV
      && bestY != targetY && bestY != rgbY && bestY != bestUV && bestY != targetUV && bestY != rgbUV
      && targetY != rgbY && targetY != bestUV && targetY != targetUV && targetY != rgbUV
      && rgbY != bestUV && rgbY != targetUV && rgbY != rgbUV
      && bestUV != targetUV && bestUV != rgbUV && targetUV != rgbUV
    }

    ghost predicate Sized(n: nat, m: nat) {
      && n >= 1 && m >= 1
      && tmp.Length == 12 * n && rgbY.Length == 4 * n && rgbUV.Length == 3 * n
      && bestY.Length == Start(m, 4 * n) && targetY.Length == Start(m, 4 * n)
      && bestUV.Length == Start(m, 3 * n) && targetUV.Length == Start(m, 3 * n)
    }
  }

  // Where entry k of a buffer of rows of length len starts.
  function Start(k: nat, len: nat): nat {
    k * len
  }

  lemma StartStep(k: nat, len: nat)
    ensures Start(k + 1, len) == Start(k, len) + len && Start(0, len) == 0
  {
  }

  lemma {:induction false} StartFits(k: nat, m: nat, len: nat)
    requires k < m
    ensures Start(k, len) + len <= Start(m, len)
    decreases m
  {
    StartStep(k, len);
    if k + 1 < m {
      StartFits(k, m - 1, len);
      StartStep(m - 1, len);
    }
  }

  // The image stored in a luma and a chroma buffer.
  ghost function ImageIn(ys: array<int>, uvs: array<int>, n: nat, m: nat): (img: Image)
    requires ys.Length == Start(m, 4 * n) && uvs.Length == Start(m, 3 * n)
    reads ys, uvs
    ensures img.Shape(n, m)
  {
    Image(seq(m, k requires 0 <= k < m reads ys => LumaIn(ys, n, m, k)),
          seq(m, k requires 0 <= k < m reads uvs => ChromaIn(uvs, n, m, k)))
  }

  ghost function LumaIn(ys: array<int>, n: nat, m: nat, k: nat): (y: seq<int>)
    requires ys.Length == Start(m, 4 * n) && k < m
    reads ys
    ensures |y| == 4 * n
  {
    StartFits(k, m, 4 * n);
    RowAt(ys, Start(k, 4 * n), 4 * n)
  }

  ghost function ChromaIn(uvs: array<int>, n: nat, m: nat, k: nat): (p: Planes)
    requires uvs.Length == Start(m, 3 * n) && k < m
    reads uvs
    ensures p.Shape(n)
  {
    StartFits(k, m, 3 * n);
    PlanesAt(uvs, Start(k, 3 * n), n)
  }

  lemma RowHalves(a: array<int>, at: nat, p: nat, q: nat)
    requires at + p + q <= a.Length
    ensures RowAt(a, at, p + q)[..p] == RowAt(a, at, p) && RowAt(a, at, p + q)[p..] == RowAt(a, at + p, q)
    ensures RowAt(a, at, p + q) == RowAt(a, at, p) + RowAt(a, at + p, q)
  {
  }

  function Thirds(s: seq<int>, n: nat): Planes
    requires |s| == 3 * n
  {
    Planes(s[..n], s[n..2 * n], s[2 * n..])
  }

  lemma PlanesAreThirds(a: array<int>, at: nat, n: nat)
    requires at + 3 * n <= a.Length
    ensures PlanesAt(a, at, n) == Thirds(RowAt(a, at, 3 * n), n)
  {
    hide RowAt;
    var s := RowAt(a, at, 3 * n);
    assert 3 * n == n + (n + n);
    RowHalves(a, at, n, n + n);
    RowHalves(a, at + n, n, n);
    assert s[n..][..n] == s[n..2 * n] && s[n..][n..] == s[2 * n..];
  }

  lemma UpdatedThirds(ref: seq<int>, src: seq<int>, dst: seq<int>, n: nat)
    requires |ref| == |src| == |dst| == 3 * n
    ensures Thirds(UpdatedUV(ref, src, dst), n) == UpdatedPlanes(Thirds(ref, n), Thirds(src, n), Thirds(dst, n), n)
  {
    hide S16;
  }

  // The chroma kernel applied to a whole row of three planes.
  method UpdatePlanes(ref: array<int>, r: nat, src: array<int>, s: nat, dst: array<int>, d: nat, n: nat)
    requires r + 3 * n <= ref.Length && s + 3 * n <= src.Length && d + 3 * n <= dst.Length
    requires dst != ref && dst != src
    modifies dst
    ensures PlanesAt(dst, d, n) == old(UpdatedPlanes(PlanesAt(ref, r, n), PlanesAt(src, s, n), PlanesAt(dst, d, n), n))
    ensures RowsKept(dst, d, d + 3 * n)
  {
    hide UpdatedUV, UpdatedPlanes, RowAt, PlanesAt, Thirds;
    PlanesAreThirds(ref, r, n);
    PlanesAreThirds(src, s, n);
    PlanesAreThirds(dst, d, n);
    UpdatedThirds(RowAt(ref, r, 3 * n), RowAt(src, s, 3 * n), RowAt(dst, d, 3 * n), n);
    UpdateRGB_C(ref, r, src, s, dst, d, 3 * n);
    PlanesAreThirds(dst, d, n);
  }

  // The reading half of the loop body: what the rows at `y` and `cur` look like.
  method SeeRowPair(cfg: Config, b: Buffers, n: nat, y: nat, prev: nat, cur: nat, next: nat)
    requires cfg.Valid() && b.Separate() && n >= 1
    requires b.tmp.Length == 12 * n && b.rgbY.Length == 4 * n && b.rgbUV.Length == 3 * n
    requires y + 4 * n <= b.bestY.Length && cur + 3 * n <= b.bestUV.Length
    requires prev + 3 * n <= b.bestUV.Length && next + 3 * n <= b.bestUV.Length
    modifies b.tmp, b.rgbY, b.rgbUV
    ensures Pair(RowAt(b.rgbY, 0, 4 * n), PlanesAt(b.rgbUV, 0, n)) ==
            old(Seen(cfg, n, PlanesAt(b.bestUV, prev, n), PlanesAt(b.bestUV, cur, n), PlanesAt(b.bestUV, next, n),
                RowAt(b.bestY, y, 4 * n)))
  {
    hide RowAt, UpsampledRow, LumaRow, ChromaRow, MaxY;
    var w := 2 * n;
    ghost var rowY := RowAt(b.bestY, y, 4 * n);
    ghost var upper := UpperRow(cfg, n, PlanesAt(b.bestUV, prev, n), PlanesAt(b.bestUV, cur, n), rowY);
    ghost var lower := LowerRow(cfg, n, PlanesAt(b.bestUV, cur, n), PlanesAt(b.bestUV, next, n), rowY);
    RowHalves(b.bestY, y, w, w);
    InterpolateTwoRows(b.bestY, y, b.bestUV, prev, cur, next, w, b.tmp, 0, 3 * w, cfg.bitDepth);
    assert PlanesAt(b.tmp, 0, w) == upper && PlanesAt(b.tmp, 3 * w, w) == lower;
    UpdateW(cfg, b.tmp, 0, b.rgbY, 0, w);
    UpdateW(cfg, b.tmp, 3 * w, b.rgbY, w, w);
    RowHalves(b.rgbY, 0, w, w);
    UpdateChroma(cfg, b.tmp, 0, 3 * w, b.rgbUV, 0, n);
    assert Pair(RowAt(b.rgbY, 0, 4 * n), PlanesAt(b.rgbUV, 0, n)) == Measured(cfg, n, upper, lower);
  }

  // One pass of the loop body. `prev`, `cur` and `next` are offsets into the very buffer
  // whose row at `uv` is overwritten at the end.
  method RefineRowPair(cfg: Config, b: Buffers, n: nat, y: nat, prev: nat, cur: nat, next: nat, uv: nat)
    returns (diff: nat)
    requires cfg.Valid() && b.Separate() && n >= 1 && uv == cur
    requires b.tmp.Length == 12 * n && b.rgbY.Length == 4 * n && b.rgbUV.Length == 3 * n
    requires y + 4 * n <= b.bestY.Length && y + 4 * n <= b.targetY.Length
    requires cur + 3 * n <= b.bestUV.Length && cur + 3 * n <= b.targetUV.Length
    requires prev + 3 * n <= b.bestUV.Length && next + 3 * n <= b.bestUV.Length
    modifies b.tmp, b.rgbY, b.rgbUV, b.bestY, b.bestUV
    ensures Pair(RowAt(b.bestY, y, 4 * n), PlanesAt(b.bestUV, cur, n)) ==
            old(Corrected(cfg, n, Pair(RowAt(b.targetY, y, 4 * n), PlanesAt(b.targetUV, cur, n)),
                          Seen(cfg, n, PlanesAt(b.bestUV, prev, n), PlanesAt(b.bestUV, cur, n),
                              PlanesAt(b.bestUV, next, n), RowAt(b.bestY, y, 4 * n)),
                          Pair(RowAt(b.bestY, y, 4 * n), PlanesAt(b.bestUV, cur, n))))
    ensures diff == old(Sad(RowAt(b.targetY, y, 4 * n),
                            Seen(cfg, n, PlanesAt(b.bestUV, prev, n), PlanesAt(b.bestUV, cur, n),
                                PlanesAt(b.bestUV, next, n), RowAt(b.bestY, y, 4 * n)).y))
    ensures RowsKept(b.bestY, y, y + 4 * n) && RowsKept(b.bestUV, cur, cur + 3 * n)
  {
    hide RowAt, Seen, UpdatedY, UpdatedPlanes, Sad, MaxY, Config.Valid;
    SeeRowPair(cfg, b, n, y, prev, cur, next);
    diff := UpdateY_C(b.targetY, y, b.rgbY, 0, b.bestY, y, 4 * n, cfg.bitDepth);
    UpdatePlanes(b.targetUV, uv, b.rgbUV, 0, b.bestUV, uv, n);
  }

  // Rows of one length do not overlap.
  lemma StartsApart(i: nat, k: nat, len: nat)
    requires i != k
    ensures Start(i, len) + len <= Start(k, len) || Start(k, len) + len <= Start(i, len)
  {
    if i < k {
      StartFits(i, k, len);
    } else {
      StartFits(k, i, len);
    }
  }

  // The loop body at row pair k is the in-place step of the sweep.
  method RefineRowPairAt(cfg: Config, b: Buffers, n: nat, m: nat, ghost k: nat, y: nat, prev: nat, cur: nat, next: nat,
                         uv: nat)
    returns (diff: nat)
    requires cfg.Valid() && b.Separate() && b.Sized(n, m) && k < m
    requires y == Start(k, 4 * n) && cur == uv == Start(k, 3 * n)
    requires prev == Start(Before(k), 3 * n) && next == Start(After(k, m), 3 * n)
    modifies b.tmp, b.rgbY, b.rgbUV, b.bestY, b.bestUV
    ensures ImageIn(b.bestY, b.bestUV, n, m) ==
            old(StepAt(cfg, n, m, ImageIn(b.targetY, b.targetUV, n, m), ImageIn(b.bestY, b.bestUV, n, m), k))
    ensures diff == old(SadAt(cfg, n, m, ImageIn(b.targetY, b.targetUV, n, m), ImageIn(b.bestY, b.bestUV, n, m), k))
  {
    hide Start, Seen, Corrected, Sad, RowAt, Config.Valid;
    ghost var target, was := ImageIn(b.targetY, b.targetUV, n, m), ImageIn(b.bestY, b.bestUV, n, m);
    StartFits(k, m, 4 * n);
    StartFits(k, m, 3 * n);
    StartFits(Before(k), m, 3 * n);
    StartFits(After(k, m), m, 3 * n);
    diff := RefineRowPair(cfg, b, n, y, prev, cur, next, uv);
    ghost var now, step := ImageIn(b.bestY, b.bestUV, n, m), StepAt(cfg, n, m, target, was, k);
    forall i | 0 <= i < m
      ensures now.ys[i] == step.ys[i] && now.uvs[i] == step.uvs[i]
    {
      if i != k {
        StartsApart(i, k, 4 * n);
        StartsApart(i, k, 3 * n);
        StartFits(i, m, 4 * n);
        StartFits(i, m, 3 * n);
      }
    }
    assert now.ys == step.ys && now.uvs == step.uvs;
  }

  // One whole sweep of the driver, with its advancing offsets.
  method RefineSweep(cfg: Config, b: Buffers, n: nat, m: nat) returns (diff: nat)
    requires cfg.Valid() && b.Separate() && b.Sized(n, m)
    modifies b.tmp, b.rgbY, b.rgbUV, b.bestY, b.bestUV
    ensures ImageIn(b.bestY, b.bestUV, n, m) ==
            old(SweepTo(cfg, n, m, ImageIn(b.targetY, b.targetUV, n, m), ImageIn(b.bestY, b.bestUV, n, m), m))
    ensures diff == old(DiffTo(cfg, n, m, ImageIn(b.targetY, b.targetUV, n, m), ImageIn(b.bestY, b.bestUV, n, m), m))
  {
    hide Start, StepAt, SadAt, ImageIn, Config.Valid;
    ghost var target, was := ImageIn(b.targetY, b.targetUV, n, m), ImageIn(b.bestY, b.bestUV, n, m);
    var w, h := 2 * n, 2 * m;
    var cur, prev := 0, 0;
    var bestY, bestUV := 0, 0;
    var j := 0;
    ghost var k := 0;
    diff := 0;
    StartStep(0, 4 * n);
    StartStep(0, 3 * n);
    while j < h
      invariant j == 2 * k && k <= m
      invariant bestY == Start(k, 4 * n) && bestUV == Start(k, 3 * n)
      invariant k < m ==> cur == Start(k, 3 * n) && prev == Start(Before(k), 3 * n)
      invariant target == ImageIn(b.targetY, b.targetUV, n, m)
      invariant ImageIn(b.bestY, b.bestUV, n, m) == SweepTo(cfg, n, m, target, was, k)
      invariant diff == DiffTo(cfg, n, m, target, was, k)
    {
      StartStep(k, 4 * n);
      StartStep(k, 3 * n);
      var next := cur + if j < h - 2 then 3 * n else 0;
      var d := RefineRowPairAt(cfg, b, n, m, k, bestY, prev, cur, next, bestUV);
      prev := cur;
      cur := next;
      diff := diff + d;
      bestY := bestY + 2 * w;
      bestUV := bestUV + 3 * n;
      j := j + 2;
      k := k + 1;
    }
  }
}
