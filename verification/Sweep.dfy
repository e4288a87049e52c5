// One refinement sweep over the whole image, as a function on rows.
module Sweep {
  import opened Kernels
  import opened Rows
  import opened Measure

  // `ys[k]` holds the two luma rows over chroma row `uvs[k]`: 4n samples over n cells.
  // The same shape serves for the image being refined and for its targets.
  datatype Image = Image(ys: seq<seq<int>>, uvs: seq<Planes>) {
    ghost predicate Shape(n: nat, m: nat) {
      && |ys| == |uvs| == m
      && (forall k :: 0 <= k < m ==> |ys[k]| == 4 * n)
      && (forall k :: 0 <= k < m ==> uvs[k].Shape(n))
    }

    ghost predicate LumaWithin(max: nat) {
      forall k :: 0 <= k < |ys| ==> AllWithin(ys[k], 0, max)
    }
  }

  // Where scan line j starts within its row pair.
  function LineOffset(j: nat, n: nat): nat {
    if j % 2 == 0 then 0 else 2 * n
  }

  datatype Pair = Pair(y: seq<int>, uv: Planes)

  ghost predicate PairShape(p: Pair, n: nat) {
    |p.y| == 4 * n && p.uv.Shape(n)
  }

  // The two RGB rows that luma `y` and the chroma rows around it stand for.
  function UpperRow(cfg: Config, n: nat, prev: Planes, cur: Planes, y: seq<int>): (rgb: Planes)
    requires prev.Shape(n) && cur.Shape(n) && |y| == 4 * n
    ensures rgb.Shape(2 * n) && rgb.Within(0, cfg.Top())
  {
    UpsampledRow(cur, prev, y[..2 * n], cfg.Top())
  }

  function LowerRow(cfg: Config, n: nat, cur: Planes, next: Planes, y: seq<int>): (rgb: Planes)
    requires next.Shape(n) && cur.Shape(n) && |y| == 4 * n
    ensures rgb.Shape(2 * n) && rgb.Within(0, cfg.Top())
  {
    UpsampledRow(cur, next, y[2 * n..], cfg.Top())
  }

  // The luma and chroma measured on a pair of RGB rows.
  function Measured(cfg: Config, n: nat, upper: Planes, lower: Planes): (p: Pair)
    requires cfg.Valid() && RowPair(cfg, upper, lower, n)
    ensures PairShape(p, n)
  {
    Pair(LumaRow(cfg, upper) + LumaRow(cfg, lower), ChromaRow(cfg, upper, lower, n))
  }

  function UpdatedPlanes(ref: Planes, src: Planes, dst: Planes, n: nat): (p: Planes)
    requires ref.Shape(n) && src.Shape(n) && dst.Shape(n)
    ensures p.Shape(n)
  {
    Planes(UpdatedUV(ref.r, src.r, dst.r), UpdatedUV(ref.g, src.g, dst.g), UpdatedUV(ref.b, src.b, dst.b))
  }

  // Move `was` by the distance of what was measured from the target.
  function Corrected(cfg: Config, n: nat, target: Pair, seen: Pair, was: Pair): (p: Pair)
    requires PairShape(target, n) && PairShape(seen, n) && PairShape(was, n)
    ensures PairShape(p, n) && AllWithin(p.y, 0, cfg.Top())
  {
    Pair(UpdatedY(target.y, seen.y, was.y, cfg.Top()), UpdatedPlanes(target.uv, seen.uv, was.uv, n))
  }

  function Seen(cfg: Config, n: nat, prev: Planes, cur: Planes, next: Planes, y: seq<int>): (p: Pair)
    requires cfg.Valid() && prev.Shape(n) && cur.Shape(n) && next.Shape(n) && |y| == 4 * n
    ensures PairShape(p, n)
  {
    Measured(cfg, n, UpperRow(cfg, n, prev, cur, y), LowerRow(cfg, n, cur, next, y))
  }

  function Before(k: nat): nat {
    if k == 0 then 0 else k - 1
  }

  function After(k: nat, m: nat): nat {
    if k + 1 < m then k + 1 else k
  }

  // What row pair k of the image looks like from its own rows and its two neighbours.
  function SeenAt(cfg: Config, n: nat, m: nat, img: Image, k: nat): (p: Pair)
    requires cfg.Valid() && img.Shape(n, m) && k < m
    ensures PairShape(p, n)
  {
    Seen(cfg, n, img.uvs[Before(k)], img.uvs[k], img.uvs[After(k, m)], img.ys[k])
  }

  function CorrectedAt(cfg: Config, n: nat, m: nat, target: Image, img: Image, k: nat): (p: Pair)
    requires cfg.Valid() && img.Shape(n, m) && target.Shape(n, m) && k < m
    ensures PairShape(p, n) && AllWithin(p.y, 0, cfg.Top())
  {
    Corrected(cfg, n, Pair(target.ys[k], target.uvs[k]), SeenAt(cfg, n, m, img, k), Pair(img.ys[k], img.uvs[k]))
  }

  function SadAt(cfg: Config, n: nat, m: nat, target: Image, img: Image, k: nat): nat
    requires cfg.Valid() && img.Shape(n, m) && target.Shape(n, m) && k < m
  {
    Sad(target.ys[k], SeenAt(cfg, n, m, img, k).y)
  }

  // The image with row pair k replaced.
  function Replaced(img: Image, n: nat, m: nat, k: nat, p: Pair): (r: Image)
    requires img.Shape(n, m) && k < m && PairShape(p, n)
    ensures r.Shape(n, m)
  {
    Image(img.ys[k := p.y], img.uvs[k := p.uv])
  }

  // The in-place update of row pair k.
  function StepAt(cfg: Config, n: nat, m: nat, target: Image, img: Image, k: nat): (r: Image)
    requires cfg.Valid() && img.Shape(n, m) && target.Shape(n, m) && k < m
    ensures r.Shape(n, m)
  {
    Replaced(img, n, m, k, CorrectedAt(cfg, n, m, target, img, k))
  }

  // The image after the first k row pairs have been updated in place, top to bottom.
  function SweepTo(cfg: Config, n: nat, m: nat, target: Image, img: Image, k: nat): (r: Image)
    requires cfg.Valid() && img.Shape(n, m) && target.Shape(n, m) && k <= m
    ensures r.Shape(n, m)
  {
    if k == 0 then img else StepAt(cfg, n, m, target, SweepTo(cfg, n, m, target, img, k - 1), k - 1)
  }

  function DiffTo(cfg: Config, n: nat, m: nat, target: Image, img: Image, k: nat): nat
    requires cfg.Valid() && img.Shape(n, m) && target.Shape(n, m) && k <= m
  {
    if k == 0 then 0
    else DiffTo(cfg, n, m, target, img, k - 1)
         + SadAt(cfg, n, m, target, SweepTo(cfg, n, m, target, img, k - 1), k - 1)
  }

  // ---- The sweep is a Gauss-Seidel recurrence ----

  // `after` is computed from `before` row by row: row k looks up at the row above as
  // already corrected (its own old row at the top edge) and down at the old row below
  // (its own old row at the bottom edge).
  ghost predicate GaussSeidelRow(cfg: Config, n: nat, m: nat, target: Image, before: Image, after: Image, k: nat)
    requires cfg.Valid() && before.Shape(n, m) && after.Shape(n, m) && target.Shape(n, m) && k < m
  {
    var above := if k == 0 then before.uvs[0] else after.uvs[k - 1];
    var below := if k == m - 1 then before.uvs[k] else before.uvs[k + 1];
    var seen := Seen(cfg, n, above, before.uvs[k], below, before.ys[k]);
    Pair(after.ys[k], after.uvs[k]) ==
      Corrected(cfg, n, Pair(target.ys[k], target.uvs[k]), seen, Pair(before.ys[k], before.uvs[k]))
  }

  ghost predicate GaussSeidel(cfg: Config, n: nat, m: nat, target: Image, before: Image, after: Image)
    requires cfg.Valid() && before.Shape(n, m) && after.Shape(n, m) && target.Shape(n, m)
  {
    forall k :: 0 <= k < m ==> GaussSeidelRow(cfg, n, m, target, before, after, k)
  }

  // After k rows, exactly the rows above k have changed, and they never change again.
  lemma {:induction false} SweepPrefix(cfg: Config, n: nat, m: nat, target: Image, img: Image, k: nat, l: nat)
    requires cfg.Valid() && img.Shape(n, m) && target.Shape(n, m) && k <= l <= m
    ensures var early, late := SweepTo(cfg, n, m, target, img, k), SweepTo(cfg, n, m, target, img, l);
            && (forall i :: k <= i < m ==> early.ys[i] == img.ys[i] && early.uvs[i] == img.uvs[i])
            && (forall i :: 0 <= i < k ==> early.ys[i] == late.ys[i] && early.uvs[i] == late.uvs[i])
    decreases l
  {
    hide CorrectedAt;
    if k < l {
      SweepPrefix(cfg, n, m, target, img, k, l - 1);
    } else if k > 0 {
      SweepPrefix(cfg, n, m, target, img, k - 1, l - 1);
    }
  }

  lemma SweepStep(cfg: Config, n: nat, m: nat, target: Image, img: Image, k: nat)
    requires cfg.Valid() && img.Shape(n, m) && target.Shape(n, m) && k < m
    ensures var at, swept := SweepTo(cfg, n, m, target, img, k), SweepTo(cfg, n, m, target, img, m);
            Pair(swept.ys[k], swept.uvs[k]) == CorrectedAt(cfg, n, m, target, at, k)
  {
    hide CorrectedAt;
    SweepPrefix(cfg, n, m, target, img, k + 1, m);
    assert SweepTo(cfg, n, m, target, img, k + 1) == StepAt(cfg, n, m, target, SweepTo(cfg, n, m, target, img, k), k);
  }

  lemma SweepRow(cfg: Config, n: nat, m: nat, target: Image, img: Image, k: nat)
    requires cfg.Valid() && img.Shape(n, m) && target.Shape(n, m) && k < m
    ensures GaussSeidelRow(cfg, n, m, target, img, SweepTo(cfg, n, m, target, img, m), k)
  {
    hide Seen, Corrected, SweepTo, Config.Valid;
    var at, swept := SweepTo(cfg, n, m, target, img, k), SweepTo(cfg, n, m, target, img, m);
    SweepPrefix(cfg, n, m, target, img, k, m);
    SweepStep(cfg, n, m, target, img, k);
    assert at.ys[k] == img.ys[k] && at.uvs[k] == img.uvs[k];
    assert at.uvs[After(k, m)] == img.uvs[After(k, m)];
    assert k > 0 ==> at.uvs[k - 1] == swept.uvs[k - 1];
    assert SeenAt(cfg, n, m, at, k) ==
           Seen(cfg, n, if k == 0 then img.uvs[0] else swept.uvs[k - 1], img.uvs[k], img.uvs[After(k, m)], img.ys[k]);
  }

  lemma RowDetermined(cfg: Config, n: nat, m: nat, target: Image, img: Image, a: Image, b: Image, k: nat)
    requires cfg.Valid() && img.Shape(n, m) && target.Shape(n, m) && a.Shape(n, m) && b.Shape(n, m) && k < m
    requires GaussSeidelRow(cfg, n, m, target, img, a, k) && GaussSeidelRow(cfg, n, m, target, img, b, k)
    requires k > 0 ==> a.uvs[k - 1] == b.uvs[k - 1]
    ensures a.ys[k] == b.ys[k] && a.uvs[k] == b.uvs[k]
  {
    hide Seen, Corrected, Config.Valid;
  }

  lemma {:induction false} GaussSeidelUnique(cfg: Config, n: nat, m: nat, target: Image, img: Image, a: Image,
                                             b: Image, k: nat)
    requires cfg.Valid() && img.Shape(n, m) && target.Shape(n, m) && a.Shape(n, m) && b.Shape(n, m) && k <= m
    requires GaussSeidel(cfg, n, m, target, img, a) && GaussSeidel(cfg, n, m, target, img, b)
    ensures forall i :: 0 <= i < k ==> a.ys[i] == b.ys[i] && a.uvs[i] == b.uvs[i]
  {
    hide GaussSeidelRow, Config.Valid;
    if k > 0 {
      GaussSeidelUnique(cfg, n, m, target, img, a, b, k - 1);
      RowDetermined(cfg, n, m, target, img, a, b, k - 1);
    }
  }

  // The in-place sweep, whose reads alias its writes, is the recurrence and nothing else.
  lemma SweepIsGaussSeidel(cfg: Config, n: nat, m: nat, target: Image, img: Image, after: Image)
    requires cfg.Valid() && img.Shape(n, m) && target.Shape(n, m) && after.Shape(n, m)
    ensures GaussSeidel(cfg, n, m, target, img, after) <==> after == SweepTo(cfg, n, m, target, img, m)
  {
    var swept := SweepTo(cfg, n, m, target, img, m);
    forall k | 0 <= k < m
      ensures GaussSeidelRow(cfg, n, m, target, img, swept, k)
    {
      SweepRow(cfg, n, m, target, img, k);
    }
    if GaussSeidel(cfg, n, m, target, img, after) {
      GaussSeidelUnique(cfg, n, m, target, img, after, swept, m);
      assert after.ys == swept.ys && after.uvs == swept.uvs;
    }
  }
}
