// Row-level steps of the refinement: upsampling chroma onto two rows of luma, and
// measuring the luma and chroma of the rows that result.
module Rows {
  import opened FixedPoint
  import opened Kernels

  // Three colour planes of one row; in the buffers they are stored one after the other.
  datatype Planes = Planes(r: seq<int>, g: seq<int>, b: seq<int>) {
    predicate Shape(n: nat) {
      |r| == |g| == |b| == n
    }

    predicate Within(lo: int, hi: int) {
      AllWithin(r, lo, hi) && AllWithin(g, lo, hi) && AllWithin(b, lo, hi)
    }
  }

  predicate AllWithin(s: seq<int>, lo: int, hi: int) {
    forall i :: 0 <= i < |s| ==> lo <= s[i] <= hi
  }

  // The three planes of a row of n samples, stored one after the other from `at`.
  function PlanesAt(a: array<int>, at: nat, n: nat): (p: Planes)
    requires at + 3 * n <= a.Length
    reads a
    ensures p.Shape(n)
  {
    Planes(RowAt(a, at, n), RowAt(a, at + n, n), RowAt(a, at + 2 * n, n))
  }

  lemma PlanesElement(a: array<int>, at: nat, n: nat, i: nat)
    requires at + 3 * n <= a.Length && i < n
    ensures var p := PlanesAt(a, at, n); p.r[i] == a[at + i] && p.g[i] == a[at + n + i] && p.b[i] == a[at + 2 * n + i]
  {
    RowElement(a, at, n, i);
    RowElement(a, at + n, n, i);
    RowElement(a, at + 2 * n, n, i);
  }

  // ---- Chroma upsampling ----

  // The chroma cell next to cell x / 2 on the side of sample x, replicated at the edges.
  function Beside(x: nat, cells: nat): nat
    requires x < 2 * cells
  {
    if x % 2 == 0 then Max(x / 2 - 1, 0) else Min(x / 2 + 1, cells - 1)
  }

  // One uniform bilinear filter for every sample of a row, edges included.
  function UpsampleTap(cur: seq<int>, other: seq<int>, x: nat): int
    requires |cur| == |other| && x < 2 * |cur|
  {
    var i, j := x / 2, Beside(x, |cur|);
    Tap(cur[i], cur[j], other[i], other[j])
  }

  function Upsample(cur: seq<int>, other: seq<int>, y: seq<int>, max: nat): (r: seq<int>)
    requires |cur| == |other| && |y| == 2 * |cur|
    ensures |r| == |y|
    ensures AllWithin(r, 0, max)
  {
    seq(|y|, x requires 0 <= x < |y| => Clip(y[x] + UpsampleTap(cur, other, x), max))
  }

  function UpsampledRow(cur: Planes, other: Planes, y: seq<int>, max: nat): (rgb: Planes)
    requires cur.Shape(|cur.r|) && other.Shape(|cur.r|) && |y| == 2 * |cur.r|
    ensures rgb.Shape(|y|) && rgb.Within(0, max)
  {
    Planes(Upsample(cur.r, other.r, y, max), Upsample(cur.g, other.g, y, max), Upsample(cur.b, other.b, y, max))
  }

  // Every sample of an upsampled row: its luma plus 9/16 of its own chroma cell, 3/16 of the
  // cells beside and across and 1/16 of the diagonal one, to the nearest, within the depth. The
  // cell beside is the one on the sample's own side, or the same one at an edge.
  lemma UpsampleIs(cur: seq<int>, other: seq<int>, y: seq<int>, max: nat, i: nat, right: bool, u: int)
    requires |cur| == |other| && |y| == 2 * |cur| && i < |cur|
    requires var j := if right then (if i == |cur| - 1 then i else i + 1) else if i == 0 then 0 else i - 1;
             RoundsTo(9 * cur[i] + 3 * cur[j] + 3 * other[i] + other[j], 16, u)
    ensures var x := if right then 2 * i + 1 else 2 * i;
            Upsample(cur, other, y, max)[x] ==
            if y[x] + u < 0 then 0 else if y[x] + u > max then max else y[x] + u
  {
  }

  // The (3A + B + 2) >> 2 filter used at the two ends of a row.
  function Filter2(a: int, b: int, w0: int, bitDepth: nat): int {
    Clip((a * 3 + b + 2) / 4 + w0, MaxY(bitDepth))
  }

  // At an edge the 9-3-3-1 filter with a replicated neighbour is the 3-1 filter.
  lemma EdgeTap(a: int, b: int)
    ensures Tap(a, a, b, b) == (a * 3 + b + 2) / 4
  {
    assert 9 * a + 3 * a + 3 * b + b + 8 == 4 * (a * 3 + b + 2);
  }

  // In the interior the row kernel computes the same filter, one sample to the left.
  lemma InteriorTap(cur: seq<int>, other: seq<int>, x: nat)
    requires |cur| == |other| && 1 <= x < 2 * |cur| - 1
    ensures UpsampleTap(cur, other, x) == FilterTap(cur, other, x - 1)
  {
  }

  lemma EdgeTaps(cur: seq<int>, other: seq<int>)
    requires |cur| == |other| >= 1
    ensures UpsampleTap(cur, other, 0) == (cur[0] * 3 + other[0] + 2) / 4
    ensures UpsampleTap(cur, other, 2 * |cur| - 1) == (cur[|cur| - 1] * 3 + other[|cur| - 1] + 2) / 4
  {
    hide Tap;
    EdgeTap(cur[0], other[0]);
    EdgeTap(cur[|cur| - 1], other[|cur| - 1]);
  }

  // The two edge samples and the filtered interior make up the upsampled row.
  lemma UpsampleFromParts(cur: seq<int>, other: seq<int>, y: seq<int>, bitDepth: nat, row: seq<int>)
    requires |cur| == |other| >= 1 && |y| == |row| == 2 * |cur|
    requires row[0] == Filter2(cur[0], other[0], y[0], bitDepth)
    requires row[1..|row| - 1] == FilteredRow(cur, other, y[1..|y| - 1], MaxY(bitDepth))
    requires row[|row| - 1] == Filter2(cur[|cur| - 1], other[|cur| - 1], y[|y| - 1], bitDepth)
    ensures row == Upsample(cur, other, y, MaxY(bitDepth))
  {
    hide UpsampleTap, FilterTap, Tap, Clip, MaxY;
    var last := |row| - 1;
    EdgeTaps(cur, other);
    forall x | 0 <= x < |row|
      ensures row[x] == Clip(y[x] + UpsampleTap(cur, other, x), MaxY(bitDepth))
    {
      if 0 < x < last {
        InteriorTap(cur, other, x);
        assert row[x] == row[1..last][x - 1] && y[x] == y[1..last][x - 1];
      }
    }
  }

  // One colour plane of one output row.
  method InterpolatePlane(bestY: array<int>, y: nat, uv: array<int>, cur: nat, other: nat, w: nat, uvW: nat,
                          out: array<int>, o: nat, bitDepth: nat)
    requires w == 2 * uvW && uvW >= 1
    requires cur + uvW <= uv.Length && other + uvW <= uv.Length
    requires y + w <= bestY.Length && o + w <= out.Length
    requires out != uv && out != bestY
    modifies out
    ensures RowAt(out, o, w) ==
            old(Upsample(RowAt(uv, cur, uvW), RowAt(uv, other, uvW), RowAt(bestY, y, w), MaxY(bitDepth)))
    ensures RowsKept(out, o, o + w)
  {
    hide Filter2, Upsample, UpsampleTap, FilteredRow, FilterTap, MaxY, RowAt;
    RowEnds(uv, cur, uvW);
    RowEnds(uv, other, uvW);
    RowEnds(bestY, y, w);
    var len := (w - 1) / 2;
    assert len + 1 == uvW;
    StoreSample(out, o, Filter2(uv[cur], uv[other], bestY[y], bitDepth));
    FilterRow_C(uv, cur, uv, other, len, bestY, y + 1, out, o + 1, bitDepth);
    StoreSample(out, o + w - 1, Filter2(uv[cur + uvW - 1], uv[other + uvW - 1], bestY[y + w - 1], bitDepth));
    RowEnds(out, o, w);
    UpsampleFromParts(RowAt(uv, cur, uvW), RowAt(uv, other, uvW), RowAt(bestY, y, w), bitDepth, RowAt(out, o, w));
  }

  // Where the k-th plane starts in a buffer of planes of length n.
  function PlaneAt(k: nat, n: nat): nat
    requires k <= 3
  {
    if k == 0 then 0 else if k == 1 then n else if k == 2 then 2 * n else 3 * n
  }

  // The first k planes of the row at `at` are those of p.
  ghost predicate PlanesDone(a: array<int>, at: nat, n: nat, p: Planes, k: nat)
    requires at + 3 * n <= a.Length
    reads a
  {
    && (k >= 1 ==> RowAt(a, at, n) == p.r)
    && (k >= 2 ==> RowAt(a, at + n, n) == p.g)
    && (k >= 3 ==> RowAt(a, at + 2 * n, n) == p.b)
  }

  // The body of the plane loop for one output row.
  method InterpolateSegment(bestY: array<int>, y: nat, uv: array<int>, cur: nat, other: nat, w: nat, uvW: nat, k: nat,
                            out: array<int>, o: nat, bitDepth: nat, ghost row: Planes)
    requires w == 2 * uvW && uvW >= 1 && k < 3
    requires cur + 3 * uvW <= uv.Length && other + 3 * uvW <= uv.Length
    requires y + w <= bestY.Length && o + 3 * w <= out.Length
    requires out != uv && out != bestY
    requires row == UpsampledRow(PlanesAt(uv, cur, uvW), PlanesAt(uv, other, uvW), RowAt(bestY, y, w), MaxY(bitDepth))
    requires PlanesDone(out, o, w, row, k)
    modifies out
    ensures PlanesDone(out, o, w, row, k + 1)
    ensures RowsKept(out, o, o + 3 * w)
  {
    hide Upsample, MaxY, RowAt;
    InterpolatePlane(bestY, y, uv, cur + PlaneAt(k, uvW), other + PlaneAt(k, uvW), w, uvW, out, o + PlaneAt(k, w),
        bitDepth);
  }

  method InterpolateTwoRows(bestY: array<int>, y: nat, uv: array<int>, prev: nat, cur: nat, next: nat, w: nat,
                            out: array<int>, o1: nat, o2: nat, bitDepth: nat)
    requires w >= 2 && w % 2 == 0
    requires prev + 3 * (w / 2) <= uv.Length && cur + 3 * (w / 2) <= uv.Length && next + 3 * (w / 2) <= uv.Length
    requires y + 2 * w <= bestY.Length && o1 + 3 * w <= o2 && o2 + 3 * w <= out.Length
    requires out != uv && out != bestY
    modifies out
    ensures PlanesAt(out, o1, w) ==
            old(UpsampledRow(PlanesAt(uv, cur, w / 2), PlanesAt(uv, prev, w / 2), RowAt(bestY, y, w), MaxY(bitDepth)))
    ensures PlanesAt(out, o2, w) ==
            old(UpsampledRow(PlanesAt(uv, cur, w / 2), PlanesAt(uv, next, w / 2), RowAt(bestY, y + w, w),
                MaxY(bitDepth)))
    ensures RowsKept(out, o1, o2 + 3 * w)
    ensures RowAt(out, o1 + 3 * w, o2 - (o1 + 3 * w)) == old(RowAt(out, o1 + 3 * w, o2 - (o1 + 3 * w)))
  {
    hide UpsampledRow, MaxY, RowAt;
    var uvW := w / 2;
    ghost var row1 := UpsampledRow(PlanesAt(uv, cur, uvW), PlanesAt(uv, prev, uvW), RowAt(bestY, y, w), MaxY(bitDepth));
    ghost var row2 :=
      UpsampledRow(PlanesAt(uv, cur, uvW), PlanesAt(uv, next, uvW), RowAt(bestY, y + w, w), MaxY(bitDepth));
    var k := 0;
    while k < 3
      invariant 0 <= k <= 3
      invariant PlanesDone(out, o1, w, row1, k)
      invariant PlanesDone(out, o2, w, row2, k)
      invariant RowsKept(out, o1, o2 + 3 * w)
      invariant RowAt(out, o1 + 3 * w, o2 - (o1 + 3 * w)) == old(RowAt(out, o1 + 3 * w, o2 - (o1 + 3 * w)))
    {
      InterpolateSegment(bestY, y, uv, cur, prev, w, uvW, k, out, o1, bitDepth, row1);
      InterpolateSegment(bestY, y + w, uv, cur, next, w, uvW, k, out, o2, bitDepth, row2);
      k := k + 1;
    }
  }
}
