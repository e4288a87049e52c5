// Exactly when the vector kernels miss the C result: the rows on which they do, and the
// smallest of the failures written out.
module LaneErrors {
  import opened FixedPoint
  import opened Kernels
  import opened Rows
  import opened FilterLanes
  import opened SimdRows
  import opened UpdateLanes

  // The net wraps of a 16-bit lane. In SSE2 a wrap of the second sum weighs eight of the first.
  function LaneWraps(k: Kernel, near: int, beside: int, across: int, diagonal: int): int
    requires k.Sse2On16? || k.NeonOn16?
  {
    var part := Part(near, beside, across, diagonal);
    if k.NeonOn16? then WrapCount(part - 8)
    else WrapCount(part) + 8 * WrapCount(part / 8 - 8192 * WrapCount(part) + near)
  }

  // Every net wrap takes 4096 off the tap.
  lemma LaneIsOff(k: Kernel, near: int, beside: int, across: int, diagonal: int)
    requires k.Sse2On16? || k.NeonOn16?
    ensures k.LaneTap(near, beside, across, diagonal) ==
            Tap(near, beside, across, diagonal) - 4096 * LaneWraps(k, near, beside, across, diagonal)
  {
    var part := Part(near, beside, across, diagonal);
    TapFromPart(near, beside, across, diagonal);
    if k.NeonOn16? {
      hide S16, Sse2Lane16, NeonLane16, Tap, WrapCount, Part;
      NeonLane16Wraps(near, beside, across, diagonal);
      WrapCounts(part - 8);
      assert S16(part - 8) / 8 == part / 8 - 1 - 8192 * WrapCount(part - 8);
    } else {
      hide S16, Sse2Lane16, NeonLane16, Tap, WrapCount, Part;
      Sse2Lane16Wraps(near, beside, across, diagonal);
      WrapCounts(part);
      assert S16(part) / 8 == part / 8 - 8192 * WrapCount(part);
      WrapCounts(part / 8 - 8192 * WrapCount(part) + near);
    }
  }

  function LaneWrapsAt(k: Kernel, a: seq<int>, b: seq<int>, x: nat): int
    requires (k.Sse2On16? || k.NeonOn16?) && |a| == |b| && x / 2 + 1 < |a|
  {
    var i := x / 2;
    if x % 2 == 0 then LaneWraps(k, a[i], a[i + 1], b[i], b[i + 1]) else LaneWraps(k, a[i + 1], a[i], b[i + 1], b[i])
  }

  // A lane may be off if clamping hides it: the true sum and the one that the lane gives are
  // both at the bottom or both at the top.
  predicate Hidden(sum: int, wraps: int, max: int) {
    || wraps == 0
    || (sum <= 0 && sum - 4096 * wraps <= 0)
    || (sum >= max && sum - 4096 * wraps >= max)
  }

  lemma Sample16(k: Kernel, a: seq<int>, b: seq<int>, y: seq<int>, x: nat, max: nat)
    requires k.Sse2On16? || k.NeonOn16?
    requires |a| == |b| >= 1 && |y| == 2 * (|a| - 1) && 1 <= max <= 1023 && x < |y|
    requires Int16Row(a) && Int16Row(b) && AllWithin(y, 0, max)
    ensures SimdSample(k, a, b, y, x, max) == Clip(y[x] + FilterTap(a, b, x), max) <==>
            (x < k.Vectored(|a| - 1) ==> Hidden(y[x] + FilterTap(a, b, x), LaneWrapsAt(k, a, b, x), max))
  {
    var i := x / 2;
    if x % 2 == 0 {
      LaneIsOff(k, a[i], a[i + 1], b[i], b[i + 1]);
      LaneRange(k, a[i], a[i + 1], b[i], b[i + 1]);
    } else {
      LaneIsOff(k, a[i + 1], a[i], b[i + 1], b[i]);
      LaneRange(k, a[i + 1], a[i], b[i + 1], b[i]);
    }
    hide S16, Kernel.LaneTap, LaneWraps, Tap, Kernel.Vectored, AddLuma16, Hidden, Clip;
    assert LaneTapAt(k, a, b, x) == FilterTap(a, b, x) - 4096 * LaneWrapsAt(k, a, b, x);
    ClampDecides(y[x], FilterTap(a, b, x), LaneTapAt(k, a, b, x), LaneWrapsAt(k, a, b, x), max);
  }

  lemma ClampDecides(y: int, tap: int, lane: int, wraps: int, max: nat)
    requires lane == tap - 4096 * wraps && -18432 <= lane <= 18432 && 0 <= y <= max && 1 <= max <= 1023
    ensures AddLuma16(y, lane, max) == Clip(y + tap, max) <==> Hidden(y + tap, wraps, max)
  {
    hide S16;
    assert S16(y) == y && S16(y + lane) == y + lane;
  }

  lemma LaneRange(k: Kernel, near: int, beside: int, across: int, diagonal: int)
    requires (k.Sse2On16? || k.NeonOn16?) && IsS16(near)
    ensures -18432 <= k.LaneTap(near, beside, across, diagonal) <= 18432
  {
  }

  // Either 16-bit row filter gives the C row if and only if every lane that is off is hidden
  // by the clamp.
  lemma On16IsCExactly(k: Kernel, a: seq<int>, b: seq<int>, y: seq<int>, max: nat)
    requires k.Sse2On16? || k.NeonOn16?
    requires |a| == |b| >= 1 && |y| == 2 * (|a| - 1) && 1 <= max <= 1023
    requires Int16Row(a) && Int16Row(b) && AllWithin(y, 0, max)
    ensures SimdRow(k, a, b, y, max) == FilteredRow(a, b, y, max) <==>
            forall x :: 0 <= x < k.Vectored(|a| - 1) ==> Hidden(y[x] + FilterTap(a, b, x), LaneWrapsAt(k, a, b, x), max)
  {
    hide SimdSample, FilterTap, LaneWrapsAt, Hidden, Clip, Int16Row, AllWithin;
    var simd, c := SimdRow(k, a, b, y, max), FilteredRow(a, b, y, max);
    forall x | 0 <= x < |y|
      ensures simd[x] == c[x] <==>
              (x < k.Vectored(|a| - 1) ==> Hidden(y[x] + FilterTap(a, b, x), LaneWrapsAt(k, a, b, x), max))
    {
      Sample16(k, a, b, y, x, max);
    }
    if forall x :: 0 <= x < k.Vectored(|a| - 1) ==> Hidden(y[x] + FilterTap(a, b, x), LaneWrapsAt(k, a, b, x), max) {
      assert simd == c;
    }
  }

  // ---- Rows that go wrong ----

  function Uniform(v: int, n: nat): (s: seq<int>)
    ensures |s| == n
  {
    seq(n, i => v)
  }

  // Eight intervals of uniform chroma: the SSE2 filter first fails at 4095, NEON's at 4096.
  lemma FirstWrongRow(k: Kernel)
    requires k.Sse2On16? || k.NeonOn16?
    ensures var v := if k.Sse2On16? then 4095 else 4096;
            var a, y := Uniform(v, 9), Uniform(500, 16);
            SimdRow(k, a, a, y, 1023) != FilteredRow(a, a, y, 1023)
  {
    var v := if k.Sse2On16? then 4095 else 4096;
    var a, y := Uniform(v, 9), Uniform(500, 16);
    On16IsCExactly(k, a, a, y, 1023);
    assert FilterTap(a, a, 0) == v && LaneWrapsAt(k, a, a, 0) == 1;
    assert 0 < k.Vectored(|a| - 1) && !Hidden(y[0] + v, 1, 1023);
  }

  // Wraps alone do not decide: at 5000 the lane is off by 4096 and the row is right.
  lemma WrapHiddenByClamp()
    ensures var a, y := Uniform(5000, 9), Uniform(500, 16);
            && SimdRow(Sse2On16, a, a, y, 1023) == FilteredRow(a, a, y, 1023)
            && LaneTapAt(Sse2On16, a, a, 0) != FilterTap(a, a, 0)
  {
    var a, y := Uniform(5000, 9), Uniform(500, 16);
    On16IsCExactly(Sse2On16, a, a, y, 1023);
    LaneIsOff(Sse2On16, 5000, 5000, 5000, 5000);
    assert LaneWraps(Sse2On16, 5000, 5000, 5000, 5000) == 1;
    forall x | 0 <= x < 16
      ensures Hidden(y[x] + FilterTap(a, a, x), LaneWrapsAt(Sse2On16, a, a, x), 1023)
    {
      assert FilterTap(a, a, x) == 5000 && LaneWrapsAt(Sse2On16, a, a, x) == 1;
    }
  }

  // SSE2's wide filter turns full luma over chroma 16385 black.
  lemma WrongWideRow()
    ensures var a, y := Uniform(16385, 5), Uniform(16383, 8);
            && SimdRow(Sse2On32, a, a, y, 16383)[0] == 0
            && FilteredRow(a, a, y, 16383)[0] == 16383
  {
    hide Kernel.LaneTap, Tap;
    var a, y := Uniform(16385, 5), Uniform(16383, 8);
    WrongWideLane(16385, 16383);
    assert LaneTapAt(Sse2On32, a, a, 0) == Sse2On32.LaneTap(16385, 16385, 16385, 16385);
    assert FilterTap(a, a, 0) == Tap(16385, 16385, 16385, 16385);
    assert Sse2On32.Vectored(4) == 8;
  }

  lemma WrongWideLane(v: int, y: int)
    requires v == 16385 && y == 16383
    ensures Sse2On32.LaneTap(v, v, v, v) == Tap(v, v, v, v) == v
    ensures AddLuma16(y, v, y) == 0 && Clip(y + v, y) == y
  {
    hide Sse2Lane32;
    Lane32Exact(v, v, v, v);
  }

  lemma {:induction false} SadOfUniform(v: nat, n: nat)
    ensures Sad(Uniform(v, n), Uniform(0, n)) == v * n
  {
    if n > 0 {
      assert Uniform(v, n)[..n - 1] == Uniform(v, n - 1) && Uniform(0, n)[..n - 1] == Uniform(0, n - 1);
      SadOfUniform(v, n - 1);
      assert v * n == v * (n - 1) + v;
    }
  }

  // A row pair of 2^18 samples, each one depth away from its target, sums to exactly 2^32,
  // which SSE2's lanes return as 0.
  lemma WrongSum(len: nat)
    requires len == 0x4_0000
    ensures var ref, src := Uniform(16384, len), Uniform(0, len);
            && UpdateRanges(ref, src, src, 16383) && len % 8 == 0
            && Sad(ref, src) == 0x1_0000_0000 && U32(Sad(ref, src)) == 0
  {
    hide Sad;
    SadOfUniform(16384, len);
  }
}
