// What one lane of each SIMD filter computes, and exactly when it is what C computes.
module FilterLanes {
  import opened FixedPoint
  import opened Kernels

  // ---- SSE2, 16-bit lanes ----

  // near + diagonal + 3 * (beside + across) + 8, the part of the tap that is shifted by 3.
  function Part(near: int, beside: int, across: int, diagonal: int): int {
    near + diagonal + 3 * (beside + across) + 8
  }

  // One lane of FilterRow16_SSE2 before the luma is added.
  function Sse2Lane16(near: int, beside: int, across: int, diagonal: int): int {
    var p, q := S16(near + diagonal), S16(beside + across);
    var s := S16(S16(p + q) + 8);
    var c := S16(S16(q + q) + s) / 8;
    S16(c + near) / 2
  }

  lemma TapFromPart(near: int, beside: int, across: int, diagonal: int)
    ensures Tap(near, beside, across, diagonal) == (Part(near, beside, across, diagonal) / 8 + near) / 2
  {
  }

  // A sum of wrapped sums is the wrapped sum.
  lemma WrappedSums(x: int, y: int)
    ensures S16(S16(x) + S16(y)) == S16(x + y)
  {
    hide S16;
    S16Absorbs(x, S16(y));
    S16Absorbs(y, x);
  }

  // c = (2 q + p) + q in wrapping steps, with and without the rounding term.
  lemma WrappedPart(x: int, y: int)
    ensures S16(S16(S16(y) + S16(y)) + S16(S16(S16(x) + S16(y)) + 8)) == S16(x + 3 * y + 8)
    ensures S16(S16(S16(y) + S16(y)) + S16(S16(x) + S16(y))) == S16(x + 3 * y)
  {
    hide S16;
    WrappedSums(y, y);
    WrappedSums(x, y);
    S16Absorbs(x + y, 8);
    WrappedSums(2 * y, x + y + 8);
    WrappedSums(2 * y, x + y);
  }

  lemma Sse2Lane16Wraps(near: int, beside: int, across: int, diagonal: int)
    ensures Sse2Lane16(near, beside, across, diagonal) == S16(S16(Part(near, beside, across, diagonal)) / 8 + near) / 2
  {
    hide S16;
    WrappedPart(near + diagonal, beside + across);
  }

  // For int16 inputs the lane is exact if and only if neither of two sums leaves int16.
  lemma Sse2Lane16Exact(near: int, beside: int, across: int, diagonal: int)
    requires IsS16(near) && IsS16(beside) && IsS16(across) && IsS16(diagonal)
    ensures var part := Part(near, beside, across, diagonal);
            Sse2Lane16(near, beside, across, diagonal) == Tap(near, beside, across, diagonal)
            <==> IsS16(part) && IsS16(part / 8 + near)
  {
    hide S16;
    var part := Part(near, beside, across, diagonal);
    Sse2Lane16Wraps(near, beside, across, diagonal);
    TapFromPart(near, beside, across, diagonal);
    var m := WrapCount(part);
    WrapCounts(part);
    var d := S16(part) / 8 + near;
    var k := WrapCount(d);
    WrapCounts(d);
    TwoWraps(part, near, S16(part), m, S16(d), k);
  }

  // m and k count the wraps of the two sums; at most 4 of the first cannot make up for 8
  // of the second.
  lemma TwoWraps(part: int, near: int, a: int, m: int, b: int, k: int)
    requires IsS16(a) && IsS16(b) && part == a + 65536 * m && a / 8 + near == b + 65536 * k
    requires IsS16(near) && -4 <= m <= 4
    ensures b / 2 == (part / 8 + near) / 2 <==> IsS16(part) && IsS16(part / 8 + near)
  {
    assert a / 8 == part / 8 - 8192 * m;
    assert b == part / 8 + near - 8192 * (m + 8 * k);
    assert b / 2 == (part / 8 + near) / 2 - 4096 * (m + 8 * k);
  }

  // Inputs of the row itself within one bound and of its neighbour within another never wrap
  // where the two bounds add up to at most 8189, as 4094 and 4094 do ...
  lemma Sse2Lane16Safe(near: int, beside: int, across: int, diagonal: int, own: int, other: int)
    requires -own <= near <= own && -own <= beside <= own && -other <= across <= other && -other <= diagonal <= other
    requires own + other <= 8189
    ensures Sse2Lane16(near, beside, across, diagonal) == Tap(near, beside, across, diagonal)
    ensures -8189 <= Tap(near, beside, across, diagonal) <= 8189
  {
    Sse2Lane16Exact(near, beside, across, diagonal);
  }

  // ... and 4095 already does: on a uniform row, where the tap is the value itself, the
  // lane is exact on this range and nowhere else.
  lemma Sse2Lane16Uniform(v: int)
    requires IsS16(v)
    ensures Sse2Lane16(v, v, v, v) == Tap(v, v, v, v) == v <==> -4097 <= v <= 4094
  {
    hide Sse2Lane16;
    Sse2Lane16Exact(v, v, v, v);
  }

  // ---- NEON, 16-bit lanes ----

  // The rounding halving add takes the place of the + 8.
  function NeonLane16(near: int, beside: int, across: int, diagonal: int): int {
    var p, q := S16(near + diagonal), S16(beside + across);
    var c := S16(S16(q + q) + S16(p + q)) / 8;
    (c + near + 1) / 2
  }

  lemma NeonLane16Wraps(near: int, beside: int, across: int, diagonal: int)
    ensures NeonLane16(near, beside, across, diagonal) ==
            (S16(Part(near, beside, across, diagonal) - 8) / 8 + near + 1) / 2
  {
    hide S16;
    WrappedPart(near + diagonal, beside + across);
  }

  // The halving add cannot overflow, so one condition is enough here.
  lemma NeonLane16Exact(near: int, beside: int, across: int, diagonal: int)
    requires IsS16(near) && IsS16(beside) && IsS16(across) && IsS16(diagonal)
    ensures NeonLane16(near, beside, across, diagonal) == Tap(near, beside, across, diagonal)
            <==> IsS16(Part(near, beside, across, diagonal) - 8)
  {
    var part := Part(near, beside, across, diagonal) - 8;
    NeonLane16Wraps(near, beside, across, diagonal);
    TapFromPart(near, beside, across, diagonal);
    var m := WrapCount(part);
    WrapCounts(part);
    assert S16(part) / 8 == part / 8 - 8192 * m;
    assert (S16(part) / 8 + near + 1) / 2 == (part / 8 + near + 1) / 2 - 4096 * m;
  }

  // ---- 32-bit lanes ----

  function Sse2Lane32(near: int, beside: int, across: int, diagonal: int): int {
    var p, q := S32(near + diagonal), S32(beside + across);
    var s := S32(S32(p + q) + 8);
    var c := S32(S32(q + q) + s) / 8;
    S32(c + near) / 2
  }

  function NeonLane32(near: int, beside: int, across: int, diagonal: int): int {
    var p, q := S32(near + diagonal), S32(beside + across);
    var c := S32(S32(q + q) + S32(p + q)) / 8;
    (c + near + 1) / 2
  }

  // No int16 input overflows 32-bit lanes, and the tap stays within int16.
  lemma Lane32Exact(near: int, beside: int, across: int, diagonal: int)
    requires IsS16(near) && IsS16(beside) && IsS16(across) && IsS16(diagonal)
    ensures Sse2Lane32(near, beside, across, diagonal) == Tap(near, beside, across, diagonal)
    ensures NeonLane32(near, beside, across, diagonal) == Tap(near, beside, across, diagonal)
    ensures IsS16(Tap(near, beside, across, diagonal))
  {
  }

  // ---- Adding the luma ----

  // A 16-bit add, then min and max against the working depth.
  function AddLuma16(y: int, tap: int, max: int): int {
    Max(Min(S16(S16(y) + tap), max), 0)
  }

  // The 16-bit add is exact if and only if the sum does not exceed int16.
  lemma AddLuma16Exact(y: int, tap: int, max: int)
    requires 0 <= y <= max && 1 <= max <= 16383 && IsS16(tap)
    ensures AddLuma16(y, tap, max) == Clip(y + tap, max) <==> y + tap <= 0x7FFF
  {
  }

  // NEON adds in 32 bits and saturates, which is always exact.
  function AddLuma32(y: int, tap: int, max: int): int {
    Min(Max(Min(S32(tap + S16(y)), 0xFFFF), 0), max)
  }

  lemma AddLuma32Exact(y: int, tap: int, max: int)
    requires 0 <= y <= max <= 16383 && IsS16(tap)
    ensures AddLuma32(y, tap, max) == Clip(y + tap, max)
  {
  }
}
