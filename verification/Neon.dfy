// The NEON kernels: the same results by a different rounding route.
module Neon {
  import opened FixedPoint
  import opened Kernels
  import opened Rows
  import opened Lanes
  import opened FilterLanes
  import opened SimdRows
  import opened UpdateLanes

  // ---- FilterRow, 16-bit lanes ----

  function Taps16(a0: Vec, a1: Vec, b0: Vec, b1: Vec): (e: (Vec, Vec))
    requires |a0| == |a1| == |b0| == |b1| == 8
    ensures |e.0| == |e.1| == 8
  {
    var a0b1 := Add16(a0, b1);
    var a1b0 := Add16(a1, b0);
    var sum := Add16(a0b1, a1b0);
    var c0 := Sra(Add16(Add16(a0b1, a0b1), sum), 3);
    var c1 := Sra(Add16(Add16(a1b0, a1b0), sum), 3);
    (RHAdd(c1, a0), RHAdd(c0, a1))
  }

  lemma Taps16Lanes(a0: Vec, a1: Vec, b0: Vec, b1: Vec, j: nat)
    requires |a0| == |a1| == |b0| == |b1| == 8 && j < 8
    ensures Taps16(a0, a1, b0, b1).0[j] == NeonLane16(a0[j], a1[j], b0[j], b1[j])
    ensures Taps16(a0, a1, b0, b1).1[j] == NeonLane16(a1[j], a0[j], b1[j], b0[j])
  {
    hide S16;
    Pow2Values();
  }

  lemma Block16(a: seq<int>, b: seq<int>, y: seq<int>, max: nat, i: nat, a0: Vec, a1: Vec, b0: Vec, b1: Vec, g0: Vec,
                g1: Vec)
    requires |a| == |b| >= 1 && |y| == 2 * (|a| - 1) && i % 8 == 0 && i + 8 <= |a| - 1
    requires a0 == a[i..i + 8] && a1 == a[i + 1..i + 9] && b0 == b[i..i + 8] && b1 == b[i + 1..i + 9]
    requires g0 == seq(8, j requires 0 <= j < 8 => S16(y[2 * i + j]))
             && g1 == seq(8, j requires 0 <= j < 8 => S16(y[2 * i + 8 + j]))
    ensures var r := Blend16(Taps16(a0, a1, b0, b1), g0, g1, Splat(max, 8));
            forall x :: 0 <= x < 16 ==> r[x] == SimdSample(NeonOn16, a, b, y, 2 * i + x, max)
  {
    hide S16, Taps16, Blend16, SimdSample, NeonLane16;
    var e := Taps16(a0, a1, b0, b1);
    forall x | 0 <= x < 16
      ensures Blend16(e, g0, g1, Splat(max, 8))[x] == SimdSample(NeonOn16, a, b, y, 2 * i + x, max)
    {
      Taps16Lanes(a0, a1, b0, b1, x / 2);
      Block16At(NeonOn16, a, b, y, max, i, x, e, g0, g1);
    }
  }

  // One pass of the vector loop.
  method FilterPass16(A: array<int>, a: nat, B: array<int>, b: nat, len: nat, bestY: array<int>, y: nat,
                      out: array<int>, o: nat, maxY: nat, i: nat, ghost rowA: seq<int>, ghost rowB: seq<int>,
                      ghost rowY: seq<int>)
    requires a + len < A.Length && b + len < B.Length && i % 8 == 0 && i + 8 <= len
    requires y + 2 * len <= bestY.Length && o + 2 * len <= out.Length
    requires rowA == RowAt(A, a, len + 1) && rowB == RowAt(B, b, len + 1) && rowY == RowAt(bestY, y, 2 * len)
    requires Int16Row(rowA) && Int16Row(rowB)
    modifies out
    ensures forall x :: 2 * i <= x < 2 * i + 16 ==> out[o + x] == SimdSample(NeonOn16, rowA, rowB, rowY, x, maxY)
    ensures OnlyWrites(out, o + 2 * i, o + 2 * i + 16)
  {
    hide S16, SimdSample, Taps16, Blend16, FilterTap, Int16Row, Load;
    var a0, a1 := Load(A, a + i, 8), Load(A, a + i + 1, 8);
    var b0, b1 := Load(B, b + i, 8), Load(B, b + i + 1, 8);
    var g0, g1 := Load(bestY, y + 2 * i, 8), Load(bestY, y + 2 * i + 8, 8);
    LoadRow(A, a, len + 1, rowA, i, 8);
    LoadRow(A, a, len + 1, rowA, i + 1, 8);
    LoadRow(B, b, len + 1, rowB, i, 8);
    LoadRow(B, b, len + 1, rowB, i + 1, 8);
    LoadEight(bestY, y, 2 * len, rowY, 2 * i);
    LoadEight(bestY, y, 2 * len, rowY, 2 * i + 8);
    var r := Blend16(Taps16(a0, a1, b0, b1), g0, g1, Splat(maxY, 8));
    Block16(rowA, rowB, rowY, maxY, i, a0, a1, b0, b1, g0, g1);
    Store(out, o + 2 * i, r);
    forall x | 2 * i <= x < 2 * i + 16
      ensures out[o + x] == SimdSample(NeonOn16, rowA, rowB, rowY, x, maxY)
    {
      assert out[o + 2 * i + (x - 2 * i)] == r[x - 2 * i];
    }
  }

  method FilterRow16(A: array<int>, a: nat, B: array<int>, b: nat, len: nat, bestY: array<int>, y: nat,
                     out: array<int>, o: nat, bitDepth: nat)
    requires a + len < A.Length && b + len < B.Length
    requires y + 2 * len <= bestY.Length && o + 2 * len <= out.Length
    requires out != A && out != B && out != bestY
    requires Int16Row(RowAt(A, a, len + 1)) && Int16Row(RowAt(B, b, len + 1))
    modifies out
    ensures RowAt(out, o, 2 * len) ==
            old(SimdRow(NeonOn16, RowAt(A, a, len + 1), RowAt(B, b, len + 1), RowAt(bestY, y, 2 * len), MaxY(bitDepth)))
    ensures OnlyWrites(out, o, o + 2 * len)
  {
    hide SimdSample, MaxY, FilterTap, Int16Row;
    var maxY := MaxY(bitDepth);
    ghost var rowA, rowB, rowY := RowAt(A, a, len + 1), RowAt(B, b, len + 1), RowAt(bestY, y, 2 * len);
    var i := 0;
    while i + 8 <= len
      invariant 0 <= i <= len && i % 8 == 0
      invariant OnlyWrites(out, o, o + 2 * i)
      invariant forall x :: 0 <= x < 2 * i ==> out[o + x] == SimdSample(NeonOn16, rowA, rowB, rowY, x, maxY)
    {
      FilterPass16(A, a, B, b, len, bestY, y, out, o, maxY, i, rowA, rowB, rowY);
      i := i + 8;
    }
    FilterTail(A, a, B, b, i, len, bestY, y, out, o, maxY, rowA, rowB, rowY);
    forall x | 2 * i <= x < 2 * len
      ensures out[o + x] == SimdSample(NeonOn16, rowA, rowB, rowY, x, maxY)
    {
      TailSample(NeonOn16, rowA, rowB, rowY, x, maxY, i);
    }
  }

  // ---- FilterRow, 32-bit lanes ----

  // Widening adds: int16 lanes in, int32 lanes out.
  function Taps32(a0: Vec, a1: Vec, b0: Vec, b1: Vec): (e: (Vec, Vec))
    requires |a0| == |a1| == |b0| == |b1| == 4
    ensures |e.0| == |e.1| == 4
  {
    var a0b1 := Add32(a0, b1);
    var a1b0 := Add32(a1, b0);
    var sum := Add32(a0b1, a1b0);
    var c0 := Sra(Add32(Add32(a0b1, a0b1), sum), 3);
    var c1 := Sra(Add32(Add32(a1b0, a1b0), sum), 3);
    (RHAdd(c1, a0), RHAdd(c0, a1))
  }

  lemma Taps32Lanes(a0: Vec, a1: Vec, b0: Vec, b1: Vec, j: nat)
    requires |a0| == |a1| == |b0| == |b1| == 4 && j < 4
    ensures Taps32(a0, a1, b0, b1).0[j] == NeonLane32(a0[j], a1[j], b0[j], b1[j])
    ensures Taps32(a0, a1, b0, b1).1[j] == NeonLane32(a1[j], a0[j], b1[j], b0[j])
  {
    hide S32;
    Pow2Values();
  }

  // Interleave, add the luma in 32 bits, saturate to uint16, clamp.
  function Blend32(e: (Vec, Vec), g: Vec, max: Vec): (r: Vec)
    requires |e.0| == |e.1| == 4 && |g| == |max| == 8
    ensures |r| == 8
  {
    var h0 := Add32(UnpackLo(e.0, e.1), g[..4]);
    var h1 := Add32(UnpackHi(e.0, e.1), g[4..]);
    MinV(SaturateU16(h0) + SaturateU16(h1), max)
  }

  lemma Blend32Lanes(e: (Vec, Vec), g: Vec, max: nat, x: nat)
    requires |e.0| == |e.1| == 4 && |g| == 8 && x < 8
    ensures var tap := if x % 2 == 0 then e.0[x / 2] else e.1[x / 2];
            Blend32(e, g, Splat(max, 8))[x] == Min(Max(Min(S32(tap + g[x]), 0xFFFF), 0), max)
  {
    hide S32;
  }

  lemma Block32(a: seq<int>, b: seq<int>, y: seq<int>, max: nat, i: nat, a0: Vec, a1: Vec, b0: Vec, b1: Vec, g: Vec)
    requires |a| == |b| >= 1 && |y| == 2 * (|a| - 1) && i % 4 == 0 && i + 4 <= |a| - 1
    requires a0 == a[i..i + 4] && a1 == a[i + 1..i + 5] && b0 == b[i..i + 4] && b1 == b[i + 1..i + 5]
    requires g == seq(8, j requires 0 <= j < 8 => S16(y[2 * i + j]))
    ensures var r := Blend32(Taps32(a0, a1, b0, b1), g, Splat(max, 8));
            forall x :: 0 <= x < 8 ==> r[x] == SimdSample(NeonOn32, a, b, y, 2 * i + x, max)
  {
    hide S16, S32, Taps32, Blend32, NeonLane32;
    var e := Taps32(a0, a1, b0, b1);
    var r := Blend32(e, g, Splat(max, 8));
    forall x | 0 <= x < 8
      ensures r[x] == SimdSample(NeonOn32, a, b, y, 2 * i + x, max)
    {
      Taps32Lanes(a0, a1, b0, b1, x / 2);
      Blend32Lanes(e, g, max, x);
      assert (2 * i + x) / 2 == i + x / 2 && (2 * i + x) % 2 == x % 2;
    }
  }

  // One pass of the vector loop.
  method FilterPass32(A: array<int>, a: nat, B: array<int>, b: nat, len: nat, bestY: array<int>, y: nat,
                      out: array<int>, o: nat, maxY: nat, i: nat, ghost rowA: seq<int>, ghost rowB: seq<int>,
                      ghost rowY: seq<int>)
    requires a + len < A.Length && b + len < B.Length && i % 4 == 0 && i + 4 <= len
    requires y + 2 * len <= bestY.Length && o + 2 * len <= out.Length
    requires rowA == RowAt(A, a, len + 1) && rowB == RowAt(B, b, len + 1) && rowY == RowAt(bestY, y, 2 * len)
    requires Int16Row(rowA) && Int16Row(rowB)
    modifies out
    ensures forall x :: 2 * i <= x < 2 * i + 8 ==> out[o + x] == SimdSample(NeonOn32, rowA, rowB, rowY, x, maxY)
    ensures OnlyWrites(out, o + 2 * i, o + 2 * i + 8)
  {
    hide S16, SimdSample, Taps32, Blend32, FilterTap, Int16Row, Load;
    var a0, a1 := Load(A, a + i, 4), Load(A, a + i + 1, 4);
    var b0, b1 := Load(B, b + i, 4), Load(B, b + i + 1, 4);
    var g := Load(bestY, y + 2 * i, 8);
    LoadRow(A, a, len + 1, rowA, i, 4);
    LoadRow(A, a, len + 1, rowA, i + 1, 4);
    LoadRow(B, b, len + 1, rowB, i, 4);
    LoadRow(B, b, len + 1, rowB, i + 1, 4);
    LoadEight(bestY, y, 2 * len, rowY, 2 * i);
    var r := Blend32(Taps32(a0, a1, b0, b1), g, Splat(maxY, 8));
    Block32(rowA, rowB, rowY, maxY, i, a0, a1, b0, b1, g);
    Store(out, o + 2 * i, r);
    forall x | 2 * i <= x < 2 * i + 8
      ensures out[o + x] == SimdSample(NeonOn32, rowA, rowB, rowY, x, maxY)
    {
      assert out[o + 2 * i + (x - 2 * i)] == r[x - 2 * i];
    }
  }

  method FilterRow32(A: array<int>, a: nat, B: array<int>, b: nat, len: nat, bestY: array<int>, y: nat,
                     out: array<int>, o: nat, bitDepth: nat)
    requires a + len < A.Length && b + len < B.Length
    requires y + 2 * len <= bestY.Length && o + 2 * len <= out.Length
    requires out != A && out != B && out != bestY
    requires Int16Row(RowAt(A, a, len + 1)) && Int16Row(RowAt(B, b, len + 1))
    modifies out
    ensures RowAt(out, o, 2 * len) ==
            old(SimdRow(NeonOn32, RowAt(A, a, len + 1), RowAt(B, b, len + 1), RowAt(bestY, y, 2 * len), MaxY(bitDepth)))
    ensures OnlyWrites(out, o, o + 2 * len)
  {
    hide SimdSample, MaxY, FilterTap, Int16Row;
    var maxY := MaxY(bitDepth);
    ghost var rowA, rowB, rowY := RowAt(A, a, len + 1), RowAt(B, b, len + 1), RowAt(bestY, y, 2 * len);
    var i := 0;
    while i + 4 <= len
      invariant 0 <= i <= len && i % 4 == 0
      invariant OnlyWrites(out, o, o + 2 * i)
      invariant forall x :: 0 <= x < 2 * i ==> out[o + x] == SimdSample(NeonOn32, rowA, rowB, rowY, x, maxY)
    {
      FilterPass32(A, a, B, b, len, bestY, y, out, o, maxY, i, rowA, rowB, rowY);
      i := i + 4;
    }
    FilterTail(A, a, B, b, i, len, bestY, y, out, o, maxY, rowA, rowB, rowY);
    forall x | 2 * i <= x < 2 * len
      ensures out[o + x] == SimdSample(NeonOn32, rowA, rowB, rowY, x, maxY)
    {
      TailSample(NeonOn32, rowA, rowB, rowY, x, maxY, i);
    }
  }

  // The dispatcher. Above 10 bits any int16 chroma will do.
  method FilterRow(A: array<int>, a: nat, B: array<int>, b: nat, len: nat, bestY: array<int>, y: nat,
                   out: array<int>, o: nat, bitDepth: nat)
    requires a + len < A.Length && b + len < B.Length
    requires y + 2 * len <= bestY.Length && o + 2 * len <= out.Length
    requires out != A && out != B && out != bestY && 1 <= bitDepth <= 14
    requires Int16Row(RowAt(A, a, len + 1)) && Int16Row(RowAt(B, b, len + 1))
    requires bitDepth <= 10 ==> AllWithin(RowAt(A, a, len + 1), -4094, 4094)
    requires bitDepth <= 10 ==> AllWithin(RowAt(B, b, len + 1), -4094, 4094)
    requires AllWithin(RowAt(bestY, y, 2 * len), 0, MaxY(bitDepth))
    modifies out
    ensures RowAt(out, o, 2 * len) ==
            old(FilteredRow(RowAt(A, a, len + 1), RowAt(B, b, len + 1), RowAt(bestY, y, 2 * len), MaxY(bitDepth)))
    ensures OnlyWrites(out, o, o + 2 * len)
  {
    hide SimdRow, FilteredRow, RowAt, Int16Row;
    DepthMax(bitDepth);
    ghost var rowA, rowB, rowY := RowAt(A, a, len + 1), RowAt(B, b, len + 1), RowAt(bestY, y, 2 * len);
    if bitDepth <= 10 {
      FilterRow16(A, a, B, b, len, bestY, y, out, o, bitDepth);
      On16IsC(NeonOn16, rowA, rowB, rowY, MaxY(bitDepth), 4094, 4094);
    } else {
      FilterRow32(A, a, B, b, len, bestY, y, out, o, bitDepth);
      NeonOn32IsC(rowA, rowB, rowY, MaxY(bitDepth));
    }
  }

  // ---- UpdateY ----

  // The absolute differences widen as they are summed: 8 x 16 to 4 x 32 to 2 x 64 bits.
  lemma AbsSums(sum: Vec, d: Vec)
    requires |sum| == 2 && |d| == 8 && forall j :: 0 <= j < 8 ==> -16384 <= d[j] <= 16384
    ensures var v := AccumulatePairs(sum, PairSum16(Abs16(d)));
            v[0] + v[1] == sum[0] + sum[1] + Abs(d[0]) + Abs(d[1]) + Abs(d[2]) + Abs(d[3])
                           + Abs(d[4]) + Abs(d[5]) + Abs(d[6]) + Abs(d[7])
  {
    hide AccumulatePairs, PairSum16, Abs16, Abs;
    PairOfAbs(d, 0);
    PairOfAbs(d, 1);
    PairOfAbs(d, 2);
    PairOfAbs(d, 3);
    AccumulatedTotal(sum, PairSum16(Abs16(d)));
  }

  lemma PairOfAbs(d: Vec, j: nat)
    requires |d| == 8 && j < 4 && forall j :: 0 <= j < 8 ==> -16384 <= d[j] <= 16384
    ensures PairSum16(Abs16(d))[j] == Abs(d[2 * j]) + Abs(d[2 * j + 1])
  {
  }

  lemma AccumulatedTotal(sum: Vec, p: Vec)
    requires |sum| == 2 && |p| == 4
    ensures var v := AccumulatePairs(sum, p); v[0] + v[1] == sum[0] + sum[1] + p[0] + p[1] + p[2] + p[3]
  {
  }

  lemma SumStep(sum: Vec, d: Vec, refs: seq<int>, srcs: seq<int>, i: nat)
    requires |sum| == 2 && |d| == 8 && |refs| == |srcs| && i + 8 <= |refs|
    requires forall j :: 0 <= j < 8 ==> d[j] == refs[i + j] - srcs[i + j] && -16384 <= d[j] <= 16384
    requires sum[0] + sum[1] == Sad(refs[..i], srcs[..i])
    ensures var v := AccumulatePairs(sum, PairSum16(Abs16(d)));
            v[0] + v[1] == Sad(refs[..i + 8], srcs[..i + 8])
  {
    hide Sad, Abs, Abs16, PairSum16, AccumulatePairs;
    AbsSums(sum, d);
    SadEight(refs, srcs, i, d);
  }

  // One pass of the luma loop.
  method UpdateYPass(ref: array<int>, r: nat, src: array<int>, s: nat, dst: array<int>, d: nat, i: nat, len: nat,
                     maxY: nat,
                     sum: Vec, ghost refs: seq<int>, ghost srcs: seq<int>, ghost was: seq<int>)
    returns (sum': Vec)
    requires i + 8 <= len && r + len <= ref.Length && s + len <= src.Length && d + len <= dst.Length && |sum| == 2
    requires refs == RowAt(ref, r, len) && srcs == RowAt(src, s, len) && UpdateRanges(refs, srcs, was, maxY)
    requires forall j :: i <= j < len ==> dst[d + j] == was[j]
    requires sum[0] + sum[1] == Sad(refs[..i], srcs[..i])
    modifies dst
    ensures forall j :: i <= j < i + 8 ==> dst[d + j] == Clip(was[j] + (refs[j] - srcs[j]), maxY)
    ensures OnlyWrites(dst, d + i, d + i + 8)
    ensures |sum'| == 2 && sum'[0] + sum'[1] == Sad(refs[..i + 8], srcs[..i + 8])
  {
    hide S16, Sad, Abs, Clip, Abs16, PairSum16, AccumulatePairs, MaxV, MinV;
    var a, b, c := Load(ref, r + i, 8), Load(src, s + i, 8), Load(dst, d + i, 8);
    LoadEight(ref, r, len, refs, i);
    LoadEight(src, s, len, srcs, i);
    var diffY := Sub16(a, b);
    var newY := Add16(c, diffY);
    var h := MaxV(MinV(newY, Splat(maxY, 8)), Splat(0, 8));
    forall j | 0 <= j < 8
      ensures c[j] == S16(was[i + j])
    {
      assert dst[d + (i + j)] == was[i + j];
    }
    DiffLanes(a, b, c, i, refs, srcs, was, maxY);
    SumStep(sum, diffY, refs, srcs, i);
    sum' := AccumulatePairs(sum, PairSum16(Abs16(diffY)));
    assert sum'[0] + sum'[1] == Sad(refs[..i + 8], srcs[..i + 8]);
    Store(dst, d + i, h);
    forall j | i <= j < i + 8
      ensures dst[d + j] == Clip(was[j] + (refs[j] - srcs[j]), maxY)
    {
      assert dst[d + i + (j - i)] == h[j - i];
    }
  }

  // The samples and the sum of the C kernel, for every length.
  method UpdateY(ref: array<int>, r: nat, src: array<int>, s: nat, dst: array<int>, d: nat, len: nat, bitDepth: nat)
    returns (diff: nat)
    requires r + len <= ref.Length && s + len <= src.Length && d + len <= dst.Length
    requires dst != ref && dst != src
    requires UpdateRanges(RowAt(ref, r, len), RowAt(src, s, len), RowAt(dst, d, len), MaxY(bitDepth))
    modifies dst
    ensures RowAt(dst, d, len) ==
            old(UpdatedY(RowAt(ref, r, len), RowAt(src, s, len), RowAt(dst, d, len), MaxY(bitDepth)))
    ensures OnlyWrites(dst, d, d + len)
    ensures diff == old(Sad(RowAt(ref, r, len), RowAt(src, s, len)))
  {
    hide Sad, Clip, MaxY, UpdateRanges;
    var maxY := MaxY(bitDepth);
    ghost var refs, srcs, was := RowAt(ref, r, len), RowAt(src, s, len), RowAt(dst, d, len);
    var sum := Splat(0, 2);
    SadStep(refs, srcs, 0);
    var i := 0;
    while i + 8 <= len
      invariant 0 <= i <= len && |sum| == 2
      invariant OnlyWrites(dst, d, d + i)
      invariant forall j :: 0 <= j < i ==> dst[d + j] == Clip(was[j] + (refs[j] - srcs[j]), maxY)
      invariant forall j :: i <= j < len ==> dst[d + j] == was[j]
      invariant sum[0] + sum[1] == Sad(refs[..i], srcs[..i])
    {
      sum := UpdateYPass(ref, r, src, s, dst, d, i, len, maxY, sum, refs, srcs, was);
      i := i + 8;
    }
    diff := sum[0] + sum[1];
    diff := UpdateYTail(ref, r, src, s, dst, d, i, len, maxY, diff, refs, srcs, was);
  }

  // ---- UpdateRGB ----

  method UpdateRGB(ref: array<int>, r: nat, src: array<int>, s: nat, dst: array<int>, d: nat, len: nat)
    requires r + len <= ref.Length && s + len <= src.Length && d + len <= dst.Length
    requires dst != ref && dst != src
    modifies dst
    ensures RowAt(dst, d, len) == old(UpdatedUV(RowAt(ref, r, len), RowAt(src, s, len), RowAt(dst, d, len)))
    ensures OnlyWrites(dst, d, d + len)
  {
    hide S16;
    ghost var refs, srcs, was := RowAt(ref, r, len), RowAt(src, s, len), RowAt(dst, d, len);
    var i := 0;
    while i + 8 <= len
      invariant 0 <= i <= len
      invariant OnlyWrites(dst, d, d + i)
      invariant forall j :: 0 <= j < i ==> dst[d + j] == S16(was[j] + (refs[j] - srcs[j]))
      invariant forall j :: i <= j < len ==> dst[d + j] == was[j]
    {
      UpdateRGBPass(ref, r, src, s, dst, d, i, len, refs, srcs, was);
      i := i + 8;
    }
    UpdateRGBTail(ref, r, src, s, dst, d, i, len, refs, srcs, was);
  }
}
