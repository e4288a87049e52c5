// What the SIMD filter kernels write to a whole row, and when that is what C writes.
module SimdRows {
  import opened FixedPoint
  import opened Kernels
  import opened Rows
  import opened Lanes
  import opened FilterLanes

  datatype Kernel = Sse2On16 | Sse2On32 | NeonOn16 | NeonOn32 {
    // Chroma intervals handled by one pass of the vector loop.
    function Width(): nat {
      if Sse2On16? || NeonOn16? then 8 else 4
    }

    // The tap of one lane, before the luma is added.
    function LaneTap(near: int, beside: int, across: int, diagonal: int): int {
      match this
      case Sse2On16 => Sse2Lane16(near, beside, across, diagonal)
      case Sse2On32 => Max(Min(Sse2Lane32(near, beside, across, diagonal), 0x7FFF), -0x8000)
      case NeonOn16 => NeonLane16(near, beside, across, diagonal)
      case NeonOn32 => NeonLane32(near, beside, across, diagonal)
    }

    function LaneSum(y: int, tap: int, max: int): int {
      if NeonOn32? then AddLuma32(y, tap, max) else AddLuma16(y, tap, max)
    }

    // The samples of a row that the vector loop writes; the scalar tail writes the others.
    function Vectored(len: nat): nat {
      2 * (len - len % Width())
    }
  }

  function LaneTapAt(k: Kernel, a: seq<int>, b: seq<int>, x: nat): int
    requires |a| == |b| && x / 2 + 1 < |a|
  {
    var i := x / 2;
    if x % 2 == 0 then k.LaneTap(a[i], a[i + 1], b[i], b[i + 1]) else k.LaneTap(a[i + 1], a[i], b[i + 1], b[i])
  }

  function SimdSample(k: Kernel, a: seq<int>, b: seq<int>, y: seq<int>, x: nat, max: nat): int
    requires |a| == |b| >= 1 && |y| == 2 * (|a| - 1) && x < |y|
  {
    if x < k.Vectored(|a| - 1) then k.LaneSum(y[x], LaneTapAt(k, a, b, x), max)
    else Clip(y[x] + FilterTap(a, b, x), max)
  }

  function SimdRow(k: Kernel, a: seq<int>, b: seq<int>, y: seq<int>, max: nat): (r: seq<int>)
    requires |a| == |b| >= 1 && |y| == 2 * (|a| - 1)
    ensures |r| == |y|
  {
    seq(|y|, x requires 0 <= x < |y| => SimdSample(k, a, b, y, x, max))
  }

  ghost predicate Int16Row(a: seq<int>) {
    AllWithin(a, -0x8000, 0x7FFF)
  }

  // 32-bit lanes compute the exact tap for every int16 input.
  lemma Tap32(k: Kernel, a: seq<int>, b: seq<int>, x: nat)
    requires k.Sse2On32? || k.NeonOn32?
    requires |a| == |b| && x / 2 + 1 < |a| && Int16Row(a) && Int16Row(b)
    ensures LaneTapAt(k, a, b, x) == FilterTap(a, b, x) && IsS16(FilterTap(a, b, x))
  {
    hide Sse2Lane32, NeonLane32, Tap;
    var i := x / 2;
    Lane32Exact(a[i], a[i + 1], b[i], b[i + 1]);
    Lane32Exact(a[i + 1], a[i], b[i + 1], b[i]);
  }

  // 16-bit lanes compute the exact tap while the bounds of the two rows add up to at most 8189.
  lemma Tap16(k: Kernel, a: seq<int>, b: seq<int>, x: nat, own: int, other: int)
    requires k.Sse2On16? || k.NeonOn16?
    requires |a| == |b| && x / 2 + 1 < |a| && AllWithin(a, -own, own) && AllWithin(b, -other, other)
    requires own + other <= 8189
    ensures LaneTapAt(k, a, b, x) == FilterTap(a, b, x) && -8189 <= FilterTap(a, b, x) <= 8189
  {
    hide Sse2Lane16, NeonLane16, Tap;
    var i := x / 2;
    LaneSafe16(k, a[i], a[i + 1], b[i], b[i + 1], own, other);
    LaneSafe16(k, a[i + 1], a[i], b[i + 1], b[i], own, other);
  }

  lemma LaneSafe16(k: Kernel, near: int, beside: int, across: int, diagonal: int, own: int, other: int)
    requires k.Sse2On16? || k.NeonOn16?
    requires -own <= near <= own && -own <= beside <= own && -other <= across <= other && -other <= diagonal <= other
    requires own + other <= 8189
    ensures k.LaneTap(near, beside, across, diagonal) == Tap(near, beside, across, diagonal)
    ensures -8189 <= Tap(near, beside, across, diagonal) <= 8189
  {
    hide Sse2Lane16, NeonLane16;
    Sse2Lane16Safe(near, beside, across, diagonal, own, other);
    NeonLane16Exact(near, beside, across, diagonal);
  }

  // NEON, 32-bit lanes: the C row for every length and every int16 chroma.
  lemma NeonOn32IsC(a: seq<int>, b: seq<int>, y: seq<int>, max: nat)
    requires |a| == |b| >= 1 && |y| == 2 * (|a| - 1) && max <= 16383
    requires Int16Row(a) && Int16Row(b) && AllWithin(y, 0, max)
    ensures SimdRow(NeonOn32, a, b, y, max) == FilteredRow(a, b, y, max)
  {
    hide LaneTapAt, FilterTap, AddLuma32, AddLuma16;
    forall x | 0 <= x < |y|
      ensures SimdSample(NeonOn32, a, b, y, x, max) == Clip(y[x] + FilterTap(a, b, x), max)
    {
      Tap32(NeonOn32, a, b, x);
      AddLuma32Exact(y[x], FilterTap(a, b, x), max);
    }
  }

  // SSE2, 32-bit lanes: the C row if and only if no vectored sample exceeds int16 once the
  // luma is added. That is the 16-bit add after the pack; nothing else can go wrong.
  lemma Sse2On32IsC(a: seq<int>, b: seq<int>, y: seq<int>, max: nat)
    requires |a| == |b| >= 1 && |y| == 2 * (|a| - 1) && 1 <= max <= 16383
    requires Int16Row(a) && Int16Row(b) && AllWithin(y, 0, max)
    ensures SimdRow(Sse2On32, a, b, y, max) == FilteredRow(a, b, y, max)
            <==> forall x :: 0 <= x < Sse2On32.Vectored(|a| - 1) ==> y[x] + FilterTap(a, b, x) <= 0x7FFF
  {
    hide LaneTapAt, FilterTap, AddLuma32, AddLuma16;
    var simd, c := SimdRow(Sse2On32, a, b, y, max), FilteredRow(a, b, y, max);
    forall x | 0 <= x < |y|
      ensures simd[x] == c[x] <==> (x < Sse2On32.Vectored(|a| - 1) ==> y[x] + FilterTap(a, b, x) <= 0x7FFF)
    {
      Tap32(Sse2On32, a, b, x);
      AddLuma16Exact(y[x], FilterTap(a, b, x), max);
    }
    if forall x :: 0 <= x < Sse2On32.Vectored(|a| - 1) ==> y[x] + FilterTap(a, b, x) <= 0x7FFF {
      assert simd == c;
    }
  }

  // Chroma up to 2^14 and luma within 14 bits cannot reach that limit.
  lemma Sse2On32At14Bits(a: seq<int>, b: seq<int>, y: seq<int>, max: nat)
    requires |a| == |b| >= 1 && |y| == 2 * (|a| - 1) && 1 <= max <= 16383
    requires AllWithin(a, -16384, 16384) && AllWithin(b, -16384, 16384) && AllWithin(y, 0, max)
    ensures SimdRow(Sse2On32, a, b, y, max) == FilteredRow(a, b, y, max)
  {
    hide SimdRow, FilteredRow;
    Sse2On32IsC(a, b, y, max);
    forall x | 0 <= x < |y|
      ensures y[x] + FilterTap(a, b, x) <= 0x7FFF
    {
    }
  }

  // Either 16-bit kernel: the C row for every length while the bounds of the two chroma rows
  // add up to at most 8189.
  lemma On16IsC(k: Kernel, a: seq<int>, b: seq<int>, y: seq<int>, max: nat, own: int, other: int)
    requires k.Sse2On16? || k.NeonOn16?
    requires |a| == |b| >= 1 && |y| == 2 * (|a| - 1) && 1 <= max <= 16383
    requires AllWithin(a, -own, own) && AllWithin(b, -other, other) && own + other <= 8189 && AllWithin(y, 0, max)
    ensures SimdRow(k, a, b, y, max) == FilteredRow(a, b, y, max)
  {
    hide LaneTapAt, FilterTap, AddLuma32, AddLuma16;
    forall x | 0 <= x < |y|
      ensures SimdSample(k, a, b, y, x, max) == Clip(y[x] + FilterTap(a, b, x), max)
    {
      Tap16(k, a, b, x, own, other);
      AddLuma16Exact(y[x], FilterTap(a, b, x), max);
    }
  }

  lemma DepthMax(bitDepth: nat)
    requires 1 <= bitDepth <= 14
    ensures 1 <= MaxY(bitDepth) <= 16383
  {
    Pow2Monotone(1, bitDepth);
    Pow2Monotone(bitDepth, 14);
    Pow2Values();
  }

  // The scalar tail all four kernels end with.
  method FilterTail(A: array<int>, a: nat, B: array<int>, b: nat, from: nat, len: nat, bestY: array<int>, y: nat,
                    out: array<int>, o: nat, maxY: nat, ghost rowA: seq<int>, ghost rowB: seq<int>,
                    ghost rowY: seq<int>)
    requires from <= len && a + len < A.Length && b + len < B.Length
    requires y + 2 * len <= bestY.Length && o + 2 * len <= out.Length
    requires out != A && out != B && out != bestY
    requires rowA == RowAt(A, a, len + 1) && rowB == RowAt(B, b, len + 1) && rowY == RowAt(bestY, y, 2 * len)
    modifies out
    ensures forall x :: 2 * from <= x < 2 * len ==> out[o + x] == Clip(rowY[x] + FilterTap(rowA, rowB, x), maxY)
    ensures OnlyWrites(out, o + 2 * from, o + 2 * len)
  {
    hide FilterTap, Tap;
    for i := from to len
      invariant OnlyWrites(out, o + 2 * from, o + 2 * i)
      invariant forall x :: 2 * from <= x < 2 * i ==> out[o + x] == Clip(rowY[x] + FilterTap(rowA, rowB, x), maxY)
    {
      assert rowA[i] == A[a + i] && rowA[i + 1] == A[a + i + 1] && rowB[i] == B[b + i] && rowB[i + 1] == B[b + i + 1];
      TapsOf(rowA, rowB, i);
      var a0b1 := A[a + i] + B[b + i + 1];
      var a1b0 := A[a + i + 1] + B[b + i];
      var a0a1b0b1 := a0b1 + a1b0 + 8;
      var v0 := (8 * A[a + i] + 2 * a1b0 + a0a1b0b1) / 16;
      var v1 := (8 * A[a + i + 1] + 2 * a0b1 + a0a1b0b1) / 16;
      FactoredTap(A[a + i], A[a + i + 1], B[b + i], B[b + i + 1]);
      out[o + 2 * i] := Clip(bestY[y + 2 * i] + v0, maxY);
      out[o + 2 * i + 1] := Clip(bestY[y + 2 * i + 1] + v1, maxY);
    }
  }

  // The shared sub-expressions of the scalar tail add up to the tap.
  lemma FactoredTap(a0: int, a1: int, b0: int, b1: int)
    ensures var sum := (a0 + b1) + (a1 + b0) + 8;
            && (8 * a0 + 2 * (a1 + b0) + sum) / 16 == Tap(a0, a1, b0, b1)
            && (8 * a1 + 2 * (a0 + b1) + sum) / 16 == Tap(a1, a0, b1, b0)
  {
  }

  // ---- Shared pieces of the vector loops ----

  // Loading int16 data gives the data itself.
  lemma LoadRow(src: array<int>, at: nat, len: nat, row: seq<int>, i: nat, n: nat)
    requires at + len <= src.Length && row == RowAt(src, at, len) && Int16Row(row) && i + n <= len
    ensures Load(src, at + i, n) == row[i..i + n]
  {
    var v, r := Load(src, at + i, n), row[i..i + n];
    forall j | 0 <= j < n
      ensures v[j] == r[j]
    {
      var x := src[at + (i + j)];
      RowElement(src, at, len, i + j);
      assert r[j] == row[i + j] == x;
      assert IsS16(x);
      assert v[j] == S16(src[at + i + j]);
    }
  }

  // Samples past the last full pass are written by the scalar tail.
  lemma TailSample(k: Kernel, a: seq<int>, b: seq<int>, y: seq<int>, x: nat, max: nat, i: nat)
    requires |a| == |b| >= 1 && |y| == 2 * (|a| - 1) && 2 * i <= x < |y|
    requires i % k.Width() == 0 && i <= |a| - 1 < i + k.Width()
    ensures SimdSample(k, a, b, y, x, max) == Clip(y[x] + FilterTap(a, b, x), max)
  {
    hide FilterTap, LaneTapAt;
    assert i == (|a| - 1) - (|a| - 1) % k.Width() by {
      if k.Width() == 8 {
      } else {
        assert k.Width() == 4;
      }
    }
  }

  // Interleave, add the luma, clamp.
  function Blend16(e: (Vec, Vec), g0: Vec, g1: Vec, max: Vec): (r: Vec)
    requires |e.0| == |e.1| == |g0| == |g1| == |max| == 8
    ensures |r| == 16
  {
    var zero := Splat(0, 8);
    var h0 := Add16(g0, UnpackLo(e.0, e.1));
    var h1 := Add16(g1, UnpackHi(e.0, e.1));
    MaxV(MinV(h0, max), zero) + MaxV(MinV(h1, max), zero)
  }

  lemma Blend16Lanes(e: (Vec, Vec), g0: Vec, g1: Vec, max: nat, x: nat)
    requires |e.0| == |e.1| == |g0| == |g1| == 8 && x < 16
    ensures var tap := if x % 2 == 0 then e.0[x / 2] else e.1[x / 2];
            Blend16(e, g0, g1, Splat(max, 8))[x] == Max(Min(S16((g0 + g1)[x] + tap), max), 0)
  {
    hide S16;
  }

  // One sample of a block of sixteen, from the two taps of its lane.
  lemma Block16At(k: Kernel, a: seq<int>, b: seq<int>, y: seq<int>, max: nat, i: nat, x: nat, e: (Vec, Vec), g0: Vec,
                  g1: Vec)
    requires k.Sse2On16? || k.NeonOn16?
    requires |a| == |b| >= 1 && |y| == 2 * (|a| - 1) && i % 8 == 0 && i + 8 <= |a| - 1 && x < 16
    requires g0 == seq(8, j requires 0 <= j < 8 => S16(y[2 * i + j]))
             && g1 == seq(8, j requires 0 <= j < 8 => S16(y[2 * i + 8 + j]))
    requires |e.0| == |e.1| == 8
    requires var j := i + x / 2;
             e.0[x / 2] == k.LaneTap(a[j], a[j + 1], b[j], b[j + 1])
             && e.1[x / 2] == k.LaneTap(a[j + 1], a[j], b[j + 1], b[j])
    ensures Blend16(e, g0, g1, Splat(max, 8))[x] == SimdSample(k, a, b, y, 2 * i + x, max)
  {
    hide S16, Blend16, Kernel.LaneTap;
    Blend16Lanes(e, g0, g1, max, x);
    assert (2 * i + x) / 2 == i + x / 2 && (2 * i + x) % 2 == x % 2;
    assert (g0 + g1)[x] == S16(y[2 * i + x]);
    InBlock(k, |a| - 1, i, x);
  }

  // Whole blocks are vectored.
  lemma InBlock(k: Kernel, len: nat, i: nat, x: nat)
    requires (k.Sse2On16? || k.NeonOn16?) && i % 8 == 0 && i + 8 <= len && x < 16
    ensures 2 * i + x < k.Vectored(len)
  {
  }
}
