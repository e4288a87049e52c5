// The three reference kernels (the C versions), each an in-place loop proved against a
// function on sequences. The SIMD modules prove their kernels against the same functions.
module Kernels {
  import opened FixedPoint

  // Everything in `a` outside [lo, hi) is untouched.
  twostate predicate OnlyWrites(a: array<int>, lo: int, hi: int)
    reads a
  {
    forall i :: 0 <= i < a.Length && !(lo <= i < hi) ==> a[i] == old(a[i])
  }

  // `n` samples of a buffer from position `at`.
  function RowAt(a: array<int>, at: nat, n: nat): (s: seq<int>)
    requires at + n <= a.Length
    reads a
    ensures |s| == n
  {
    a[at..at + n]
  }

  // No row that lies outside [lo, hi) has changed.
  twostate predicate RowsKept(a: array<int>, lo: int, hi: int)
    reads a
  {
    forall at: nat, n: nat :: at + n <= a.Length && (at + n <= lo || hi <= at) ==>
           RowAt(a, at, n) == old(RowAt(a, at, n))
  }

  lemma RowElement(a: array<int>, at: nat, n: nat, i: nat)
    requires at + n <= a.Length && i < n
    ensures RowAt(a, at, n)[i] == a[at + i]
  {
  }

  lemma RowEnds(a: array<int>, at: nat, n: nat)
    requires at + n <= a.Length && n >= 1
    ensures RowAt(a, at, n)[0] == a[at] && RowAt(a, at, n)[n - 1] == a[at + n - 1]
    ensures n >= 2 ==> RowAt(a, at, n)[1..n - 1] == RowAt(a, at + 1, n - 2)
  {
  }

  method StoreSample(a: array<int>, at: nat, v: int)
    requires at < a.Length
    modifies a
    ensures a[at] == v && OnlyWrites(a, at, at + 1) && RowsKept(a, at, at + 1)
  {
    a[at] := v;
  }

  // ---- UpdateY ----

  // dst + (ref - src), clipped to the working depth.
  function UpdatedY(ref: seq<int>, src: seq<int>, dst: seq<int>, max: nat): (r: seq<int>)
    requires |ref| == |src| == |dst|
    ensures |r| == |dst|
    ensures forall i :: 0 <= i < |r| ==> 0 <= r[i] <= max
  {
    seq(|dst|, i requires 0 <= i < |dst| => Clip(dst[i] + (ref[i] - src[i]), max))
  }

  // The sum of absolute differences.
  function Sad(ref: seq<int>, src: seq<int>): nat
    requires |ref| == |src|
  {
    if |ref| == 0 then 0
    else Sad(ref[..|ref| - 1], src[..|src| - 1]) + Abs(ref[|ref| - 1] - src[|src| - 1])
  }

  // One more pair of samples.
  lemma SadStep(ref: seq<int>, src: seq<int>, i: nat)
    requires |ref| == |src| && i <= |ref|
    ensures Sad(ref[..0], src[..0]) == 0
    ensures i < |ref| ==> Sad(ref[..i + 1], src[..i + 1]) == Sad(ref[..i], src[..i]) + Abs(ref[i] - src[i])
  {
    if i < |ref| {
      assert ref[..i + 1][..i] == ref[..i] && src[..i + 1][..i] == src[..i];
    }
  }

  lemma {:induction false} SadZero(a: seq<int>)
    ensures Sad(a, a) == 0
  {
    if a != [] {
      SadZero(a[..|a| - 1]);
    }
  }

  // Zero total means equal rows: the stopping test measures a distance.
  lemma {:induction false} SadZeroOnlyIfEqual(a: seq<int>, b: seq<int>)
    requires |a| == |b| && Sad(a, b) == 0
    ensures a == b
  {
    if a != [] {
      SadZeroOnlyIfEqual(a[..|a| - 1], b[..|b| - 1]);
      assert a == a[..|a| - 1] + [a[|a| - 1]] && b == b[..|b| - 1] + [b[|b| - 1]];
    }
  }

  lemma {:induction false} SadConcat(a: seq<int>, b: seq<int>, c: seq<int>, d: seq<int>)
    requires |a| == |b| && |c| == |d|
    ensures Sad(a + c, b + d) == Sad(a, b) + Sad(c, d)
  {
    if c == [] {
      assert a + c == a && b + d == b;
    } else {
      var n := |c| - 1;
      SadConcat(a, b, c[..n], d[..n]);
      assert (a + c)[..|a + c| - 1] == a + c[..n] && (b + d)[..|b + d| - 1] == b + d[..n];
    }
  }

  method UpdateY_C(ref: array<int>, r: nat, src: array<int>, s: nat, dst: array<int>, d: nat, len: nat, bitDepth: nat)
    returns (diff: nat)
    requires r + len <= ref.Length && s + len <= src.Length && d + len <= dst.Length
    requires dst != ref && dst != src
    modifies dst
    ensures RowAt(dst, d, len) ==
            old(UpdatedY(RowAt(ref, r, len), RowAt(src, s, len), RowAt(dst, d, len), MaxY(bitDepth)))
    ensures OnlyWrites(dst, d, d + len) && RowsKept(dst, d, d + len)
    ensures diff == old(Sad(RowAt(ref, r, len), RowAt(src, s, len)))
  {
    hide MaxY, Sad;
    diff := 0;
    var maxY := MaxY(bitDepth);
    ghost var refs, srcs, was := RowAt(ref, r, len), RowAt(src, s, len), RowAt(dst, d, len);
    SadStep(refs, srcs, 0);
    for i := 0 to len
      invariant OnlyWrites(dst, d, d + i)
      invariant forall j :: 0 <= j < i ==> dst[d + j] == Clip(was[j] + (refs[j] - srcs[j]), maxY)
      invariant diff == Sad(refs[..i], srcs[..i])
    {
      assert refs[i] == ref[r + i] && srcs[i] == src[s + i] && was[i] == dst[d + i];
      var diffY := ref[r + i] - src[s + i];
      var newY := dst[d + i] + diffY;
      dst[d + i] := Clip(newY, maxY);
      diff := diff + Abs(diffY);
      SadStep(refs, srcs, i);
    }
    assert refs[..len] == refs && srcs[..len] == srcs;
  }

  // ---- UpdateRGB ----

  // dst + (ref - src) in int16 arithmetic.
  function UpdatedUV(ref: seq<int>, src: seq<int>, dst: seq<int>): (r: seq<int>)
    requires |ref| == |src| == |dst|
    ensures |r| == |dst|
  {
    seq(|dst|, i requires 0 <= i < |dst| => S16(dst[i] + (ref[i] - src[i])))
  }

  method UpdateRGB_C(ref: array<int>, r: nat, src: array<int>, s: nat, dst: array<int>, d: nat, len: nat)
    requires r + len <= ref.Length && s + len <= src.Length && d + len <= dst.Length
    requires dst != ref && dst != src
    modifies dst
    ensures RowAt(dst, d, len) == old(UpdatedUV(RowAt(ref, r, len), RowAt(src, s, len), RowAt(dst, d, len)))
    ensures OnlyWrites(dst, d, d + len) && RowsKept(dst, d, d + len)
  {
    ghost var refs, srcs, was := RowAt(ref, r, len), RowAt(src, s, len), RowAt(dst, d, len);
    for i := 0 to len
      invariant OnlyWrites(dst, d, d + i)
      invariant forall j :: 0 <= j < i ==> dst[d + j] == S16(was[j] + (refs[j] - srcs[j]))
    {
      assert refs[i] == ref[r + i] && srcs[i] == src[s + i] && was[i] == dst[d + i];
      var diffUV := ref[r + i] - src[s + i];
      dst[d + i] := S16(dst[d + i] + diffUV);
    }
  }

  // ---- FilterRow ----

  // The bilinear tap: 9/16 of the nearest chroma sample, 3/16 of its two neighbours on
  // either axis and 1/16 of the diagonal one, rounded.
  function Tap(near: int, beside: int, across: int, diagonal: int): int {
    (9 * near + 3 * beside + 3 * across + diagonal + 8) / 16
  }

  function FilterTap(a: seq<int>, b: seq<int>, x: nat): int
    requires |a| == |b| && x / 2 + 1 < |a|
  {
    var i := x / 2;
    if x % 2 == 0 then Tap(a[i], a[i + 1], b[i], b[i + 1]) else Tap(a[i + 1], a[i], b[i + 1], b[i])
  }

  lemma TapsOf(a: seq<int>, b: seq<int>, i: nat)
    requires |a| == |b| && i + 1 < |a|
    ensures FilterTap(a, b, 2 * i) == Tap(a[i], a[i + 1], b[i], b[i + 1])
    ensures FilterTap(a, b, 2 * i + 1) == Tap(a[i + 1], a[i], b[i + 1], b[i])
  {
  }

  // `len` chroma intervals give 2 * len samples.
  function FilteredRow(a: seq<int>, b: seq<int>, y: seq<int>, max: nat): (r: seq<int>)
    requires |a| == |b| >= 1 && |y| == 2 * (|a| - 1)
    ensures |r| == |y|
  {
    seq(|y|, x requires 0 <= x < |y| => Clip(y[x] + FilterTap(a, b, x), max))
  }

  // The two samples of interval i.
  method FilterInterval(A: array<int>, a: nat, B: array<int>, b: nat, len: nat, bestY: array<int>, y: nat,
                        out: array<int>, o: nat, maxY: nat, i: nat, ghost rowA: seq<int>, ghost rowB: seq<int>,
                        ghost rowY: seq<int>)
    requires a + len < A.Length && b + len < B.Length && i < len
    requires y + 2 * len <= bestY.Length && o + 2 * len <= out.Length
    requires out != A && out != B && out != bestY
    requires rowA == RowAt(A, a, len + 1) && rowB == RowAt(B, b, len + 1) && rowY == RowAt(bestY, y, 2 * len)
    modifies out
    ensures out[o + 2 * i] == Clip(rowY[2 * i] + FilterTap(rowA, rowB, 2 * i), maxY)
    ensures out[o + 2 * i + 1] == Clip(rowY[2 * i + 1] + FilterTap(rowA, rowB, 2 * i + 1), maxY)
    ensures OnlyWrites(out, o + 2 * i, o + 2 * i + 2)
  {
    hide FilterTap, Clip;
    var a0, a1, b0, b1 := A[a + i], A[a + i + 1], B[b + i], B[b + i + 1];
    var v0 := (a0 * 9 + a1 * 3 + b0 * 3 + b1 + 8) / 16;
    var v1 := (a1 * 9 + a0 * 3 + b1 * 3 + b0 + 8) / 16;
    assert rowA[i] == a0 && rowA[i + 1] == a1 && rowB[i] == b0 && rowB[i + 1] == b1;
    assert rowY[2 * i] == bestY[y + 2 * i] && rowY[2 * i + 1] == bestY[y + 2 * i + 1];
    TapsOf(rowA, rowB, i);
    out[o + 2 * i] := Clip(bestY[y + 2 * i] + v0, maxY);
    out[o + 2 * i + 1] := Clip(bestY[y + 2 * i + 1] + v1, maxY);
  }

  method FilterRow_C(A: array<int>, a: nat, B: array<int>, b: nat, len: nat, bestY: array<int>, y: nat,
                     out: array<int>, o: nat, bitDepth: nat)
    requires a + len < A.Length && b + len < B.Length
    requires y + 2 * len <= bestY.Length && o + 2 * len <= out.Length
    requires out != A && out != B && out != bestY
    modifies out
    ensures RowAt(out, o, 2 * len) ==
            old(FilteredRow(RowAt(A, a, len + 1), RowAt(B, b, len + 1), RowAt(bestY, y, 2 * len), MaxY(bitDepth)))
    ensures OnlyWrites(out, o, o + 2 * len) && RowsKept(out, o, o + 2 * len)
  {
    hide FilterTap, MaxY, Clip;
    var maxY := MaxY(bitDepth);
    ghost var rowA, rowB, rowY := RowAt(A, a, len + 1), RowAt(B, b, len + 1), RowAt(bestY, y, 2 * len);
    for i := 0 to len
      invariant OnlyWrites(out, o, o + 2 * i)
      invariant forall x :: 0 <= x < 2 * i ==> out[o + x] == Clip(rowY[x] + FilterTap(rowA, rowB, x), maxY)
    {
      FilterInterval(A, a, B, b, len, bestY, y, out, o, maxY, i, rowA, rowB, rowY);
    }
  }
}
