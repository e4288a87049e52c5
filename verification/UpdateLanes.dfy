// The luma and chroma updates, lane by lane, shared by the SSE2 and NEON kernels.
module UpdateLanes {
  import opened FixedPoint
  import opened Kernels
  import opened Rows
  import opened Lanes

  // Eight samples of a row as loaded into a register.
  lemma LoadEight(src: array<int>, at: nat, len: nat, row: seq<int>, i: nat)
    requires at + len <= src.Length && row == RowAt(src, at, len) && i + 8 <= len
    ensures Load(src, at + i, 8) == seq(8, j requires 0 <= j < 8 => S16(row[i + j]))
  {
    hide S16;
  }

  // The working ranges of the luma kernels: targets up to 2^14, samples below it.
  ghost predicate UpdateRanges(ref: seq<int>, src: seq<int>, dst: seq<int>, max: nat) {
    |ref| == |src| == |dst| && max <= 16383 && AllWithin(ref, 0, 16384) && AllWithin(src, 0, 16384)
        && AllWithin(dst, 0, 16383)
  }

  // On these ranges no 16-bit lane of the luma update overflows.
  lemma DiffLane(ref: int, src: int, dst: int, max: nat)
    requires 0 <= ref <= 16384 && 0 <= src <= 16384 && 0 <= dst <= 16383 && max <= 16383
    ensures S16(S16(ref) - S16(src)) == ref - src
    ensures Max(Min(S16(S16(dst) + (ref - src)), max), 0) == Clip(dst + (ref - src), max)
  {
  }

  // Eight lanes of the luma update: the difference, and the corrected sample.
  lemma DiffLanes(a: Vec, b: Vec, c: Vec, i: nat, refs: seq<int>, srcs: seq<int>, was: seq<int>, max: nat)
    requires |a| == |b| == |c| == 8 && UpdateRanges(refs, srcs, was, max) && i + 8 <= |refs|
    requires forall j :: 0 <= j < 8 ==> a[j] == S16(refs[i + j]) && b[j] == S16(srcs[i + j]) && c[j] == S16(was[i + j])
    ensures var d := Sub16(a, b);
            && (forall j :: 0 <= j < 8 ==> d[j] == refs[i + j] - srcs[i + j] && -16384 <= d[j] <= 16384)
            && var h := MaxV(MinV(Add16(c, d), Splat(max, 8)), Splat(0, 8));
               forall j :: 0 <= j < 8 ==> h[j] == Clip(was[i + j] + (refs[i + j] - srcs[i + j]), max)
  {
    hide S16, Clip;
    var d := Sub16(a, b);
    forall j | 0 <= j < 8
      ensures d[j] == refs[i + j] - srcs[i + j] && -16384 <= d[j] <= 16384
      ensures Max(Min(S16(c[j] + d[j]), max), 0) == Clip(was[i + j] + (refs[i + j] - srcs[i + j]), max)
    {
      assert a[j] == S16(refs[i + j]);
      DiffLane(refs[i + j], srcs[i + j], was[i + j], max);
    }
  }

  // The chroma update is exact modulo 2^16 on any data at all.
  lemma ChromaLane(ref: int, src: int, dst: int)
    ensures S16(S16(dst) + S16(S16(ref) - S16(src))) == S16(dst + (ref - src))
  {
    hide S16;
    S16Absorbs(ref, -S16(src));
    S16Absorbs(src, ref);
    S16Absorbs(S16(ref) - S16(src), S16(dst));
    S16Absorbs(dst, S16(ref) - S16(src));
    var d := ref - src;
    S16Absorbs(d, S16(dst));
    S16Absorbs(dst, d);
    assert S16(S16(ref) - S16(src)) == S16(d);
  }

  // Eight more samples of the sum of absolute differences.
  lemma SadEight(ref: seq<int>, src: seq<int>, i: nat, d: Vec)
    requires |ref| == |src| && i + 8 <= |ref| && |d| == 8
    requires forall j :: 0 <= j < 8 ==> d[j] == ref[i + j] - src[i + j]
    ensures Sad(ref[..i + 8], src[..i + 8]) == Sad(ref[..i], src[..i])
            + Abs(d[0]) + Abs(d[1]) + Abs(d[2]) + Abs(d[3]) + Abs(d[4]) + Abs(d[5]) + Abs(d[6]) + Abs(d[7])
  {
    hide Sad, Abs;
    SadStep(ref, src, i);
    SadStep(ref, src, i + 1);
    SadStep(ref, src, i + 2);
    SadStep(ref, src, i + 3);
    SadStep(ref, src, i + 4);
    SadStep(ref, src, i + 5);
    SadStep(ref, src, i + 6);
    SadStep(ref, src, i + 7);
    assert d[0] == ref[i] - src[i];
  }

  // ---- Sums modulo 2^32 ----

  function Total(v: Vec): int
    requires |v| == 4
  {
    v[0] + v[1] + v[2] + v[3]
  }

  lemma TotalOfZeros()
    ensures Total(Splat(0, 4)) == 0
  {
  }

  lemma U32Unique(x: int, r: int, m: int)
    requires 0 <= r <= 0xFFFF_FFFF && x == r + 0x1_0000_0000 * m
    ensures U32(x) == r
  {
  }

  lemma U32Wraps(x: int) returns (m: int)
    ensures x == U32(x) + 0x1_0000_0000 * m
  {
    m := x / 0x1_0000_0000;
  }

  lemma S32Wraps(x: int) returns (m: int)
    ensures x == S32(x) + 0x1_0000_0000 * m
  {
    m := (x + 0x8000_0000) / 0x1_0000_0000;
  }

  lemma U32Congruent(x: int, y: int, m: int)
    requires x == y + 0x1_0000_0000 * m
    ensures U32(x) == U32(y)
  {
    hide U32;
    var k := U32Wraps(y);
    U32Unique(x, U32(y), k + m);
  }

  // Wrapping lanes keep the total modulo 2^32.
  lemma TotalOfSum(s: Vec, v: Vec, sad: int)
    requires |s| == |v| == 4 && U32(Total(s)) == U32(sad)
    ensures U32(Total(Add32(s, v))) == U32(sad + Total(v))
  {
    hide U32, S32;
    var a := S32Wraps(s[0] + v[0]);
    var b := S32Wraps(s[1] + v[1]);
    var c := S32Wraps(s[2] + v[2]);
    var d := S32Wraps(s[3] + v[3]);
    var p := U32Wraps(Total(s));
    var q := U32Wraps(sad);
    U32Congruent(Total(Add32(s, v)), sad + Total(v), p - q - a - b - c - d);
  }

  lemma WrapsUnlessInRange(x: int)
    ensures U32(x) == x <==> 0 <= x <= 0xFFFF_FFFF
  {
  }

  // The horizontal sum at the end, in uint32 arithmetic.
  lemma HorizontalSum(s: Vec)
    requires |s| == 4
    ensures U32(U32(U32(U32(s[3]) + U32(s[2])) + U32(s[1])) + U32(s[0])) == U32(Total(s))
    ensures U32(Total(s)) == Total(s) <==> 0 <= Total(s) <= 0xFFFF_FFFF
  {
    WrapsUnlessInRange(Total(s));
    hide U32;
    var a := U32Wraps(s[3]);
    var b := U32Wraps(s[2]);
    var c := U32Wraps(s[1]);
    var d := U32Wraps(s[0]);
    var ab := U32Wraps(U32(s[3]) + U32(s[2]));
    var abc := U32Wraps(U32(U32(s[3]) + U32(s[2])) + U32(s[1]));
    U32Congruent(U32(U32(U32(s[3]) + U32(s[2])) + U32(s[1])) + U32(s[0]), Total(s), -(a + b + c + d + ab + abc));
  }

  // The scalar tail of both luma kernels.
  method UpdateYTail(ref: array<int>, r: nat, src: array<int>, s: nat, dst: array<int>, d: nat, from: nat, len: nat,
                     maxY: nat,
                     diff0: nat, ghost refs: seq<int>, ghost srcs: seq<int>, ghost was: seq<int>)
    returns (diff: nat)
    requires from <= len && r + len <= ref.Length && s + len <= src.Length && d + len <= dst.Length
    requires dst != ref && dst != src
    requires refs == RowAt(ref, r, len) && srcs == RowAt(src, s, len) && |was| == len
    requires forall j :: from <= j < len ==> dst[d + j] == was[j]
    modifies dst
    ensures forall j :: from <= j < len ==> dst[d + j] == Clip(was[j] + (refs[j] - srcs[j]), maxY)
    ensures OnlyWrites(dst, d + from, d + len)
    ensures diff + Sad(refs[..from], srcs[..from]) == diff0 + Sad(refs, srcs)
  {
    hide Sad, Abs;
    diff := diff0;
    for i := from to len
      invariant OnlyWrites(dst, d + from, d + i)
      invariant forall j :: from <= j < i ==> dst[d + j] == Clip(was[j] + (refs[j] - srcs[j]), maxY)
      invariant diff + Sad(refs[..from], srcs[..from]) == diff0 + Sad(refs[..i], srcs[..i])
    {
      assert refs[i] == ref[r + i] && srcs[i] == src[s + i] && was[i] == dst[d + i];
      var diffY := ref[r + i] - src[s + i];
      var newY := dst[d + i] + diffY;
      dst[d + i] := Clip(newY, maxY);
      diff := diff + Abs(diffY);
      SadStep(refs, srcs, i);
    }
    assert refs[..len] == refs && srcs[..len] == srcs;
  }

  // The scalar tail of both chroma kernels.
  method UpdateRGBTail(ref: array<int>, r: nat, src: array<int>, s: nat, dst: array<int>, d: nat, from: nat, len: nat,
                       ghost refs: seq<int>, ghost srcs: seq<int>, ghost was: seq<int>)
    requires from <= len && r + len <= ref.Length && s + len <= src.Length && d + len <= dst.Length
    requires dst != ref && dst != src
    requires refs == RowAt(ref, r, len) && srcs == RowAt(src, s, len) && |was| == len
    requires forall j :: from <= j < len ==> dst[d + j] == was[j]
    modifies dst
    ensures forall j :: from <= j < len ==> dst[d + j] == S16(was[j] + (refs[j] - srcs[j]))
    ensures OnlyWrites(dst, d + from, d + len)
  {
    hide S16;
    for i := from to len
      invariant OnlyWrites(dst, d + from, d + i)
      invariant forall j :: from <= j < i ==> dst[d + j] == S16(was[j] + (refs[j] - srcs[j]))
    {
      assert refs[i] == ref[r + i] && srcs[i] == src[s + i] && was[i] == dst[d + i];
      var diffUV := ref[r + i] - src[s + i];
      dst[d + i] := S16(dst[d + i] + diffUV);
    }
  }

  // One pass of the chroma loop, the same on both targets.
  method UpdateRGBPass(ref: array<int>, r: nat, src: array<int>, s: nat, dst: array<int>, d: nat, i: nat, len: nat,
                       ghost refs: seq<int>, ghost srcs: seq<int>, ghost was: seq<int>)
    requires i + 8 <= len && r + len <= ref.Length && s + len <= src.Length && d + len <= dst.Length
    requires refs == RowAt(ref, r, len) && srcs == RowAt(src, s, len) && |was| == len
    requires forall j :: i <= j < len ==> dst[d + j] == was[j]
    modifies dst
    ensures forall j :: i <= j < i + 8 ==> dst[d + j] == S16(was[j] + (refs[j] - srcs[j]))
    ensures OnlyWrites(dst, d + i, d + i + 8)
  {
    hide S16;
    var a, b, c := Load(ref, r + i, 8), Load(src, s + i, 8), Load(dst, d + i, 8);
    LoadEight(ref, r, len, refs, i);
    LoadEight(src, s, len, srcs, i);
    var diffUV := Sub16(a, b);
    var newUV := Add16(c, diffUV);
    Store(dst, d + i, newUV);
    forall j | i <= j < i + 8
      ensures dst[d + j] == S16(was[j] + (refs[j] - srcs[j]))
    {
      assert dst[d + i + (j - i)] == newUV[j - i];
      assert c[j - i] == S16(was[i + (j - i)]);
      ChromaLane(refs[j], srcs[j], was[j]);
    }
  }

  // ---- The sum that SSE2 returns ----

  // Its vectored part is added up in 32 bits.
  function Sse2Sum(ref: seq<int>, src: seq<int>): nat
    requires |ref| == |src|
  {
    var v := |ref| - |ref| % 8;
    U32(Sad(ref[..v], src[..v])) + Sad(ref[v..], src[v..])
  }

  predicate Sse2SumFits(ref: seq<int>, src: seq<int>)
    requires |ref| == |src|
  {
    var v := |ref| - |ref| % 8;
    Sad(ref[..v], src[..v]) <= 0xFFFF_FFFF
  }

  lemma Sse2SumIs(ref: seq<int>, src: seq<int>)
    requires |ref| == |src|
    ensures var v := |ref| - |ref| % 8;
            Sse2Sum(ref, src) + Sad(ref[..v], src[..v]) == U32(Sad(ref[..v], src[..v])) + Sad(ref, src)
    ensures Sse2Sum(ref, src) == Sad(ref, src) <==> Sse2SumFits(ref, src)
    ensures Sad(ref, src) <= 0xFFFF_FFFF ==> Sse2SumFits(ref, src)
  {
    hide Sad;
    var v := |ref| - |ref| % 8;
    SadConcat(ref[..v], src[..v], ref[v..], src[v..]);
    assert ref[..v] + ref[v..] == ref && src[..v] + src[v..] == src;
  }
}
