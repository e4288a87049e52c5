// The vector instructions used by the SSE2 and NEON kernels, as functions on sequences of
// lanes: 16-bit lanes hold int16 values, 32-bit lanes int32 values.
module Lanes {
  import opened FixedPoint

  type Vec = seq<int>

  function Splat(v: int, n: nat): (r: Vec)
    ensures |r| == n
  {
    seq(n, _ => v)
  }

  // A vector load of n lanes; uint16 data is reinterpreted as int16.
  function Load(a: array<int>, at: nat, n: nat): (r: Vec)
    requires at + n <= a.Length
    reads a
    ensures |r| == n
  {
    seq(n, i requires 0 <= i < n reads a => S16(a[at + i]))
  }

  method Store(a: array<int>, at: nat, v: Vec)
    requires at + |v| <= a.Length
    modifies a
    ensures forall i :: 0 <= i < |v| ==> a[at + i] == v[i]
    ensures forall i :: 0 <= i < a.Length && !(at <= i < at + |v|) ==> a[i] == old(a[i])
  {
    forall i | 0 <= i < |v| {
      a[at + i] := v[i];
    }
  }

  function Add16(a: Vec, b: Vec): (r: Vec)
    requires |a| == |b|
    ensures |r| == |a|
  {
    seq(|a|, i requires 0 <= i < |a| => S16(a[i] + b[i]))
  }

  function Sub16(a: Vec, b: Vec): (r: Vec)
    requires |a| == |b|
    ensures |r| == |a|
  {
    seq(|a|, i requires 0 <= i < |a| => S16(a[i] - b[i]))
  }

  function Add32(a: Vec, b: Vec): (r: Vec)
    requires |a| == |b|
    ensures |r| == |a|
  {
    seq(|a|, i requires 0 <= i < |a| => S32(a[i] + b[i]))
  }

  // Arithmetic shift right.
  function Sra(a: Vec, n: nat): (r: Vec)
    ensures |r| == |a|
  {
    seq(|a|, i requires 0 <= i < |a| => a[i] / Pow2(n))
  }

  function MinV(a: Vec, b: Vec): (r: Vec)
    requires |a| == |b|
    ensures |r| == |a|
  {
    seq(|a|, i requires 0 <= i < |a| => Min(a[i], b[i]))
  }

  function MaxV(a: Vec, b: Vec): (r: Vec)
    requires |a| == |b|
    ensures |r| == |a|
  {
    seq(|a|, i requires 0 <= i < |a| => Max(a[i], b[i]))
  }

  // All ones, that is -1, where a > b.
  function CmpGt(a: Vec, b: Vec): (r: Vec)
    requires |a| == |b|
    ensures |r| == |a|
  {
    seq(|a|, i requires 0 <= i < |a| => if a[i] > b[i] then -1 else 0)
  }

  // Bitwise or with a vector of ones: sets the lowest bit of every lane.
  function OrOne(a: Vec): (r: Vec)
    ensures |r| == |a|
  {
    seq(|a|, i requires 0 <= i < |a| => if a[i] % 2 == 0 then a[i] + 1 else a[i])
  }

  // _mm_madd_epi16: products of 16-bit lanes, summed in pairs into 32-bit lanes.
  function MAdd16(a: Vec, b: Vec): (r: Vec)
    requires |a| == |b|
    ensures |r| == |a| / 2
  {
    seq(|a| / 2, i requires 0 <= i < |a| / 2 => S32(a[2 * i] * b[2 * i] + a[2 * i + 1] * b[2 * i + 1]))
  }

  // Interleave the low halves, and the high halves, of two vectors.
  function UnpackLo(a: Vec, b: Vec): (r: Vec)
    requires |a| == |b| && |a| % 2 == 0
    ensures |r| == |a|
  {
    seq(|a|, i requires 0 <= i < |a| => if i % 2 == 0 then a[i / 2] else b[i / 2])
  }

  function UnpackHi(a: Vec, b: Vec): (r: Vec)
    requires |a| == |b| && |a| % 2 == 0
    ensures |r| == |a|
  {
    seq(|a|, i requires 0 <= i < |a| => if i % 2 == 0 then a[|a| / 2 + i / 2] else b[|a| / 2 + i / 2])
  }

  // Pairs of 16-bit lanes seen as 32-bit lanes, low lane first.
  function AsLanes32(a: Vec): (r: Vec)
    requires |a| % 2 == 0
    ensures |r| == |a| / 2
  {
    seq(|a| / 2, i requires 0 <= i < |a| / 2 => S32(U16(a[2 * i]) + 65536 * U16(a[2 * i + 1])))
  }

  // _mm_packs_epi32: two vectors of 32-bit lanes, saturated to int16.
  function Pack32(a: Vec, b: Vec): (r: Vec)
    ensures |r| == |a| + |b|
  {
    seq(|a| + |b|, i requires 0 <= i < |a| + |b| =>
      var x := if i < |a| then a[i] else b[i - |a|]; Max(Min(x, 0x7FFF), -0x8000))
  }

  // Rounding halving add: (a + b + 1) >> 1 without intermediate overflow.
  function RHAdd(a: Vec, b: Vec): (r: Vec)
    requires |a| == |b|
    ensures |r| == |a|
  {
    seq(|a|, i requires 0 <= i < |a| => (a[i] + b[i] + 1) / 2)
  }

  // vabsq_s16: the absolute value, with -32768 left as it is.
  function Abs16(a: Vec): (r: Vec)
    ensures |r| == |a|
  {
    seq(|a|, i requires 0 <= i < |a| => S16(Abs(a[i])))
  }

  // vpaddlq_u16: unsigned pairwise sums into lanes of twice the width.
  function PairSum16(a: Vec): (r: Vec)
    ensures |r| == |a| / 2
  {
    seq(|a| / 2, i requires 0 <= i < |a| / 2 => U16(a[2 * i]) + U16(a[2 * i + 1]))
  }

  // vpadalq_u32: accumulate pairwise sums into 64-bit lanes.
  function AccumulatePairs(acc: Vec, a: Vec): (r: Vec)
    requires |acc| == |a| / 2
    ensures |r| == |acc|
  {
    seq(|acc|, i requires 0 <= i < |acc| => acc[i] + a[2 * i] + a[2 * i + 1])
  }

  // vqmovun_s32: int32 lanes saturated to uint16.
  function SaturateU16(a: Vec): (r: Vec)
    ensures |r| == |a|
  {
    seq(|a|, i requires 0 <= i < |a| => Max(Min(a[i], 0xFFFF), 0))
  }
}
