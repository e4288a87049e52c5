// Fixed-width and fixed-point arithmetic shared by the SharpYUV modules.
//
// C integers are modelled by `int`; every store into a narrower C type goes through one
// of the wrap functions below, and an arithmetic right shift by n is a floor division
// by 2^n, which is what Dafny's `/` computes for a positive divisor.
module FixedPoint {

  function U16(x: int): (r: int)
    ensures 0 <= r <= 0xFFFF
    ensures 0 <= x <= 0xFFFF ==> r == x
  {
    x % 0x1_0000
  }

  function S16(x: int): (r: int)
    ensures IsS16(r)
    ensures IsS16(x) ==> r == x
  {
    (x + 0x8000) % 0x1_0000 - 0x8000
  }

  function U32(x: int): (r: int)
    ensures 0 <= r <= 0xFFFF_FFFF
    ensures 0 <= x <= 0xFFFF_FFFF ==> r == x
  {
    x % 0x1_0000_0000
  }

  function S32(x: int): (r: int)
    ensures IsS32(r)
    ensures IsS32(x) ==> r == x
  {
    (x + 0x8000_0000) % 0x1_0000_0000 - 0x8000_0000
  }

  predicate IsS16(x: int) {
    -0x8000 <= x <= 0x7FFF
  }

  predicate IsS32(x: int) {
    -0x8000_0000 <= x <= 0x7FFF_FFFF
  }

  function Min(a: int, b: int): int {
    if a < b then a else b
  }

  function Max(a: int, b: int): int {
    if a < b then b else a
  }

  function Abs(x: int): nat {
    if x < 0 then -x else x
  }

  // The clip helpers of the reference kernels and of the converter.
  function Clip(v: int, max: int): int {
    if v < 0 then 0 else if v > max then max else v
  }

  function Pow2(n: nat): (r: nat)
    ensures r >= 1
  {
    if n == 0 then 1 else 2 * Pow2(n - 1)
  }

  // (1 << bit_depth) - 1
  function MaxY(bitDepth: nat): nat {
    Pow2(bitDepth) - 1
  }

  function Shift(v: int, shift: int): int {
    if shift >= 0 then v * Pow2(shift) else v / Pow2(-shift)
  }

  // q is n / d to the nearest, upwards from half way.
  predicate RoundsTo(n: int, d: int, q: int) {
    2 * n - d < 2 * (d * q) <= 2 * n + d
  }

  // A shift to the left multiplies, a shift to the right rounds down.
  lemma ShiftIs(v: int, n: int)
    requires n >= 0
    ensures Shift(v, n) == v * Pow2(n)
    ensures Pow2(n) * Shift(v, -n) <= v < Pow2(n) * Shift(v, -n) + Pow2(n)
  {
    hide Pow2;
    assert n == 0 ==> Pow2(n) == 1 by {
      Pow2Values();
    }
    assert v == Pow2(n) * (v / Pow2(n)) + v % Pow2(n);
  }

  lemma RoundingIs(n: int, d: int, half: nat, q: int)
    requires d > 0 && (d == 2 * half || (d == 1 && half == 0)) && q == (n + half) / d
    ensures RoundsTo(n, d, q)
  {
    assert n + half == d * q + (n + half) % d;
  }

  lemma RoundingIsUnique(n: int, d: int, p: int, q: int)
    requires d > 0 && RoundsTo(n, d, p) && RoundsTo(n, d, q)
    ensures p == q
  {
    if p < q {
      MulMonotone(d, p + 1, q);
    } else if q < p {
      MulMonotone(d, q + 1, p);
    }
  }

  function PrecisionShift(rgbBitDepth: nat): int {
    if rgbBitDepth + 2 <= 14 then 2 else 14 - rgbBitDepth
  }

  // C division truncates toward zero.
  function TruncDiv(a: int, b: int): int
    requires b > 0
  {
    if a >= 0 then a / b else -((-a) / b)
  }

  const YUV_HALF := 0x8000

  // Luma weights in 16-bit fixed point; they sum to exactly 65536.
  function WeightedSum(r: int, g: int, b: int): int {
    13933 * r + 46871 * g + 4732 * b
  }

  function RGBToGray(r: int, g: int, b: int): int {
    (WeightedSum(r, g, b) + YUV_HALF) / 65536
  }

  // The weights sum to one: a common offset passes through RGBToGray unchanged.
  lemma GrayOffset(r: int, g: int, b: int, w: int)
    ensures RGBToGray(r + w, g + w, b + w) == RGBToGray(r, g, b) + w
    ensures RGBToGray(w, w, w) == w
  {
    assert WeightedSum(r + w, g + w, b + w) == WeightedSum(r, g, b) + 65536 * w;
  }

  // What RGBToGray rounds away.
  lemma GrayRemainder(r: int, g: int, b: int)
    ensures -32768 <= WeightedSum(r, g, b) - 65536 * RGBToGray(r, g, b) <= 32767
  {
  }

  lemma GrayMonotone(r: int, g: int, b: int, r': int, g': int, b': int)
    requires r <= r' && g <= g' && b <= b'
    ensures RGBToGray(r, g, b) <= RGBToGray(r', g', b')
  {
    assert WeightedSum(r, g, b) <= WeightedSum(r', g', b');
  }

  lemma GrayRange(r: int, g: int, b: int, lo: int, hi: int)
    requires lo <= r <= hi && lo <= g <= hi && lo <= b <= hi
    ensures lo <= RGBToGray(r, g, b) <= hi
  {
    GrayMonotone(lo, lo, lo, r, g, b);
    GrayMonotone(r, g, b, hi, hi, hi);
  }

  lemma Pow2Values()
    ensures Pow2(0) == 1 && Pow2(1) == 2 && Pow2(2) == 4 && Pow2(3) == 8 && Pow2(4) == 16
    ensures Pow2(6) == 64 && Pow2(7) == 128 && Pow2(8) == 256 && Pow2(9) == 512 && Pow2(10) == 1024
    ensures Pow2(12) == 4096 && Pow2(14) == 16384 && Pow2(16) == 65536
  {
  }

  lemma {:induction false} Pow2Add(a: nat, b: nat)
    ensures Pow2(a + b) == Pow2(a) * Pow2(b)
  {
    if a > 0 {
      Pow2Add(a - 1, b);
    }
  }

  lemma {:induction false} Pow2Monotone(a: nat, b: nat)
    requires a <= b
    ensures Pow2(a) <= Pow2(b)
    decreases b
  {
    if a < b {
      Pow2Monotone(a, b - 1);
    }
  }

  lemma MulMonotone(a: int, x: int, y: int)
    requires a >= 0 && x <= y
    ensures a * x <= a * y
  {
  }

  // S16 picks the one int16 value congruent to its argument.
  lemma S16Unique(x: int, r: int, m: int)
    requires IsS16(r) && x == r + 65536 * m
    ensures S16(x) == r
  {
  }

  // How many times a value has to be wrapped to become an int16.
  function WrapCount(x: int): int {
    (x + 0x8000) / 0x1_0000
  }

  lemma WrapCounts(x: int)
    ensures S16(x) == x - 65536 * WrapCount(x)
    ensures WrapCount(x) == 0 <==> IsS16(x)
  {
  }

  // A wrapped operand may be replaced by the true one inside a wrapped sum.
  lemma S16Absorbs(x: int, y: int)
    ensures S16(S16(x) + y) == S16(x + y) && S16(y + S16(x)) == S16(x + y) && S16(y - S16(x)) == S16(y - x)
  {
    hide S16, WrapCount;
    WrapCounts(x);
    WrapCounts(x + y);
    WrapCounts(y - x);
    S16Unique(S16(x) + y, S16(x + y), WrapCount(x + y) - WrapCount(x));
    S16Unique(y - S16(x), S16(y - x), WrapCount(y - x) + WrapCount(x));
  }
}
