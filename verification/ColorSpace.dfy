// The RGB to YUV matrices, their rescaling between bit depths, and why the luma offset
// may be left out when U and V are computed.
module ColorSpace {
  import opened FixedPoint

  // One matrix row: three coefficients in 16-bit fixed point and an offset.
  datatype Coeffs = Coeffs(r: int, g: int, b: int, offset: int) {
    function Sum(): int {
      r + g + b
    }
  }

  datatype Matrix = Matrix(toY: Coeffs, toU: Coeffs, toV: Coeffs)

  datatype MatrixType = WebP | Rec601Limited | Rec601Full | Rec709Limited | Rec709Full

  const OFFSET_16 := 16 * 65536
  const OFFSET_128 := 128 * 65536

  function GetConversionMatrix(t: MatrixType): Matrix {
    match t
    case WebP => Matrix(Coeffs(16839, 33059, 6420, OFFSET_16),
                        Coeffs(-9719, -19081, 28800, OFFSET_128),
                        Coeffs(28800, -24116, -4684, OFFSET_128))
    case Rec601Limited => Matrix(Coeffs(16829, 33039, 6416, OFFSET_16),
                                 Coeffs(-9714, -19071, 28784, OFFSET_128),
                                 Coeffs(28784, -24103, -4681, OFFSET_128))
    case Rec601Full => Matrix(Coeffs(19595, 38470, 7471, 0),
                              Coeffs(-11058, -21710, 32768, OFFSET_128),
                              Coeffs(32768, -27439, -5329, OFFSET_128))
    case Rec709Limited => Matrix(Coeffs(11966, 40254, 4064, OFFSET_16),
                                 Coeffs(-6596, -22189, 28784, OFFSET_128),
                                 Coeffs(28784, -26145, -2639, OFFSET_128))
    case Rec709Full => Matrix(Coeffs(13933, 46871, 4732, 0),
                              Coeffs(-7509, -25259, 32768, OFFSET_128),
                              Coeffs(32768, -29763, -3005, OFFSET_128))
  }

  // RGBToYUVComponent: the weighted sum, rounded from 16 + sfix fractional bits.
  function Component(r: int, g: int, b: int, c: Coeffs, sfix: int): int
    requires sfix >= -15
  {
    (c.r * r + c.g * g + c.b * b + c.offset + Pow2(15 + sfix)) / Pow2(16 + sfix)
  }

  // The C code computes that sum in int, term by term: no product and no partial sum overflows.
  predicate SumInInt32(r: int, g: int, b: int, c: Coeffs, sfix: int)
    requires sfix >= -15
  {
    && IsS32(c.r * r) && IsS32(c.g * g) && IsS32(c.b * b)
    && IsS32(c.r * r + c.g * g) && IsS32(c.r * r + c.g * g + c.b * b)
    && IsS32(c.r * r + c.g * g + c.b * b + c.offset)
    && IsS32(c.r * r + c.g * g + c.b * b + c.offset + Pow2(15 + sfix))
  }

  // ceil(n / d)
  function CeilDiv(n: int, d: nat): int
    requires d > 0
  {
    -((-n) / d)
  }

  // p and q are the quotients of x + s and x; s is at most c divisors.
  lemma QuotientGap(x: int, s: int, d: int, c: int, p: int, q: int, e: int, f: int)
    requires d > 0 && x + s == d * p + e && x == d * q + f && 0 <= e < d && 0 <= f < d
    requires -(d * c) <= s <= d * c
    ensures -c <= p - q <= c
  {
    assert d * (p - q) == d * p - d * q;
    if p - q > c {
      MulMonotone(d, c + 1, p - q);
    } else if p - q < -c {
      MulMonotone(d, p - q, -c - 1);
    }
  }

  lemma DivMod(n: int, d: int)
    requires d > 0
    ensures n == d * (n / d) + n % d && 0 <= n % d < d
  {
  }

  // Shifting a numerator moves the floored quotient by at most the ceiling of the shift.
  lemma QuotientShift(x: int, s: int, d: int)
    requires d > 0
    ensures s == 0 ==> (x + s) / d == x / d
    ensures Abs((x + s) / d - x / d) <= CeilDiv(Abs(s), d)
  {
    var t := Abs(s);
    DivMod(-t, d);
    DivMod(x + s, d);
    DivMod(x, d);
    var c := CeilDiv(t, d);
    assert d * c == -(d * ((-t) / d));
    QuotientGap(x, s, d, c, (x + s) / d, x / d, (x + s) % d, x % d);
  }

  // A common offset w on all three channels changes the component by nothing when the row
  // sums to zero, and by at most ceil(|sum * w| / 2^(16 + sfix)) otherwise.
  lemma DroppingTheOffset(r: int, g: int, b: int, w: int, c: Coeffs, sfix: int)
    requires sfix >= -15
    ensures c.Sum() == 0 ==> Component(r + w, g + w, b + w, c, sfix) == Component(r, g, b, c, sfix)
    ensures Abs(Component(r + w, g + w, b + w, c, sfix) - Component(r, g, b, c, sfix))
            <= CeilDiv(Abs(c.Sum() * w), Pow2(16 + sfix))
  {
    hide CeilDiv, Abs, Pow2;
    var x := c.r * r + c.g * g + c.b * b + c.offset + Pow2(15 + sfix);
    Distribute(r, g, b, w, c);
    QuotientShift(x, c.Sum() * w, Pow2(16 + sfix));
  }

  lemma Distribute(r: int, g: int, b: int, w: int, c: Coeffs)
    ensures c.r * (r + w) + c.g * (g + w) + c.b * (b + w) == c.r * r + c.g * g + c.b * b + c.Sum() * w
    ensures c.Sum() == 0 ==> c.Sum() * w == 0
  {
    assert c.r * (r + w) == c.r * r + c.r * w;
    assert c.g * (g + w) == c.g * g + c.g * w;
    assert c.b * (b + w) == c.b * b + c.b * w;
    assert c.Sum() * w == c.r * w + c.g * w + c.b * w;
  }

  // The built-in chroma rows sum to 0 or -1 and have a coefficient that is not negative; the
  // full-range luma rows sum to exactly one.
  lemma BuiltInRowSums(t: MatrixType)
    ensures var m := GetConversionMatrix(t);
            && m.toU.Sum() == (if t.Rec601Limited? || t.Rec709Limited? then -1 else 0)
            && m.toV.Sum() == 0 && m.toU.b >= 0 && m.toV.r >= 0
            && (t.Rec601Full? || t.Rec709Full? ==> m.toY.Sum() == 65536)
  {
  }

  // A common offset w makes no difference to a colour.
  predicate OffsetDrops(c: Coeffs, sfix: int, r: int, g: int, b: int, w: int)
    requires sfix >= -15
  {
    Component(r + w, g + w, b + w, c, sfix) == Component(r, g, b, c, sfix)
  }

  // Every offset drops out of every colour if and only if the row sums to zero.
  lemma OffsetDropsExactly(c: Coeffs, sfix: int)
    requires sfix >= -15
    ensures (forall r, g, b, w :: OffsetDrops(c, sfix, r, g, b, w)) <==> c.Sum() == 0
  {
    if c.Sum() == 0 {
      forall r, g, b, w
        ensures OffsetDrops(c, sfix, r, g, b, w)
      {
        DroppingTheOffset(r, g, b, w, c, sfix);
      }
    }
    hide OffsetDrops;
    if forall r, g, b, w :: OffsetDrops(c, sfix, r, g, b, w) {
      assert OffsetDrops(c, sfix, 0, 0, 0, Pow2(16 + sfix));
      WholeOffset(c, sfix);
    }
  }

  // An offset of one whole unit moves the component by the sum of the row.
  lemma WholeOffset(c: Coeffs, sfix: int)
    requires sfix >= -15 && OffsetDrops(c, sfix, 0, 0, 0, Pow2(16 + sfix))
    ensures c.Sum() == 0
  {
    hide Pow2;
    var d := Pow2(16 + sfix);
    Distribute(0, 0, 0, d, c);
    WholeMultiple(c.offset + Pow2(15 + sfix), c.Sum(), d);
  }

  lemma WholeMultiple(x: int, s: int, d: int)
    requires d > 0
    ensures (x + s * d) / d == x / d + s
  {
    DivMod(x, d);
    DivMod(x + s * d, d);
    var p, q := (x + s * d) / d, x / d + s;
    assert d * (p - q) == x % d - (x + s * d) % d by {
      assert d * (x / d + s) == d * (x / d) + s * d;
      assert d * (p - q) == d * p - d * q;
    }
    MultipleBelow(p - q, d);
  }

  lemma MultipleBelow(x: int, d: int)
    requires d > 0 && -d < d * x < d
    ensures x == 0
  {
    if x >= 1 {
      MulMonotone(d, 1, x);
    }
    if x <= -1 {
      MulMonotone(d, x, -1);
    }
  }

  // ---- Rescaling a matrix between the RGB and the YUV depth ----

  function RescaleCoeff(c: int, rgbBitDepth: nat, yuvBitDepth: nat): int
    requires rgbBitDepth >= 1 && yuvBitDepth >= 1
  {
    TruncDiv(c * MaxY(yuvBitDepth) + Pow2(rgbBitDepth - 1), MaxY(rgbBitDepth))
  }

  function ScaledRow(c: Coeffs, rgbBitDepth: nat, yuvBitDepth: nat): Coeffs
    requires rgbBitDepth >= 1 && yuvBitDepth >= 1
  {
    var offset := Shift(c.offset, PrecisionShift(rgbBitDepth));
    if rgbBitDepth == yuvBitDepth then
      Coeffs(c.r, c.g, c.b, offset)
    else
      Coeffs(RescaleCoeff(c.r, rgbBitDepth, yuvBitDepth), RescaleCoeff(c.g, rgbBitDepth, yuvBitDepth),
             RescaleCoeff(c.b, rgbBitDepth, yuvBitDepth), offset)
  }

  function ScaledMatrix(m: Matrix, rgbBitDepth: nat, yuvBitDepth: nat): Matrix
    requires rgbBitDepth >= 1 && yuvBitDepth >= 1
  {
    Matrix(ScaledRow(m.toY, rgbBitDepth, yuvBitDepth), ScaledRow(m.toU, rgbBitDepth, yuvBitDepth),
           ScaledRow(m.toV, rgbBitDepth, yuvBitDepth))
  }

  // q is c times the ratio k / m plus half a unit, toward zero.
  predicate InRatio(c: int, q: int, m: nat, k: nat) {
    var n := 2 * (c * k) + m + 1;
    && (n >= 0 ==> 2 * (m * q) <= n < 2 * (m * q) + 2 * m)
    && (n < 0 ==> 2 * (m * q) - 2 * m < n <= 2 * (m * q))
  }

  // A coefficient is rescaled in the ratio of the largest samples.
  lemma RescaleIs(c: int, rgbBitDepth: nat, yuvBitDepth: nat)
    requires rgbBitDepth >= 2 && yuvBitDepth >= 1
    ensures InRatio(c, RescaleCoeff(c, rgbBitDepth, yuvBitDepth), MaxY(rgbBitDepth), MaxY(yuvBitDepth))
  {
    var m, half := MaxY(rgbBitDepth), Pow2(rgbBitDepth - 1);
    assert m == 2 * half - 1;
    hide Pow2, TruncDiv, MaxY;
    TruncDivError(c * MaxY(yuvBitDepth) + half, m);
  }

  // Truncation loses less than one divisor, toward zero.
  lemma TruncDivError(a: int, b: int)
    requires b > 0
    ensures var e := a - b * TruncDiv(a, b); if a >= 0 then 0 <= e < b else -b < e <= 0
  {
    if a >= 0 {
      assert a == b * (a / b) + a % b;
    } else {
      assert -a == b * ((-a) / b) + (-a) % b;
      assert b * TruncDiv(a, b) == -(b * ((-a) / b));
    }
  }

  // A sum that lies within (-(lo + 1) m, (hi + 1) m), written as a multiple of m.
  lemma MultipleBetween(q: int, m: int, lo: int, hi: int)
    requires m > 0 && -((lo + 1) * m) < m * q < (hi + 1) * m
    ensures -lo <= q <= hi
  {
    if q <= -lo - 1 {
      MulMonotone(m, q, -lo - 1);
    }
    if q >= hi + 1 {
      MulMonotone(m, hi + 1, q);
    }
  }

  // The truncating rescale leaves a zero-sum row with a sum between -1 and 3.
  lemma RescaledRowSum(r: int, g: int, b: int, rgbBitDepth: nat, yuvBitDepth: nat)
    requires rgbBitDepth >= 2 && yuvBitDepth >= 1 && r + g + b == 0
    ensures -1 <= RescaleCoeff(r, rgbBitDepth, yuvBitDepth) + RescaleCoeff(g, rgbBitDepth, yuvBitDepth)
                  + RescaleCoeff(b, rgbBitDepth, yuvBitDepth) <= 3
  {
    var m, k, round := MaxY(rgbBitDepth), MaxY(yuvBitDepth), Pow2(rgbBitDepth - 1);
    assert m == 2 * round - 1 && round >= 2;
    assert r >= 0 || g >= 0 || b >= 0;
    RescaledSumOf(r, g, b, m, k, round, 0, 0);
  }

  // A row with sum -s, s at most one, and not all coefficients negative, scaled up by at
  // most the factor c.
  lemma RescaledSumOf(r: int, g: int, b: int, m: nat, k: nat, round: nat, s: int, c: int)
    requires m == 2 * round - 1 && round >= 2 && r + g + b == -s && (r >= 0 || g >= 0 || b >= 0)
    requires 0 <= s <= 1 && s * k <= c * m
    ensures -(1 + c) <= TruncDiv(r * k + round, m) + TruncDiv(g * k + round, m) + TruncDiv(b * k + round, m) <= 3
  {
    hide TruncDiv;
    Distributed(r, g, b, k);
    Scale(r, k);
    Scale(g, k);
    Scale(b, k);
    Scale(s, k);
    assert (r + g + b) * k == -(s * k);
    QuotientSum(r * k + round, g * k + round, b * k + round, m, round, s * k, c);
  }

  lemma Distributed(r: int, g: int, b: int, k: nat)
    ensures r * k + g * k + b * k == (r + g + b) * k
  {
  }

  // Three truncated quotients by m, not all of negative numbers.
  lemma QuotientSum(x: int, y: int, z: int, m: nat, round: nat, below: int, c: int)
    requires m == 2 * round - 1 && round >= 2 && (x >= 0 || y >= 0 || z >= 0)
    requires x + y + z == 3 * round - below && 0 <= below <= c * m
    ensures -(1 + c) <= TruncDiv(x, m) + TruncDiv(y, m) + TruncDiv(z, m) <= 3
  {
    hide TruncDiv;
    TruncDivError(x, m);
    TruncDivError(y, m);
    TruncDivError(z, m);
    var p, q, r := TruncDiv(x, m), TruncDiv(y, m), TruncDiv(z, m);
    assert m * (p + q + r) == m * p + m * q + m * r;
    assert (2 + c) * m == 2 * m + c * m;
    MultipleBetween(p + q + r, m, 1 + c, 3);
  }

  lemma Scale(x: int, k: nat)
    ensures x >= 0 ==> x * k >= 0
  {
  }

  // ---- Built-in matrices at every pair of depths ----

  predicate Depths(rgbBitDepth: nat, yuvBitDepth: nat) {
    && (rgbBitDepth == 8 || rgbBitDepth == 10 || rgbBitDepth == 12 || rgbBitDepth == 16)
    && (yuvBitDepth == 8 || yuvBitDepth == 10 || yuvBitDepth == 12)
  }

  // A factor that the rescale stays below.
  function ScaleFactor(rgbBitDepth: nat, yuvBitDepth: nat): nat {
    if rgbBitDepth == 8 && yuvBitDepth == 12 then 17
    else if rgbBitDepth < yuvBitDepth then 5
    else 1
  }

  lemma FactorBounds(rgbBitDepth: nat, yuvBitDepth: nat)
    requires Depths(rgbBitDepth, yuvBitDepth)
    ensures MaxY(yuvBitDepth) <= ScaleFactor(rgbBitDepth, yuvBitDepth) * MaxY(rgbBitDepth)
  {
    Pow2Values();
  }

  // The chroma rows of the built-in matrices, rescaled, sum to almost nothing.
  lemma BuiltInScaledSum(c: Coeffs, rgbBitDepth: nat, yuvBitDepth: nat)
    requires Depths(rgbBitDepth, yuvBitDepth) && -1 <= c.Sum() <= 0 && (c.r >= 0 || c.b >= 0)
    ensures -(1 + ScaleFactor(rgbBitDepth, yuvBitDepth)) <= ScaledRow(c, rgbBitDepth, yuvBitDepth).Sum() <= 3
  {
    hide TruncDiv, Pow2, Shift, PrecisionShift;
    if rgbBitDepth != yuvBitDepth {
      var m, k, round := MaxY(rgbBitDepth), MaxY(yuvBitDepth), Pow2(rgbBitDepth - 1);
      var factor := ScaleFactor(rgbBitDepth, yuvBitDepth);
      FactorBounds(rgbBitDepth, yuvBitDepth);
      Halves(rgbBitDepth);
      RescaledSumOf(c.r, c.g, c.b, m, k, round, -c.Sum(), factor);
    }
  }

  lemma Halves(bitDepth: nat)
    requires bitDepth >= 2
    ensures MaxY(bitDepth) == 2 * Pow2(bitDepth - 1) - 1 && Pow2(bitDepth - 1) >= 2
  {
  }

  // The most that dropping the luma can change.
  function OffsetError(rgbBitDepth: nat): nat {
    if rgbBitDepth == 16 then 3 else 1
  }

  // With any built-in matrix and any supported pair of depths, dropping the luma moves U and
  // V by at most one, by at most three for 16-bit input.
  lemma BuiltInOffsetError(t: MatrixType, rgbBitDepth: nat, yuvBitDepth: nat, r: int, g: int, b: int, w: nat)
    requires Depths(rgbBitDepth, yuvBitDepth)
    requires w <= MaxY(rgbBitDepth + PrecisionShift(rgbBitDepth))
    ensures var m, sfix := ScaledMatrix(GetConversionMatrix(t), rgbBitDepth, yuvBitDepth), PrecisionShift(rgbBitDepth);
            && Abs(Component(r + w, g + w, b + w, m.toU, sfix) - Component(r, g, b, m.toU, sfix)) <=
                OffsetError(rgbBitDepth)
            && Abs(Component(r + w, g + w, b + w, m.toV, sfix) - Component(r, g, b, m.toV, sfix)) <=
                OffsetError(rgbBitDepth)
  {
    hide Component, GetConversionMatrix, ScaledRow, OffsetError;
    var m := GetConversionMatrix(t);
    BuiltInRowSums(t);
    RowOffsetError(m.toU, rgbBitDepth, yuvBitDepth, r, g, b, w);
    RowOffsetError(m.toV, rgbBitDepth, yuvBitDepth, r, g, b, w);
  }

  lemma RowOffsetError(c: Coeffs, rgbBitDepth: nat, yuvBitDepth: nat, r: int, g: int, b: int, w: nat)
    requires Depths(rgbBitDepth, yuvBitDepth) && -1 <= c.Sum() <= 0 && (c.r >= 0 || c.b >= 0)
    requires w <= MaxY(rgbBitDepth + PrecisionShift(rgbBitDepth))
    ensures var row, sfix := ScaledRow(c, rgbBitDepth, yuvBitDepth), PrecisionShift(rgbBitDepth);
            Abs(Component(r + w, g + w, b + w, row, sfix) - Component(r, g, b, row, sfix)) <= OffsetError(rgbBitDepth)
  {
    hide Component, ScaledRow, CeilDiv, Abs, Pow2, OffsetError;
    var row, sfix := ScaledRow(c, rgbBitDepth, yuvBitDepth), PrecisionShift(rgbBitDepth);
    BuiltInScaledSum(c, rgbBitDepth, yuvBitDepth);
    DroppingTheOffset(r, g, b, w, row, sfix);
    SumTimesLuma(row.Sum(), rgbBitDepth, yuvBitDepth, w);
    CeilDivAtMost(Abs(row.Sum() * w), Pow2(16 + sfix), OffsetError(rgbBitDepth));
  }

  lemma SumTimesLuma(sum: int, rgbBitDepth: nat, yuvBitDepth: nat, w: nat)
    requires Depths(rgbBitDepth, yuvBitDepth) && -(1 + ScaleFactor(rgbBitDepth, yuvBitDepth)) <= sum <= 3
    requires w <= MaxY(rgbBitDepth + PrecisionShift(rgbBitDepth))
    ensures Abs(sum * w) <= OffsetError(rgbBitDepth) * Pow2(16 + PrecisionShift(rgbBitDepth))
  {
    Pow2Values();
    Pow2Add(16, 2);
    MulMonotone(w, sum, 3);
    MulMonotone(w, -(1 + ScaleFactor(rgbBitDepth, yuvBitDepth)), sum);
  }

  lemma CeilDivAtMost(n: int, d: int, e: int)
    requires d > 0 && n <= e * d
    ensures CeilDiv(n, d) <= e
  {
    DivMod(-n, d);
    var c := CeilDiv(n, d);
    assert d * c == -(d * ((-n) / d));
    MultipleAtMost(d, c, e, (-n) % d);
  }

  lemma MultipleAtMost(d: int, c: int, e: int, rest: int)
    requires d > 0 && d * c <= e * d + rest && rest < d
    ensures c <= e
  {
    if c >= e + 1 {
      MulMonotone(d, e + 1, c);
    }
  }
}
