// The gamma tables and the fixed-point interpolation over them.
module Gamma {
  import opened FixedPoint

  const TO_LINEAR_TAB_BITS := 10
  const FROM_LINEAR_TAB_BITS := 9
  const LINEAR_ONE := 65536

  // What table initialisation establishes: 2^bits + 1 samples of a monotone curve from
  // 0 to 65536 and one guard entry that repeats the last sample.
  ghost predicate ValidTable(tab: seq<int>, bits: nat) {
    && |tab| == Pow2(bits) + 2
    && tab[0] == 0
    && tab[Pow2(bits)] == LINEAR_ONE
    && tab[Pow2(bits) + 1] == LINEAR_ONE
    && forall i, j :: 0 <= i <= j < |tab| ==> tab[i] <= tab[j]
  }

  // One of the two loops of SharpYuvInitGammaTables. `curve` stands for the rounded
  // floating-point curve, which is not modelled.
  method InitTable(curve: nat -> int, bits: nat) returns (tab: array<int>)
    requires curve(0) == 0 && curve(Pow2(bits)) == LINEAR_ONE
    requires forall i: nat, j: nat :: i <= j <= Pow2(bits) ==> curve(i) <= curve(j)
    ensures fresh(tab) && ValidTable(tab[..], bits)
    ensures forall v :: 0 <= v <= Pow2(bits) ==> tab[v] == curve(v)
  {
    var size := Pow2(bits);
    tab := new int[size + 2];
    for v := 0 to size + 1
      invariant forall i :: 0 <= i < v ==> tab[i] == curve(i)
    {
      tab[v] := curve(v);
    }
    tab[size + 1] := tab[size];
  }

  // One interpolation cell: v0 at x = 0 rising towards v1 at x = step.
  function Lerp(v0: int, v1: int, x: int, step: int, half: int): int
    requires step > 0
  {
    v0 + ((v1 - v0) * x + half) / step
  }

  function Half(posShift: nat): int {
    if posShift > 0 then Pow2(posShift - 1) else 0
  }

  function TabPos(v: nat, posShift: nat): nat {
    QuotientNonNegative(v, Pow2(posShift));
    v / Pow2(posShift)
  }

  function Fraction(v: nat, posShift: nat): int {
    v - TabPos(v, posShift) * Pow2(posShift)
  }

  function FixedPointInterpolation(v: nat, tab: seq<int>, posShift: nat, valueShift: int): int
    requires TabPos(v, posShift) + 1 < |tab|
  {
    var pos := TabPos(v, posShift);
    Lerp(Shift(tab[pos], valueShift), Shift(tab[pos + 1], valueShift), Fraction(v, posShift),
         Pow2(posShift), Half(posShift))
  }

  // A cell is exact at its left end, never leaves its two entries, and is monotone.
  lemma LerpBounds(v0: int, v1: int, x: int, step: int, half: int)
    requires v0 <= v1 && 0 <= x < step && 0 <= half && 2 * half <= step
    ensures v0 <= Lerp(v0, v1, x, step, half) <= v1
    ensures x == 0 ==> Lerp(v0, v1, x, step, half) == v0
  {
    var d := v1 - v0;
    assert 0 <= d * x <= d * (step - 1) by {
      MulMonotone(d, 0, x);
      MulMonotone(d, x, step - 1);
    }
    DivBounds(d * x + half, d, step);
    if x == 0 {
      assert d * x + half == half;
      DivSmall(half, step);
    }
  }

  lemma DivSmall(n: int, step: int)
    requires 0 <= n < step
    ensures n / step == 0
  {
  }

  lemma DivBounds(n: int, d: int, step: int)
    requires 0 <= d && 0 < step && 0 <= n < d * step + step
    ensures 0 <= n / step <= d
  {
    var q := n / step;
    assert step * q + n % step == n;
    if q >= d + 1 {
      MulMonotone(step, d + 1, q);
      assert false;
    }
    if q <= -1 {
      MulMonotone(step, q, -1);
      assert false;
    }
  }

  lemma QuotientNonNegative(v: nat, step: nat)
    requires step > 0
    ensures v / step >= 0
  {
    if v / step <= -1 {
      MulMonotone(step, v / step, -1);
    }
  }

  lemma DivMonotone(a: int, b: int, step: int)
    requires a <= b && step > 0
    ensures a / step <= b / step
  {
    var qa, qb := a / step, b / step;
    assert a == step * qa + a % step && b == step * qb + b % step;
    if qa >= qb + 1 {
      MulMonotone(step, qb + 1, qa);
      assert false;
    }
  }

  lemma LerpMonotone(v0: int, v1: int, x: int, y: int, step: int, half: int)
    requires v0 <= v1 && 0 <= x <= y && 0 < step
    ensures Lerp(v0, v1, x, step, half) <= Lerp(v0, v1, y, step, half)
  {
    MulMonotone(v1 - v0, x, y);
    DivMonotone((v1 - v0) * x + half, (v1 - v0) * y + half, step);
  }

  lemma ShiftMonotone(a: int, b: int, shift: int)
    requires a <= b
    ensures Shift(a, shift) <= Shift(b, shift)
  {
    if shift >= 0 {
      MulMonotone(Pow2(shift), a, b);
    } else {
      DivMonotone(a, b, Pow2(-shift));
    }
  }

  lemma HalfOfStep(posShift: nat)
    ensures 0 <= Half(posShift) && 2 * Half(posShift) <= Pow2(posShift)
  {
  }

  ghost predicate Increasing(tab: seq<int>) {
    forall i, j :: 0 <= i <= j < |tab| ==> tab[i] <= tab[j]
  }

  lemma FractionInCell(v: nat, posShift: nat)
    ensures 0 <= Fraction(v, posShift) < Pow2(posShift)
  {
    assert v == Pow2(posShift) * TabPos(v, posShift) + v % Pow2(posShift);
  }

  lemma TabPosMonotone(v: nat, v': nat, posShift: nat)
    requires v <= v'
    ensures TabPos(v, posShift) <= TabPos(v', posShift)
    ensures TabPos(v, posShift) == TabPos(v', posShift) ==> Fraction(v, posShift) <= Fraction(v', posShift)
  {
    DivMonotone(v, v', Pow2(posShift));
  }

  // Every interpolated value lies between the two entries of its cell, and a value on
  // the grid is the entry itself.
  lemma InterpolationBracketed(v: nat, tab: seq<int>, posShift: nat, valueShift: int)
    requires TabPos(v, posShift) + 1 < |tab| && Increasing(tab)
    ensures var pos := TabPos(v, posShift);
            && Shift(tab[pos], valueShift) <= FixedPointInterpolation(v, tab, posShift, valueShift)
               <= Shift(tab[pos + 1], valueShift)
            && (Fraction(v, posShift) == 0 ==>
                  FixedPointInterpolation(v, tab, posShift, valueShift) == Shift(tab[pos], valueShift))
  {
    hide Shift, Lerp, Half, Pow2, TabPos, Fraction;
    var pos := TabPos(v, posShift);
    ShiftMonotone(tab[pos], tab[pos + 1], valueShift);
    HalfOfStep(posShift);
    FractionInCell(v, posShift);
    LerpBounds(Shift(tab[pos], valueShift), Shift(tab[pos + 1], valueShift), Fraction(v, posShift),
               Pow2(posShift), Half(posShift));
  }

  // Monotone over the whole table, across cell boundaries included.
  lemma InterpolationMonotone(v: nat, v': nat, tab: seq<int>, posShift: nat, valueShift: int)
    requires v <= v' && Increasing(tab)
    requires TabPos(v, posShift) + 1 < |tab| && TabPos(v', posShift) + 1 < |tab|
    ensures FixedPointInterpolation(v, tab, posShift, valueShift)
            <= FixedPointInterpolation(v', tab, posShift, valueShift)
  {
    hide Shift, Lerp, Half, Pow2, TabPos, Fraction;
    var pos, pos' := TabPos(v, posShift), TabPos(v', posShift);
    TabPosMonotone(v, v', posShift);
    if pos == pos' {
      ShiftMonotone(tab[pos], tab[pos + 1], valueShift);
      FractionInCell(v, posShift);
      LerpMonotone(Shift(tab[pos], valueShift), Shift(tab[pos + 1], valueShift),
                   Fraction(v, posShift), Fraction(v', posShift), Pow2(posShift), Half(posShift));
    } else {
      InterpolationBracketed(v, tab, posShift, valueShift);
      InterpolationBracketed(v', tab, posShift, valueShift);
      ShiftMonotone(tab[pos + 1], tab[pos'], valueShift);
    }
  }

  // A value x of the way into cell pos is the point of the straight line between the two
  // entries of the cell, to the nearest.
  lemma InterpolationRounds(pos: nat, x: nat, tab: seq<int>, posShift: nat, valueShift: int)
    requires pos + 1 < |tab| && x < Pow2(posShift)
    ensures var step := Pow2(posShift);
            var v := pos * step + x;
            var line := Shift(tab[pos], valueShift) * (step - x) + Shift(tab[pos + 1], valueShift) * x;
            TabPos(v, posShift) == pos && RoundsTo(line, step, FixedPointInterpolation(v, tab, posShift, valueShift))
  {
    hide Shift, Lerp, Half, Pow2, RoundsTo;
    var step := Pow2(posShift);
    CellOf(pos, x, step);
    assert TabPos(pos * step + x, posShift) == pos && Fraction(pos * step + x, posShift) == x;
    HalfIs(posShift);
    hide TabPos, Fraction;
    LerpRounds(Shift(tab[pos], valueShift), Shift(tab[pos + 1], valueShift), x, step, Half(posShift));
  }

  lemma HalfIs(posShift: nat)
    ensures Half(posShift) >= 0
    ensures Pow2(posShift) == 2 * Half(posShift) || (Pow2(posShift) == 1 && Half(posShift) == 0)
  {
  }

  lemma CellOf(pos: nat, x: nat, step: nat)
    requires x < step
    ensures (pos * step + x) / step == pos
  {
    DivMonotone(pos * step, pos * step + x, step);
    ExactQuotient(pos * step, pos, step);
    DivBounds(pos * step + x, pos, step);
  }

  lemma LerpRounds(v0: int, v1: int, x: int, step: nat, half: nat)
    requires step > 0 && (step == 2 * half || (step == 1 && half == 0))
    ensures RoundsTo(v0 * (step - x) + v1 * x, step, Lerp(v0, v1, x, step, half))
  {
    hide RoundsTo;
    var n := (v1 - v0) * x;
    RoundingIs(n, step, half, (n + half) / step);
    RoundingMoves(n, step, (n + half) / step, v0);
    assert n + step * v0 == v0 * (step - x) + v1 * x;
  }

  lemma RoundingMoves(n: int, d: int, q: int, w: int)
    requires RoundsTo(n, d, q)
    ensures RoundsTo(n + d * w, d, w + q)
  {
    assert d * (w + q) == d * w + d * q;
  }

  // The transfer functions. The floating-point curves are uninterpreted functions; only
  // the integer types they are returned in are known.
  datatype Transfer =
    | Srgb(toTab: seq<int>, fromTab: seq<int>)
    | Linear
    | Other(to: (int, nat) -> int, from: (int, nat) -> int)
  {
    ghost predicate Valid() {
      Srgb? ==> ValidTable(toTab, TO_LINEAR_TAB_BITS) && ValidTable(fromTab, FROM_LINEAR_TAB_BITS)
    }

    // A curve whose linear values are not negative and small enough for four of them to be
    // summed in 32 bits, and which takes every linear value up to its own highest back to at
    // most 2^depth. sRGB and linear always are; SMPTE 428, whose linear values go beyond
    // 65536, is not excluded.
    ghost predicate Tame(bitDepth: nat) {
      Other? ==>
        && (forall v :: 0 <= v <= MaxY(bitDepth) ==> 0 <= to(v, bitDepth) <= 0x3FFF_FFFF)
        && (forall l :: 0 <= l <= LinearMax(bitDepth) ==> 0 <= from(l, bitDepth) <= Pow2(bitDepth))
    }

    ghost predicate Monotone(bitDepth: nat) {
      Other? ==>
        && (forall v, v' :: 0 <= v <= v' <= MaxY(bitDepth) ==> to(v, bitDepth) <= to(v', bitDepth))
        && (forall l, l' :: 0 <= l <= l' <= LinearMax(bitDepth) ==> from(l, bitDepth) <= from(l', bitDepth))
    }

    // The largest linear value this transfer produces.
    function LinearMax(bitDepth: nat): nat {
      match this
      case Srgb(_, _) => LINEAR_ONE
      case Linear => MaxY(bitDepth)
      case Other(to, _) => Highest(to, bitDepth, MaxY(bitDepth))
    }
  }

  // The largest value of a curve on the samples up to v.
  function Highest(to: (int, nat) -> int, bitDepth: nat, v: nat): nat {
    var here: nat := if to(v, bitDepth) < 0 then 0 else to(v, bitDepth);
    if v == 0 || Highest(to, bitDepth, v - 1) < here then here else Highest(to, bitDepth, v - 1)
  }

  lemma {:induction false} HighestBounds(to: (int, nat) -> int, bitDepth: nat, top: nat, v: nat)
    requires v <= top
    ensures to(v, bitDepth) <= Highest(to, bitDepth, top)
  {
    if v < top {
      HighestBounds(to, bitDepth, top - 1, v);
    }
  }

  lemma {:induction false} HighestAttained(to: (int, nat) -> int, bitDepth: nat, top: nat) returns (v: nat)
    requires forall u :: 0 <= u <= top ==> 0 <= to(u, bitDepth)
    ensures v <= top && to(v, bitDepth) == Highest(to, bitDepth, top)
  {
    v := top;
    if top > 0 && to(top, bitDepth) != Highest(to, bitDepth, top) {
      v := HighestAttained(to, bitDepth, top - 1);
    }
  }

  predicate WorkingDepth(bitDepth: nat) {
    1 <= bitDepth <= 14
  }

  // The table position of any sample, guard entry included, is inside the table.
  lemma ToLinearIndex(v: nat, bitDepth: nat)
    requires TO_LINEAR_TAB_BITS <= bitDepth && v <= Pow2(bitDepth)
    ensures TabPos(v, bitDepth - TO_LINEAR_TAB_BITS) <= Pow2(TO_LINEAR_TAB_BITS)
  {
    var step := Pow2(bitDepth - TO_LINEAR_TAB_BITS);
    Pow2Add(TO_LINEAR_TAB_BITS, bitDepth - TO_LINEAR_TAB_BITS);
    DivBounds(v, Pow2(TO_LINEAR_TAB_BITS), step);
  }

  // Which samples at all: the index and the guard entry after it are inside the table exactly
  // for samples less than one table step beyond 2^depth.
  lemma ToLinearIndexExactly(v: nat, bitDepth: nat)
    requires TO_LINEAR_TAB_BITS <= bitDepth
    ensures TabPos(v, bitDepth - TO_LINEAR_TAB_BITS) + 1 < Pow2(TO_LINEAR_TAB_BITS) + 2
            <==> v < Pow2(bitDepth) + Pow2(bitDepth - TO_LINEAR_TAB_BITS)
  {
    var shift := bitDepth - TO_LINEAR_TAB_BITS;
    Pow2Add(TO_LINEAR_TAB_BITS, shift);
    QuotientBelow(v, Pow2(TO_LINEAR_TAB_BITS), Pow2(shift));
  }

  lemma QuotientBelow(v: nat, n: nat, step: nat)
    requires step > 0
    ensures v / step <= n <==> v < n * step + step
  {
    if v < n * step + step {
      DivBounds(v, n, step);
    } else {
      DivMonotone((n + 1) * step, v, step);
      ExactQuotient((n + 1) * step, n + 1, step);
    }
  }

  lemma ToLinearDirectIndex(v: nat, bitDepth: nat)
    requires bitDepth < TO_LINEAR_TAB_BITS && v <= Pow2(bitDepth)
    ensures 0 <= Shift(v, TO_LINEAR_TAB_BITS - bitDepth) <= Pow2(TO_LINEAR_TAB_BITS)
  {
    hide Pow2;
    Pow2Add(bitDepth, TO_LINEAR_TAB_BITS - bitDepth);
    MulMonotone(Pow2(TO_LINEAR_TAB_BITS - bitDepth), v, Pow2(bitDepth));
  }

  lemma FromLinearIndex(v: nat)
    requires v <= LINEAR_ONE
    ensures TabPos(v, 16 - FROM_LINEAR_TAB_BITS) <= Pow2(FROM_LINEAR_TAB_BITS)
  {
    Pow2Values();
  }

  function ToLinearSrgb(v: nat, bitDepth: nat, tab: seq<int>): (r: nat)
    requires WorkingDepth(bitDepth) && v <= MaxY(bitDepth)
    requires ValidTable(tab, TO_LINEAR_TAB_BITS)
    ensures r <= LINEAR_ONE
  {
    hide FixedPointInterpolation;
    var shift := TO_LINEAR_TAB_BITS - bitDepth;
    if shift > 0 then
      ToLinearDirectIndex(v, bitDepth);
      tab[Shift(v, shift)]
    else
      ToLinearIndex(v, bitDepth);
      ToLinearInterpolated(v, -shift, tab);
      FixedPointInterpolation(v, tab, -shift, 0)
  }

  function FromLinearSrgb(v: nat, bitDepth: nat, tab: seq<int>): (r: nat)
    requires WorkingDepth(bitDepth) && v <= LINEAR_ONE
    requires ValidTable(tab, FROM_LINEAR_TAB_BITS)
    ensures r <= Pow2(bitDepth) && r <= 16384
  {
    hide FixedPointInterpolation, Pow2;
    FromLinearSrgbRange(v, bitDepth, tab);
    U16(FixedPointInterpolation(v, tab, 16 - FROM_LINEAR_TAB_BITS, bitDepth - 16))
  }

  // A uint32 result.
  function GammaToLinear(v: nat, bitDepth: nat, t: Transfer): (r: nat)
    requires WorkingDepth(bitDepth) && v <= MaxY(bitDepth) && t.Valid()
    ensures r <= 0xFFFF_FFFF
    ensures !t.Other? ==> r <= t.LinearMax(bitDepth)
  {
    match t
    case Srgb(tab, _) =>
      ToLinearSrgb(v, bitDepth, tab)
    case Linear =>
      Pow2Monotone(bitDepth, 14);
      Pow2Values();
      v
    case Other(to, _) =>
      U32(to(v, bitDepth))
  }

  // A uint16 result.
  function LinearToGamma(v: nat, bitDepth: nat, t: Transfer): (r: nat)
    requires WorkingDepth(bitDepth) && t.Valid() && (t.Srgb? ==> v <= LINEAR_ONE)
    ensures r <= 0xFFFF
  {
    match t
    case Srgb(_, tab) => FromLinearSrgb(v, bitDepth, tab)
    case Linear => U16(v)
    case Other(_, from) => U16(from(v, bitDepth))
  }

  lemma TableBounds(tab: seq<int>, bits: nat, pos: nat)
    requires ValidTable(tab, bits) && pos <= Pow2(bits)
    ensures 0 <= tab[pos] <= tab[pos + 1] <= LINEAR_ONE
  {
    assert tab[0] <= tab[pos] && tab[pos + 1] <= tab[Pow2(bits) + 1];
  }

  lemma ToLinearInterpolated(v: nat, posShift: nat, tab: seq<int>)
    requires ValidTable(tab, TO_LINEAR_TAB_BITS) && TabPos(v, posShift) <= Pow2(TO_LINEAR_TAB_BITS)
    ensures 0 <= FixedPointInterpolation(v, tab, posShift, 0) <= LINEAR_ONE
  {
    var pos := TabPos(v, posShift);
    TableBounds(tab, TO_LINEAR_TAB_BITS, pos);
    ShiftByZero(tab, pos);
    assert Increasing(tab);
    hide *;
    InterpolationBracketed(v, tab, posShift, 0);
  }

  lemma ShiftByZero(tab: seq<int>, pos: nat)
    requires pos + 1 < |tab|
    ensures Shift(tab[pos], 0) == tab[pos] && Shift(tab[pos + 1], 0) == tab[pos + 1]
  {
  }

  lemma FromLinearSrgbRange(v: nat, bitDepth: nat, tab: seq<int>)
    requires WorkingDepth(bitDepth) && v <= LINEAR_ONE
    requires ValidTable(tab, FROM_LINEAR_TAB_BITS)
    ensures TabPos(v, 16 - FROM_LINEAR_TAB_BITS) + 1 < |tab|
    ensures 0 <= FixedPointInterpolation(v, tab, 16 - FROM_LINEAR_TAB_BITS, bitDepth - 16) <= Pow2(bitDepth) <= 16384
  {
    FromLinearIndex(v);
    InterpolationBracketed(v, tab, 16 - FROM_LINEAR_TAB_BITS, bitDepth - 16);
    var pos := TabPos(v, 16 - FROM_LINEAR_TAB_BITS);
    ShiftMonotone(tab[0], tab[pos], bitDepth - 16);
    ShiftMonotone(tab[pos + 1], tab[Pow2(FROM_LINEAR_TAB_BITS) + 1], bitDepth - 16);
    ShiftOfOne(bitDepth);
    Pow2AtMost14(bitDepth);
  }

  lemma ExactQuotient(n: int, q: int, step: int)
    requires step > 0 && n == q * step
    ensures n / step == q
  {
    var p := n / step;
    assert n == step * p + n % step;
    if p < q {
      MulMonotone(step, p, q - 1);
    } else if p > q {
      MulMonotone(step, q + 1, p);
    }
  }

  lemma ShiftOfOne(bitDepth: nat)
    requires WorkingDepth(bitDepth)
    ensures Shift(0, bitDepth - 16) == 0 && Shift(LINEAR_ONE, bitDepth - 16) == Pow2(bitDepth)
  {
    Pow2Add(bitDepth, 16 - bitDepth);
    Pow2Values();
    ExactQuotient(LINEAR_ONE, Pow2(bitDepth), Pow2(16 - bitDepth));
    DivSmall(0, Pow2(16 - bitDepth));
    hide Pow2;
  }

  lemma Pow2AtMost14(bitDepth: nat)
    requires bitDepth <= 14
    ensures Pow2(bitDepth) <= 16384
  {
    Pow2Monotone(bitDepth, 14);
    Pow2Values();
  }

  // Tame curves keep linear light within their own highest value, four times over in 32 bits ...
  lemma ToLinearInRange(v: nat, bitDepth: nat, t: Transfer)
    requires WorkingDepth(bitDepth) && t.Valid() && t.Tame(bitDepth) && v <= MaxY(bitDepth)
    ensures GammaToLinear(v, bitDepth, t) <= t.LinearMax(bitDepth) <= 0x3FFF_FFFF
    ensures t.Other? ==> GammaToLinear(v, bitDepth, t) == t.to(v, bitDepth)
  {
    hide ToLinearSrgb, Pow2, Highest;
    Pow2AtMost14(bitDepth);
    if t.Other? {
      HighestBounds(t.to, bitDepth, MaxY(bitDepth), v);
      var top := HighestAttained(t.to, bitDepth, MaxY(bitDepth));
    }
  }

  // ... and samples within [0, 2^depth].
  lemma FromLinearInRange(l: nat, bitDepth: nat, t: Transfer)
    requires WorkingDepth(bitDepth) && t.Valid() && t.Tame(bitDepth) && l <= t.LinearMax(bitDepth)
    ensures LinearToGamma(l, bitDepth, t) <= Pow2(bitDepth) <= 16384
  {
    hide FromLinearSrgb, Pow2, ValidTable;
    match t
    case Srgb(_, _) => Pow2AtMost14(bitDepth);
    case Linear => Pow2AtMost14(bitDepth);
    case Other(_, from) =>
      Pow2AtMost14(bitDepth);
      assert U16(from(l, bitDepth)) == from(l, bitDepth);
  }

  lemma GammaToLinearMonotone(v: nat, v': nat, bitDepth: nat, t: Transfer)
    requires WorkingDepth(bitDepth) && t.Valid() && t.Tame(bitDepth) && t.Monotone(bitDepth)
    requires v <= v' <= MaxY(bitDepth)
    ensures GammaToLinear(v, bitDepth, t) <= GammaToLinear(v', bitDepth, t)
  {
    hide FixedPointInterpolation, Pow2;
    if t.Srgb? && bitDepth < TO_LINEAR_TAB_BITS {
      ToLinearDirectIndex(v, bitDepth);
      ToLinearDirectIndex(v', bitDepth);
      ShiftMonotone(v, v', TO_LINEAR_TAB_BITS - bitDepth);
    } else if t.Srgb? {
      ToLinearIndex(v, bitDepth);
      ToLinearIndex(v', bitDepth);
      InterpolationMonotone(v, v', t.toTab, bitDepth - TO_LINEAR_TAB_BITS, 0);
    }
  }

  lemma LinearToGammaMonotone(l: nat, l': nat, bitDepth: nat, t: Transfer)
    requires WorkingDepth(bitDepth) && t.Valid() && t.Tame(bitDepth) && t.Monotone(bitDepth)
    requires l <= l' <= t.LinearMax(bitDepth)
    ensures LinearToGamma(l, bitDepth, t) <= LinearToGamma(l', bitDepth, t)
  {
    hide FixedPointInterpolation, Pow2;
    Pow2AtMost14(bitDepth);
    if t.Srgb? {
      FromLinearIndex(l);
      FromLinearIndex(l');
      InterpolationMonotone(l, l', t.fromTab, 16 - FROM_LINEAR_TAB_BITS, bitDepth - 16);
      FromLinearSrgbRange(l, bitDepth, t.fromTab);
      FromLinearSrgbRange(l', bitDepth, t.fromTab);
    }
  }

  // ScaleDown: the gamma-aware mean of four samples.
  function ScaleDown(a: nat, b: nat, c: nat, d: nat, bitDepth: nat, t: Transfer): (r: nat)
    requires WorkingDepth(bitDepth) && t.Valid()
    requires a <= MaxY(bitDepth) && b <= MaxY(bitDepth) && c <= MaxY(bitDepth) && d <= MaxY(bitDepth)
    ensures r <= 0xFFFF
  {
    LinearToGamma(LinearMean(a, b, c, d, bitDepth, t), bitDepth, t)
  }

  function LinearMean(a: nat, b: nat, c: nat, d: nat, bitDepth: nat, t: Transfer): (r: nat)
    requires WorkingDepth(bitDepth) && t.Valid()
    requires a <= MaxY(bitDepth) && b <= MaxY(bitDepth) && c <= MaxY(bitDepth) && d <= MaxY(bitDepth)
    ensures !t.Other? ==> r <= t.LinearMax(bitDepth)
  {
    Pow2AtMost14(bitDepth);
    U32(GammaToLinear(a, bitDepth, t) + GammaToLinear(b, bitDepth, t)
        + GammaToLinear(c, bitDepth, t) + GammaToLinear(d, bitDepth, t) + 2) / 4
  }

  // The linear-light luma of one pixel, back in the gamma domain.
  function LumaOf(r: nat, g: nat, b: nat, bitDepth: nat, t: Transfer): (y: nat)
    requires WorkingDepth(bitDepth) && t.Valid()
    requires r <= MaxY(bitDepth) && g <= MaxY(bitDepth) && b <= MaxY(bitDepth)
    ensures y <= 0xFFFF
  {
    LinearToGamma(LinearLuma(r, g, b, bitDepth, t), bitDepth, t)
  }

  function LinearLuma(r: nat, g: nat, b: nat, bitDepth: nat, t: Transfer): (l: nat)
    requires WorkingDepth(bitDepth) && t.Valid()
    requires r <= MaxY(bitDepth) && g <= MaxY(bitDepth) && b <= MaxY(bitDepth)
    ensures !t.Other? ==> l <= t.LinearMax(bitDepth)
  {
    var R, G, B := GammaToLinear(r, bitDepth, t), GammaToLinear(g, bitDepth, t), GammaToLinear(b, bitDepth, t);
    var top := if t.Other? then 0xFFFF_FFFF else t.LinearMax(bitDepth);
    GrayRange(R, G, B, 0, top);
    RGBToGray(R, G, B)
  }

  // ---- What the curves compute ----

  // A curve of one's own is called as it is.
  lemma OtherCurve(v: nat, l: nat, bitDepth: nat, t: Transfer)
    requires WorkingDepth(bitDepth) && t.Other? && t.Tame(bitDepth) && v <= MaxY(bitDepth) && l <= t.LinearMax(bitDepth)
    ensures GammaToLinear(v, bitDepth, t) == t.to(v, bitDepth) && LinearToGamma(l, bitDepth, t) == t.from(l, bitDepth)
  {
    hide Pow2, Highest;
    Pow2AtMost14(bitDepth);
    ToLinearInRange(v, bitDepth, t);
  }

  // At 10 bits and more a sample is looked up between the two table entries around it ...
  lemma SrgbToLinear(pos: nat, x: nat, bitDepth: nat, t: Transfer)
    requires t.Srgb? && t.Valid() && 10 <= bitDepth <= 14 && x < Pow2(bitDepth - 10)
    requires pos * Pow2(bitDepth - 10) + x <= MaxY(bitDepth)
    ensures pos < 1024
    ensures var step := Pow2(bitDepth - 10);
            RoundsTo(t.toTab[pos] * (step - x) + t.toTab[pos + 1] * x, step,
                     GammaToLinear(pos * step + x, bitDepth, t))
  {
    hide FixedPointInterpolation, RoundsTo, Shift;
    Pow2Add(10, bitDepth - 10);
    Pow2Values();
    hide Pow2;
    var step := Pow2(bitDepth - 10);
    if pos >= 1024 {
      MulMonotone(step, 1024, pos);
    }
    InterpolationRounds(pos, x, t.toTab, bitDepth - 10, 0);
    ShiftByZero(t.toTab, pos);
  }

  // ... and at fewer bits, where every sample is on the grid, taken from the table.
  lemma SrgbToLinearDirect(v: nat, bitDepth: nat, t: Transfer)
    requires t.Srgb? && t.Valid() && 1 <= bitDepth < 10 && v <= MaxY(bitDepth)
    ensures 0 <= v * Pow2(10 - bitDepth) < 1024
    ensures GammaToLinear(v, bitDepth, t) == t.toTab[v * Pow2(10 - bitDepth)]
  {
    Pow2Add(bitDepth, 10 - bitDepth);
    Pow2Values();
    hide Pow2;
    MulMonotone(Pow2(10 - bitDepth), v, MaxY(bitDepth));
  }

  // Back, the entries are taken to the working depth first, rounding down.
  lemma SrgbToGamma(pos: nat, x: nat, bitDepth: nat, t: Transfer, e0: int, e1: int)
    requires t.Srgb? && t.Valid() && WorkingDepth(bitDepth) && x < 128 && 128 * pos + x <= LINEAR_ONE
    requires pos + 1 < |t.fromTab|
    requires var unit := Pow2(16 - bitDepth);
             && unit * e0 <= t.fromTab[pos] < unit * e0 + unit && unit * e1 <= t.fromTab[pos + 1] < unit * e1 + unit
    ensures RoundsTo(e0 * (128 - x) + e1 * x, 128, LinearToGamma(128 * pos + x, bitDepth, t))
  {
    hide FixedPointInterpolation, RoundsTo;
    Pow2Values();
    hide Pow2;
    InterpolationRounds(pos, x, t.fromTab, 7, bitDepth - 16);
    FloorIsShift(t.fromTab[pos], 16 - bitDepth, e0);
    FloorIsShift(t.fromTab[pos + 1], 16 - bitDepth, e1);
    FromLinearSrgbRange(128 * pos + x, bitDepth, t.fromTab);
  }

  // Half way through the first cell, with the table's first entries 0 and 1646 at 10 bits: 12.5
  // is rounded up.
  lemma HalfwayRoundsUp(t: Transfer)
    requires t.Srgb? && t.Valid() && t.fromTab[0] == 0 && t.fromTab[1] == 1646
    ensures LinearToGamma(64, 10, t) == 13
  {
    hide LinearToGamma;
    Pow2Values();
    hide Pow2;
    SrgbToGamma(0, 64, 10, t, 0, 25);
  }

  lemma FloorIsShift(v: int, n: int, q: int)
    requires n >= 0 && Pow2(n) * q <= v < Pow2(n) * q + Pow2(n)
    ensures Shift(v, -n) == q
  {
    hide Pow2, Shift;
    ShiftIs(v, n);
    var p := Shift(v, -n);
    if p < q {
      MulMonotone(Pow2(n), p + 1, q);
    } else if q < p {
      MulMonotone(Pow2(n), q + 1, p);
    }
  }

  // The mean of four samples is taken in linear light: it is what the curve makes of a
  // quarter of the sum of their linear values, to the nearest.
  lemma MeanInLinearLight(a: nat, b: nat, c: nat, d: nat, bitDepth: nat, t: Transfer, l: nat)
    requires WorkingDepth(bitDepth) && t.Valid() && t.Tame(bitDepth)
    requires a <= MaxY(bitDepth) && b <= MaxY(bitDepth) && c <= MaxY(bitDepth) && d <= MaxY(bitDepth)
    requires RoundsTo(GammaToLinear(a, bitDepth, t) + GammaToLinear(b, bitDepth, t) + GammaToLinear(c, bitDepth, t)
                      + GammaToLinear(d, bitDepth, t), 4, l)
    ensures l <= t.LinearMax(bitDepth) && ScaleDown(a, b, c, d, bitDepth, t) == LinearToGamma(l, bitDepth, t)
  {
    hide GammaToLinear, LinearToGamma, Pow2, Transfer.Tame;
    MeanRange(a, b, c, d, bitDepth, t);
  }

  // So blocks of as much light have the same mean ...
  lemma SameLightSameMean(a: nat, b: nat, c: nat, d: nat, a': nat, b': nat, c': nat, d': nat, bitDepth: nat,
                          t: Transfer)
    requires WorkingDepth(bitDepth) && t.Valid() && t.Tame(bitDepth)
    requires a <= MaxY(bitDepth) && b <= MaxY(bitDepth) && c <= MaxY(bitDepth) && d <= MaxY(bitDepth)
    requires a' <= MaxY(bitDepth) && b' <= MaxY(bitDepth) && c' <= MaxY(bitDepth) && d' <= MaxY(bitDepth)
    requires GammaToLinear(a, bitDepth, t) + GammaToLinear(b, bitDepth, t) + GammaToLinear(c, bitDepth, t)
             + GammaToLinear(d, bitDepth, t) ==
             GammaToLinear(a', bitDepth, t) + GammaToLinear(b', bitDepth, t) + GammaToLinear(c', bitDepth, t)
             + GammaToLinear(d', bitDepth, t)
    ensures ScaleDown(a, b, c, d, bitDepth, t) == ScaleDown(a', b', c', d', bitDepth, t)
  {
    hide GammaToLinear, LinearToGamma, Pow2, Transfer.Tame;
    var sum := GammaToLinear(a, bitDepth, t) + GammaToLinear(b, bitDepth, t) + GammaToLinear(c, bitDepth, t)
               + GammaToLinear(d, bitDepth, t);
    MeanInLinearLight(a, b, c, d, bitDepth, t, (sum + 2) / 4);
    MeanInLinearLight(a', b', c', d', bitDepth, t, (sum + 2) / 4);
  }

  // ... and one of as much light as four samples v the round trip of v.
  lemma MeanOfSameLight(a: nat, b: nat, c: nat, d: nat, v: nat, bitDepth: nat, t: Transfer)
    requires WorkingDepth(bitDepth) && t.Valid() && t.Tame(bitDepth) && v <= MaxY(bitDepth)
    requires a <= MaxY(bitDepth) && b <= MaxY(bitDepth) && c <= MaxY(bitDepth) && d <= MaxY(bitDepth)
    requires GammaToLinear(a, bitDepth, t) + GammaToLinear(b, bitDepth, t) + GammaToLinear(c, bitDepth, t)
             + GammaToLinear(d, bitDepth, t) == 4 * GammaToLinear(v, bitDepth, t)
    ensures ScaleDown(a, b, c, d, bitDepth, t) == RoundTrip(v, bitDepth, t)
  {
    hide GammaToLinear, LinearToGamma, Pow2, Transfer.Tame;
    MeanInLinearLight(a, b, c, d, bitDepth, t, GammaToLinear(v, bitDepth, t));
  }

  // The luma is weighted in linear light too.
  lemma LumaInLinearLight(r: nat, g: nat, b: nat, bitDepth: nat, t: Transfer, l: nat)
    requires WorkingDepth(bitDepth) && t.Valid() && t.Tame(bitDepth)
    requires r <= MaxY(bitDepth) && g <= MaxY(bitDepth) && b <= MaxY(bitDepth)
    requires RoundsTo(13933 * GammaToLinear(r, bitDepth, t) + 46871 * GammaToLinear(g, bitDepth, t)
                      + 4732 * GammaToLinear(b, bitDepth, t), 65536, l)
    ensures l <= t.LinearMax(bitDepth) && LumaOf(r, g, b, bitDepth, t) == LinearToGamma(l, bitDepth, t)
  {
    hide GammaToLinear, LinearToGamma, Pow2, Transfer.Tame;
    MeanAndLumaRange(r, g, b, 0, bitDepth, t);
  }

  // Blocks and pixels of one value come back as its round trip.
  lemma LumaOfGray(v: nat, bitDepth: nat, t: Transfer)
    requires WorkingDepth(bitDepth) && t.Valid() && t.Tame(bitDepth) && v <= MaxY(bitDepth)
    ensures LumaOf(v, v, v, bitDepth, t) == RoundTrip(v, bitDepth, t)
  {
    hide GammaToLinear, LinearToGamma, Pow2, Transfer.Tame;
    LumaInLinearLight(v, v, v, bitDepth, t, GammaToLinear(v, bitDepth, t));
  }

  // Every value fed back through the curves is at most the highest the curve itself gives,
  // and comes back as at most 2^depth.
  lemma MeanAndLumaRange(a: nat, b: nat, c: nat, d: nat, bitDepth: nat, t: Transfer)
    requires WorkingDepth(bitDepth) && t.Valid() && t.Tame(bitDepth)
    requires a <= MaxY(bitDepth) && b <= MaxY(bitDepth) && c <= MaxY(bitDepth) && d <= MaxY(bitDepth)
    ensures LinearMean(a, b, c, d, bitDepth, t) <= t.LinearMax(bitDepth)
            && ScaleDown(a, b, c, d, bitDepth, t) <= Pow2(bitDepth)
    ensures LinearLuma(a, b, c, bitDepth, t) <= t.LinearMax(bitDepth) && LumaOf(a, b, c, bitDepth, t) <= Pow2(bitDepth)
  {
    hide ToLinearSrgb, FromLinearSrgb, Pow2;
    ToLinearInRange(a, bitDepth, t);
    ToLinearInRange(b, bitDepth, t);
    ToLinearInRange(c, bitDepth, t);
    ToLinearInRange(d, bitDepth, t);
    GrayRange(GammaToLinear(a, bitDepth, t), GammaToLinear(b, bitDepth, t), GammaToLinear(c, bitDepth, t), 0,
        t.LinearMax(bitDepth));
    FromLinearInRange(LinearMean(a, b, c, d, bitDepth, t), bitDepth, t);
    FromLinearInRange(LinearLuma(a, b, c, bitDepth, t), bitDepth, t);
  }

  // The nominal bound of 65536 on what is fed back holds exactly for the curves that never
  // exceed it themselves: the mean of four equal samples is the curve's own value.
  lemma FeedbackWithinOne(bitDepth: nat, t: Transfer)
    requires WorkingDepth(bitDepth) && t.Valid() && t.Tame(bitDepth)
    ensures (forall a: nat, b: nat, c: nat, d: nat ::
               a <= MaxY(bitDepth) && b <= MaxY(bitDepth) && c <= MaxY(bitDepth) && d <= MaxY(bitDepth)
               ==> LinearMean(a, b, c, d, bitDepth, t) <= LINEAR_ONE)
            <==> t.LinearMax(bitDepth) <= LINEAR_ONE
  {
    hide GammaToLinear, LinearMean, Pow2, Transfer.Tame;
    if t.LinearMax(bitDepth) <= LINEAR_ONE {
      forall a: nat, b: nat, c: nat, d: nat |
        a <= MaxY(bitDepth) && b <= MaxY(bitDepth) && c <= MaxY(bitDepth) && d <= MaxY(bitDepth)
        ensures LinearMean(a, b, c, d, bitDepth, t) <= LINEAR_ONE
      {
        MeanRange(a, b, c, d, bitDepth, t);
      }
    } else {
      var v := HighestSample(bitDepth, t);
      MeanOfEqual(v, bitDepth, t);
      assert LinearMean(v, v, v, v, bitDepth, t) > LINEAR_ONE;
    }
  }

  lemma HighestSample(bitDepth: nat, t: Transfer) returns (v: nat)
    requires WorkingDepth(bitDepth) && t.Valid() && t.Tame(bitDepth) && t.LinearMax(bitDepth) > LINEAR_ONE
    ensures v <= MaxY(bitDepth) && GammaToLinear(v, bitDepth, t) == t.LinearMax(bitDepth)
  {
    hide ToLinearSrgb, Highest, Pow2;
    Pow2AtMost14(bitDepth);
    assert t.Other?;
    v := HighestAttained(t.to, bitDepth, MaxY(bitDepth));
    ToLinearInRange(v, bitDepth, t);
  }

  lemma MeanOfEqual(v: nat, bitDepth: nat, t: Transfer)
    requires WorkingDepth(bitDepth) && t.Valid() && t.Tame(bitDepth) && v <= MaxY(bitDepth)
    ensures LinearMean(v, v, v, v, bitDepth, t) == GammaToLinear(v, bitDepth, t)
  {
    hide GammaToLinear, Pow2, Transfer.Tame;
    MeanRange(v, v, v, v, bitDepth, t);
  }

  // SMPTE 428 divides its power curve, which is 1 at full scale, by this constant.
  const SMPTE428_SCALE := 0.91655527974030934
  const SMPTE428_AT_FULL_SCALE: int := (65535.0 / SMPTE428_SCALE + 0.5).Floor

  // So four full-scale samples already take it beyond 65536.
  lemma Smpte428ExceedsOne(bitDepth: nat, t: Transfer)
    requires WorkingDepth(bitDepth) && t.Valid() && t.Tame(bitDepth)
    requires t.Other? && t.to(MaxY(bitDepth), bitDepth) == SMPTE428_AT_FULL_SCALE
    ensures var top := MaxY(bitDepth); LinearMean(top, top, top, top, bitDepth, t) == 71501 > LINEAR_ONE
  {
    hide GammaToLinear, LinearMean, Transfer.Tame, Highest;
    MeanOfEqual(MaxY(bitDepth), bitDepth, t);
    ToLinearInRange(MaxY(bitDepth), bitDepth, t);
  }

  // ScaleDown and the luma update are monotone in every sample.
  lemma ScaleDownMonotone(a: nat, b: nat, c: nat, d: nat, a': nat, b': nat, c': nat, d': nat, bitDepth: nat,
                          t: Transfer)
    requires WorkingDepth(bitDepth) && t.Valid() && t.Tame(bitDepth) && t.Monotone(bitDepth)
    requires a <= a' <= MaxY(bitDepth) && b <= b' <= MaxY(bitDepth) && c <= c' <= MaxY(bitDepth)
             && d <= d' <= MaxY(bitDepth)
    ensures ScaleDown(a, b, c, d, bitDepth, t) <= ScaleDown(a', b', c', d', bitDepth, t)
  {
    hide ToLinearSrgb, FromLinearSrgb, Pow2;
    GammaToLinearMonotone(a, a', bitDepth, t);
    GammaToLinearMonotone(b, b', bitDepth, t);
    GammaToLinearMonotone(c, c', bitDepth, t);
    GammaToLinearMonotone(d, d', bitDepth, t);
    MeanRange(a', b', c', d', bitDepth, t);
    LinearToGammaMonotone(LinearMean(a, b, c, d, bitDepth, t), LinearMean(a', b', c', d', bitDepth, t), bitDepth, t);
  }

  lemma MeanRange(a: nat, b: nat, c: nat, d: nat, bitDepth: nat, t: Transfer)
    requires WorkingDepth(bitDepth) && t.Valid() && t.Tame(bitDepth)
    requires a <= MaxY(bitDepth) && b <= MaxY(bitDepth) && c <= MaxY(bitDepth) && d <= MaxY(bitDepth)
    ensures LinearMean(a, b, c, d, bitDepth, t) <= t.LinearMax(bitDepth)
    ensures GammaToLinear(a, bitDepth, t) + GammaToLinear(b, bitDepth, t)
            + GammaToLinear(c, bitDepth, t) + GammaToLinear(d, bitDepth, t) + 2 <= 0xFFFF_FFFF
  {
    hide ToLinearSrgb, FromLinearSrgb, Pow2;
    ToLinearInRange(a, bitDepth, t);
    ToLinearInRange(b, bitDepth, t);
    ToLinearInRange(c, bitDepth, t);
    ToLinearInRange(d, bitDepth, t);
  }

  lemma LumaMonotone(r: nat, g: nat, b: nat, r': nat, g': nat, b': nat, bitDepth: nat, t: Transfer)
    requires WorkingDepth(bitDepth) && t.Valid() && t.Tame(bitDepth) && t.Monotone(bitDepth)
    requires r <= r' <= MaxY(bitDepth) && g <= g' <= MaxY(bitDepth) && b <= b' <= MaxY(bitDepth)
    ensures LumaOf(r, g, b, bitDepth, t) <= LumaOf(r', g', b', bitDepth, t)
  {
    hide ToLinearSrgb, FromLinearSrgb, Pow2;
    GammaToLinearMonotone(r, r', bitDepth, t);
    GammaToLinearMonotone(g, g', bitDepth, t);
    GammaToLinearMonotone(b, b', bitDepth, t);
    GrayMonotone(GammaToLinear(r, bitDepth, t), GammaToLinear(g, bitDepth, t), GammaToLinear(b, bitDepth, t),
                 GammaToLinear(r', bitDepth, t), GammaToLinear(g', bitDepth, t), GammaToLinear(b', bitDepth, t));
    ToLinearInRange(r', bitDepth, t);
    ToLinearInRange(g', bitDepth, t);
    ToLinearInRange(b', bitDepth, t);
    GrayRange(GammaToLinear(r', bitDepth, t), GammaToLinear(g', bitDepth, t), GammaToLinear(b', bitDepth, t), 0,
        t.LinearMax(bitDepth));
    LinearToGammaMonotone(LinearLuma(r, g, b, bitDepth, t), LinearLuma(r', g', b', bitDepth, t), bitDepth, t);
  }

  function RoundTrip(v: nat, bitDepth: nat, t: Transfer): nat
    requires WorkingDepth(bitDepth) && t.Valid() && v <= MaxY(bitDepth)
  {
    LinearToGamma(GammaToLinear(v, bitDepth, t), bitDepth, t)
  }

  // The mean of equal samples is the gamma round trip of that sample.
  lemma ScaleDownOfEqual(v: nat, bitDepth: nat, t: Transfer)
    requires WorkingDepth(bitDepth) && t.Valid() && t.Tame(bitDepth) && v <= MaxY(bitDepth)
    ensures ScaleDown(v, v, v, v, bitDepth, t) == RoundTrip(v, bitDepth, t)
  {
    hide GammaToLinear, LinearToGamma, Pow2, Transfer.Tame;
    MeanOfEqual(v, bitDepth, t);
  }

  // ScaleDown lies between the round trips of the smallest and the largest sample.
  lemma ScaleDownBetween(lo: nat, hi: nat, a: nat, b: nat, c: nat, d: nat, bitDepth: nat, t: Transfer)
    requires WorkingDepth(bitDepth) && t.Valid() && t.Tame(bitDepth) && t.Monotone(bitDepth)
    requires lo <= a <= hi && lo <= b <= hi && lo <= c <= hi && lo <= d <= hi && hi <= MaxY(bitDepth)
    ensures RoundTrip(lo, bitDepth, t) <= ScaleDown(a, b, c, d, bitDepth, t) <= RoundTrip(hi, bitDepth, t)
  {
    ScaleDownMonotone(lo, lo, lo, lo, a, b, c, d, bitDepth, t);
    ScaleDownMonotone(a, b, c, d, hi, hi, hi, hi, bitDepth, t);
    ScaleDownOfEqual(lo, bitDepth, t);
    ScaleDownOfEqual(hi, bitDepth, t);
  }

  // The linear transfer type makes both curves the identity on samples.
  lemma LinearRoundTrip(v: nat, bitDepth: nat)
    requires WorkingDepth(bitDepth) && v <= MaxY(bitDepth)
    ensures RoundTrip(v, bitDepth, Linear) == v
  {
    hide ToLinearSrgb, FromLinearSrgb, Pow2;
    Pow2AtMost14(bitDepth);
  }
}
