// Where dropping the luma before computing U and V matters. The reason given for it holds for
// rows that sum to zero; among the rows in use no other row has that property on the colours
// and lumas that can occur.
module LumaOffset {
  import opened FixedPoint
  import opened Gamma
  import opened Measure
  import opened Import
  import opened Driver
  import opened ColorSpace
  import opened Convert
  import opened FixedPoints
  import opened ScaledMatrices

  // No luma of the working depth makes a difference to any int16 colour.
  ghost predicate LumaDrops(c: Coeffs, rgbBitDepth: nat)
    requires Depths(rgbBitDepth, 8)
  {
    forall r, g, b, w ::
      IsS16(r) && IsS16(g) && IsS16(b) && 0 <= w <= MaxY(WorkDepth(rgbBitDepth)) ==>
        OffsetDrops(c, PrecisionShift(rgbBitDepth), r, g, b, w)
  }

  // For any row it is enough that the row sums to zero.
  lemma ZeroSumSuffices(c: Coeffs, rgbBitDepth: nat)
    requires Depths(rgbBitDepth, 8) && c.Sum() == 0
    ensures LumaDrops(c, rgbBitDepth)
  {
    forall r, g, b, w |
      IsS16(r) && IsS16(g) && IsS16(b) && 0 <= w <= MaxY(WorkDepth(rgbBitDepth))
      ensures OffsetDrops(c, PrecisionShift(rgbBitDepth), r, g, b, w)
    {
      DroppingTheOffset(r, g, b, w, c, PrecisionShift(rgbBitDepth));
    }
  }

  // ---- A colour for every other row in use ----

  datatype Channel = U | V

  function RowOf(m: Matrix, ch: Channel): Coeffs {
    if ch.U? then m.toU else m.toV
  }

  // A colour whose component full luma moves, if the row does not sum to zero.
  function Witness(t: MatrixType, ch: Channel, rgbBitDepth: nat, yuvBitDepth: nat): (int, int, int) {
    match (rgbBitDepth, yuvBitDepth)
    case (8, 8) => (902, -359, 1164)
    case (8, 10) =>
      if ch.U? then (if t.WebP? then (165, 135, -92) else (284, 284, -1422))
      else (if t.Rec601Limited? then (11, -121, -98) else (1018, -871, 1125))
    case (8, 12) =>
      if ch.U? then (if t.Rec601Full? then (0, 54, 42) else (-515, -1913, 1702))
      else (if t.WebP? then (-72, -89, -35) else (-942, 437, 1884))
    case (10, 8) =>
      if ch.U? then ((-957, -960, -430))
      else ((1163, 1693, 1698))
    case (10, 10) => (1619, -484, 1651)
    case (10, 12) =>
      if ch.U? then ((-1719, -501, -945))
      else ((667, 700, 700))
    case (12, 8) =>
      if ch.U? then ((-1702, -1737, 392))
      else ((1443, 668, -1255))
    case (12, 10) =>
      if ch.U? then ((1844, 1851, 260))
      else ((-847, -108, 393))
    case (12, 12) => (694, -1740, 744)
    case _ => (0, 0, 0)
  }

  // The scaled row of a channel, and whether full luma moves the component of a colour under it.
  function BuiltInRow(t: MatrixType, ch: Channel, rgbBitDepth: nat, yuvBitDepth: nat): Coeffs
    requires Depths(rgbBitDepth, yuvBitDepth)
  {
    RowOf(ScaledMatrix(GetConversionMatrix(t), rgbBitDepth, yuvBitDepth), ch)
  }

  predicate FullLumaMoves(t: MatrixType, ch: Channel, rgbBitDepth: nat, yuvBitDepth: nat)
    requires Depths(rgbBitDepth, yuvBitDepth)
  {
    var (r, g, b) := Witness(t, ch, rgbBitDepth, yuvBitDepth);
    IsS16(r) && IsS16(g) && IsS16(b)
    && !OffsetDrops(BuiltInRow(t, ch, rgbBitDepth, yuvBitDepth), PrecisionShift(rgbBitDepth), r, g, b,
        MaxY(WorkDepth(rgbBitDepth)))
  }

  // ---- That it does ----

  // The two components, with the rounding term and the divisor as numbers.
  predicate Moved(c: Coeffs, colour: (int, int, int), w: int, half: int, unit: int)
    requires unit > 0
  {
    (c.r * (colour.0 + w) + c.g * (colour.1 + w) + c.b * (colour.2 + w) + c.offset + half) / unit
    != (c.r * colour.0 + c.g * colour.1 + c.b * colour.2 + c.offset + half) / unit
  }

  predicate MovedOrZero(c: Coeffs, colour: (int, int, int), w: int, half: int, unit: int)
    requires unit > 0
  {
    c.Sum() == 0 || Moved(c, colour, w, half, unit)
  }

  function RowAsScaled(m: Matrix, ch: Channel, up: int, down: int): Coeffs
    requires down > 0
  {
    var c := RowOf(m, ch);
    c.(offset := c.offset * up / down)
  }

  lemma MovesIs(t: MatrixType, ch: Channel, rgbBitDepth: nat, yuvBitDepth: nat)
    requires Depths(rgbBitDepth, yuvBitDepth)
    requires var colour := Witness(t, ch, rgbBitDepth, yuvBitDepth);
             var top := if rgbBitDepth == 8 then 1023 else if rgbBitDepth == 10 then 4095 else 16383;
             IsS16(colour.0) && IsS16(colour.1) && IsS16(colour.2)
             && MovedOrZero(BuiltInRow(t, ch, rgbBitDepth, yuvBitDepth), colour, top,
                            if rgbBitDepth == 16 then 8192 else 131072, if rgbBitDepth == 16 then 16384 else 262144)
    ensures BuiltInRow(t, ch, rgbBitDepth, yuvBitDepth).Sum() == 0 || FullLumaMoves(t, ch, rgbBitDepth, yuvBitDepth)
  {
    Powers();
    hide Pow2, Witness, BuiltInRow;
  }

  lemma Numbers8To8(t: MatrixType, ch: Channel)
    ensures var colour := Witness(t, ch, 8, 8);
            IsS16(colour.0) && IsS16(colour.1) && IsS16(colour.2)
            && MovedOrZero(RowAsScaled(GetConversionMatrix(t), ch, 4, 1), colour, 1023, 131072, 262144)
  {
  }

  lemma Moves8To8(t: MatrixType, ch: Channel)
    ensures BuiltInRow(t, ch, 8, 8).Sum() == 0 || FullLumaMoves(t, ch, 8, 8)
  {
    Powers();
    hide Pow2, Witness, GetConversionMatrix, FullLumaMoves, MovedOrZero;
    Numbers8To8(t, ch);
    assert BuiltInRow(t, ch, 8, 8) == RowAsScaled(GetConversionMatrix(t), ch, 4, 1);
    MovesIs(t, ch, 8, 8);
  }

  lemma Numbers8To10(t: MatrixType, ch: Channel)
    ensures var colour := Witness(t, ch, 8, 10);
            IsS16(colour.0) && IsS16(colour.1) && IsS16(colour.2)
            && MovedOrZero(RowOf(From8To10(t), ch), colour, 1023, 131072, 262144)
  {
  }

  lemma Moves8To10(t: MatrixType, ch: Channel)
    ensures BuiltInRow(t, ch, 8, 10).Sum() == 0 || FullLumaMoves(t, ch, 8, 10)
  {
    hide Witness, From8To10, GetConversionMatrix, ScaledMatrix, FullLumaMoves, MovedOrZero;
    Numbers8To10(t, ch);
    From8To10Is(t);
    MovesIs(t, ch, 8, 10);
  }

  lemma Numbers8To12(t: MatrixType, ch: Channel)
    ensures var colour := Witness(t, ch, 8, 12);
            IsS16(colour.0) && IsS16(colour.1) && IsS16(colour.2)
            && MovedOrZero(RowOf(From8To12(t), ch), colour, 1023, 131072, 262144)
  {
  }

  lemma Moves8To12(t: MatrixType, ch: Channel)
    ensures BuiltInRow(t, ch, 8, 12).Sum() == 0 || FullLumaMoves(t, ch, 8, 12)
  {
    hide Witness, From8To12, GetConversionMatrix, ScaledMatrix, FullLumaMoves, MovedOrZero;
    Numbers8To12(t, ch);
    From8To12Is(t);
    MovesIs(t, ch, 8, 12);
  }

  lemma Numbers10To8(t: MatrixType, ch: Channel)
    ensures var colour := Witness(t, ch, 10, 8);
            IsS16(colour.0) && IsS16(colour.1) && IsS16(colour.2)
            && MovedOrZero(RowOf(From10To8(t), ch), colour, 4095, 131072, 262144)
  {
  }

  lemma Moves10To8(t: MatrixType, ch: Channel)
    ensures BuiltInRow(t, ch, 10, 8).Sum() == 0 || FullLumaMoves(t, ch, 10, 8)
  {
    hide Witness, From10To8, GetConversionMatrix, ScaledMatrix, FullLumaMoves, MovedOrZero;
    Numbers10To8(t, ch);
    From10To8Is(t);
    MovesIs(t, ch, 10, 8);
  }

  lemma Numbers10To10(t: MatrixType, ch: Channel)
    ensures var colour := Witness(t, ch, 10, 10);
            IsS16(colour.0) && IsS16(colour.1) && IsS16(colour.2)
            && MovedOrZero(RowAsScaled(GetConversionMatrix(t), ch, 4, 1), colour, 4095, 131072, 262144)
  {
  }

  lemma Moves10To10(t: MatrixType, ch: Channel)
    ensures BuiltInRow(t, ch, 10, 10).Sum() == 0 || FullLumaMoves(t, ch, 10, 10)
  {
    Powers();
    hide Pow2, Witness, GetConversionMatrix, FullLumaMoves, MovedOrZero;
    Numbers10To10(t, ch);
    assert BuiltInRow(t, ch, 10, 10) == RowAsScaled(GetConversionMatrix(t), ch, 4, 1);
    MovesIs(t, ch, 10, 10);
  }

  lemma Numbers10To12(t: MatrixType, ch: Channel)
    ensures var colour := Witness(t, ch, 10, 12);
            IsS16(colour.0) && IsS16(colour.1) && IsS16(colour.2)
            && MovedOrZero(RowOf(From10To12(t), ch), colour, 4095, 131072, 262144)
  {
  }

  lemma Moves10To12(t: MatrixType, ch: Channel)
    ensures BuiltInRow(t, ch, 10, 12).Sum() == 0 || FullLumaMoves(t, ch, 10, 12)
  {
    hide Witness, From10To12, GetConversionMatrix, ScaledMatrix, FullLumaMoves, MovedOrZero;
    Numbers10To12(t, ch);
    From10To12Is(t);
    MovesIs(t, ch, 10, 12);
  }

  lemma Numbers12To8(t: MatrixType, ch: Channel)
    ensures var colour := Witness(t, ch, 12, 8);
            IsS16(colour.0) && IsS16(colour.1) && IsS16(colour.2)
            && MovedOrZero(RowOf(From12To8(t), ch), colour, 16383, 131072, 262144)
  {
  }

  lemma Moves12To8(t: MatrixType, ch: Channel)
    ensures BuiltInRow(t, ch, 12, 8).Sum() == 0 || FullLumaMoves(t, ch, 12, 8)
  {
    hide Witness, From12To8, GetConversionMatrix, ScaledMatrix, FullLumaMoves, MovedOrZero;
    Numbers12To8(t, ch);
    From12To8Is(t);
    MovesIs(t, ch, 12, 8);
  }

  lemma Numbers12To10(t: MatrixType, ch: Channel)
    ensures var colour := Witness(t, ch, 12, 10);
            IsS16(colour.0) && IsS16(colour.1) && IsS16(colour.2)
            && MovedOrZero(RowOf(From12To10(t), ch), colour, 16383, 131072, 262144)
  {
  }

  lemma Moves12To10(t: MatrixType, ch: Channel)
    ensures BuiltInRow(t, ch, 12, 10).Sum() == 0 || FullLumaMoves(t, ch, 12, 10)
  {
    hide Witness, From12To10, GetConversionMatrix, ScaledMatrix, FullLumaMoves, MovedOrZero;
    Numbers12To10(t, ch);
    From12To10Is(t);
    MovesIs(t, ch, 12, 10);
  }

  lemma Numbers12To12(t: MatrixType, ch: Channel)
    ensures var colour := Witness(t, ch, 12, 12);
            IsS16(colour.0) && IsS16(colour.1) && IsS16(colour.2)
            && MovedOrZero(RowAsScaled(GetConversionMatrix(t), ch, 4, 1), colour, 16383, 131072, 262144)
  {
  }

  lemma Moves12To12(t: MatrixType, ch: Channel)
    ensures BuiltInRow(t, ch, 12, 12).Sum() == 0 || FullLumaMoves(t, ch, 12, 12)
  {
    Powers();
    hide Pow2, Witness, GetConversionMatrix, FullLumaMoves, MovedOrZero;
    Numbers12To12(t, ch);
    assert BuiltInRow(t, ch, 12, 12) == RowAsScaled(GetConversionMatrix(t), ch, 4, 1);
    MovesIs(t, ch, 12, 12);
  }

  lemma Numbers16To8(t: MatrixType, ch: Channel)
    ensures var colour := Witness(t, ch, 16, 8);
            IsS16(colour.0) && IsS16(colour.1) && IsS16(colour.2)
            && MovedOrZero(RowOf(From16To8(t), ch), colour, 16383, 8192, 16384)
  {
  }

  lemma Moves16To8(t: MatrixType, ch: Channel)
    ensures BuiltInRow(t, ch, 16, 8).Sum() == 0 || FullLumaMoves(t, ch, 16, 8)
  {
    hide Witness, From16To8, GetConversionMatrix, ScaledMatrix, FullLumaMoves, MovedOrZero;
    Numbers16To8(t, ch);
    From16To8Is(t);
    MovesIs(t, ch, 16, 8);
  }

  lemma Numbers16To10(t: MatrixType, ch: Channel)
    ensures var colour := Witness(t, ch, 16, 10);
            IsS16(colour.0) && IsS16(colour.1) && IsS16(colour.2)
            && MovedOrZero(RowOf(From16To10(t), ch), colour, 16383, 8192, 16384)
  {
  }

  lemma Moves16To10(t: MatrixType, ch: Channel)
    ensures BuiltInRow(t, ch, 16, 10).Sum() == 0 || FullLumaMoves(t, ch, 16, 10)
  {
    hide Witness, From16To10, GetConversionMatrix, ScaledMatrix, FullLumaMoves, MovedOrZero;
    Numbers16To10(t, ch);
    From16To10Is(t);
    MovesIs(t, ch, 16, 10);
  }

  lemma Numbers16To12(t: MatrixType, ch: Channel)
    ensures var colour := Witness(t, ch, 16, 12);
            IsS16(colour.0) && IsS16(colour.1) && IsS16(colour.2)
            && MovedOrZero(RowOf(From16To12(t), ch), colour, 16383, 8192, 16384)
  {
  }

  lemma Moves16To12(t: MatrixType, ch: Channel)
    ensures BuiltInRow(t, ch, 16, 12).Sum() == 0 || FullLumaMoves(t, ch, 16, 12)
  {
    hide Witness, From16To12, GetConversionMatrix, ScaledMatrix, FullLumaMoves, MovedOrZero;
    Numbers16To12(t, ch);
    From16To12Is(t);
    MovesIs(t, ch, 16, 12);
  }

  // For every built-in chroma row, at every supported pair of depths, the luma drops out of all
  // colours that can occur if and only if the rescaled row sums to zero.
  lemma LumaDropsExactly(t: MatrixType, ch: Channel, rgbBitDepth: nat, yuvBitDepth: nat)
    requires Depths(rgbBitDepth, yuvBitDepth)
    ensures var row := BuiltInRow(t, ch, rgbBitDepth, yuvBitDepth); LumaDrops(row, rgbBitDepth) <==> row.Sum() == 0
  {
    hide BuiltInRow, Witness, OffsetDrops, MaxY;
    var row := BuiltInRow(t, ch, rgbBitDepth, yuvBitDepth);
    if row.Sum() == 0 {
      ZeroSumSuffices(row, rgbBitDepth);
    } else {
      SomeLumaMoves(t, ch, rgbBitDepth, yuvBitDepth);
    }
  }

  lemma SomeLumaMoves(t: MatrixType, ch: Channel, rgbBitDepth: nat, yuvBitDepth: nat)
    requires Depths(rgbBitDepth, yuvBitDepth)
    ensures BuiltInRow(t, ch, rgbBitDepth, yuvBitDepth).Sum() == 0 || FullLumaMoves(t, ch, rgbBitDepth, yuvBitDepth)
  {
    hide BuiltInRow, FullLumaMoves;
    match (rgbBitDepth, yuvBitDepth)
    case (8, 8) => Moves8To8(t, ch);
    case (8, 10) => Moves8To10(t, ch);
    case (8, 12) => Moves8To12(t, ch);
    case (10, 8) => Moves10To8(t, ch);
    case (10, 10) => Moves10To10(t, ch);
    case (10, 12) => Moves10To12(t, ch);
    case (12, 8) => Moves12To8(t, ch);
    case (12, 10) => Moves12To10(t, ch);
    case (12, 12) => Moves12To12(t, ch);
    case (16, 8) => Moves16To8(t, ch);
    case (16, 10) => Moves16To10(t, ch);
    case (16, 12) => Moves16To12(t, ch);
    case _ =>
  }

  // ---- It shows ----

  // The bound of three for 16-bit input is attained: full luma moves U of black by three.
  lemma BoundIsAttained()
    ensures var row := BuiltInRow(Rec601Full, U, 16, 8);
            Component(16383, 16383, 16383, row, -2) == Component(0, 0, 0, row, -2) + OffsetError(16)
  {
    From16To8Is(Rec601Full);
    Powers();
    hide Pow2, ScaledMatrix, GetConversionMatrix;
  }

  // An 8-bit picture of one colour, under the linear curve, comes out with another U than the
  // conversion of that colour has.
  lemma OffsetShows(cfg: Config, src: Source, j: nat, i: nat)
    requires Fits(cfg, src, 8) && cfg.t == Linear && ConstantPicture(src, 0, 17, 42)
    requires j < src.Pairs() && i < src.Cells()
    ensures var f := OutputFormat(GetConversionMatrix(Rec601Limited), 8, 8);
            && UPixel(f, Refined(cfg, src, 8).best, src.Cells(), src.Pairs(), j, i) == 142
            && UOf(f, Scaled(0, 8), Scaled(17, 8), Scaled(42, 8)) == 141
  {
    hide Refined, FirstGuess, UOf, ConstantPicture, Source.Channel, Config.Valid;
    ConstantPictureRun(cfg, src, 8, 0, 17, 42);
    ConstantSettled(cfg, src, 8, 0, 17, 42, j);
    OneColour();
  }

  lemma OneColour()
    ensures Scaled(0, 8) == 0 && Scaled(17, 8) == 68 && Scaled(42, 8) == 168 && RGBToGray(0, 68, 168) == 61
    ensures var f := OutputFormat(GetConversionMatrix(Rec601Limited), 8, 8);
            UOf(f, -61, 7, 107) == 142 && UOf(f, 0, 68, 168) == 141
  {
    Powers();
    hide Pow2;
  }

}
