// The built-in matrices, rescaled to every supported pair of depths, as numbers.
module ScaledMatrices {
  import opened FixedPoint
  import opened ColorSpace

  lemma Powers()
    ensures MaxY(8) == 255 && MaxY(10) == 1023 && MaxY(12) == 4095 && MaxY(14) == 16383 && MaxY(16) == 65535
    ensures Pow2(2) == 4 && Pow2(7) == 128 && Pow2(9) == 512 && Pow2(11) == 2048 && Pow2(15) == 32768
    ensures Pow2(13) == 8192 && Pow2(14) == 16384 && Pow2(17) == 131072 && Pow2(18) == 262144
  {
    Pow2Values();
    Pow2Add(16, 1);
    Pow2Add(16, 2);
    Pow2Add(14, 1);
  }

  // A row with its coefficients multiplied by `most / steps` and rounded, and its offset moved.
  function Times(c: Coeffs, most: nat, round: nat, steps: nat, offset: int): Coeffs
    requires steps > 0
  {
    Coeffs(TruncDiv(c.r * most + round, steps), TruncDiv(c.g * most + round, steps),
        TruncDiv(c.b * most + round, steps), offset)
  }

  function AllTimes(m: Matrix, most: nat, round: nat, steps: nat, up: int, down: int): Matrix
    requires steps > 0 && down > 0
  {
    Matrix(Times(m.toY, most, round, steps, m.toY.offset * up / down),
        Times(m.toU, most, round, steps, m.toU.offset * up / down),
           Times(m.toV, most, round, steps, m.toV.offset * up / down))
  }

  function From8To10(t: MatrixType): Matrix {
    match t
    case WebP =>
      Matrix(Coeffs(67554, 132625, 25756, 4194304),
             Coeffs(-38989, -76547, 115539, 33554432),
             Coeffs(115539, -96747, -18790, 33554432))
    case Rec601Limited =>
      Matrix(Coeffs(67514, 132545, 25739, 4194304),
             Coeffs(-38969, -76507, 115475, 33554432),
             Coeffs(115475, -96695, -18778, 33554432))
    case Rec601Full =>
      Matrix(Coeffs(78611, 154333, 29972, 0),
             Coeffs(-44361, -87094, 131458, 33554432),
             Coeffs(131458, -110078, -21378, 33554432))
    case Rec709Limited =>
      Matrix(Coeffs(48005, 161490, 16304, 4194304),
             Coeffs(-26461, -89016, 115475, 33554432),
             Coeffs(115475, -104887, -10586, 33554432))
    case Rec709Full =>
      Matrix(Coeffs(55896, 188035, 18984, 0),
             Coeffs(-30123, -101332, 131458, 33554432),
             Coeffs(131458, -119401, -12054, 33554432))
  }

  lemma From8To10Is(t: MatrixType)
    ensures ScaledMatrix(GetConversionMatrix(t), 8, 10) == From8To10(t)
  {
    RescaledFrom8To10(GetConversionMatrix(t));
    NumbersFrom8To10(t);
    hide *;
  }

  lemma RescaledFrom8To10(m: Matrix)
    ensures ScaledMatrix(m, 8, 10) == AllTimes(m, 1023, 128, 255, 4, 1)
  {
    Powers();
    hide TruncDiv, Pow2, MaxY;
  }

  lemma NumbersFrom8To10(t: MatrixType)
    ensures AllTimes(GetConversionMatrix(t), 1023, 128, 255, 4, 1) == From8To10(t)
  {
  }

  function From8To12(t: MatrixType): Matrix {
    match t
    case WebP =>
      Matrix(Coeffs(270415, 530889, 103098, 4194304),
             Coeffs(-156075, -306417, 462494, 33554432),
             Coeffs(462494, -387274, -75219, 33554432))
    case Rec601Limited =>
      Matrix(Coeffs(270254, 530567, 103033, 4194304),
             Coeffs(-155994, -306257, 462237, 33554432),
             Coeffs(462237, -387065, -75170, 33554432))
    case Rec601Full =>
      Matrix(Coeffs(314673, 617783, 119975, 0),
             Coeffs(-177577, -348636, 526216, 33554432),
             Coeffs(526216, -440637, -85576, 33554432))
    case Rec709Limited =>
      Matrix(Coeffs(192160, 646432, 65263, 4194304),
             Coeffs(-105923, -356328, 462237, 33554432),
             Coeffs(462237, -419857, -42378, 33554432))
    case Rec709Full =>
      Matrix(Coeffs(223748, 752693, 75990, 0),
             Coeffs(-120585, -405629, 526216, 33554432),
             Coeffs(526216, -477958, -48256, 33554432))
  }

  lemma From8To12Is(t: MatrixType)
    ensures ScaledMatrix(GetConversionMatrix(t), 8, 12) == From8To12(t)
  {
    RescaledFrom8To12(GetConversionMatrix(t));
    NumbersFrom8To12(t);
    hide *;
  }

  lemma RescaledFrom8To12(m: Matrix)
    ensures ScaledMatrix(m, 8, 12) == AllTimes(m, 4095, 128, 255, 4, 1)
  {
    Powers();
    hide TruncDiv, Pow2, MaxY;
  }

  lemma NumbersFrom8To12(t: MatrixType)
    ensures AllTimes(GetConversionMatrix(t), 4095, 128, 255, 4, 1) == From8To12(t)
  {
  }

  function From10To8(t: MatrixType): Matrix {
    match t
    case WebP =>
      Matrix(Coeffs(4197, 8241, 1600, 4194304),
             Coeffs(-2422, -4755, 7179, 33554432),
             Coeffs(7179, -6010, -1167, 33554432))
    case Rec601Limited =>
      Matrix(Coeffs(4195, 8236, 1599, 4194304),
             Coeffs(-2420, -4753, 7175, 33554432),
             Coeffs(7175, -6007, -1166, 33554432))
    case Rec601Full =>
      Matrix(Coeffs(4884, 9589, 1862, 0),
             Coeffs(-2755, -5411, 8168, 33554432),
             Coeffs(8168, -6839, -1327, 33554432))
    case Rec709Limited =>
      Matrix(Coeffs(2983, 10034, 1013, 4194304),
             Coeffs(-1643, -5530, 7175, 33554432),
             Coeffs(7175, -6516, -657, 33554432))
    case Rec709Full =>
      Matrix(Coeffs(3473, 11683, 1180, 0),
             Coeffs(-1871, -6295, 8168, 33554432),
             Coeffs(8168, -7418, -748, 33554432))
  }

  lemma From10To8Is(t: MatrixType)
    ensures ScaledMatrix(GetConversionMatrix(t), 10, 8) == From10To8(t)
  {
    RescaledFrom10To8(GetConversionMatrix(t));
    NumbersFrom10To8(t);
    hide *;
  }

  lemma RescaledFrom10To8(m: Matrix)
    ensures ScaledMatrix(m, 10, 8) == AllTimes(m, 255, 512, 1023, 4, 1)
  {
    Powers();
    hide TruncDiv, Pow2, MaxY;
  }

  lemma NumbersFrom10To8(t: MatrixType)
    ensures AllTimes(GetConversionMatrix(t), 255, 512, 1023, 4, 1) == From10To8(t)
  {
  }

  function From10To12(t: MatrixType): Matrix {
    match t
    case WebP =>
      Matrix(Coeffs(67405, 132333, 25699, 4194304),
             Coeffs(-38904, -76379, 115284, 33554432),
             Coeffs(115284, -96534, -18749, 33554432))
    case Rec601Limited =>
      Matrix(Coeffs(67365, 132253, 25683, 4194304),
             Coeffs(-38883, -76339, 115220, 33554432),
             Coeffs(115220, -96482, -18737, 33554432))
    case Rec601Full =>
      Matrix(Coeffs(78437, 153993, 29906, 0),
             Coeffs(-44263, -86903, 131168, 33554432),
             Coeffs(131168, -109835, -21331, 33554432))
    case Rec709Limited =>
      Matrix(Coeffs(47899, 161134, 16268, 4194304),
             Coeffs(-26402, -88820, 115220, 33554432),
             Coeffs(115220, -104656, -10563, 33554432))
    case Rec709Full =>
      Matrix(Coeffs(55773, 187621, 18942, 0),
             Coeffs(-30057, -101109, 131168, 33554432),
             Coeffs(131168, -119138, -12028, 33554432))
  }

  lemma From10To12Is(t: MatrixType)
    ensures ScaledMatrix(GetConversionMatrix(t), 10, 12) == From10To12(t)
  {
    RescaledFrom10To12(GetConversionMatrix(t));
    NumbersFrom10To12(t);
    hide *;
  }

  lemma RescaledFrom10To12(m: Matrix)
    ensures ScaledMatrix(m, 10, 12) == AllTimes(m, 4095, 512, 1023, 4, 1)
  {
    Powers();
    hide TruncDiv, Pow2, MaxY;
  }

  lemma NumbersFrom10To12(t: MatrixType)
    ensures AllTimes(GetConversionMatrix(t), 4095, 512, 1023, 4, 1) == From10To12(t)
  {
  }

  function From12To8(t: MatrixType): Matrix {
    match t
    case WebP =>
      Matrix(Coeffs(1049, 2059, 400, 4194304),
             Coeffs(-604, -1187, 1793, 33554432),
             Coeffs(1793, -1501, -291, 33554432))
    case Rec601Limited =>
      Matrix(Coeffs(1048, 2057, 400, 4194304),
             Coeffs(-604, -1187, 1792, 33554432),
             Coeffs(1792, -1500, -290, 33554432))
    case Rec601Full =>
      Matrix(Coeffs(1220, 2396, 465, 0),
             Coeffs(-688, -1351, 2040, 33554432),
             Coeffs(2040, -1708, -331, 33554432))
    case Rec709Limited =>
      Matrix(Coeffs(745, 2507, 253, 4194304),
             Coeffs(-410, -1381, 1792, 33554432),
             Coeffs(1792, -1627, -163, 33554432))
    case Rec709Full =>
      Matrix(Coeffs(868, 2919, 295, 0),
             Coeffs(-467, -1572, 2040, 33554432),
             Coeffs(2040, -1852, -186, 33554432))
  }

  lemma From12To8Is(t: MatrixType)
    ensures ScaledMatrix(GetConversionMatrix(t), 12, 8) == From12To8(t)
  {
    RescaledFrom12To8(GetConversionMatrix(t));
    NumbersFrom12To8(t);
    hide *;
  }

  lemma RescaledFrom12To8(m: Matrix)
    ensures ScaledMatrix(m, 12, 8) == AllTimes(m, 255, 2048, 4095, 4, 1)
  {
    Powers();
    hide TruncDiv, Pow2, MaxY;
  }

  lemma NumbersFrom12To8(t: MatrixType)
    ensures AllTimes(GetConversionMatrix(t), 255, 2048, 4095, 4, 1) == From12To8(t)
  {
  }

  function From12To10(t: MatrixType): Matrix {
    match t
    case WebP =>
      Matrix(Coeffs(4207, 8259, 1604, 4194304),
             Coeffs(-2427, -4766, 7195, 33554432),
             Coeffs(7195, -6024, -1169, 33554432))
    case Rec601Limited =>
      Matrix(Coeffs(4204, 8254, 1603, 4194304),
             Coeffs(-2426, -4763, 7191, 33554432),
             Coeffs(7191, -6020, -1168, 33554432))
    case Rec601Full =>
      Matrix(Coeffs(4895, 9610, 1866, 0),
             Coeffs(-2761, -5423, 8186, 33554432),
             Coeffs(8186, -6854, -1330, 33554432))
    case Rec709Limited =>
      Matrix(Coeffs(2989, 10056, 1015, 4194304),
             Coeffs(-1647, -5542, 7191, 33554432),
             Coeffs(7191, -6530, -658, 33554432))
    case Rec709Full =>
      Matrix(Coeffs(3481, 11709, 1182, 0),
             Coeffs(-1875, -6309, 8186, 33554432),
             Coeffs(8186, -7434, -750, 33554432))
  }

  lemma From12To10Is(t: MatrixType)
    ensures ScaledMatrix(GetConversionMatrix(t), 12, 10) == From12To10(t)
  {
    RescaledFrom12To10(GetConversionMatrix(t));
    NumbersFrom12To10(t);
    hide *;
  }

  lemma RescaledFrom12To10(m: Matrix)
    ensures ScaledMatrix(m, 12, 10) == AllTimes(m, 1023, 2048, 4095, 4, 1)
  {
    Powers();
    hide TruncDiv, Pow2, MaxY;
  }

  lemma NumbersFrom12To10(t: MatrixType)
    ensures AllTimes(GetConversionMatrix(t), 1023, 2048, 4095, 4, 1) == From12To10(t)
  {
  }

  function From16To8(t: MatrixType): Matrix {
    match t
    case WebP =>
      Matrix(Coeffs(66, 129, 25, 262144),
             Coeffs(-37, -73, 112, 2097152),
             Coeffs(112, -93, -17, 2097152))
    case Rec601Limited =>
      Matrix(Coeffs(65, 129, 25, 262144),
             Coeffs(-37, -73, 112, 2097152),
             Coeffs(112, -93, -17, 2097152))
    case Rec601Full =>
      Matrix(Coeffs(76, 150, 29, 0),
             Coeffs(-42, -83, 128, 2097152),
             Coeffs(128, -106, -20, 2097152))
    case Rec709Limited =>
      Matrix(Coeffs(47, 157, 16, 262144),
             Coeffs(-25, -85, 112, 2097152),
             Coeffs(112, -101, -9, 2097152))
    case Rec709Full =>
      Matrix(Coeffs(54, 182, 18, 0),
             Coeffs(-28, -97, 128, 2097152),
             Coeffs(128, -115, -11, 2097152))
  }

  lemma From16To8Is(t: MatrixType)
    ensures ScaledMatrix(GetConversionMatrix(t), 16, 8) == From16To8(t)
  {
    RescaledFrom16To8(GetConversionMatrix(t));
    NumbersFrom16To8(t);
    hide *;
  }

  lemma RescaledFrom16To8(m: Matrix)
    ensures ScaledMatrix(m, 16, 8) == AllTimes(m, 255, 32768, 65535, 1, 4)
  {
    Powers();
    hide TruncDiv, Pow2, MaxY;
  }

  lemma NumbersFrom16To8(t: MatrixType)
    ensures AllTimes(GetConversionMatrix(t), 255, 32768, 65535, 1, 4) == From16To8(t)
  {
  }

  function From16To10(t: MatrixType): Matrix {
    match t
    case WebP =>
      Matrix(Coeffs(263, 516, 100, 262144),
             Coeffs(-151, -297, 450, 2097152),
             Coeffs(450, -375, -72, 2097152))
    case Rec601Limited =>
      Matrix(Coeffs(263, 516, 100, 262144),
             Coeffs(-151, -297, 449, 2097152),
             Coeffs(449, -375, -72, 2097152))
    case Rec601Full =>
      Matrix(Coeffs(306, 601, 117, 0),
             Coeffs(-172, -338, 512, 2097152),
             Coeffs(512, -427, -82, 2097152))
    case Rec709Limited =>
      Matrix(Coeffs(187, 628, 63, 262144),
             Coeffs(-102, -345, 449, 2097152),
             Coeffs(449, -407, -40, 2097152))
    case Rec709Full =>
      Matrix(Coeffs(217, 732, 74, 0),
             Coeffs(-116, -393, 512, 2097152),
             Coeffs(512, -464, -46, 2097152))
  }

  lemma From16To10Is(t: MatrixType)
    ensures ScaledMatrix(GetConversionMatrix(t), 16, 10) == From16To10(t)
  {
    RescaledFrom16To10(GetConversionMatrix(t));
    NumbersFrom16To10(t);
    hide *;
  }

  lemma RescaledFrom16To10(m: Matrix)
    ensures ScaledMatrix(m, 16, 10) == AllTimes(m, 1023, 32768, 65535, 1, 4)
  {
    Powers();
    hide TruncDiv, Pow2, MaxY;
  }

  lemma NumbersFrom16To10(t: MatrixType)
    ensures AllTimes(GetConversionMatrix(t), 1023, 32768, 65535, 1, 4) == From16To10(t)
  {
  }

  function From16To12(t: MatrixType): Matrix {
    match t
    case WebP =>
      Matrix(Coeffs(1052, 2066, 401, 262144),
             Coeffs(-606, -1191, 1800, 2097152),
             Coeffs(1800, -1506, -292, 2097152))
    case Rec601Limited =>
      Matrix(Coeffs(1052, 2064, 401, 262144),
             Coeffs(-606, -1191, 1799, 2097152),
             Coeffs(1799, -1505, -291, 2097152))
    case Rec601Full =>
      Matrix(Coeffs(1224, 2404, 467, 0),
             Coeffs(-690, -1356, 2048, 2097152),
             Coeffs(2048, -1714, -332, 2097152))
    case Rec709Limited =>
      Matrix(Coeffs(748, 2515, 254, 262144),
             Coeffs(-411, -1385, 1799, 2097152),
             Coeffs(1799, -1633, -164, 2097152))
    case Rec709Full =>
      Matrix(Coeffs(871, 2929, 296, 0),
             Coeffs(-468, -1577, 2048, 2097152),
             Coeffs(2048, -1859, -187, 2097152))
  }

  lemma From16To12Is(t: MatrixType)
    ensures ScaledMatrix(GetConversionMatrix(t), 16, 12) == From16To12(t)
  {
    RescaledFrom16To12(GetConversionMatrix(t));
    NumbersFrom16To12(t);
    hide *;
  }

  lemma RescaledFrom16To12(m: Matrix)
    ensures ScaledMatrix(m, 16, 12) == AllTimes(m, 4095, 32768, 65535, 1, 4)
  {
    Powers();
    hide TruncDiv, Pow2, MaxY;
  }

  lemma NumbersFrom16To12(t: MatrixType)
    ensures AllTimes(GetConversionMatrix(t), 4095, 32768, 65535, 1, 4) == From16To12(t)
  {
  }

}
