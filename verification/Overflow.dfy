// A picture on which the int16 chroma buffer overflows: sixteen pixels of 16-bit red, yellow
// and blue, refined under the linear curve. The last of its four sweeps asks for a chroma of
// -32855 and stores 32681.
module Overflow {
  import opened FixedPoint
  import opened Gamma
  import opened Rows
  import opened Measure
  import opened Sweep
  import opened Import
  import opened Driver
  import opened ChromaRuns
  import opened CellByCell


  const TARGET0: seq<Cell> := [
    Cell(Four(3483, 3483, 3483, 15200), Uv(9971, -2316, -6412)),
    Cell(Four(1183, 1183, 1183, 1183), Uv(-1183, -1183, 15200))]

  const TARGET1: seq<Cell> := [
    Cell(Four(1183, 1183, 1183, 1183), Uv(-1183, -1183, 15200)),
    Cell(Four(15200, 15200, 15200, 3483), Uv(4112, 16, -12271))]

  const ROW10: seq<Cell> := [
    Cell(Four(3271, 3483, 3483, 16111), Uv(13388, -2775, -11919)),
    Cell(Four(980, 1183, 1183, 1183), Uv(-2931, -1210, 20619))]

  const ROW_SEEN00: seq<Cell> := [
    Cell(Four(3695, 3483, 3483, 14289), Uv(6554, -1857, -905)),
    Cell(Four(1386, 1183, 1183, 1183), Uv(565, -1156, 9781))]

  lemma RowSees00()
    ensures Sees([TARGET0, TARGET1], 2, 0, false, ROW_SEEN00)
  {
    hide Measures;
    CellWorks(TARGET0[0].luma, AcrossAt(TARGET0, 0), AcrossAt(TARGET0, 0), AcrossAt(TARGET1, 0), EXACT,
              Shows(Four(13454, 10666, 10666, 16383), Four(1167, 1450, 1450, 13455), Four(0, 2474, 2474, 16383)),
              Uv(12792, 4381, 5333), 6238, ROW_SEEN00[0]);
    CellWorks(TARGET0[1].luma, AcrossAt(TARGET0, 1), AcrossAt(TARGET0, 1), AcrossAt(TARGET1, 1), EXACT,
              Shows(Four(2789, 0, 3084, 1324), Four(0, 0, 12, 300), Four(10980, 16383, 7180, 9515)),
              Uv(1799, 78, 11015), 1234, ROW_SEEN00[1]);
  }

  lemma RowTurns00()
    ensures Turns(TARGET0, ROW_SEEN00, TARGET0, ROW10, 1326)
  {
    assert Distances(TARGET0, ROW_SEEN00, 1) == 1123;
  }

  const ROW11: seq<Cell> := [
    Cell(Four(898, 1129, 1183, 1183), Uv(-3244, -1173, 21171)),
    Cell(Four(15454, 15448, 15542, 2849), Uv(6256, 272, -21129))]

  const ROW_SEEN01: seq<Cell> := [
    Cell(Four(1468, 1237, 1183, 1183), Uv(878, -1193, 9229)),
    Cell(Four(14946, 14952, 14858, 4117), Uv(1968, -240, -3413))]

  lemma RowSees01()
    ensures Sees([ROW10, TARGET1], 2, 1, false, ROW_SEEN01)
  {
    hide Measures;
    CellWorks(TARGET1[0].luma, AcrossAt(TARGET1, 0), AcrossAt(ROW10, 0), AcrossAt(TARGET1, 0), EXACT,
              Shows(Four(3643, 3616, 0, 1324), Four(0, 0, 0, 300), Four(9603, 6486, 16383, 9515)),
              Uv(2146, 75, 10497), 1268, ROW_SEEN01[0]);
    CellWorks(TARGET1[1].luma, AcrossAt(TARGET1, 1), AcrossAt(ROW10, 1), AcrossAt(TARGET1, 1), EXACT,
              Shows(Four(16383, 16383, 16383, 7595), Four(14587, 14910, 14916, 3499), Four(14269, 11152, 9797, 0)),
              Uv(14186, 11978, 8805), 12218, ROW_SEEN01[1]);
  }

  lemma RowTurns01()
    ensures Turns(TARGET1, ROW_SEEN01, TARGET1, ROW11, 1817)
  {
    assert Distances(TARGET1, ROW_SEEN01, 1) == 339;
  }

  const ROW20: seq<Cell> := [
    Cell(Four(2916, 3461, 3470, 16383), Uv(15184, -2904, -15919)),
    Cell(Four(738, 1183, 1154, 1183), Uv(-4286, -1228, 24790))]

  const ROW_SEEN10: seq<Cell> := [
    Cell(Four(3838, 3505, 3496, 14731), Uv(8175, -2187, -2412)),
    Cell(Four(1425, 1183, 1212, 1183), Uv(172, -1165, 11029))]

  lemma RowSees10()
    ensures Sees([ROW10, ROW11], 2, 0, false, ROW_SEEN10)
  {
    hide Measures;
    CellWorks(ROW10[0].luma, AcrossAt(ROW10, 0), AcrossAt(ROW10, 0), AcrossAt(ROW11, 0), EXACT,
              Shows(Four(16383, 12791, 12713, 16383), Four(496, 1099, 1109, 14120), Four(0, 0, 0, 15922)),
              Uv(14568, 4206, 3981), 6393, ROW_SEEN10[0]);
    CellWorks(ROW10[1].luma, AcrossAt(ROW10, 1), AcrossAt(ROW10, 1), AcrossAt(ROW11, 1), EXACT,
              Shows(Four(2129, 0, 3015, 549), Four(0, 0, 0, 344), Four(13465, 16383, 7908, 11365)),
              Uv(1423, 86, 12280), 1251, ROW_SEEN10[1]);
  }

  lemma RowTurns10()
    ensures Turns(TARGET0, ROW_SEEN10, ROW10, ROW20, 1130)
  {
    assert Distances(TARGET0, ROW_SEEN10, 1) == 859;
  }

  const ROW21: seq<Cell> := [
    Cell(Four(676, 1111, 1176, 1183), Uv(-4590, -1206, 25466)),
    Cell(Four(15653, 15772, 15847, 2164), Uv(8040, 300, -26659))]

  const ROW_SEEN11: seq<Cell> := [
    Cell(Four(1405, 1201, 1190, 1183), Uv(163, -1150, 10905)),
    Cell(Four(15001, 14876, 14895, 4168), Uv(2328, -12, -6741))]

  lemma RowSees11()
    ensures Sees([ROW20, ROW11], 2, 1, false, ROW_SEEN11)
  {
    hide Measures;
    CellWorks(ROW11[0].luma, AcrossAt(ROW11, 0), AcrossAt(ROW20, 0), AcrossAt(ROW11, 0), EXACT,
              Shows(Four(2261, 3056, 0, 314), Four(0, 0, 10, 371), Four(12797, 7641, 16383, 11779)),
              Uv(1408, 95, 12150), 1245, ROW_SEEN11[0]);
    CellWorks(ROW11[1].luma, AcrossAt(ROW11, 1), AcrossAt(ROW20, 1), AcrossAt(ROW11, 1), EXACT,
              Shows(Four(16383, 16383, 16383, 9105), Four(14975, 15345, 15453, 3121), Four(11192, 5799, 4988, 0)),
              Uv(14564, 12224, 5495), 12236, ROW_SEEN11[1]);
  }

  lemma RowTurns11()
    ensures Turns(TARGET1, ROW_SEEN11, ROW11, ROW21, 1760)
  {
    assert Distances(TARGET1, ROW_SEEN11, 1) == 247;
  }

  const ROW30: seq<Cell> := [
    Cell(Four(2907, 3317, 3329, 16383), Uv(16481, -2903, -19737)),
    Cell(Four(532, 1183, 1111, 1178), Uv(-5256, -1249, 27848))]

  const ROW_SEEN20: seq<Cell> := [
    Cell(Four(3492, 3627, 3624, 14815), Uv(8674, -2317, -2594)),
    Cell(Four(1389, 1183, 1226, 1188), Uv(-213, -1162, 12142))]

  lemma RowSees20()
    ensures Sees([ROW20, ROW21], 2, 0, false, ROW_SEEN20)
  {
    hide Measures;
    CellWorks(ROW20[0].luma, AcrossAt(ROW20, 0), AcrossAt(ROW20, 0), AcrossAt(ROW21, 0), EXACT,
              Shows(Four(16383, 13778, 13711, 16383), Four(12, 976, 991, 14312), Four(0, 0, 0, 15185)),
              Uv(15064, 4073, 3796), 6390, ROW_SEEN20[0]);
    CellWorks(ROW20[1].luma, AcrossAt(ROW20, 1), AcrossAt(ROW20, 1), AcrossAt(ROW21, 1), EXACT,
              Shows(Four(1320, 0, 2811, 0), Four(0, 0, 0, 337), Four(15351, 16383, 8707, 13111)),
              Uv(1033, 84, 13388), 1246, ROW_SEEN20[1]);
  }

  lemma RowTurns20()
    ensures Turns(TARGET0, ROW_SEEN20, ROW20, ROW30, 933)
  {
    assert Distances(TARGET0, ROW_SEEN20, 1) == 679;
  }

  const ROW31: seq<Cell> := [
    Cell(Four(500, 1087, 1176, 1130), Uv(-5564, -1231, 28583)),
    Cell(Four(15833, 16073, 16124, 1715), Uv(9507, 234, -30332))]

  const ROW_SEEN21: seq<Cell> := [
    Cell(Four(1359, 1207, 1183, 1236), Uv(-209, -1158, 12083)),
    Cell(Four(15020, 14899, 14923, 3932), Uv(2645, 82, -8598))]

  lemma RowSees21()
    ensures Sees([ROW30, ROW21], 2, 1, false, ROW_SEEN21)
  {
    hide Measures;
    CellWorks(ROW21[0].luma, AcrossAt(ROW21, 0), AcrossAt(ROW30, 0), AcrossAt(ROW21, 0), EXACT,
              Shows(Four(1354, 2798, 0, 0), Four(0, 0, 0, 354), Four(14841, 8477, 16383, 13618)),
              Uv(1038, 89, 13330), 1247, ROW_SEEN21[0]);
    CellWorks(ROW21[1].luma, AcrossAt(ROW21, 1), AcrossAt(ROW30, 1), AcrossAt(ROW21, 1), EXACT,
              Shows(Four(16383, 16383, 16383, 10204), Four(15180, 15685, 15771, 2464), Four(9420, 2740, 2219, 0)),
              Uv(14838, 12275, 3595), 12193, ROW_SEEN21[1]);
  }

  lemma RowTurns21()
    ensures Turns(TARGET1, ROW_SEEN21, ROW21, ROW31, 1460)
  {
    assert Distances(TARGET1, ROW_SEEN21, 1) == 253;
  }

  const ROW40: seq<Cell> := [
    Cell(Four(2904, 3154, 3168, 16383), Uv(17469, -2839, -23267)),
    Cell(Four(381, 1183, 1062, 1101), Uv(-6035, -1255, 30195))]

  const ROW_SEEN30: seq<Cell> := [
    Cell(Four(3486, 3646, 3644, 14719), Uv(8983, -2380, -2882)),
    Cell(Four(1334, 1183, 1232, 1260), Uv(-404, -1177, 12853))]

  lemma RowSees30()
    ensures Sees([ROW30, ROW31], 2, 0, false, ROW_SEEN30)
  {
    hide Measures;
    CellWorks(ROW30[0].luma, AcrossAt(ROW30, 0), AcrossAt(ROW30, 0), AcrossAt(ROW31, 0), EXACT,
              Shows(Four(16383, 14364, 14299, 16383), Four(4, 828, 844, 14300), Four(0, 0, 0, 13966)),
              Uv(15357, 3994, 3492), 6374, ROW_SEEN30[0]);
    CellWorks(ROW30[1].luma, AcrossAt(ROW30, 1), AcrossAt(ROW30, 1), AcrossAt(ROW31, 1), EXACT,
              Shows(Four(710, 0, 2680, 0), Four(0, 0, 0, 300), Four(16383, 16383, 9174, 14481)),
              Uv(848, 75, 14105), 1252, ROW_SEEN30[1]);
  }

  lemma RowTurns30()
    ensures Turns(TARGET0, ROW_SEEN30, ROW30, ROW40, 1085)
  {
    assert Distances(TARGET0, ROW_SEEN30, 1) == 808;
  }

  const ROW41: seq<Cell> := [
    Cell(Four(371, 1059, 1176, 1042), Uv(-6336, -1236, 30904)),
    Cell(Four(15990, 16330, 16366, 1418), Uv(10707, 132, 32681))]

  const ROW_SEEN31: seq<Cell> := [
    Cell(Four(1312, 1211, 1183, 1271), Uv(-411, -1178, 12879)),
    Cell(Four(15043, 14943, 14958, 3780), Uv(2912, 118, -9748))]

  lemma RowSees31()
    ensures Sees([ROW40, ROW31], 2, 1, false, ROW_SEEN31)
  {
    hide Measures;
    CellWorks(ROW31[0].luma, AcrossAt(ROW31, 0), AcrossAt(ROW40, 0), AcrossAt(ROW31, 0), EXACT,
              Shows(Four(694, 2638, 0, 0), Four(0, 0, 0, 265), Four(16121, 9002, 16383, 14984)),
              Uv(833, 66, 14123), 1244, ROW_SEEN31[0]);
    CellWorks(ROW31[1].luma, AcrossAt(ROW31, 1), AcrossAt(ROW40, 1), AcrossAt(ROW31, 1), EXACT,
              Shows(Four(16383, 16383, 16383, 11222), Four(15321, 15935, 15992, 1949), Four(8338, 873, 521, 0)),
              Uv(15093, 12299, 2433), 12181, ROW_SEEN31[1]);
  }

  lemma RowTurns31()
    ensures Turns(TARGET1, ROW_SEEN31, ROW31, ROW41, 1198)
  {
    assert Distances(TARGET1, ROW_SEEN31, 1) == 245;
  }

  // The whole picture at the start and after each sweep.
  const GRID0: seq<seq<Cell>> := [TARGET0, TARGET1]
  const GRID1: seq<seq<Cell>> := [ROW10, ROW11]
  const GRID2: seq<seq<Cell>> := [ROW20, ROW21]
  const GRID3: seq<seq<Cell>> := [ROW30, ROW31]
  const GRID4: seq<seq<Cell>> := [ROW40, ROW41]

  lemma Sweep0()
    requires LINEAR.Valid() && LINEAR.Top() == TOP
    ensures Grids(GRID0, GRID0, 2) && Grids(GRID0, GRID1, 2) && Sweeps(GRID0, GRID0, 2, GRID1, 3143)
  {
    RowSees00();
    RowTurns00();
    RowSees01();
    RowTurns01();
    hide Sees, Turns, Becomes, Sweeps, MaxY, Config.Valid;
    var t, a, b, c := GRID0, GRID0, [ROW10, TARGET1], GRID1;
    RowWorks(t, a, 2, 0, ROW_SEEN00, b, 1326);
    RowWorks(t, b, 2, 1, ROW_SEEN01, c, 1817);
    SweepOfTwo(t, a, 2, b, c, 1326, 1817);
  }

  lemma Sweep1()
    requires LINEAR.Valid() && LINEAR.Top() == TOP
    ensures Grids(GRID0, GRID1, 2) && Grids(GRID1, GRID2, 2) && Sweeps(GRID0, GRID1, 2, GRID2, 2890)
  {
    RowSees10();
    RowTurns10();
    RowSees11();
    RowTurns11();
    hide Sees, Turns, Becomes, Sweeps, MaxY, Config.Valid;
    var t, a, b, c := GRID0, GRID1, [ROW20, ROW11], GRID2;
    RowWorks(t, a, 2, 0, ROW_SEEN10, b, 1130);
    RowWorks(t, b, 2, 1, ROW_SEEN11, c, 1760);
    SweepOfTwo(t, a, 2, b, c, 1130, 1760);
  }

  lemma Sweep2()
    requires LINEAR.Valid() && LINEAR.Top() == TOP
    ensures Grids(GRID0, GRID2, 2) && Grids(GRID2, GRID3, 2) && Sweeps(GRID0, GRID2, 2, GRID3, 2393)
  {
    RowSees20();
    RowTurns20();
    RowSees21();
    RowTurns21();
    hide Sees, Turns, Becomes, Sweeps, MaxY, Config.Valid;
    var t, a, b, c := GRID0, GRID2, [ROW30, ROW21], GRID3;
    RowWorks(t, a, 2, 0, ROW_SEEN20, b, 933);
    RowWorks(t, b, 2, 1, ROW_SEEN21, c, 1460);
    SweepOfTwo(t, a, 2, b, c, 933, 1460);
  }

  lemma Sweep3()
    requires LINEAR.Valid() && LINEAR.Top() == TOP
    ensures Grids(GRID0, GRID3, 2) && Grids(GRID3, GRID4, 2) && Sweeps(GRID0, GRID3, 2, GRID4, 2283)
  {
    RowSees30();
    RowTurns30();
    RowSees31();
    RowTurns31();
    hide Sees, Turns, Becomes, Sweeps, MaxY, Config.Valid;
    var t, a, b, c := GRID0, GRID3, [ROW40, ROW31], GRID4;
    RowWorks(t, a, 2, 0, ROW_SEEN30, b, 1085);
    RowWorks(t, b, 2, 1, ROW_SEEN31, c, 1198);
    SweepOfTwo(t, a, 2, b, c, 1085, 1198);
  }

  // ---- The picture ----

  //   red  red    blue   blue
  //   red  yellow blue   blue
  //   blue blue   yellow yellow
  //   blue blue   yellow red
  const PICTURE := Source(
    [[65535, 65535, 0, 0],
     [65535, 65535, 0, 0],
     [0, 0, 65535, 65535],
     [0, 0, 65535, 65535]],
    [[0, 0, 0, 0],
     [0, 65535, 0, 0],
     [0, 0, 65535, 65535],
     [0, 0, 65535, 0]],
    [[0, 0, 65535, 65535],
     [0, 0, 65535, 65535],
     [65535, 65535, 0, 0],
     [65535, 65535, 0, 0]],
    4, 4)

  lemma PictureFits()
    ensures LINEAR.Valid() && LINEAR.Top() == TOP && LINEAR.t.Tame(14) && Even(PICTURE, 2, 2)
  {
    LinearConfig();
    FullOrNone16();
    hide Pow2, AllWithin, Scaled;
    LineFits(PICTURE.r[0], PICTURE.g[0], PICTURE.b[0]);
    LineFits(PICTURE.r[1], PICTURE.g[1], PICTURE.b[1]);
    LineFits(PICTURE.r[2], PICTURE.g[2], PICTURE.b[2]);
    LineFits(PICTURE.r[3], PICTURE.g[3], PICTURE.b[3]);
  }

  lemma Imports0()
    requires Even(PICTURE, 2, 2)
    ensures |TARGET0| == 2 && forall i :: 0 <= i < 2 ==> TARGET0[i] == PictureCell(PICTURE, 2, 2, 0, i)
  {
    FullOrNone16();
    hide Measures, Scaled, Fits, Source.Valid;
    MeasureWorks(Shows(Four(16383, 16383, 16383, 16383), Four(0, 0, 0, 16383), Four(0, 0, 0, 0)), Uv(16383, 4096, 0),
        6412, TARGET0[0]);
    MeasureWorks(Shows(Four(0, 0, 0, 0), Four(0, 0, 0, 0), Four(16383, 16383, 16383, 16383)), Uv(0, 0, 16383), 1183,
        TARGET0[1]);
  }

  lemma Imports1()
    requires Even(PICTURE, 2, 2)
    ensures |TARGET1| == 2 && forall i :: 0 <= i < 2 ==> TARGET1[i] == PictureCell(PICTURE, 2, 2, 1, i)
  {
    FullOrNone16();
    hide Measures, Scaled, Fits, Source.Valid;
    MeasureWorks(Shows(Four(0, 0, 0, 0), Four(0, 0, 0, 0), Four(16383, 16383, 16383, 16383)), Uv(0, 0, 16383), 1183,
        TARGET1[0]);
    MeasureWorks(Shows(Four(16383, 16383, 16383, 16383), Four(16383, 16383, 16383, 0), Four(0, 0, 0, 0)),
        Uv(16383, 12287, 0), 12271, TARGET1[1]);
  }

  // ---- The result ----

  lemma Begins()
    ensures LINEAR.Valid() && LINEAR.Top() == TOP && Even(PICTURE, 2, 2) && PICTURE.Cells() == PICTURE.Pairs() == 2
    ensures Grid(GRID0, 2) && |GRID0| == 2
    ensures Target(LINEAR, PICTURE, 16) == ImageOf(GRID0, 2) && FirstGuess(LINEAR, PICTURE, 16) == ImageOf(GRID0, 2)
  {
    PictureFits();
    hide PictureCell, ImageOf, Even, MaxY, Config.Valid, TARGET0, TARGET1, PICTURE, Target, FirstGuess, Fits;
    Imports0();
    Imports1();
    forall k, i | 0 <= k < 2 && 0 <= i < 2
      ensures |GRID0[k]| == 2 && GRID0[k][i] == PictureCell(PICTURE, 2, 2, k, i)
    {
    }
    Starts(PICTURE, 2, 2, GRID0);
  }

  // Every sweep comes closer to the target and none comes close enough: the run takes all four.
  lemma RefinesInFourSweeps()
    ensures Grid(GRID4, 2) && RefinesTo(PICTURE, 2, 2, ImageOf(GRID4, 2), 4, 2283)
  {
    hide PictureCell, Sweeps, ImageOf, Even, MaxY, Config.Valid, RefinesTo, Transfer.Tame, PICTURE, Target, FirstGuess;
    hide GRID0, GRID1, GRID2, GRID3, GRID4;
    Begins();
    Sweep0();
    Sweep1();
    Sweep2();
    Sweep3();
    FourSweeps(PICTURE, 2, GRID0, GRID1, GRID2, GRID3, GRID4, 3143, 2890, 2393, 2283);
  }

  // The last correction of the blue chroma of the last cell leaves int16, ...
  lemma LastCorrection()
    ensures ROW31[1].uv.b + (TARGET1[1].uv.b - ROW_SEEN31[1].uv.b) == -32855 && S16(-32855) == ROW41[1].uv.b == 32681
  {
  }

  // ... so that the run of this picture ends, after four sweeps, with a yellow cell stored as
  // blue: its gray is 4730 instead of within 4 of zero, and its correction sums have left int16.
  ghost predicate Overflows(uv: Planes, owed: Planes)
    requires uv.Shape(2) && owed.Shape(2)
  {
    WrongTriple(uv) && !(IsS16(owed.r[1]) && IsS16(owed.g[1]) && IsS16(owed.b[1]))
  }

  ghost predicate ChromaOverflows(src: Source) {
    && Even(src, 2, 2) && src.Cells() == src.Pairs() == 2 && Refined(LINEAR, src, 16).sweeps == 4
    && Overflows(Refined(LINEAR, src, 16).best.uvs[1], OwedChroma(LINEAR, src, 16, 4, 1))
  }

  lemma ChromaDoesOverflow()
    ensures ChromaOverflows(PICTURE)
  {
    RefinesInFourSweeps();
    FinalChroma();
    LinearConfig();
    hide OwedChroma, AfterSweeps, Target, FirstGuess, Source.Valid, IsS16, ImageOf, GRID4, PICTURE, Transfer.Tame, MaxY;
    hide Config.Valid, RGBToGray, Iterate;
    OverflowsFrom(PICTURE, ImageOf(GRID4, 2), 2283);
  }

  lemma OverflowsFrom(src: Source, final: Image, diff: nat)
    requires RefinesTo(src, 2, 2, final, 4, diff) && LINEAR.t.Tame(14) && final.Shape(2, 2) && WrongTriple(final.uvs[1])
    ensures ChromaOverflows(src)
  {
    hide OwedChroma, AfterSweeps, Target, FirstGuess, Source.Valid, IsS16, Transfer.Tame, MaxY, Config.Valid,
         RGBToGray, Iterate;
    RefinedCounts(LINEAR, src, 16);
    GrayAfterSweeps(LINEAR, src, 16, 4, 1, 1, 0);
  }

  predicate WrongTriple(uv: Planes)
    requires uv.Shape(2)
  {
    && (uv.r[1], uv.g[1], uv.b[1]) == (10707, 132, 32681)
    && RGBToGray(uv.r[1], uv.g[1], uv.b[1]) == 4730
  }

  lemma FinalChroma()
    ensures Grid(GRID4, 2) && WrongTriple(ImageOf(GRID4, 2).uvs[1])
  {
  }

}
