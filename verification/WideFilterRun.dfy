// A picture that SSE2's wide filter refines to another image than the C filter does: ten by two
// pixels of 16-bit blue, yellow and white under the linear curve. In the second sweep the sum
// of luma and tap of one blue sample leaves int16.
module WideFilterRun {
  import opened FixedPoint
  import opened Gamma
  import opened Rows
  import opened Measure
  import opened Sweep
  import opened Import
  import opened Driver
  import opened Invariants
  import opened SimdRows
  import opened SimdRuns
  import opened VectorRuns
  import opened CellByCell

  // ---- The run with the C filter, worked out ----

  const TARGET0: seq<Cell> := [
    Cell(Four(1183, 1183, 15200, 15200), Uv(0, 0, 0)),
    Cell(Four(15200, 15200, 16383, 15200), Uv(887, 887, -11400)),
    Cell(Four(1183, 1183, 1183, 16383), Uv(-887, -887, 11400)),
    Cell(Four(1183, 1183, 1183, 1183), Uv(-1183, -1183, 15200)),
    Cell(Four(16383, 15200, 16383, 15200), Uv(591, 591, -7600))]

  const ROW1: seq<Cell> := [
    Cell(Four(1183, 1062, 15200, 15200), Uv(-81, -81, 1039)),
    Cell(Four(15200, 15200, 16383, 15200), Uv(1232, 1232, -15829)),
    Cell(Four(1182, 1183, 1182, 16383), Uv(-1295, -1295, 16639)),
    Cell(Four(1183, 1183, 1183, 1183), Uv(-1442, -1442, 18525)),
    Cell(Four(16383, 15200, 16383, 15200), Uv(818, 818, -10519))]

  const ROW_SEEN0: seq<Cell> := [
    Cell(Four(1183, 1304, 15200, 15200), Uv(81, 81, -1039)),
    Cell(Four(15200, 15200, 15766, 15200), Uv(542, 542, -6971)),
    Cell(Four(1184, 1183, 1184, 15491), Uv(-479, -479, 6161)),
    Cell(Four(1183, 1183, 1183, 1183), Uv(-924, -924, 11875)),
    Cell(Four(16246, 15200, 16246, 15200), Uv(364, 364, -4681))]

  lemma RowSees0Left()
    ensures forall i :: 0 <= i < 2 ==> ROW_SEEN0[i] == SeenFrom([TARGET0], 5, 0, false, i)
  {
    hide Measures;
    CellWorks(TARGET0[0].luma, AcrossAt(TARGET0, 0), AcrossAt(TARGET0, 0), AcrossAt(TARGET0, 0), EXACT,
              Shows(Four(1183, 1405, 15200, 15422), Four(1183, 1405, 15200, 15422), Four(1183, 0, 15200, 12350)),
              Uv(8303, 8303, 7183), 8222, ROW_SEEN0[0]);
    CellWorks(TARGET0[1].luma, AcrossAt(TARGET0, 1), AcrossAt(TARGET0, 1), AcrossAt(TARGET0, 1), EXACT,
              Shows(Four(15865, 15644, 16383, 15644), Four(15865, 15644, 16383, 15644), Four(6650, 9500, 7833, 9500)),
              Uv(15884, 15884, 8371), 15342, ROW_SEEN0[1]);
  }

  lemma RowSees0Right()
    ensures forall i :: 2 <= i < 5 ==> ROW_SEEN0[i] == SeenFrom([TARGET0], 5, 0, false, i)
  {
    hide Measures;
    CellWorks(TARGET0[2].luma, AcrossAt(TARGET0, 2), AcrossAt(TARGET0, 2), AcrossAt(TARGET0, 2), EXACT,
              Shows(Four(740, 222, 740, 15422), Four(740, 222, 740, 15422), Four(6883, 13533, 6883, 16383)),
              Uv(4281, 4281, 10921), 4760, ROW_SEEN0[2]);
    CellWorks(TARGET0[3].luma, AcrossAt(TARGET0, 3), AcrossAt(TARGET0, 3), AcrossAt(TARGET0, 3), EXACT,
              Shows(Four(74, 444, 74, 444), Four(74, 444, 74, 444), Four(15433, 10683, 15433, 10683)),
              Uv(259, 259, 13058), 1183, ROW_SEEN0[3]);
    CellWorks(TARGET0[4].luma, AcrossAt(TARGET0, 4), AcrossAt(TARGET0, 4), AcrossAt(TARGET0, 4), EXACT,
              Shows(Four(16383, 15791, 16383, 15791), Four(16383, 15791, 16383, 15791), Four(14483, 7600, 14483, 7600)),
              Uv(16087, 16087, 11042), 15723, ROW_SEEN0[4]);
  }

  lemma RowSees0()
    ensures Sees([TARGET0], 5, 0, false, ROW_SEEN0)
  {
    hide SeenFrom;
    RowSees0Left();
    RowSees0Right();
  }

  lemma RowTurns0()
    ensures Turns(TARGET0, ROW_SEEN0, TARGET0, ROW1, 1906)
  {
    assert Distances(TARGET0, ROW_SEEN0, 1) == 121;
    assert Distances(TARGET0, ROW_SEEN0, 2) == 738;
    assert Distances(TARGET0, ROW_SEEN0, 3) == 1632;
    assert Distances(TARGET0, ROW_SEEN0, 4) == 1632;
  }

  const ROW2: seq<Cell> := [
    Cell(Four(1183, 1031, 15200, 15200), Uv(-126, -126, 1617)),
    Cell(Four(15200, 15200, 16383, 15200), Uv(1383, 1383, -17777)),
    Cell(Four(1183, 1183, 1183, 16383), Uv(-1531, -1531, 19668)),
    Cell(Four(1183, 1183, 1183, 1183), Uv(-1595, -1595, 20493)),
    Cell(Four(16383, 15201, 16383, 15201), Uv(882, 882, -11348))]

  const ROW_SEEN1: seq<Cell> := [
    Cell(Four(1183, 1214, 15200, 15200), Uv(45, 45, -578)),
    Cell(Four(15200, 15200, 15545, 15200), Uv(736, 736, -9452)),
    Cell(Four(1182, 1183, 1182, 15147), Uv(-651, -651, 8371)),
    Cell(Four(1183, 1183, 1183, 1183), Uv(-1030, -1030, 13232)),
    Cell(Four(16148, 15199, 16148, 15199), Uv(527, 527, -6771))]

  lemma RowSees1Left()
    ensures forall i :: 0 <= i < 2 ==> ROW_SEEN1[i] == SeenFrom([ROW1], 5, 0, false, i)
  {
    hide Measures;
    CellWorks(ROW1[0].luma, AcrossAt(ROW1, 0), AcrossAt(ROW1, 0), AcrossAt(ROW1, 0), EXACT,
              Shows(Four(1102, 1309, 15119, 15447), Four(1102, 1309, 15119, 15447), Four(2222, 0, 16239, 12022)),
              Uv(8244, 8244, 7621), 8199, ROW_SEEN1[0]);
    CellWorks(ROW1[1].luma, AcrossAt(ROW1, 1), AcrossAt(ROW1, 1), AcrossAt(ROW1, 1), EXACT,
              Shows(Four(16104, 15800, 16383, 15800), Four(16104, 15800, 16383, 15800), Four(3588, 7488, 4771, 7488)),
              Uv(16022, 16022, 5834), 15286, ROW_SEEN1[1]);
  }

  lemma RowSees1Right()
    ensures forall i :: 2 <= i < 5 ==> ROW_SEEN1[i] == SeenFrom([ROW1], 5, 0, false, i)
  {
    hide Measures;
    CellWorks(ROW1[2].luma, AcrossAt(ROW1, 2), AcrossAt(ROW1, 2), AcrossAt(ROW1, 2), EXACT,
              Shows(Four(519, 0, 519, 15051), Four(519, 0, 519, 15051), Four(9704, 16383, 9704, 16383)),
              Uv(4022, 4022, 13044), 4673, ROW_SEEN1[2]);
    CellWorks(ROW1[3].luma, AcrossAt(ROW1, 3), AcrossAt(ROW1, 3), AcrossAt(ROW1, 3), EXACT,
              Shows(Four(0, 306, 0, 306), Four(0, 306, 0, 306), Four(16383, 12447, 16383, 12447)),
              Uv(153, 153, 14415), 1183, ROW_SEEN1[3]);
    CellWorks(ROW1[4].luma, AcrossAt(ROW1, 4), AcrossAt(ROW1, 4), AcrossAt(ROW1, 4), EXACT,
              Shows(Four(16383, 16018, 16383, 16018), Four(16383, 16018, 16383, 16018), Four(13125, 4681, 13125, 4681)),
              Uv(16201, 16201, 8903), 15674, ROW_SEEN1[4]);
  }

  lemma RowSees1()
    ensures Sees([ROW1], 5, 0, false, ROW_SEEN1)
  {
    hide SeenFrom;
    RowSees1Left();
    RowSees1Right();
  }

  lemma RowTurns1()
    ensures Turns(TARGET0, ROW_SEEN1, ROW1, ROW2, 2579)
  {
    assert Distances(TARGET0, ROW_SEEN1, 1) == 31;
    assert Distances(TARGET0, ROW_SEEN1, 2) == 869;
    assert Distances(TARGET0, ROW_SEEN1, 3) == 2107;
    assert Distances(TARGET0, ROW_SEEN1, 4) == 2107;
  }

  // ---- The second sweep with SSE2's wide filter ----

  const WIDE2: seq<Cell> := [
    Cell(Four(1183, 1031, 15200, 15200), Uv(-126, -126, 1617)),
    Cell(Four(15200, 15200, 16383, 15200), Uv(1383, 1383, -17777)),
    Cell(Four(1183, 1183, 1183, 16383), Uv(-1826, -1826, 23469)),
    Cell(Four(1183, 1183, 1183, 1183), Uv(-1595, -1595, 20493)),
    Cell(Four(16383, 15201, 16383, 15201), Uv(882, 882, -11348))]

  const WIDE_SEEN1: seq<Cell> := [
    Cell(Four(1183, 1214, 15200, 15200), Uv(45, 45, -578)),
    Cell(Four(15200, 15200, 15545, 15200), Uv(736, 736, -9452)),
    Cell(Four(1182, 1183, 1182, 13964), Uv(-356, -356, 4570)),
    Cell(Four(1183, 1183, 1183, 1183), Uv(-1030, -1030, 13232)),
    Cell(Four(16148, 15199, 16148, 15199), Uv(527, 527, -6771))]

  // Of five cells all samples but the two edges are vectored.
  lemma ColumnsOfFive()
    ensures WideColumns(5, 0) == Columns(true, false) && WideColumns(5, 4) == Columns(false, true)
    ensures WideColumns(5, 1) == WideColumns(5, 2) == WideColumns(5, 3) == Columns(false, false)
  {
  }

  lemma WideSees1Left()
    ensures forall i :: 0 <= i < 2 ==> WIDE_SEEN1[i] == SeenFrom([ROW1], 5, 0, true, i)
  {
    ColumnsOfFive();
    hide WideColumns;
    hide Measures;
    CellWorks(ROW1[0].luma, AcrossAt(ROW1, 0), AcrossAt(ROW1, 0), AcrossAt(ROW1, 0), Columns(true, false),
              Shows(Four(1102, 1309, 15119, 15447), Four(1102, 1309, 15119, 15447), Four(2222, 0, 16239, 12022)),
              Uv(8244, 8244, 7621), 8199, WIDE_SEEN1[0]);
    CellWorks(ROW1[1].luma, AcrossAt(ROW1, 1), AcrossAt(ROW1, 1), AcrossAt(ROW1, 1), Columns(false, false),
              Shows(Four(16104, 15800, 16383, 15800), Four(16104, 15800, 16383, 15800), Four(3588, 7488, 4771, 7488)),
              Uv(16022, 16022, 5834), 15286, WIDE_SEEN1[1]);
  }

  lemma WideSees1Right()
    ensures forall i :: 2 <= i < 5 ==> WIDE_SEEN1[i] == SeenFrom([ROW1], 5, 0, true, i)
  {
    ColumnsOfFive();
    hide WideColumns;
    hide Measures;
    CellWorks(ROW1[2].luma, AcrossAt(ROW1, 2), AcrossAt(ROW1, 2), AcrossAt(ROW1, 2), Columns(false, false),
              Shows(Four(519, 0, 519, 15051), Four(519, 0, 519, 15051), Four(9704, 16383, 9704, 0)),
              Uv(4022, 4022, 8948), 4378, WIDE_SEEN1[2]);
    CellWorks(ROW1[3].luma, AcrossAt(ROW1, 3), AcrossAt(ROW1, 3), AcrossAt(ROW1, 3), Columns(false, false),
              Shows(Four(0, 306, 0, 306), Four(0, 306, 0, 306), Four(16383, 12447, 16383, 12447)),
              Uv(153, 153, 14415), 1183, WIDE_SEEN1[3]);
    CellWorks(ROW1[4].luma, AcrossAt(ROW1, 4), AcrossAt(ROW1, 4), AcrossAt(ROW1, 4), Columns(false, true),
              Shows(Four(16383, 16018, 16383, 16018), Four(16383, 16018, 16383, 16018), Four(13125, 4681, 13125, 4681)),
              Uv(16201, 16201, 8903), 15674, WIDE_SEEN1[4]);
  }

  lemma WideSees1()
    ensures Sees([ROW1], 5, 0, true, WIDE_SEEN1)
  {
    hide SeenFrom;
    WideSees1Left();
    WideSees1Right();
  }

  lemma WideTurns1()
    ensures Turns(TARGET0, WIDE_SEEN1, ROW1, WIDE2, 3762)
  {
    assert Distances(TARGET0, WIDE_SEEN1, 1) == 31;
    assert Distances(TARGET0, WIDE_SEEN1, 2) == 869;
    assert Distances(TARGET0, WIDE_SEEN1, 3) == 3290;
    assert Distances(TARGET0, WIDE_SEEN1, 4) == 3290;
  }

  // ---- The sweeps ----

  const GRID0: seq<seq<Cell>> := [TARGET0]
  const GRID1: seq<seq<Cell>> := [ROW1]
  const GRID2: seq<seq<Cell>> := [ROW2]
  const WIDE_GRID2: seq<seq<Cell>> := [WIDE2]

  lemma Sweep0()
    requires LINEAR.Valid() && LINEAR.Top() == TOP
    ensures Grids(GRID0, GRID0, 5) && Grids(GRID0, GRID1, 5) && Sweeps(GRID0, GRID0, 5, GRID1, 1906)
  {
    RowSees0();
    RowTurns0();
    hide Sees, Turns, Becomes, Sweeps, MaxY, Config.Valid, TARGET0, ROW1, ROW_SEEN0;
    RowsOfFive0();
    RowWorks(GRID0, GRID0, 5, 0, ROW_SEEN0, GRID1, 1906);
    SweepOfOne(GRID0, GRID0, 5, GRID1, 1906);
  }

  lemma RowsOfFive0()
    ensures |TARGET0| == |ROW1| == |ROW_SEEN0| == 5
  {
  }

  lemma Sweep1()
    requires LINEAR.Valid() && LINEAR.Top() == TOP
    ensures Grids(GRID0, GRID1, 5) && Grids(GRID1, GRID2, 5) && Sweeps(GRID0, GRID1, 5, GRID2, 2579)
  {
    RowSees1();
    RowTurns1();
    hide Sees, Turns, Becomes, Sweeps, MaxY, Config.Valid, ROW1, ROW2, ROW_SEEN1, TARGET0;
    RowsOfFive1();
    RowWorks(GRID0, GRID1, 5, 0, ROW_SEEN1, GRID2, 2579);
    SweepOfOne(GRID0, GRID1, 5, GRID2, 2579);
  }

  lemma RowsOfFive1()
    ensures |TARGET0| == |ROW1| == |ROW2| == |ROW_SEEN1| == 5
  {
  }

  // ---- The picture ----

  //   blue   blue   yellow yellow blue blue  blue blue white yellow
  //   yellow yellow white  yellow blue white blue blue white yellow
  const PICTURE := Source(
    [[0, 0, 65535, 65535, 0, 0, 0, 0, 65535, 65535],
     [65535, 65535, 65535, 65535, 0, 65535, 0, 0, 65535, 65535]],
    [[0, 0, 65535, 65535, 0, 0, 0, 0, 65535, 65535],
     [65535, 65535, 65535, 65535, 0, 65535, 0, 0, 65535, 65535]],
    [[65535, 65535, 0, 0, 65535, 65535, 65535, 65535, 65535, 0],
     [0, 0, 65535, 0, 65535, 65535, 65535, 65535, 65535, 0]],
    10, 2)

  lemma PictureFits()
    ensures LINEAR.Valid() && LINEAR.Top() == TOP && LINEAR.t.Tame(14) && Even(PICTURE, 5, 1)
  {
    LinearConfig();
    FullOrNone16();
    hide Pow2, AllWithin, Scaled;
    LineFits(PICTURE.r[0], PICTURE.g[0], PICTURE.b[0]);
    LineFits(PICTURE.r[1], PICTURE.g[1], PICTURE.b[1]);
  }

  lemma Imports0()
    requires Even(PICTURE, 5, 1)
    ensures |TARGET0| == 5 && forall i :: 0 <= i < 5 ==> TARGET0[i] == PictureCell(PICTURE, 5, 1, 0, i)
  {
    FullOrNone16();
    hide Measures, Scaled, Fits, Source.Valid;
    MeasureWorks(Shows(Four(0, 0, 16383, 16383), Four(0, 0, 16383, 16383), Four(16383, 16383, 0, 0)),
        Uv(8192, 8192, 8192), 8192, TARGET0[0]);
    MeasureWorks(Shows(Four(16383, 16383, 16383, 16383), Four(16383, 16383, 16383, 16383), Four(0, 0, 16383, 0)),
        Uv(16383, 16383, 4096), 15496, TARGET0[1]);
    MeasureWorks(Shows(Four(0, 0, 0, 16383), Four(0, 0, 0, 16383), Four(16383, 16383, 16383, 16383)),
        Uv(4096, 4096, 16383), 4983, TARGET0[2]);
    MeasureWorks(Shows(Four(0, 0, 0, 0), Four(0, 0, 0, 0), Four(16383, 16383, 16383, 16383)), Uv(0, 0, 16383), 1183,
        TARGET0[3]);
    MeasureWorks(Shows(Four(16383, 16383, 16383, 16383), Four(16383, 16383, 16383, 16383), Four(16383, 0, 16383, 0)),
        Uv(16383, 16383, 8192), 15792, TARGET0[4]);
  }

  lemma Begins()
    ensures LINEAR.Valid() && LINEAR.Top() == TOP && LINEAR.t.Tame(14)
    ensures Even(PICTURE, 5, 1) && PICTURE.Cells() == 5 && PICTURE.Pairs() == 1 && Grid(GRID0, 5) && |GRID0| == 1
    ensures Target(LINEAR, PICTURE, 16) == ImageOf(GRID0, 5) && FirstGuess(LINEAR, PICTURE, 16) == ImageOf(GRID0, 5)
  {
    PictureFits();
    hide PictureCell, ImageOf, Even, MaxY, Config.Valid, TARGET0, PICTURE, Target, FirstGuess, Fits, Transfer.Tame;
    Imports0();
    forall k, i | 0 <= k < 1 && 0 <= i < 5
      ensures |GRID0[k]| == 5 && GRID0[k][i] == PictureCell(PICTURE, 5, 1, k, i)
    {
    }
    Starts(PICTURE, 5, 1, GRID0);
  }

  // ---- The two runs ----

  // The first sweep is the same with either filter: the chroma of a target leaves room for luma.
  lemma FirstWideSweep(src: Source, t: seq<seq<Cell>>, a: seq<seq<Cell>>, d: nat)
    requires LINEAR.Valid() && LINEAR.Top() == TOP && LINEAR.t.Tame(14) && Even(src, 5, 1) && src.Cells() == 5
             && src.Pairs() == 1
    requires Grids(t, t, 5) && Grids(t, a, 5) && |t| == 1
    requires Target(LINEAR, src, 16) == ImageOf(t, 5) && FirstGuess(LINEAR, src, 16) == ImageOf(t, 5)
    requires Sweeps(t, t, 5, a, d)
    ensures WideSweeps(t, t, 5, a, d) && ReadyGrids(t, a, 5)
  {
    hide SweepTo, SweepWith, DiffTo, DiffWith, ImageOf, Target, FirstGuess, MaxY, Config.Valid, Transfer.Tame,
         FiltersLikeCAt;
    hide AllWithin, Source.Valid, ChromaWithin, Ready;
    var first := ImageOf(t, 5);
    FirstIsReady(LINEAR, src, 16);
    FirstFits(src, first);
    SweepWithIsC(Sse2On32, LINEAR, 5, 1, first, first, 1);
  }

  lemma FirstFits(src: Source, first: Image)
    requires LINEAR.Valid() && LINEAR.t.Tame(14) && Even(src, 5, 1) && src.Cells() == 5 && src.Pairs() == 1
             && first.Shape(5, 1)
    requires first == Target(LINEAR, src, 16) == FirstGuess(LINEAR, src, 16)
    ensures SweepsLikeC(Sse2On32, LINEAR, 5, 1, first, first, 1)
  {
    hide Target, FirstGuess, MaxY, Config.Valid, Transfer.Tame, AllWithin, Source.Valid, ChromaWithin, FiltersLikeCAt;
    TargetInRange(LINEAR, src, 16, 0);
    FirstGuessInRange(LINEAR, src, 16);
    FirstGuessIsInt16(LINEAR, src, 16);
    Pow2Values();
    ReachValues();
    ChromaIsWithin(first.uvs[0], 5, 0, 15201, 16384);
    LinearConfig();
    PairLikeC(Sse2On32, LINEAR, 5, 1, first, 0, 16384, 16384);
    assert SweepTo(LINEAR, 5, 1, first, first, 0) == first;
    assert AfterSweeps(LINEAR, 5, 1, first, first, 0) == first;
    Sse2SumFitsInRun(LINEAR, src, 16, 0, 0);
  }

  lemma SecondWideSweep()
    requires LINEAR.Valid() && LINEAR.Top() == TOP && Grids(GRID0, GRID1, 5) && ReadyGrids(GRID0, GRID1, 5)
    ensures Grids(GRID1, WIDE_GRID2, 5) && WideSweeps(GRID0, GRID1, 5, WIDE_GRID2, 3762)
  {
    WideSees1();
    WideTurns1();
    RowsOfFive1();
    WideRowsOfFive();
    hide Sees, Turns, WideBecomes, WideSweeps, ReadyGrids, MaxY, Config.Valid, TARGET0, ROW1, WIDE2, WIDE_SEEN1;
    WideRowWorks(GRID0, GRID1, 5, 0, WIDE_SEEN1, WIDE_GRID2, 3762);
    WideSweepOfOne(GRID0, GRID1, 5, WIDE_GRID2, 3762);
  }

  lemma WideRowsOfFive()
    ensures |WIDE2| == |WIDE_SEEN1| == 5
  {
  }

  // Two sweeps, the second farther from the target than the first, end a run.
  lemma TwoSweeps(src: Source, n: nat, t: seq<seq<Cell>>, a: seq<seq<Cell>>, b: seq<seq<Cell>>, c: seq<seq<Cell>>,
                  p: nat, q: nat, r: nat)
    requires StartsFrom(src, n, t) && Grids(t, a, n) && Grids(t, b, n) && Grids(t, c, n)
    requires Sweeps(t, t, n, a, p) && Sweeps(t, a, n, b, q) && WideSweeps(t, t, n, a, p) && WideSweeps(t, a, n, c, r)
    requires p < q && p < r
    ensures Refined(LINEAR, src, 16) == Outcome(ImageOf(b, n), 2, q)
    ensures RefinedWith(Sse2On32, LINEAR, src, 16) == Outcome(ImageOf(c, n), 2, r)
  {
    hide Sweeps, WideSweeps, Iterate, IterateWith, ImageOf, Target, FirstGuess, Config.Valid, MaxY, Source.Valid;
    Turn(t, t, n, a, p, 0, UINT64_MAX);
    Turn(t, a, n, b, q, 1, p);
    WideTurn(t, t, n, a, p, 0, UINT64_MAX);
    WideTurn(t, a, n, c, r, 1, p);
  }

  // The C filter and SSE2's refine the picture to different images, in two sweeps each: the
  // blue chroma of the third cell is 19668 with the one and 23469 with the other.
  predicate Differ(c: Outcome, s: Outcome) {
    && c.sweeps == s.sweeps == 2 && c.diff == 2579 && s.diff == 3762
    && |c.best.uvs| == |s.best.uvs| == 1 && c.best.uvs[0].Shape(5) && s.best.uvs[0].Shape(5)
    && c.best.uvs[0].b[2] == 19668 && s.best.uvs[0].b[2] == 23469
  }

  ghost predicate RunsDiffer(src: Source) {
    Even(src, 5, 1) && Differ(Refined(LINEAR, src, 16), RefinedWith(Sse2On32, LINEAR, src, 16))
  }

  lemma Sse2RunDiffers()
    ensures RunsDiffer(PICTURE)
  {
    hide Sweeps, WideSweeps, ReadyGrids, ImageOf, Even, MaxY, Config.Valid, Transfer.Tame, PICTURE, Target, FirstGuess;
    hide Refined, RefinedWith, GRID0, GRID1, GRID2, WIDE_GRID2;
    Begins();
    Sweep0();
    Sweep1();
    FinalChroma();
    FirstWideSweep(PICTURE, GRID0, GRID1, 1906);
    SecondWideSweep();
    assert Differ(Outcome(ImageOf(GRID2, 5), 2, 2579), Outcome(ImageOf(WIDE_GRID2, 5), 2, 3762));
    hide Differ;
    TwoSweeps(PICTURE, 5, GRID0, GRID1, GRID2, WIDE_GRID2, 1906, 2579, 3762);
  }

  lemma FinalChroma()
    ensures Grid(GRID2, 5) && |GRID2| == 1 && ImageOf(GRID2, 5).uvs[0].b[2] == 19668
    ensures Grid(WIDE_GRID2, 5) && |WIDE_GRID2| == 1 && ImageOf(WIDE_GRID2, 5).uvs[0].b[2] == 23469
  {
  }
}
