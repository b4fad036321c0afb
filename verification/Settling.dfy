/** Exactly when a second snapshot, taken of what a first one brought back, brings back the same again. */
module Settling {
  import opened Sgr
  import opened Screen
  import opened Snapshot
  import opened Replay
  import opened RoundTrip
  import opened Survival

  /** A cell that prints as a blank one: a tab, or a space in a style none of which is read back */
  predicate Fades(cell: Cell) { ShownCell(cell) == BLANK }

  predicate Vanishes(row: Row) { forall j :: 0 <= j < |row| ==> Fades(row[j]) }

  /** A row wraps in what comes back when the row below prints something and its own last cell is not rewritten;
      `last` is the row that is rewritten, or -1 */
  predicate WrapKept(lines: seq<Row>, i: int, last: int)
    requires i < |lines|
  {
    0 <= i && Wrapped(lines[i]) && i != last && i + 1 < |lines| && End(lines[i + 1]) > 0
  }

  predicate Colored(row: Row) { row != [] && Readable(row[0].style).bg != Named(BACKGROUND) }

  /** The last column whose fill counts is written, and from it on nothing shows */
  predicate FadesAtTheEdge(row: Row, rewritten: bool)
    requires |row| >= 2
  {
    var edge := if rewritten then |row| - 2 else |row| - 1;
    End(row) > edge && forall j :: edge <= j < |row| ==> Fades(row[j])
  }

  /** A row that comes back wrapped must not have a row below it that comes back empty; and a row that scrolled in
      under a wrap in a color must not come back short of the edge */
  predicate RowSettles(g: Geometry, lines: seq<Row>, i: nat, last: int)
    requires i < |lines| && |lines[i]| >= 2
  {
    && (WrapKept(lines, i, last) ==> !Vanishes(lines[i + 1]) || WrapKept(lines, i + 1, last))
    && (WrapKept(lines, i - 1, last) && !WrapKept(lines, i, last) && i >= g.rows && Colored(lines[i]) ==>
          !FadesAtTheEdge(lines[i], i == last))
  }

  function LastRewritten(g: Geometry, t: Term, maxHistory: nat): int
    requires Valid(g, t)
  {
    if t.wrapNext && !IsSpacer(LastCell(g, t)) then |Kept(t, maxHistory).history| + t.line else -1
  }

  predicate AllSettle(g: Geometry, lines: seq<Row>, last: int) {
    forall i :: 0 <= i < |lines| && |lines[i]| >= 2 ==> RowSettles(g, lines, i, last)
  }

  predicate Settles(g: Geometry, t: Term, maxHistory: nat)
    requires Valid(g, t)
  {
    AllSettle(g, Lines(t, maxHistory), LastRewritten(g, t, maxHistory))
  }

  // ----- what comes back, cell by cell

  function Backs(g: Geometry, lines: seq<Row>, last: int): (r: seq<Row>)
    requires g.cols >= 2 && Rectangular(g, lines)
    ensures |r| == |lines| && forall i :: 0 <= i < |lines| ==> r[i] == Back(g, lines, i, i == last) && |r[i]| == g.cols
  {
    seq(|lines|, i requires 0 <= i < |lines| => Back(g, lines, i, i == last))
  }

  function BackCell(g: Geometry, lines: seq<Row>, i: nat, rewritten: bool, j: nat): Cell
    requires i < |lines| && j < |lines[i]|
  {
    if j < End(lines[i]) || (rewritten && j == |lines[i]| - 1) then ShownCell(lines[i][j]) else Fill(g, lines, i)
  }

  lemma BackCellIs(g: Geometry, lines: seq<Row>, i: nat, last: int, j: nat)
    requires g.cols >= 2 && Rectangular(g, lines) && i < |lines| && j < g.cols
    ensures Back(g, lines, i, i == last)[j]
            == BackCell(g, lines, i, i == last, j).(wrap := j == g.cols - 1 && WrapKept(lines, i, last))
  {}

  lemma BackWraps(g: Geometry, lines: seq<Row>, i: nat, last: int)
    requires g.cols >= 2 && Rectangular(g, lines) && i < |lines|
    ensures Wrapped(Back(g, lines, i, i == last)) <==> WrapKept(lines, i, last)
  {
    BackCellIs(g, lines, i, last, g.cols - 1);
  }

  // ----- whole rows come back whole

  lemma FillPrintable(style: Style)
    ensures Printable(Erased(Readable(style)).style) && Printable(DEFAULT)
    ensures Erased(Readable(style)) == BLANK <==> Readable(style).bg == Named(BACKGROUND)
  {
    ReadableIsPrintable(style);
    ReadableIsPrintable(DEFAULT);
  }

  lemma BackCellSurvives(g: Geometry, lines: seq<Row>, i: nat, rewritten: bool, j: nat)
    requires i < |lines| && j < |lines[i]|
    ensures CellSurvives(BackCell(g, lines, i, rewritten, j))
  {
    ReadableIsPrintable(lines[i][j].style);
    ReadableIsPrintable(DEFAULT);
    FillPrintable(lines[i][0].style);
  }

  lemma ShownInEnd(row: Row, j: nat)
    requires j < |row| && row[j] != BLANK
    ensures j < End(row)
  {}

  lemma BackNarrow(g: Geometry, lines: seq<Row>, i: nat, last: int, j: nat)
    requires ValidGeometry(g) && WholeLines(g, lines) && i < |lines| && j < g.cols && lines[i][j].shape.Narrow?
    ensures WholeCell(g, Back(g, lines, i, i == last), j)
  {
    assert WholeCell(g, lines[i], j);
    BackCellIs(g, lines, i, last, j);
  }

  lemma BackWide(g: Geometry, lines: seq<Row>, i: nat, last: int, j: nat)
    requires ValidGeometry(g) && WholeLines(g, lines) && i < |lines| && j < g.cols && lines[i][j].shape.Wide?
    ensures WholeCell(g, Back(g, lines, i, i == last), j)
  {
    assert WholeCell(g, lines[i], j);
    ShownInEnd(lines[i], j);
    ShownInEnd(lines[i], j + 1);
    BackCellIs(g, lines, i, last, j);
    BackCellIs(g, lines, i, last, j + 1);
  }

  lemma BackSpacer(g: Geometry, lines: seq<Row>, i: nat, last: int, j: nat)
    requires ValidGeometry(g) && WholeLines(g, lines) && i < |lines| && j < g.cols && lines[i][j].shape.Spacer?
    ensures WholeCell(g, Back(g, lines, i, i == last), j)
  {
    assert WholeCell(g, lines[i], j) && WholeCell(g, lines[i], j - 1);
    ShownInEnd(lines[i], j);
    BackCellIs(g, lines, i, last, j);
    BackCellIs(g, lines, i, last, j - 1);
  }

  /** A spacer at the edge wraps, and the wide character it stands in for is on the next row */
  lemma LeadingWraps(g: Geometry, lines: seq<Row>, i: nat, last: int)
    requires WholeLines(g, lines) && i < |lines| && i != last && lines[i][g.cols - 1].shape.LeadingSpacer?
    ensures WrapKept(lines, i, last) && End(lines[i]) == g.cols
  {
    assert WholeCell(g, lines[i], g.cols - 1) && lines[i + 1][0].shape.Wide?;
    ShownInEnd(lines[i + 1], 0);
  }

  lemma BackLeadingCell(g: Geometry, lines: seq<Row>, i: nat, last: int)
    requires ValidGeometry(g) && WholeLines(g, lines) && i < |lines| && i != last
    requires lines[i][g.cols - 1].shape.LeadingSpacer?
    ensures WholeCell(g, Back(g, lines, i, i == last), g.cols - 1)
  {
    assert WholeCell(g, lines[i], g.cols - 1);
    LeadingWraps(g, lines, i, last);
    BackCellIs(g, lines, i, last, g.cols - 1);
  }

  lemma BackWholeCell(g: Geometry, lines: seq<Row>, i: nat, last: int, j: nat)
    requires ValidGeometry(g) && WholeLines(g, lines) && i < |lines| && j < g.cols
    requires i == last ==> !IsSpacer(lines[i][g.cols - 1])
    ensures WholeCell(g, Back(g, lines, i, i == last), j)
  {
    assert WholeCell(g, lines[i], j);
    match lines[i][j].shape
    case Narrow => BackNarrow(g, lines, i, last, j);
    case Wide => BackWide(g, lines, i, last, j);
    case Spacer => BackSpacer(g, lines, i, last, j);
    case LeadingSpacer => BackLeadingCell(g, lines, i, last);
  }

  lemma BackStyle(g: Geometry, lines: seq<Row>, i: nat, last: int, j: nat)
    requires g.cols >= 2 && Rectangular(g, lines) && i < |lines| && j < g.cols && j < End(lines[i])
    ensures Back(g, lines, i, i == last)[j].shape == lines[i][j].shape
    ensures Back(g, lines, i, i == last)[j].style == Readable(lines[i][j].style)
  {
    BackCellIs(g, lines, i, last, j);
  }

  lemma BackLeading(g: Geometry, lines: seq<Row>, i: nat, last: int)
    requires ValidGeometry(g) && WholeLines(g, lines) && i < |lines| && i != last
    requires lines[i][g.cols - 1].shape.LeadingSpacer?
    ensures i + 1 < |lines|
    ensures var next := Back(g, lines, i + 1, i + 1 == last);
      next[0].shape.Wide? && next[0].style == Back(g, lines, i, i == last)[g.cols - 1].style
  {
    LeadingWraps(g, lines, i, last);
    BackStyle(g, lines, i, last, g.cols - 1);
    BackStyle(g, lines, i + 1, last, 0);
  }

  predicate NoSpacerAt(lines: seq<Row>, last: int) {
    0 <= last < |lines| && lines[last] != [] ==> !IsSpacer(lines[last][|lines[last]| - 1])
  }

  lemma ShowsLeading(g: Geometry, lines: seq<Row>, i: nat, last: int)
    requires g.cols >= 2 && Rectangular(g, lines) && i < |lines|
    requires Back(g, lines, i, i == last)[g.cols - 1].shape.LeadingSpacer?
    ensures lines[i][g.cols - 1].shape.LeadingSpacer?
  {
    BackCellIs(g, lines, i, last, g.cols - 1);
  }

  lemma BacksLead(g: Geometry, lines: seq<Row>, last: int, i: nat)
    requires ValidGeometry(g) && WholeLines(g, lines) && NoSpacerAt(lines, last) && i < |lines|
    requires Back(g, lines, i, i == last)[g.cols - 1].shape.LeadingSpacer?
    ensures i + 1 < |lines|
    ensures var next := Back(g, lines, i + 1, i + 1 == last);
      next[0].shape.Wide? && next[0].style == Back(g, lines, i, i == last)[g.cols - 1].style
  {
    ShowsLeading(g, lines, i, last);
    BackLeading(g, lines, i, last);
  }

  lemma BacksAreWhole(g: Geometry, lines: seq<Row>, last: int)
    requires ValidGeometry(g) && WholeLines(g, lines) && NoSpacerAt(lines, last)
    ensures WholeLines(g, Backs(g, lines, last))
  {
    var back := Backs(g, lines, last);
    forall i, j | 0 <= i < |back| && 0 <= j < g.cols ensures WholeCell(g, back[i], j) {
      BackWholeCell(g, lines, i, last, j);
    }
    forall i | 0 <= i < |back| && back[i][g.cols - 1].shape.LeadingSpacer?
      ensures i + 1 < |back| && back[i + 1][0].shape.Wide? && back[i + 1][0].style == back[i][g.cols - 1].style
    {
      BacksLead(g, lines, last, i);
    }
  }

  // ----- how far the rows that come back reach

  lemma BackIsShown(g: Geometry, lines: seq<Row>, i: nat, last: int)
    requires g.cols >= 2 && Rectangular(g, lines) && i < |lines| && End(lines[i]) > 0
    ensures End(Back(g, lines, i, i == last)) > 0 <==> !Vanishes(lines[i]) || WrapKept(lines, i, last)
  {
    var row, back := lines[i], Back(g, lines, i, i == last);
    BackWraps(g, lines, i, last);
    if !WrapKept(lines, i, last) {
      if Vanishes(row) {
        FillPrintable(row[0].style);
        forall j | 0 <= j < g.cols ensures back[j] == BLANK { BackCellIs(g, lines, i, last, j); }
      } else {
        var j :| 0 <= j < |row| && !Fades(row[j]);
        ShownSame(BLANK, false);
        BlankSurvives();
        ShownInEnd(row, j);
        BackCellIs(g, lines, i, last, j);
      }
    }
  }

  lemma {:induction false} UsedBefore(row: Row, edge: nat)
    requires edge < |row|
    ensures Used(row) <= edge <==> forall j :: edge <= j < |row| ==> row[j] == BLANK
  {}

  /** A row that scrolled in under a color is filled with it behind its last cell */
  lemma BackStopsShort(g: Geometry, lines: seq<Row>, i: nat, last: int)
    requires g.cols >= 2 && Rectangular(g, lines) && i < |lines| && WrapKept(lines, i - 1, last)
    requires !WrapKept(lines, i, last) && i >= g.rows && Colored(lines[i])
    ensures End(Back(g, lines, i, i == last)) < (if i == last then g.cols - 1 else g.cols)
            <==> FadesAtTheEdge(lines[i], i == last)
  {
    var row, back := lines[i], Back(g, lines, i, i == last);
    var edge := if i == last then g.cols - 2 else g.cols - 1;
    BackWraps(g, lines, i, last);
    UsedBefore(back, edge);
    FillPrintable(row[0].style);
    BackCellIs(g, lines, i, last, edge);
    BackCellIs(g, lines, i, last, g.cols - 1);
    if End(row) > edge {
      forall j | edge <= j < g.cols ensures back[j] == BLANK <==> Fades(row[j]) {
        BackCellIs(g, lines, i, last, j);
      }
    }
  }

  // ----- row by row

  lemma BackCellsSurvive(g: Geometry, lines: seq<Row>, i: nat, last: int, back: Row)
    requires g.cols >= 2 && Rectangular(g, lines) && i < |lines| && back == Back(g, lines, i, i == last)
    ensures forall j :: 0 <= j < g.cols ==> CellSurvives(back[j])
  {
    forall j | 0 <= j < g.cols ensures CellSurvives(back[j]) {
      BackCellIs(g, lines, i, last, j);
      BackCellSurvives(g, lines, i, i == last, j);
    }
  }

  /** The row below a wrap that is kept */
  lemma WrapSettles(g: Geometry, lines: seq<Row>, i: nat, last: int)
    requires g.cols >= 2 && Rectangular(g, lines) && i < |lines|
    ensures var back := Backs(g, lines, last);
      (Wrapped(back[i]) ==> i != last && i + 1 < |back| && End(back[i + 1]) > 0) <==>
      (WrapKept(lines, i, last) ==> !Vanishes(lines[i + 1]) || WrapKept(lines, i + 1, last))
  {
    BackWraps(g, lines, i, last);
    if WrapKept(lines, i, last) { BackIsShown(g, lines, i + 1, last); }
  }

  lemma FirstStyle(g: Geometry, lines: seq<Row>, i: nat, last: int)
    requires g.cols >= 2 && Rectangular(g, lines) && i < |lines| && End(lines[i]) > 0
    ensures Readable(Back(g, lines, i, i == last)[0].style) == Readable(lines[i][0].style)
  {
    BackCellIs(g, lines, i, last, 0);
    ReadableIsPrintable(lines[i][0].style);
    ReadableIsPrintable(Readable(lines[i][0].style));
  }

  /** The fill of a row that scrolls in */
  lemma FillSettles(g: Geometry, lines: seq<Row>, i: nat, last: int)
    requires g.cols >= 2 && Rectangular(g, lines) && i < |lines|
    ensures var back := Backs(g, lines, last);
      (Joined(back, i) && i >= g.rows && 0 < End(back[i]) < (if i == last then g.cols - 1 else g.cols) ==>
         Readable(back[i][0].style).bg == Named(BACKGROUND)) <==>
      (WrapKept(lines, i - 1, last) && !WrapKept(lines, i, last) && i >= g.rows && Colored(lines[i]) ==>
         !FadesAtTheEdge(lines[i], i == last))
  {
    var back := Backs(g, lines, last);
    BackWraps(g, lines, i, last);
    if i > 0 { BackWraps(g, lines, i - 1, last); }
    if WrapKept(lines, i - 1, last) && i >= g.rows {
      FirstStyle(g, lines, i, last);
      if !WrapKept(lines, i, last) && Colored(lines[i]) {
        BackStopsShort(g, lines, i, last);
        ColoredShows(g, lines, i, last);
      }
    }
  }

  lemma ColoredShows(g: Geometry, lines: seq<Row>, i: nat, last: int)
    requires g.cols >= 2 && Rectangular(g, lines) && i < |lines| && End(lines[i]) > 0 && Colored(lines[i])
    ensures End(Back(g, lines, i, i == last)) > 0
  {
    assert !Fades(lines[i][0]);
    BackIsShown(g, lines, i, last);
  }

  lemma RowSettlesExactly(g: Geometry, lines: seq<Row>, i: nat, last: int)
    requires g.cols >= 2 && Rectangular(g, lines) && i < |lines|
    ensures RowSurvives(g, Backs(g, lines, last), i, i == last) <==> RowSettles(g, lines, i, last)
  {
    BackCellsSurvive(g, lines, i, last, Backs(g, lines, last)[i]);
    WrapSettles(g, lines, i, last);
    FillSettles(g, lines, i, last);
  }

  predicate Survivor(g: Geometry, lines: seq<Row>, i: nat, last: int)
    requires i < |lines|
  {
    RowSurvives(g, lines, i, i == last)
  }

  predicate AllSurvive(g: Geometry, lines: seq<Row>, last: int) {
    forall i :: 0 <= i < |lines| ==> Survivor(g, lines, i, last)
  }

  lemma AllSettleExactly(g: Geometry, lines: seq<Row>, last: int)
    requires g.cols >= 2 && Rectangular(g, lines)
    ensures AllSurvive(g, Backs(g, lines, last), last) <==> AllSettle(g, lines, last)
  {
    forall i | 0 <= i < |lines|
      ensures Survivor(g, Backs(g, lines, last), i, last) <==> RowSettles(g, lines, i, last)
    {
      RowSettlesExactly(g, lines, i, last);
    }
  }

  // ----- the second snapshot

  lemma SurvivesIs(g: Geometry, t: Term, maxHistory: nat)
    requires Whole(g, t, maxHistory)
    ensures Survives(g, t, maxHistory) <==>
      CursorSurvives(g, t) && AllSurvive(g, Lines(t, maxHistory), LastRewritten(g, t, maxHistory))
  {
    var lines, last := Lines(t, maxHistory), LastRewritten(g, t, maxHistory);
    forall i | 0 <= i < |lines|
      ensures Survivor(g, lines, i, last) <==> RowSurvives(g, lines, i, Rewritten(g, t, maxHistory, i))
    {
      assert Rewritten(g, t, maxHistory, i) <==> i == last;
    }
  }

  lemma RowsBackAre(g: Geometry, t: Term, maxHistory: nat)
    requires Whole(g, t, maxHistory)
    ensures Rectangular(g, Lines(t, maxHistory))
    ensures RowsBack(g, t, maxHistory) == Backs(g, Lines(t, maxHistory), LastRewritten(g, t, maxHistory))
  {
    var lines, rows, last := Lines(t, maxHistory), RowsBack(g, t, maxHistory), LastRewritten(g, t, maxHistory);
    forall i | 0 <= i < |rows| ensures rows[i] == Backs(g, lines, last)[i] { RowBackIs(g, t, maxHistory, i); }
  }

  lemma LinesOfParts(rows: seq<Row>, h: nat, maxHistory: nat, u: Term)
    requires h <= |rows| && h <= maxHistory && u.history == rows[..h] && u.screen == rows[h..]
    ensures Lines(u, maxHistory) == rows && Kept(u, maxHistory) == u
  {
    assert rows[..h] + rows[h..] == rows;
  }

  lemma RestoredRows(g: Geometry, t: Term, maxHistory: nat)
    requires Whole(g, t, maxHistory)
    ensures Rectangular(g, Lines(t, maxHistory))
    ensures Lines(Restored(g, t, maxHistory), maxHistory)
            == Backs(g, Lines(t, maxHistory), LastRewritten(g, t, maxHistory))
    ensures |Restored(g, t, maxHistory).history| == |Kept(t, maxHistory).history|
    ensures Kept(Restored(g, t, maxHistory), maxHistory) == Restored(g, t, maxHistory)
  {
    RowsBackAre(g, t, maxHistory);
    LinesOfParts(RowsBack(g, t, maxHistory), |Kept(t, maxHistory).history|, maxHistory, Restored(g, t, maxHistory));
  }

  lemma RewrittenIsNoSpacer(g: Geometry, t: Term, maxHistory: nat)
    requires Whole(g, t, maxHistory)
    ensures NoSpacerAt(Lines(t, maxHistory), LastRewritten(g, t, maxHistory))
  {
    var lines, h := Lines(t, maxHistory), |Kept(t, maxHistory).history|;
    assert lines[h + t.line] == t.screen[t.line];
  }

  lemma RestoredValid(g: Geometry, t: Term, maxHistory: nat)
    requires Whole(g, t, maxHistory)
    ensures Rectangular(g, Lines(t, maxHistory)) && Valid(g, Restored(g, t, maxHistory))
  {
    SnapshotRestores(g, t, maxHistory, Fresh(g));
  }

  lemma RowBehind(rows: seq<Row>, h: nat, i: nat)
    requires h + i < |rows|
    ensures rows[h..][i] == rows[h + i]
  {}

  lemma RowBackLast(g: Geometry, t: Term, maxHistory: nat, i: nat)
    requires Valid(g, t) && Rectangular(g, Lines(t, maxHistory)) && Rewritten(g, t, maxHistory, i)
    requires i < |Lines(t, maxHistory)|
    ensures RowBack(g, t, maxHistory, i)[g.cols - 1] == ShownCell(LastCell(g, t))
  {}

  /** The last cell of the cursor's row, which is rewritten when its wrap is pending */
  lemma RestoredLastCell(g: Geometry, t: Term, maxHistory: nat)
    requires Whole(g, t, maxHistory) && t.wrapNext && !IsSpacer(LastCell(g, t))
    ensures Rectangular(g, Lines(t, maxHistory)) && Valid(g, Restored(g, t, maxHistory))
    ensures LastCell(g, Restored(g, t, maxHistory)) == ShownCell(LastCell(g, t))
  {
    RestoredValid(g, t, maxHistory);
    RowBehind(RowsBack(g, t, maxHistory), |Kept(t, maxHistory).history|, t.line);
    RowBackLast(g, t, maxHistory, |Kept(t, maxHistory).history| + t.line);
  }

  /** The same row is rewritten for what came back, and its cursor comes back */
  lemma RestoredCursor(g: Geometry, t: Term, maxHistory: nat)
    requires Whole(g, t, maxHistory)
    ensures Rectangular(g, Lines(t, maxHistory)) && Valid(g, Restored(g, t, maxHistory))
    ensures CursorSurvives(g, Restored(g, t, maxHistory))
    ensures LastRewritten(g, Restored(g, t, maxHistory), maxHistory) == LastRewritten(g, t, maxHistory)
  {
    RestoredValid(g, t, maxHistory);
    RestoredRows(g, t, maxHistory);
    ReadableIsPrintable(t.pen);
    if t.wrapNext && !IsSpacer(LastCell(g, t)) { RestoredLastCell(g, t, maxHistory); }
  }

  /** What came back is a terminal that printing can leave behind */
  lemma RestoredIsWhole(g: Geometry, t: Term, maxHistory: nat)
    requires Whole(g, t, maxHistory)
    ensures Rectangular(g, Lines(t, maxHistory))
    ensures Whole(g, Restored(g, t, maxHistory), maxHistory)
  {
    RestoredValid(g, t, maxHistory);
    RestoredRows(g, t, maxHistory);
    RewrittenIsNoSpacer(g, t, maxHistory);
    BacksAreWhole(g, Lines(t, maxHistory), LastRewritten(g, t, maxHistory));
  }

  lemma RestoredSurvives(g: Geometry, t: Term, maxHistory: nat)
    requires Whole(g, t, maxHistory)
    ensures Rectangular(g, Lines(t, maxHistory)) && Valid(g, Restored(g, t, maxHistory))
    ensures Survives(g, Restored(g, t, maxHistory), maxHistory) <==> Settles(g, t, maxHistory)
  {
    RestoredCursor(g, t, maxHistory);
    RestoredRows(g, t, maxHistory);
    RestoredIsWhole(g, t, maxHistory);
    SurvivesIs(g, Restored(g, t, maxHistory), maxHistory);
    AllSettleExactly(g, Lines(t, maxHistory), LastRewritten(g, t, maxHistory));
  }

  /** A snapshot of what a snapshot brought back brings back the same terminal again if and only if no row comes back
      wrapped above one that comes back empty, and no row that scrolled in under a color comes back short of the
      edge */
  lemma {:induction false} SecondSnapshotExactly(g: Geometry, t: Term, maxHistory: nat, any: Term)
    requires Whole(g, t, maxHistory) && Valid(g, any)
    ensures var back := DoAll(g, any, Lex(OpsText(SnapshotOps(g, t, maxHistory))));
      DoAll(g, any, Lex(OpsText(SnapshotOps(g, back, maxHistory)))) == back <==> Settles(g, t, maxHistory)
  {
    SnapshotTextRestores(g, t, maxHistory, any);
    RestoredIsWhole(g, t, maxHistory);
    RestoredRows(g, t, maxHistory);
    SnapshotExactly(g, Restored(g, t, maxHistory), maxHistory, any);
    RestoredSurvives(g, t, maxHistory);
  }

  // ----- a row of tabs under a wrap

  /** Two columns and two rows: a row that wraps, and below it one that holds a tab */
  function TabUnderWrap(): Term {
    Term([], [[Letter(false), Letter(true)], [TAB, BLANK]], 1, 0, false, DEFAULT)
  }

  lemma TabUnderWrapIsWhole(g: Geometry)
    requires g.cols == 2 && g.rows == 2 && g.width('a') == 1 && g.width(' ') == 1
    ensures Valid(g, TabUnderWrap()) && Whole(g, TabUnderWrap(), 0)
  {
    var t := TabUnderWrap();
    assert Lines(t, 0) == t.screen;
  }

  lemma TabFades()
    ensures Fades(TAB) && Fades(BLANK)
  {
    ReadableDefault();
  }

  lemma TabUnderWrapIsUnsettled(g: Geometry)
    requires g.cols == 2 && g.rows == 2 && Valid(g, TabUnderWrap())
    ensures !Settles(g, TabUnderWrap(), 0)
  {
    var t := TabUnderWrap();
    var lines := t.screen;
    assert Lines(t, 0) == lines && LastRewritten(g, t, 0) == -1;
    TabFades();
    ShownInEnd(lines[1], 0);
    assert Vanishes(lines[1]) && WrapKept(lines, 0, -1) && !WrapKept(lines, 1, -1);
    assert !RowSettles(g, lines, 0, -1);
  }

  /** Its tab comes back as a blank, so the second snapshot starts a new line where the first went on in the same one:
      the wrap, kept once, is lost the second time */
  lemma {:induction false} TabUnderWrapIsLost(g: Geometry, any: Term)
    requires g.cols == 2 && g.rows == 2 && g.width('a') == 1 && g.width(' ') == 1 && Valid(g, any)
    ensures Valid(g, TabUnderWrap()) && Whole(g, TabUnderWrap(), 0)
    ensures var back := DoAll(g, any, Lex(OpsText(SnapshotOps(g, TabUnderWrap(), 0))));
      DoAll(g, any, Lex(OpsText(SnapshotOps(g, back, 0)))) != back
  {
    TabUnderWrapIsWhole(g);
    TabUnderWrapIsUnsettled(g);
    SecondSnapshotExactly(g, TabUnderWrap(), 0, any);
  }

  /** It does not come back as it was the first time either, since the tab has become a space */
  lemma TabUnderWrapIsNotBack(g: Geometry, any: Term)
    requires g.cols == 2 && g.rows == 2 && g.width('a') == 1 && g.width(' ') == 1 && Valid(g, any)
    ensures Valid(g, TabUnderWrap()) && !ComesBack(g, TabUnderWrap(), 0, any)
  {
    var t := TabUnderWrap();
    TabUnderWrapIsWhole(g);
    assert Lines(t, 0) == t.screen && !CellSurvives(t.screen[1][0]);
    RowIsLost(g, t, 0, t.screen, 1, any);
  }
}
