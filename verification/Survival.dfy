/** Exactly which terminals come back from their snapshot as they were. */
module Survival {
  import opened Sgr
  import opened Screen
  import opened Snapshot
  import opened Replay
  import opened RoundTrip
  import opened Printed

  predicate CellSurvives(cell: Cell) { cell.c != '\t' && Printable(cell.style) }

  /** A wrapped row keeps its wrap when the row below it prints something and its last cell is not
      rewritten; a row that scrolls in under a wrap takes on the background of its first cell, up to a
      rewritten last cell */
  predicate RowSurvives(g: Geometry, lines: seq<Row>, i: nat, rewritten: bool)
    requires i < |lines|
  {
    && (forall j :: 0 <= j < |lines[i]| ==> CellSurvives(lines[i][j]))
    && (Wrapped(lines[i]) ==> !rewritten && i + 1 < |lines| && End(lines[i + 1]) > 0)
    && (Joined(lines, i) && i >= g.rows && 0 < End(lines[i]) < (if rewritten then |lines[i]| - 1 else |lines[i]|) ==>
          Readable(lines[i][0].style).bg == Named(BACKGROUND))
  }

  predicate CursorSurvives(g: Geometry, t: Term)
    requires Valid(g, t)
  {
    Printable(t.pen) && (t.wrapNext ==> !IsSpacer(LastCell(g, t)))
  }

  ghost predicate Survives(g: Geometry, t: Term, maxHistory: nat)
    requires Valid(g, t)
  {
    && CursorSurvives(g, t) && Led(g, Lines(t, maxHistory))
    && forall i :: 0 <= i < |Lines(t, maxHistory)| ==>
         RowSurvives(g, Lines(t, maxHistory), i, Rewritten(g, t, maxHistory, i))
  }

  /** A terminal of the same size that reads the snapshot's text becomes `t` with the scrollback that was kept */
  predicate ComesBack(g: Geometry, t: Term, maxHistory: nat, any: Term)
    requires Valid(g, t) && Valid(g, any)
  {
    DoAll(g, any, Lex(OpsText(SnapshotOps(g, t, maxHistory)))) == Kept(t, maxHistory)
  }

  lemma ShownSame(cell: Cell, wrap: bool)
    ensures ShownCell(cell).(wrap := wrap) == cell <==> CellSurvives(cell) && cell.wrap == wrap
  {
    ReadableIsPrintable(cell.style);
  }

  lemma BlankSurvives()
    ensures CellSurvives(BLANK)
  {
    ReadableIsPrintable(DEFAULT);
    ReadableDefault();
  }

  /** A row of the image, with its last cell printed again when it is rewritten */
  function Back(g: Geometry, lines: seq<Row>, i: nat, rewritten: bool): Row
    requires g.cols >= 2 && i < |lines| && |lines[i]| == g.cols
  {
    var image := Image(g, lines, i);
    if rewritten then image[g.cols - 1 := ShownCell(lines[i][g.cols - 1])] else image
  }

  lemma BackSurvivesFill(g: Geometry, lines: seq<Row>, i: nat, rewritten: bool, j: nat)
    requires WholeRows(g, lines) && i < |lines| && RowSurvives(g, lines, i, rewritten)
    requires End(lines[i]) <= j < g.cols && !(rewritten && j == g.cols - 1)
    ensures lines[i][j] == BLANK && Fill(g, lines, i) == BLANK
  {
    assert !Wrapped(lines[i]);
  }

  lemma BackSurvivesCell(g: Geometry, lines: seq<Row>, i: nat, rewritten: bool, j: nat)
    requires WholeRows(g, lines) && i < |lines| && RowSurvives(g, lines, i, rewritten) && j < g.cols
    ensures Back(g, lines, i, rewritten)[j] == lines[i][j]
  {
    var row := lines[i];
    assert WholeCell(g, row, j) && CellSurvives(row[j]);
    ShownSame(row[j], row[j].wrap);
    if rewritten && j == g.cols - 1 {
      assert !row[j].wrap;
    } else if j < End(row) {
      assert Back(g, lines, i, rewritten)[j] == ShownCell(row[j]).(wrap := Image(g, lines, i)[j].wrap);
    } else {
      BackSurvivesFill(g, lines, i, rewritten, j);
    }
  }

  lemma BackSurvives(g: Geometry, lines: seq<Row>, i: nat, rewritten: bool)
    requires WholeRows(g, lines) && i < |lines| && RowSurvives(g, lines, i, rewritten)
    ensures Back(g, lines, i, rewritten) == lines[i]
  {
    forall j | 0 <= j < g.cols ensures Back(g, lines, i, rewritten)[j] == lines[i][j] {
      BackSurvivesCell(g, lines, i, rewritten, j);
    }
  }

  lemma BackSameCell(g: Geometry, lines: seq<Row>, i: nat, rewritten: bool, j: nat)
    requires WholeRows(g, lines) && i < |lines| && Back(g, lines, i, rewritten) == lines[i] && j < g.cols
    ensures CellSurvives(lines[i][j])
  {
    var row := lines[i];
    if j < End(row) {
      assert Back(g, lines, i, rewritten)[j] == ShownCell(row[j]).(wrap := row[j].wrap);
      ShownSame(row[j], row[j].wrap);
    } else {
      assert row[j] == BLANK;
      BlankSurvives();
    }
  }

  lemma BackSameWrap(g: Geometry, lines: seq<Row>, i: nat, rewritten: bool)
    requires WholeRows(g, lines) && i < |lines| && Back(g, lines, i, rewritten) == lines[i]
    ensures Wrapped(lines[i]) ==> !rewritten && i + 1 < |lines| && End(lines[i + 1]) > 0
  {
    assert Back(g, lines, i, rewritten)[g.cols - 1].wrap == lines[i][g.cols - 1].wrap;
  }

  lemma BackSameFill(g: Geometry, lines: seq<Row>, i: nat, rewritten: bool)
    requires WholeRows(g, lines) && i < |lines| && Back(g, lines, i, rewritten) == lines[i]
    requires Joined(lines, i) && i >= g.rows && 0 < End(lines[i]) < (if rewritten then g.cols - 1 else g.cols)
    ensures Readable(lines[i][0].style).bg == Named(BACKGROUND)
  {
    var j := End(lines[i]);
    assert lines[i][j] == BLANK;
    assert Back(g, lines, i, rewritten)[j].style == Fill(g, lines, i).style;
  }

  /** A row comes back as it was if and only if it survives */
  lemma RowSurvivesExactly(g: Geometry, lines: seq<Row>, i: nat, rewritten: bool)
    requires WholeRows(g, lines) && i < |lines|
    ensures Back(g, lines, i, rewritten) == lines[i] <==> RowSurvives(g, lines, i, rewritten)
  {
    if Back(g, lines, i, rewritten) == lines[i] {
      forall j | 0 <= j < g.cols ensures CellSurvives(lines[i][j]) { BackSameCell(g, lines, i, rewritten, j); }
      BackSameWrap(g, lines, i, rewritten);
      if Joined(lines, i) && i >= g.rows && 0 < End(lines[i]) < (if rewritten then g.cols - 1 else g.cols) {
        BackSameFill(g, lines, i, rewritten);
      }
    }
    if RowSurvives(g, lines, i, rewritten) { BackSurvives(g, lines, i, rewritten); }
  }

  lemma RowBackIs(g: Geometry, t: Term, maxHistory: nat, i: nat)
    requires Whole(g, t, maxHistory) && i < |Lines(t, maxHistory)|
    ensures Rectangular(g, Lines(t, maxHistory))
    ensures RowBack(g, t, maxHistory, i) == Back(g, Lines(t, maxHistory), i, Rewritten(g, t, maxHistory, i))
  {
    if Rewritten(g, t, maxHistory, i) {
      assert Lines(t, maxHistory)[i] == t.screen[t.line];
    }
  }

  lemma SplitRows(g: Geometry, t: Term, maxHistory: nat, rows: seq<Row>)
    requires Valid(g, t) && |rows| == |Lines(t, maxHistory)|
    ensures var h := |Kept(t, maxHistory).history|;
      && h <= |rows|
      && (rows == Lines(t, maxHistory) <==> rows[..h] == Kept(t, maxHistory).history && rows[h..] == t.screen)
  {
    var h := |Kept(t, maxHistory).history|;
    assert Lines(t, maxHistory) == Kept(t, maxHistory).history + t.screen;
    assert rows == rows[..h] + rows[h..];
  }

  lemma RowsSurviveExactly(g: Geometry, t: Term, maxHistory: nat)
    requires Whole(g, t, maxHistory)
    ensures Rectangular(g, Lines(t, maxHistory))
    ensures RowsBack(g, t, maxHistory) == Lines(t, maxHistory) <==>
      forall i :: 0 <= i < |Lines(t, maxHistory)| ==>
        RowSurvives(g, Lines(t, maxHistory), i, Rewritten(g, t, maxHistory, i))
  {
    var lines := Lines(t, maxHistory);
    forall i | 0 <= i < |lines|
      ensures RowsBack(g, t, maxHistory)[i] == lines[i] <==> RowSurvives(g, lines, i, Rewritten(g, t, maxHistory, i))
    {
      RowBackIs(g, t, maxHistory, i);
      RowSurvivesExactly(g, lines, i, Rewritten(g, t, maxHistory, i));
    }
  }

  lemma RestoredExactly(g: Geometry, t: Term, maxHistory: nat)
    requires Whole(g, t, maxHistory)
    ensures Rectangular(g, Lines(t, maxHistory))
    ensures Restored(g, t, maxHistory) == Kept(t, maxHistory) <==> Survives(g, t, maxHistory)
  {
    RowsSurviveExactly(g, t, maxHistory);
    SplitRows(g, t, maxHistory, RowsBack(g, t, maxHistory));
    ReadableIsPrintable(t.pen);
  }

  lemma WholeExactly(g: Geometry, t: Term, maxHistory: nat, any: Term)
    requires Whole(g, t, maxHistory) && Valid(g, any)
    ensures ComesBack(g, t, maxHistory, any) <==> Survives(g, t, maxHistory)
  {
    SnapshotTextRestores(g, t, maxHistory, any);
    RestoredExactly(g, t, maxHistory);
  }

  /** What comes back has every spacer at the edge led to its wide character, so a terminal that has not is not it */
  lemma UnledIsLost(g: Geometry, t: Term, maxHistory: nat, any: Term)
    requires CellsWhole(g, t, maxHistory) && Valid(g, any) && !Led(g, Lines(t, maxHistory))
    ensures !ComesBack(g, t, maxHistory, any)
  {
    SnapshotTextIs(g, t, maxHistory);
    SnapshotLeavesLed(g, t, maxHistory, any);
    assert Rows(Kept(t, maxHistory)) == Lines(t, maxHistory);
  }

  /** A terminal comes back from the text of its snapshot as it was, scrollback past the limit aside, if
      and only if every row and its cursor survive, and no spacer at the edge has lost its wide character */
  lemma SnapshotExactly(g: Geometry, t: Term, maxHistory: nat, any: Term)
    requires CellsWhole(g, t, maxHistory) && Valid(g, any)
    ensures ComesBack(g, t, maxHistory, any) <==> Survives(g, t, maxHistory)
  {
    if Led(g, Lines(t, maxHistory)) {
      WholeExactly(g, t, maxHistory, any);
    } else {
      UnledIsLost(g, t, maxHistory, any);
    }
  }

  lemma CursorPrintsSame(g: Geometry, t: Term, u: Term)
    requires Valid(g, t) && Valid(g, u) && u == t.(history := u.history)
    ensures CursorOps(g, u) == CursorOps(g, t)
  {
    RewritesSame(g, t, u);
    assert Where(g, u) == Where(g, t);
    SameParts(Where(g, t), RewriteOps(g, t), RewriteOps(g, u), Pen(Params(t.pen)));
  }

  lemma SameParts(go: Op, mid: seq<Op>, mid': seq<Op>, pen: Op)
    requires mid == mid'
    ensures [go] + mid + [pen] == [go] + mid' + [pen]
  {}

  lemma RewritesSame(g: Geometry, t: Term, u: Term)
    requires Valid(g, t) && Valid(g, u) && u == t.(history := u.history)
    ensures RewriteOps(g, u) == RewriteOps(g, t)
  {
    assert LastCell(g, u) == LastCell(g, t);
  }

  lemma KeptTwice(t: Term, maxHistory: nat)
    ensures Lines(Kept(t, maxHistory), maxHistory) == Lines(t, maxHistory)
  {}

  lemma KeptPrintsSame(g: Geometry, t: Term, maxHistory: nat)
    requires Valid(g, t)
    ensures Valid(g, Kept(t, maxHistory))
    ensures SnapshotOps(g, Kept(t, maxHistory), maxHistory) == SnapshotOps(g, t, maxHistory)
  {
    KeptTwice(t, maxHistory);
    CursorPrintsSame(g, t, Kept(t, maxHistory));
  }

  /** A snapshot of a terminal that came back prints the same text again */
  lemma {:induction false} SnapshotIsStable(g: Geometry, t: Term, maxHistory: nat, any: Term)
    requires CellsWhole(g, t, maxHistory) && Valid(g, any) && Survives(g, t, maxHistory)
    ensures var back := DoAll(g, any, Lex(OpsText(SnapshotOps(g, t, maxHistory))));
      OpsText(SnapshotOps(g, back, maxHistory)) == OpsText(SnapshotOps(g, t, maxHistory))
  {
    SnapshotExactly(g, t, maxHistory, any);
    KeptPrintsSame(g, t, maxHistory);
  }

  // ----- terminals that do not come back

  function Letter(wrap: bool): Cell { BLANK.(c := 'a', wrap := wrap) }

  const TAB := BLANK.(c := '\t')

  /** A terminal with the cursor at the top left */
  function Showing(history: seq<Row>, screen: seq<Row>): Term { Term(history, screen, 0, 0, false, DEFAULT) }

  ghost predicate Columns(g: Geometry, cols: nat, rows: nat) {
    g.cols == cols >= 2 && g.rows == rows >= 1 && g.width(' ') == 1 && g.width('a') == 1
  }

  predicate Plain(row: Row) {
    forall j :: 0 <= j < |row| ==>
      row[j].shape.Narrow? && row[j].marks == "" && row[j].c in {' ', 'a', '\t'} && (row[j].wrap ==> j == |row| - 1)
  }

  lemma PlainIsWhole(g: Geometry, t: Term, maxHistory: nat, lines: seq<Row>)
    requires ValidGeometry(g) && Valid(g, t) && g.width('a') == 1 && !t.wrapNext && lines == Lines(t, maxHistory)
    requires forall i :: 0 <= i < |lines| ==> |lines[i]| == g.cols && Plain(lines[i])
    ensures CellsWhole(g, t, maxHistory)
  {
    forall i, j | 0 <= i < |lines| && 0 <= j < g.cols ensures WholeCell(g, lines[i], j) { assert Plain(lines[i]); }
  }

  /** One row that does not survive is enough */
  lemma RowIsLost(g: Geometry, t: Term, maxHistory: nat, lines: seq<Row>, i: nat, any: Term)
    requires CellsWhole(g, t, maxHistory) && Valid(g, any) && !t.wrapNext && lines == Lines(t, maxHistory)
    requires i < |lines| && !RowSurvives(g, lines, i, false)
    ensures !ComesBack(g, t, maxHistory, any)
  {
    assert !Rewritten(g, t, maxHistory, i);
    SnapshotExactly(g, t, maxHistory, any);
  }

  lemma TabIsLost(g: Geometry, any: Term)
    requires Columns(g, 2, 1) && Valid(g, any)
    ensures var t := Showing([], [[TAB, BLANK]]); CellsWhole(g, t, 0) && !ComesBack(g, t, 0, any)
  {
    var t := Showing([], [[TAB, BLANK]]);
    PlainIsWhole(g, t, 0, t.screen);
    assert !CellSurvives(t.screen[0][0]);
    RowIsLost(g, t, 0, t.screen, 0, any);
  }

  lemma WrapBelowIsLost(g: Geometry, lines: seq<Row>, i: nat)
    requires i < |lines| && Wrapped(lines[i]) && (i + 1 < |lines| ==> End(lines[i + 1]) == 0)
    ensures !RowSurvives(g, lines, i, false)
  {}

  /** The last row wraps, so the wrap has no character below it to make the terminal wrap */
  lemma LastWrapIsLost(g: Geometry, any: Term)
    requires Columns(g, 2, 1) && Valid(g, any)
    ensures var t := Showing([], [[Letter(false), Letter(true)]]); CellsWhole(g, t, 0) && !ComesBack(g, t, 0, any)
  {
    var t := Showing([], [[Letter(false), Letter(true)]]);
    PlainIsWhole(g, t, 0, t.screen);
    WrapBelowIsLost(g, t.screen, 0);
    RowIsLost(g, t, 0, t.screen, 0, any);
  }

  lemma WrapAboveBlankIsLost(g: Geometry, any: Term)
    requires Columns(g, 2, 2) && Valid(g, any)
    ensures var t := Showing([], [[Letter(false), Letter(true)], [BLANK, BLANK]]);
      CellsWhole(g, t, 0) && !ComesBack(g, t, 0, any)
  {
    var t := Showing([], [[Letter(false), Letter(true)], [BLANK, BLANK]]);
    var blank := t.screen[1];
    PlainIsWhole(g, t, 0, t.screen);
    assert blank[0] == BLANK && blank[1] == BLANK && End(blank) == 0;
    WrapBelowIsLost(g, t.screen, 0);
    RowIsLost(g, t, 0, t.screen, 0, any);
  }

  lemma FillIsLost(g: Geometry, lines: seq<Row>, style: Style)
    requires g.rows == 1 && |lines| == 2 && Wrapped(lines[0]) && |lines[1]| == 2 && lines[1][1] == BLANK
    requires lines[1][0] == Letter(false).(style := style) && Readable(style).bg != Named(BACKGROUND)
    ensures !RowSurvives(g, lines, 1, false)
  {
    assert !Wrapped(lines[1]) && Used(lines[1]) == 1;
  }

  /** The row scrolled in while the pen had a background, which the snapshot spreads over its unused end */
  lemma ColoredWrapIsLost(g: Geometry, any: Term)
    requires Columns(g, 2, 1) && g.scrollback >= 1 && Valid(g, any)
    ensures var red := Letter(false).(style := DEFAULT.(bg := Named(1)));
      var t := Showing([[Letter(false), Letter(true)]], [[red, BLANK]]);
      CellsWhole(g, t, 1) && !ComesBack(g, t, 1, any)
  {
    var style := DEFAULT.(bg := Named(1));
    var above: Row, below: Row := [Letter(false), Letter(true)], [Letter(false).(style := style), BLANK];
    var t := Showing([above], [below]);
    var lines := [above, below];
    assert Lines(t, 1) == lines;
    PlainIsWhole(g, t, 1, lines);
    FillIsLost(g, lines, style);
    RowIsLost(g, t, 1, lines, 1, any);
  }

  /** The cursor waits behind a wide character that fills the row */
  function BehindWide(c: char): Term {
    Term([], [[Cell(c, "", DEFAULT, Wide, false), Cell(' ', "", DEFAULT, Spacer, false)]], 0, 1, true, DEFAULT)
  }

  /** The last cell is a wide character's spacer, so no cell is written again to make the wrap pending */
  lemma WrapBehindWideIsLost(g: Geometry, c: char, any: Term)
    requires Columns(g, 2, 1) && g.width(c) == 2 && Shows(c) && Valid(g, any)
    ensures CellsWhole(g, BehindWide(c), 0) && !ComesBack(g, BehindWide(c), 0, any)
  {
    var t := BehindWide(c);
    assert Lines(t, 0) == t.screen && IsSpacer(LastCell(g, t));
    SnapshotExactly(g, t, 0, any);
  }

  lemma UnledRows(g: Geometry, lines: seq<Row>, above: Row, below: Row)
    requires Columns(g, 3, 2) && lines == [above, below] && |above| == |below| == 3 && Plain(below)
    requires Plain(above[..2]) && !above[0].wrap && !above[1].wrap
    requires above[2] == Cell(' ', "", DEFAULT, LeadingSpacer, true)
    ensures WholeRows(g, lines) && !SpacersLead(g, lines)
  {
    forall j | 0 <= j < 3 ensures WholeCell(g, above, j) && WholeCell(g, below, j) {
      assert j < 2 ==> above[j] == above[..2][j];
    }
    assert lines[1][0].shape.Narrow? && lines[0][2].shape.LeadingSpacer?;
  }

  lemma UnledRowsAreLost(g: Geometry, t: Term, lines: seq<Row>, any: Term)
    requires ValidGeometry(g) && Valid(g, any) && Valid(g, t) && !t.wrapNext && lines == Lines(t, 0)
    requires WholeRows(g, lines) && !SpacersLead(g, lines)
    ensures CellsWhole(g, t, 0) && !ComesBack(g, t, 0, any)
  {
    SnapshotExactly(g, t, 0, any);
  }

  /** Two letters and a spacer whose wide character was erased from the row below, where two letters are now */
  function LostWide(): Term {
    Showing([], [[Letter(false), Letter(false), Cell(' ', "", DEFAULT, LeadingSpacer, true)],
                 [Letter(false), Letter(false), BLANK]])
  }

  lemma LostWideRows(g: Geometry, t: Term)
    requires Columns(g, 3, 2) && t == LostWide()
    ensures WholeRows(g, t.screen) && !SpacersLead(g, t.screen) && Lines(t, 0) == t.screen
  {
    var above, below := t.screen[0], t.screen[1];
    assert above[..2] == [Letter(false), Letter(false)];
    UnledRows(g, t.screen, above, below);
  }

  lemma LostWideIsLost(g: Geometry, any: Term)
    requires Columns(g, 3, 2) && Valid(g, any)
    ensures CellsWhole(g, LostWide(), 0) && !ComesBack(g, LostWide(), 0, any)
  {
    LostWideRows(g, LostWide());
    UnledRowsAreLost(g, LostWide(), LostWide().screen, any);
  }

  lemma LettersInked(g: Geometry, cells: Row, k: nat)
    requires g.cols == |cells| == 3 && k < 3
    ensures Inked(g, cells, k, Letter(false)) == cells[k := Letter(false)]
  {
    ReadableDefault();
  }

  lemma {:induction false} LostWideAbove(g: Geometry, lines: seq<Row>)
    requires Columns(g, 3, 2) && lines == LostWide().screen
    ensures SheetAt(g, lines, 1) == Sheet([], [Letter(false), Letter(false), BLANK], 2)
  {
    var blank := Filled(g, BLANK);
    var sheet0, sheet1 := Sheet([], blank, 0), Sheet([], blank[0 := Letter(false)], 1);
    var sheet2 := Sheet([], [Letter(false), Letter(false), BLANK], 2);
    LettersInked(g, blank, 0);
    LettersInked(g, sheet1.row, 1);
    assert Ink(g, sheet0, lines[0][0]) == sheet1 && Ink(g, sheet1, lines[0][1]) == sheet2;
    assert InkRow(g, sheet2, lines[0], 2, 3) == sheet2;
    assert InkRow(g, sheet1, lines[0], 1, 3) == sheet2;
  }

  lemma LostWideBelow(g: Geometry, lines: seq<Row>)
    requires Columns(g, 3, 2) && lines == LostWide().screen
    ensures Reflow(g, lines)
            == Sheet([[Letter(false), Letter(false), Letter(true)]], [Letter(false), BLANK, BLANK], 1)
  {
    var sheet0 := Sheet([], [Letter(false), Letter(false), BLANK], 2);
    var sheet1 := Sheet([], sheet0.row[2 := Letter(false)], 3);
    var above, below := [Letter(false), Letter(false), Letter(true)], [Letter(false), BLANK, BLANK];
    LostWideAbove(g, lines);
    LettersInked(g, sheet0.row, 2);
    LettersInked(g, Filled(g, BLANK), 0);
    assert lines[1][1] != BLANK && lines[1][2] == BLANK && End(lines[1]) == 2;
    assert Ink(g, sheet0, lines[1][0]) == sheet1;
    assert WrappedRow(g, sheet1.row, 3, Readable(DEFAULT)) == above;
    assert Filled(g, BLANK)[0 := Letter(false)] == below;
    assert Ink(g, sheet1, lines[1][1]) == Sheet([above], below, 1);
    assert InkRow(g, sheet1, lines[1], 1, 2) == Sheet([above], below, 1);
  }

  /** A screen with its cursor at the top left comes back as its sheet */
  lemma {:induction false} ScreenReplays(g: Geometry, screen: seq<Row>, any: Term, tape: seq<Row>)
    requires CellsWhole(g, Showing([], screen), 0) && Valid(g, any) && |tape| == g.rows
    requires Reflow(g, screen).rows + [Reflow(g, screen).row] == tape
    ensures DoAll(g, any, Lex(OpsText(SnapshotOps(g, Showing([], screen), 0)))) == Showing([], tape)
  {
    var t := Showing([], screen);
    assert Lines(t, 0) == screen;
    SnapshotTextReplays(g, t, 0, any);
    PaperRows(g, Reflow(g, screen), tape, Paper(g, Reflow(g, screen), DEFAULT));
    ReadableDefault();
  }

  /** The first letter of the row below moves up to where the spacer was, and the second one to the front */
  lemma {:induction false} LostWideMovesUp(g: Geometry, any: Term)
    requires Columns(g, 3, 2) && Valid(g, any)
    ensures Valid(g, LostWide())
    ensures DoAll(g, any, Lex(OpsText(SnapshotOps(g, LostWide(), 0))))
            == Showing([], [[Letter(false), Letter(false), Letter(true)], [Letter(false), BLANK, BLANK]])
  {
    LostWideIsLost(g, any);
    LostWideBelow(g, LostWide().screen);
    ScreenReplays(g, LostWide().screen, any,
      [[Letter(false), Letter(false), Letter(true)], [Letter(false), BLANK, BLANK]]);
  }
}
