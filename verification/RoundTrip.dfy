/** The whole snapshot of a primary screen, grid and cursor: what a terminal that reads it ends up with,
    and exactly which terminals come back as they were. */
module RoundTrip {
  import opened Sgr
  import opened Screen
  import opened Snapshot
  import opened Replay
  import opened Alignment

  /** Positions the cursor and sets its pen; a pending wrap is made again by rewriting the last cell */
  function CursorOps(g: Geometry, t: Term): seq<Op>
    requires Valid(g, t)
  {
    [Where(g, t)] + RewriteOps(g, t) + [Pen(Params(t.pen))]
  }

  function Where(g: Geometry, t: Term): Op {
    Goto(t.line + 1, if t.wrapNext then g.cols else t.col + 1)
  }

  function RewriteOps(g: Geometry, t: Term): seq<Op>
    requires Valid(g, t)
  {
    if t.wrapNext && !IsSpacer(LastCell(g, t)) then CellOps(DEFAULT, LastCell(g, t)) else []
  }

  function LastCell(g: Geometry, t: Term): Cell
    requires Valid(g, t)
  {
    t.screen[t.line][g.cols - 1]
  }

  function SnapshotOps(g: Geometry, t: Term, maxHistory: nat): seq<Op>
    requires Valid(g, t)
  {
    [Ris] + LinesOps(Lines(t, maxHistory), 0, DEFAULT) + CursorOps(g, t)
  }

  /** Whole rows, and a pending wrap only at the edge */
  ghost predicate CellsWhole(g: Geometry, t: Term, maxHistory: nat) {
    && ValidGeometry(g) && Valid(g, t) && WholeRows(g, Lines(t, maxHistory))
    && (t.wrapNext ==> t.col == g.cols - 1)
  }

  /** A terminal that printing can leave behind */
  ghost predicate Whole(g: Geometry, t: Term, maxHistory: nat) {
    CellsWhole(g, t, maxHistory) && SpacersLead(g, Lines(t, maxHistory))
  }

  /** The terminal itself, with the scrollback that is kept */
  function Kept(t: Term, maxHistory: nat): Term {
    t.(history := if |t.history| > maxHistory then t.history[|t.history| - maxHistory..] else t.history)
  }

  function RewrittenScreen(g: Geometry, t: Term, screen: seq<Row>): seq<Row>
    requires Valid(g, t) && |screen| == g.rows && forall i :: 0 <= i < |screen| ==> |screen[i]| == g.cols
  {
    if t.wrapNext && !IsSpacer(LastCell(g, t))
    then screen[t.line := screen[t.line][g.cols - 1 := ShownCell(LastCell(g, t))]]
    else screen
  }

  /** The row whose last cell is rewritten to make a pending wrap again */
  predicate Rewritten(g: Geometry, t: Term, maxHistory: nat, i: nat)
    requires Valid(g, t)
  {
    t.wrapNext && !IsSpacer(LastCell(g, t)) && i == |Kept(t, maxHistory).history| + t.line
  }

  predicate Rectangular(g: Geometry, lines: seq<Row>) { forall i :: 0 <= i < |lines| ==> |lines[i]| == g.cols }

  function RowBack(g: Geometry, t: Term, maxHistory: nat, i: nat): Row
    requires Valid(g, t) && Rectangular(g, Lines(t, maxHistory)) && i < |Lines(t, maxHistory)|
  {
    var image := Image(g, Lines(t, maxHistory), i);
    if Rewritten(g, t, maxHistory, i) then image[g.cols - 1 := ShownCell(LastCell(g, t))] else image
  }

  function RowsBack(g: Geometry, t: Term, maxHistory: nat): (rows: seq<Row>)
    requires Valid(g, t) && Rectangular(g, Lines(t, maxHistory))
    ensures |rows| == |Lines(t, maxHistory)| == |Kept(t, maxHistory).history| + g.rows
    ensures forall i :: 0 <= i < |rows| ==> rows[i] == RowBack(g, t, maxHistory, i)
  {
    seq(|Lines(t, maxHistory)|, i requires 0 <= i < |Lines(t, maxHistory)| => RowBack(g, t, maxHistory, i))
  }

  /** What the cursor's operations make of a terminal: the last cell written again when the wrap is pending, the cursor
      where it was, and its pen */
  function AtCursor(g: Geometry, t: Term, u: Term): Term
    requires Valid(g, t) && Valid(g, u)
  {
    u.(screen := RewrittenScreen(g, t, u.screen), line := t.line, col := t.col,
       wrapNext := t.wrapNext && !IsSpacer(LastCell(g, t)), pen := Readable(t.pen))
  }

  /** What the snapshot of `t` brings back, row by row, when its spacers at the edge have their wide characters */
  function Restored(g: Geometry, t: Term, maxHistory: nat): Term
    requires Valid(g, t) && Rectangular(g, Lines(t, maxHistory))
  {
    var rows, h := RowsBack(g, t, maxHistory), |Kept(t, maxHistory).history|;
    Term(rows[..h], rows[h..], t.line, t.col, t.wrapNext && !IsSpacer(LastCell(g, t)), Readable(t.pen))
  }

  // ----- operations on the cursor's row, anywhere on the screen

  lemma {:induction false} FocusRun(g: Geometry, t: Term, ops: seq<Op>, s: Strip)
    requires Valid(g, t) && StripRun(g, Focus(g, t), ops, s)
    ensures ValidStrip(g, s) && DoAll(g, t, ops) == Refocus(g, t, s)
    decreases |ops|
  {
    if ops == [] {
      assert t.screen[t.line := t.screen[t.line]] == t.screen;
    } else {
      var s1 := StripDo(g, Focus(g, t), ops[0]);
      var t1 := Refocus(g, t, s1);
      FocusDo(g, t, ops[0]);
      FocusRun(g, t1, ops[1..], s);
      assert t1.screen[t.line := s.cells] == t.screen[t.line := s.cells];
    }
  }

  lemma FocusDo(g: Geometry, t: Term, op: Op)
    requires Valid(g, t) && Stays(g, Focus(g, t), op)
    ensures Do(g, t, op) == Refocus(g, t, StripDo(g, Focus(g, t), op))
    ensures Focus(g, Do(g, t, op)) == StripDo(g, Focus(g, t), op)
  {
    if op.Pen? { assert t.screen[t.line := t.screen[t.line]] == t.screen; }
  }

  lemma LastCellRun(g: Geometry, cells: Row, cell: Cell)
    requires g.cols >= 2 && |cells| == g.cols && Inkable(g, cell) && !cell.shape.Wide?
    ensures StripRun(g, At(g, cells, g.cols - 1, DEFAULT), CellOps(DEFAULT, cell),
                     At(g, cells[g.cols - 1 := ShownCell(cell)], g.cols, Readable(cell.style)))
  {
    ReadableDefault();
    CellRun(g, cells, g.cols - 1, DEFAULT, cell);
  }

  // ----- the cursor

  /** The cursor moves, something is printed there, and the pen is set */
  lemma {:induction false} GoPrintPen(g: Geometry, u: Term, go: Op, u1: Term, mid: seq<Op>, u2: Term,
                                      params: seq<Param>, pen: Style)
    requires Valid(g, u) && Valid(g, u1) && Do(g, u, go) == u1 && DoAll(g, u1, mid) == u2 && Read(params, u2.pen) == pen
    ensures DoAll(g, u, [go] + mid + [Pen(params)]) == u2.(pen := pen)
  {
    assert [go] + mid + [Pen(params)] == [go] + (mid + [Pen(params)]);
    DoAllCons(g, u, go, mid + [Pen(params)]);
    DoAllAppend(g, u1, mid, [Pen(params)]);
    DoAllCons(g, u2, Pen(params), []);
    assert [Pen(params)] + [] == [Pen(params)];
  }

  lemma {:induction false} PenRead(style: Style, pen: Style, params: seq<Param>)
    requires params == Params(style)
    ensures Read(params, pen) == Readable(style)
  {
    ReadParams(style, pen);
  }

  lemma {:induction false} RewriteLast(g: Geometry, t: Term, u: Term)
    requires Valid(g, t) && Valid(g, u) && u.pen == DEFAULT && u.line == t.line && u.col == g.cols - 1 && !u.wrapNext
    requires WholeCell(g, t.screen[t.line], g.cols - 1) && !IsSpacer(LastCell(g, t))
    ensures var screen' := u.screen[t.line := u.screen[t.line][g.cols - 1 := ShownCell(LastCell(g, t))]];
      DoAll(g, u, CellOps(DEFAULT, LastCell(g, t))) ==
      u.(screen := screen', wrapNext := true, pen := Readable(LastCell(g, t).style))
  {
    var cell := LastCell(g, t);
    assert Focus(g, u) == At(g, u.screen[t.line], g.cols - 1, DEFAULT);
    LastCellRun(g, u.screen[t.line], cell);
    FocusRun(g, u, CellOps(DEFAULT, cell),
      At(g, u.screen[t.line][g.cols - 1 := ShownCell(cell)], g.cols, Readable(cell.style)));
  }

  lemma {:induction false} RewriteRun(g: Geometry, t: Term, u: Term)
    requires Valid(g, t) && Valid(g, u) && u.pen == DEFAULT && u.line == t.line && !u.wrapNext
    requires t.wrapNext ==> u.col == t.col == g.cols - 1
    requires WholeCell(g, t.screen[t.line], g.cols - 1)
    ensures var u' := DoAll(g, u, RewriteOps(g, t));
      u' == u.(screen := RewrittenScreen(g, t, u.screen),
               wrapNext := t.wrapNext && !IsSpacer(LastCell(g, t)), pen := u'.pen)
  {
    if t.wrapNext && !IsSpacer(LastCell(g, t)) { RewriteLast(g, t, u); }
  }

  lemma BuiltFull(g: Geometry, tape: seq<Row>, col: nat, wrapNext: bool, pen: Style)
    requires g.rows >= 1 && |tape| >= g.rows
    ensures Built(g, tape, col, wrapNext, pen)
            == Term(tape[..|tape| - g.rows], tape[|tape| - g.rows..], g.rows - 1, col, wrapNext, pen)
  {
    if |tape| == g.rows {
      assert tape + BlankRows(g, 0) == tape == tape[0..] && tape[..0] == [];
    }
  }

  lemma LinesFit(g: Geometry, t: Term, maxHistory: nat)
    requires CellsWhole(g, t, maxHistory)
    ensures var lines := Lines(t, maxHistory);
      && Gridded(g, lines) && |lines| >= g.rows && lines[|lines| - g.rows..] == t.screen
      && lines[..|lines| - g.rows] == Kept(t, maxHistory).history
      && WholeCell(g, t.screen[t.line], g.cols - 1)
  {
    var lines := Lines(t, maxHistory);
    var i := |lines| - g.rows + t.line;
    assert lines[i] == t.screen[t.line];
    assert WholeCell(g, lines[i], g.cols - 1);
  }

  lemma GoTo(g: Geometry, t: Term, u: Term)
    requires Valid(g, t) && Valid(g, u) && (t.wrapNext ==> t.col == g.cols - 1)
    ensures Do(g, u, Where(g, t)) == u.(line := t.line, col := t.col, wrapNext := false)
  {}

  lemma {:induction false} CursorRun(g: Geometry, t: Term, u: Term, maxHistory: nat)
    requires CellsWhole(g, t, maxHistory) && Valid(g, u) && u.pen == DEFAULT
    ensures DoAll(g, u, CursorOps(g, t)) == AtCursor(g, t, u)
  {
    var u1 := u.(line := t.line, col := t.col, wrapNext := false);
    var u2 := DoAll(g, u1, RewriteOps(g, t));
    LinesFit(g, t, maxHistory);
    GoTo(g, t, u);
    RewriteRun(g, t, u1);
    PenRead(t.pen, u2.pen, Params(t.pen));
    GoPrintPen(g, u, Where(g, t), u1, RewriteOps(g, t), u2, Params(t.pen), Readable(t.pen));
  }

  /** The rows of a sheet that is as long as the terminal or longer */
  lemma PaperRows(g: Geometry, sh: Sheet, rows: seq<Row>, u: Term)
    requires ValidSheet(g, sh) && sh.rows + [sh.row] == rows && |rows| >= g.rows >= 1 && u == Paper(g, sh, DEFAULT)
    ensures u.history == rows[..|rows| - g.rows] && u.screen == rows[|rows| - g.rows..]
  {
    var s := At(g, sh.row, sh.k, DEFAULT);
    BuiltFull(g, rows, s.col, s.wrapNext, DEFAULT);
  }

  lemma HistoryBack(g: Geometry, t: Term, maxHistory: nat)
    requires Whole(g, t, maxHistory)
    ensures Rectangular(g, Lines(t, maxHistory))
    ensures var lines, h := Lines(t, maxHistory), |Kept(t, maxHistory).history|;
      h <= |lines| && RowsBack(g, t, maxHistory)[..h] == Images(g, lines, |lines|)[..h]
  {
    var lines, h := Lines(t, maxHistory), |Kept(t, maxHistory).history|;
    var back, images := RowsBack(g, t, maxHistory)[..h], Images(g, lines, |lines|)[..h];
    forall i | 0 <= i < h ensures back[i] == images[i] { assert back[i] == RowBack(g, t, maxHistory, i); }
  }

  lemma ScreenBack(g: Geometry, t: Term, maxHistory: nat, screen: seq<Row>)
    requires Whole(g, t, maxHistory) && |screen| == g.rows && Rectangular(g, screen)
    requires var lines, h := Lines(t, maxHistory), |Kept(t, maxHistory).history|;
      h + g.rows == |lines| && screen == Images(g, lines, |lines|)[h..]
    ensures Rectangular(g, Lines(t, maxHistory))
    ensures RewrittenScreen(g, t, screen) == RowsBack(g, t, maxHistory)[|Kept(t, maxHistory).history|..]
  {
    var lines, h := Lines(t, maxHistory), |Kept(t, maxHistory).history|;
    var back, rows := RewrittenScreen(g, t, screen), RowsBack(g, t, maxHistory)[h..];
    assert |rows| == g.rows;
    forall k | 0 <= k < g.rows ensures back[k] == rows[k] {
      assert rows[k] == RowBack(g, t, maxHistory, h + k);
      assert screen[k] == Image(g, lines, h + k);
    }
  }

  lemma RestoredIs(g: Geometry, t: Term, maxHistory: nat, u: Term)
    requires Whole(g, t, maxHistory) && Valid(g, u)
    requires var rows, h := Images(g, Lines(t, maxHistory), |Lines(t, maxHistory)|), |Kept(t, maxHistory).history|;
      |rows| == h + g.rows && u.history == rows[..h] && u.screen == rows[h..]
    ensures Rectangular(g, Lines(t, maxHistory))
    ensures var rows, h := RowsBack(g, t, maxHistory), |Kept(t, maxHistory).history|;
      u.history == rows[..h] && RewrittenScreen(g, t, u.screen) == rows[h..]
  {
    HistoryBack(g, t, maxHistory);
    ScreenBack(g, t, maxHistory, u.screen);
  }

  lemma {:induction false} ThreeParts(g: Geometry, any: Term, ops: seq<Op>, cursor: seq<Op>)
    requires Valid(g, any)
    ensures DoAll(g, any, [Ris] + ops + cursor) == DoAll(g, DoAll(g, Fresh(g), ops), cursor)
  {
    DoAllAppend(g, any, [Ris] + ops, cursor);
    DoAllCons(g, any, Ris, ops);
  }

  /** Replaying a snapshot on any terminal of the same size writes its grid out again and puts the cursor back */
  lemma {:induction false} SnapshotReplays(g: Geometry, t: Term, maxHistory: nat, any: Term)
    requires CellsWhole(g, t, maxHistory) && Valid(g, any)
    ensures var u := Paper(g, Reflow(g, Lines(t, maxHistory)), DEFAULT);
      Valid(g, u) && DoAll(g, any, SnapshotOps(g, t, maxHistory)) == AtCursor(g, t, u)
  {
    var lines := Lines(t, maxHistory);
    LinesFit(g, t, maxHistory);
    GridReplays(g, lines);
    ThreeParts(g, any, LinesOps(lines, 0, DEFAULT), CursorOps(g, t));
    CursorRun(g, t, Paper(g, Reflow(g, lines), DEFAULT), maxHistory);
  }

  lemma AlignedRows(g: Geometry, lines: seq<Row>, u: Term)
    requires WholeLines(g, lines) && Gridded(g, lines) && |lines| >= g.rows && u == Paper(g, Reflow(g, lines), DEFAULT)
    ensures var rows, h := Images(g, lines, |lines|), |lines| - g.rows; u.history == rows[..h] && u.screen == rows[h..]
  {
    ReflowAligned(g, lines);
    PaperRows(g, Reflow(g, lines), Images(g, lines, |lines|), u);
  }

  /** When no spacer at the edge has lost its wide character this is the restored terminal */
  lemma WholeIsRestored(g: Geometry, t: Term, maxHistory: nat, u: Term)
    requires Whole(g, t, maxHistory) && u == Paper(g, Reflow(g, Lines(t, maxHistory)), DEFAULT) && Valid(g, u)
    ensures Rectangular(g, Lines(t, maxHistory)) && AtCursor(g, t, u) == Restored(g, t, maxHistory)
  {
    LinesFit(g, t, maxHistory);
    AlignedRows(g, Lines(t, maxHistory), u);
    RestoredIs(g, t, maxHistory, u);
  }

  lemma {:induction false} SnapshotRestores(g: Geometry, t: Term, maxHistory: nat, any: Term)
    requires Whole(g, t, maxHistory) && Valid(g, any)
    ensures Rectangular(g, Lines(t, maxHistory))
    ensures DoAll(g, any, SnapshotOps(g, t, maxHistory)) == Restored(g, t, maxHistory)
  {
    SnapshotReplays(g, t, maxHistory, any);
    WholeIsRestored(g, t, maxHistory, Paper(g, Reflow(g, Lines(t, maxHistory)), DEFAULT));
  }

  // ----- as text

  predicate NoneEmpty(ps: seq<Param>) { forall i :: 0 <= i < |ps| ==> ps[i] != [] }

  lemma {:induction false} FlagParamsOk(order: seq<Flag>, flags: set<Flag>)
    ensures NoneEmpty(FlagParams(order, flags))
  {
    if order != [] { FlagParamsOk(order[1..], flags); }
  }

  lemma ColorParamsOk(c: Color, base: nat, bright: nat, extended: nat)
    ensures NoneEmpty(ColorParams(c, base, bright, extended))
  {}

  lemma ParamsOkAppend(a: seq<Param>, b: seq<Param>)
    requires NoneEmpty(a) && NoneEmpty(b)
    ensures NoneEmpty(a + b)
  {}

  lemma ColorsParamsOk(s: Style)
    ensures NoneEmpty(ColorsParams(s))
  {
    var fg, bg := ColorParams(s.fg, 30, 90, 38), ColorParams(s.bg, 40, 100, 48);
    ColorParamsOk(s.fg, 30, 90, 38);
    ColorParamsOk(s.bg, 40, 100, 48);
    ParamsOkAppend(fg, bg);
    if s.underline.Some? {
      ColorParamsOk(s.underline.value, 58, 58, 58);
      ParamsOkAppend(fg + bg, ColorParams(s.underline.value, 58, 58, 58));
    }
  }

  lemma PenPrinting(s: Style)
    ensures ValidOp(Pen(Params(s)))
  {
    FlagParamsOk(ORDER, s.flags);
    ColorsParamsOk(s);
    ParamsOkAppend([[0]] + FlagParams(ORDER, s.flags), ColorsParams(s));
  }

  lemma {:induction false} PrintingAppend(a: seq<Op>, b: seq<Op>)
    requires Printing(a) && Printing(b)
    ensures Printing(a + b)
  {
    if a == [] {
      assert a + b == b;
    } else {
      assert (a + b)[1..] == a[1..] + b;
      PrintingAppend(a[1..], b);
    }
  }

  lemma {:induction false} MarksPrinting(marks: string)
    requires forall m :: m in marks ==> Shows(m)
    ensures Printing(MarkOps(marks))
  {
    if marks != "" {
      assert marks[0] in marks && MarkOps(marks)[1..] == MarkOps(marks[1..]);
      MarksPrinting(marks[1..]);
    }
  }

  lemma OnePrinting(op: Op)
    requires ValidOp(op)
    ensures Printing([op])
  {
    assert [op][1..] == [];
  }

  lemma CellPrinting(pen: Style, cell: Cell)
    requires (cell.c == '\t' || Shows(cell.c)) && forall m :: m in cell.marks ==> Shows(m)
    ensures Printing(CellOps(pen, cell))
  {
    var shown := Print(Visible(cell.c));
    PenPrinting(cell.style);
    OnePrinting(Pen(Params(cell.style)));
    OnePrinting(shown);
    MarksPrinting(cell.marks);
    PrintingAppend(PenOps(pen, cell.style), [shown]);
    PrintingAppend(PenOps(pen, cell.style) + [shown], MarkOps(cell.marks));
  }

  lemma {:induction false} RowPrinting(g: Geometry, pen: Style, row: Row, from: nat, end: nat)
    requires end <= |row| && forall j :: 0 <= j < |row| ==> WholeCell(g, row, j)
    ensures Printing(RowOps(pen, row, from, end))
    decreases |row| - from
  {
    if from < end {
      assert WholeCell(g, row, from);
      if IsSpacer(row[from]) {
        RowPrinting(g, pen, row, from + 1, end);
      } else {
        CellPrinting(pen, row[from]);
        RowPrinting(g, row[from].style, row, from + 1, end);
        PrintingAppend(CellOps(pen, row[from]), RowOps(row[from].style, row, from + 1, end));
      }
    }
  }

  lemma BreakPrinting(lines: seq<Row>, i: nat, pen: Style)
    requires i < |lines|
    ensures Printing(BeforeOps(lines, i, pen))
  {
    OnePrinting(Return);
    OnePrinting(Feed);
    OnePrinting(Pen([[0]]));
    PrintingAppend([Return], [Feed]);
    PrintingAppend(RESET, NEW_LINE);
    assert [] + NEW_LINE == NEW_LINE == [Return] + [Feed];
  }

  lemma {:induction false} LinePrinting(g: Geometry, lines: seq<Row>, i: nat, pen: Style, row: Row, end: nat)
    requires WholeRows(g, lines) && i < |lines| && row == lines[i] && end <= |row|
    ensures Printing(BeforeOps(lines, i, pen) + RowOps(PenBefore(lines, i, pen), row, 0, end))
  {
    assert forall j :: 0 <= j < |row| ==> WholeCell(g, row, j);
    BreakPrinting(lines, i, pen);
    RowPrinting(g, PenBefore(lines, i, pen), row, 0, end);
    PrintingAppend(BeforeOps(lines, i, pen), RowOps(PenBefore(lines, i, pen), row, 0, end));
  }

  lemma LinesOpsStep(lines: seq<Row>, i: nat, pen: Style)
    requires i < |lines|
    ensures var pen1 := PenBefore(lines, i, pen);
      LinesOps(lines, i, pen) == BeforeOps(lines, i, pen) + RowOps(pen1, lines[i], 0, End(lines[i]))
                                 + LinesOps(lines, i + 1, RowPen(pen1, lines[i], 0, End(lines[i])))
  {}

  lemma {:induction false} LinesPrinting(g: Geometry, lines: seq<Row>, i: nat, pen: Style)
    requires WholeRows(g, lines) && i <= |lines|
    ensures Printing(LinesOps(lines, i, pen))
    decreases |lines| - i
  {
    if i == |lines| {
      OnePrinting(Pen([[0]]));
    } else {
      var pen1 := PenBefore(lines, i, pen);
      var pen2 := RowPen(pen1, lines[i], 0, End(lines[i]));
      LinePrinting(g, lines, i, pen, lines[i], End(lines[i]));
      LinesPrinting(g, lines, i + 1, pen2);
      LinesOpsStep(lines, i, pen);
      PrintingAppend(BeforeOps(lines, i, pen) + RowOps(pen1, lines[i], 0, End(lines[i])), LinesOps(lines, i + 1, pen2));
    }
  }

  lemma RewritePrinting(g: Geometry, t: Term, maxHistory: nat)
    requires CellsWhole(g, t, maxHistory)
    ensures Printing(RewriteOps(g, t))
  {
    LinesFit(g, t, maxHistory);
    CellPrinting(DEFAULT, LastCell(g, t));
  }

  lemma CursorPrinting(g: Geometry, t: Term, maxHistory: nat)
    requires CellsWhole(g, t, maxHistory)
    ensures Printing(CursorOps(g, t))
  {
    var go, pen := Where(g, t), Pen(Params(t.pen));
    RewritePrinting(g, t, maxHistory);
    PenPrinting(t.pen);
    OnePrinting(go);
    OnePrinting(pen);
    PrintingAppend([go], RewriteOps(g, t));
    PrintingAppend([go] + RewriteOps(g, t), [pen]);
  }

  lemma SnapshotPrinting(g: Geometry, t: Term, maxHistory: nat)
    requires CellsWhole(g, t, maxHistory)
    ensures Printing(SnapshotOps(g, t, maxHistory))
  {
    var ops := LinesOps(Lines(t, maxHistory), 0, DEFAULT);
    LinesPrinting(g, Lines(t, maxHistory), 0, DEFAULT);
    CursorPrinting(g, t, maxHistory);
    OnePrinting(Ris);
    PrintingAppend([Ris], ops);
    PrintingAppend([Ris] + ops, CursorOps(g, t));
  }

  lemma SnapshotTextIs(g: Geometry, t: Term, maxHistory: nat)
    requires CellsWhole(g, t, maxHistory)
    ensures Lex(OpsText(SnapshotOps(g, t, maxHistory))) == SnapshotOps(g, t, maxHistory)
  {
    SnapshotPrinting(g, t, maxHistory);
    LexUndoesPrinting(SnapshotOps(g, t, maxHistory));
  }

  /** The text of a snapshot, read by any terminal of the same size, writes its grid out again and puts the cursor
      back */
  lemma {:induction false} SnapshotTextReplays(g: Geometry, t: Term, maxHistory: nat, any: Term)
    requires CellsWhole(g, t, maxHistory) && Valid(g, any)
    ensures var u := Paper(g, Reflow(g, Lines(t, maxHistory)), DEFAULT);
      Valid(g, u) && DoAll(g, any, Lex(OpsText(SnapshotOps(g, t, maxHistory)))) == AtCursor(g, t, u)
  {
    SnapshotTextIs(g, t, maxHistory);
    SnapshotReplays(g, t, maxHistory, any);
  }

  /** It gives the restored terminal when no spacer at the edge has lost its wide character */
  lemma {:induction false} SnapshotTextRestores(g: Geometry, t: Term, maxHistory: nat, any: Term)
    requires Whole(g, t, maxHistory) && Valid(g, any)
    ensures Rectangular(g, Lines(t, maxHistory))
    ensures DoAll(g, any, Lex(OpsText(SnapshotOps(g, t, maxHistory)))) == Restored(g, t, maxHistory)
  {
    SnapshotTextIs(g, t, maxHistory);
    SnapshotRestores(g, t, maxHistory, any);
  }
}
